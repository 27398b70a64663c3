/** What a listing says to whoever splits it into lines and the lines into words. */
module Readings {
  import opened Numerals
  import opened Protocol
  import opened ServerSession
  import opened Responses
  import ClientCommands

  /** What one word of a line says: itself, or a number in decimal digits. */
  datatype Cell = Text(text: string) | Num(value: nat)

  predicate Says(word: string, c: Cell) {
    match c
    case Text(text) => word == text
    case Num(value) => word != "" && AllDigits(word) && Value(word) == value
  }

  predicate SaysAll(words: seq<string>, cells: seq<Cell>) {
    |words| == |cells| && forall i :: 0 <= i < |cells| ==> Says(words[i], cells[i])
  }

  /** The lines of the text, without the last one, say word by word what the table says. */
  ghost predicate Reads(text: string, table: seq<seq<Cell>>) {
    exists lines: seq<string> ::
      && |lines| == |table| && (forall i :: 0 <= i < |lines| ==> OneLine(lines[i]))
      && text == Unlines(lines + ["END"])
      && forall i :: 0 <= i < |lines| ==> SaysAll(Tokens(lines[i]), table[i])
  }

  /** The words of a text that may have several, or none. */
  function Texts(s: string): seq<Cell> { seq(|Tokens(s)|, i requires 0 <= i < |Tokens(s)| => Text(Tokens(s)[i])) }

  lemma ListingReads(lines: seq<string>, table: seq<seq<Cell>>)
    requires |lines| == |table| && forall i :: 0 <= i < |lines| ==> OneLine(lines[i])
    requires forall i :: 0 <= i < |lines| ==> SaysAll(Tokens(lines[i]), table[i])
    ensures Reads(ListingText(lines), table)
  {
    hide SaysAll, Tokens, Unlines, OneLine;
  }

  lemma Saying(words: seq<string>, cells: seq<Cell>, more: seq<string>, others: seq<Cell>)
    requires SaysAll(words, cells) && SaysAll(more, others)
    ensures SaysAll(words + more, cells + others)
  {
    hide Says;
  }

  /** A line continued by a blank and a text. */
  lemma TextsFollow(line: string, cells: seq<Cell>, s: string)
    requires SaysAll(Tokens(line), cells)
    ensures SaysAll(Tokens(line + " " + s), cells + Texts(s))
  {
    hide Tokens;
    TokensAcross(line, s);
    Saying(Tokens(line), cells, Tokens(s), Texts(s));
  }

  lemma WordFollows(line: string, cells: seq<Cell>, word: string)
    requires SaysAll(Tokens(line), cells) && Word(word)
    ensures SaysAll(Tokens(line + " " + word), cells + [Text(word)])
  {
    hide Tokens, Word;
    TextsFollow(line, cells, word);
    ClientCommands.WordIsOneToken(word);
    assert Texts(word) == [Text(word)];
  }

  lemma NumeralFollows(line: string, cells: seq<Cell>, n: nat)
    requires SaysAll(Tokens(line), cells)
    ensures SaysAll(Tokens(line + " " + Numeral(n)), cells + [Num(n)])
  {
    hide Tokens, Word;
    var word := Numeral(n);
    ClientCommands.NumeralsAreWords(n);
    ClientCommands.WordIsOneToken(word);
    NumeralReadsBack(n);
    TokensAcross(line, word);
    Saying(Tokens(line), cells, [word], [Num(n)]);
  }

  lemma WordStarts(word: string)
    requires Word(word)
    ensures SaysAll(Tokens(word), [Text(word)])
  {
    hide Tokens, Word;
    ClientCommands.WordIsOneToken(word);
  }

  lemma TwoWordsStart(first: string, second: string)
    requires Word(first) && Word(second)
    ensures SaysAll(Tokens(first + " " + second), [Text(first), Text(second)])
  {
    hide Tokens, Word;
    WordStarts(first);
    WordFollows(first, [Text(first)], second);
  }
}
