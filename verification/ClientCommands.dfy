/** The command lines the client library prints, and what the daemon makes of them. */
module ClientCommands {
  import opened Common
  import opened Scheduler
  import opened Numerals
  import opened Protocol
  import Admission

  // ---------------------------------------------------------------- printers

  function AcquireLine(name: string, bytes: Bytes, options: Admission.AcquireOptions): string {
    "acquire " + name + " " + Numeral(bytes) + " " + SignedNumeral(options.priority) +
    if options.timeout == NO_TIMEOUT then ""
    else " " + SignedNumeral(options.timeout) + if options.cost == 0 then "" else " " + SignedNumeral(options.cost)
  }

  function TryAcquireLine(name: string, bytes: Bytes): string {
    "try_acquire " + name + " " + Numeral(bytes)
  }

  /** release, load, unload and share differ in the verb only. */
  function NameLine(verb: string, name: string): string { verb + " " + name }

  // ------------------------------------------------------------ words of a line

  function Joined(words: seq<string>): string {
    if words == [] then "" else if |words| == 1 then words[0] else words[0] + " " + Joined(words[1..])
  }

  /** The tokens of several texts, one after another. */
  function AllTokens(texts: seq<string>): seq<string> {
    if texts == [] then [] else Tokens(texts[0]) + AllTokens(texts[1..])
  }

  lemma {:induction false} JoinedTokens(texts: seq<string>)
    ensures Tokens(Joined(texts)) == AllTokens(texts)
  {
    hide Tokens;
    if texts == [] {
      TokensOfBlank("");
    } else if |texts| == 1 {
      assert AllTokens(texts[1..]) == [];
    } else {
      JoinedTokens(texts[1..]);
      TokensAcross(texts[0], Joined(texts[1..]));
    }
  }

  lemma WordIsOneToken(word: string)
    requires Word(word)
    ensures Tokens(word) == [word]
  {
    hide Word, Tokens;
    TokensStep("", word, "");
    TokensOfBlank("");
    assert "" + word + "" == word;
  }

  lemma {:induction false} WordsAreTokens(words: seq<string>)
    requires forall i :: 0 <= i < |words| ==> Word(words[i])
    ensures AllTokens(words) == words
  {
    hide Word, Tokens;
    if words != [] {
      WordIsOneToken(words[0]);
      WordsAreTokens(words[1..]);
    }
  }

  lemma JoinedIsTokenized(words: seq<string>)
    requires forall i :: 0 <= i < |words| ==> Word(words[i])
    ensures Tokens(Joined(words)) == words
  {
    hide Word, Tokens, Joined;
    JoinedTokens(words);
    WordsAreTokens(words);
  }

  /** A verb, a text of any kind, and words after it. */
  lemma TokensAround(verb: string, text: string, words: seq<string>)
    requires Word(verb) && forall i :: 0 <= i < |words| ==> Word(words[i])
    ensures Tokens(Joined([verb, text] + words)) == [verb] + Tokens(text) + words
  {
    hide Word, Tokens, Joined;
    JoinedTokens([verb, text] + words);
    WordIsOneToken(verb);
    WordsAreTokens(words);
    assert ([verb, text] + words)[1..] == [text] + words && ([text] + words)[1..] == words;
  }

  lemma NumeralsAreWords(n: int)
    ensures Word(SignedNumeral(n)) && (n >= 0 ==> SignedNumeral(n) == Numeral(n))
  {
    var digits := Numeral(if n < 0 then -n else n);
    assert AllDigits(digits);
  }

  lemma ValidNamesAreWords(name: string)
    requires ValidName(name)
    ensures Word(name)
  {
    forall i | 0 <= i < |name| ensures !Blank(name[i]) {
      assert NameChar(name[i]);
    }
  }

  /** The fields after the name. */
  function AcquireFields(bytes: Bytes, options: Admission.AcquireOptions): seq<string> {
    [Numeral(bytes), SignedNumeral(options.priority)] +
    if options.timeout == NO_TIMEOUT then []
    else if options.cost == 0 then [SignedNumeral(options.timeout)]
    else [SignedNumeral(options.timeout), SignedNumeral(options.cost)]
  }

  lemma Joined2(a: string, b: string)
    ensures Joined([a, b]) == a + " " + b
  {
    assert [a, b][1..] == [b];
  }

  lemma Joined3(a: string, b: string, c: string)
    ensures Joined([a, b, c]) == a + " " + b + " " + c
  {
    assert [a, b, c][1..] == [b, c];
    Joined2(b, c);
  }

  lemma Joined4(a: string, b: string, c: string, d: string)
    ensures Joined([a, b, c, d]) == a + " " + b + " " + c + " " + d
  {
    assert [a, b, c, d][1..] == [b, c, d];
    Joined3(b, c, d);
  }

  lemma {:induction false} JoinedMore(words: seq<string>, last: string)
    requires words != []
    ensures Joined(words + [last]) == Joined(words) + " " + last
  {
    if |words| == 1 {
      Joined2(words[0], last);
      assert words + [last] == [words[0], last];
    } else {
      JoinedMore(words[1..], last);
      assert (words + [last])[1..] == words[1..] + [last];
    }
  }

  lemma AcquireLineIsJoined(name: string, bytes: Bytes, options: Admission.AcquireOptions)
    ensures AcquireLine(name, bytes, options) == Joined(["acquire", name] + AcquireFields(bytes, options))
  {
    hide Joined, Numeral, SignedNumeral;
    var b, p := Numeral(bytes), SignedNumeral(options.priority);
    var head := ["acquire", name, b, p];
    Joined4("acquire", name, b, p);
    assert "acquire " == "acquire" + " ";
    var line, words := "acquire " + name + " " + b + " " + p, ["acquire", name] + AcquireFields(bytes, options);
    if options.timeout == NO_TIMEOUT {
      assert words == head;
      assert line + "" == line;
    } else {
      var t, c := SignedNumeral(options.timeout), SignedNumeral(options.cost);
      JoinedMore(head, t);
      if options.cost == 0 {
        assert words == head + [t];
        assert line + (" " + t + "") == line + " " + t;
      } else {
        JoinedMore(head + [t], c);
        assert words == head + [t] + [c];
        assert line + (" " + t + (" " + c)) == line + " " + t + " " + c;
      }
    }
  }

  lemma AcquireLineTokens(name: string, bytes: Bytes, options: Admission.AcquireOptions)
    ensures Tokens(AcquireLine(name, bytes, options)) == ["acquire"] + Tokens(name) + AcquireFields(bytes, options)
  {
    hide Word, Joined, Tokens, Numeral, SignedNumeral;
    NumeralsAreWords(bytes);
    NumeralsAreWords(options.priority);
    NumeralsAreWords(options.timeout);
    NumeralsAreWords(options.cost);
    VerbsAreWords();
    AcquireLineIsJoined(name, bytes, options);
    TokensAround("acquire", name, AcquireFields(bytes, options));
  }

  lemma VerbsAreWords()
    ensures Word("acquire") && Word("try_acquire") && Word("release") && Word("load") && Word("unload") && Word("share")
  {
  }

  lemma SizeReadsBack(bytes: Bytes)
    ensures ParseSize(Numeral(bytes)) == if bytes == 0 then None else Some(bytes)
  {
    NumeralReadsBack(bytes);
    var text := Numeral(bytes);
    UnitIsFound(text, text, "");
    ScaledIff(text, 1, bytes);
    if bytes == 0 && ParseSize(text).Some? {
      ScaledIff(text, 1, ParseSize(text).value);
    }
  }

  // -------------------------------------------------------------- arrivals

  /** What the daemon understands when a client asks for memory.  A cost that is not zero travels
      as the sixth field, and then the timeout is not read. */
  function AcquireArrival(name: string, bytes: Bytes, options: Admission.AcquireOptions): Parsed {
    if !ValidName(name) then Rejected(InvalidName)
    else if bytes == 0 then Rejected(InvalidSize)
    else if options.timeout == NO_TIMEOUT then
      Accepted(Command(Acquire, name, bytes, Wait, options.(cost := 0), "", ""))
    else if options.cost == 0 then
      if options.timeout < 0 then Rejected(InvalidRequest)
      else Accepted(Command(Acquire, name, bytes, Wait, options, "", ""))
    else
      if options.cost < 0 then Rejected(InvalidRequest)
      else Accepted(Command(Acquire, name, bytes, Wait, options.(timeout := NO_TIMEOUT), "", ""))
  }

  lemma AcquireVerb(tokens: seq<string>)
    requires |tokens| > 0
    ensures tokens[0] == "acquire" ==> ParseTokens(tokens) == ParseAcquire(tokens)
    ensures tokens[0] == "try_acquire" ==> ParseTokens(tokens) == ParseTryAcquire(tokens)
  {
    hide ParseAcquire, ParseTryAcquire, Listing, Named, ParseNodeRegister, ParseRegister, ParseRegisterFile;
  }

  /** The words of the name are read as if they were fields; a name without blanks is one field. */
  lemma AcquireLineParses(name: string, bytes: Bytes, options: Admission.AcquireOptions)
    ensures ParseCommand(AcquireLine(name, bytes, options)) ==
      ParseAcquire(["acquire"] + Tokens(name) + AcquireFields(bytes, options))
    ensures Word(name) ==> ParseCommand(AcquireLine(name, bytes, options)) == AcquireArrival(name, bytes, options)
  {
    hide Word, Tokens, ParseTokens, ParseAcquire;
    AcquireLineTokens(name, bytes, options);
    AcquireVerb(["acquire"] + Tokens(name) + AcquireFields(bytes, options));
    if Word(name) {
      WordIsOneToken(name);
      AcquireFieldsRead(name, bytes, options);
    }
  }

  lemma AcquireFieldsRead(name: string, bytes: Bytes, options: Admission.AcquireOptions)
    ensures ParseAcquire(["acquire"] + [name] + AcquireFields(bytes, options)) == AcquireArrival(name, bytes, options)
  {
    hide ValidName, ParseSize, ParsePriority, ParseTimeout, Numeral, SignedNumeral;
    SizeReadsBack(bytes);
    PriorityReadsBack(options.priority);
    TimeoutReadsBack(options.timeout);
    TimeoutReadsBack(options.cost);
  }

  /** Five milliseconds of patience become an unbounded wait once a cost is given as well. */
  lemma CostDropsTimeout()
    ensures ParseCommand("acquire a 1 0 5 7") ==
      Accepted(Command(Acquire, "a", 1, Wait, Admission.AcquireOptions(0, NO_TIMEOUT, 7), "", ""))
  {
    hide ParseCommand, ParseAcquire, Tokens;
    assert Word("a");
    AcquireLineParses("a", 1, Admission.AcquireOptions(0, 5, 7));
    assert AcquireLine("a", 1, Admission.AcquireOptions(0, 5, 7)) == "acquire a 1 0 5 7";
  }

  function TryAcquireArrival(name: string, bytes: Bytes): Parsed {
    if !ValidName(name) then Rejected(InvalidName)
    else if bytes == 0 then Rejected(InvalidSize)
    else Accepted(Command(Acquire, name, bytes, Try, Admission.AcquireOptions(0, 0, 0), "", ""))
  }

  lemma TryAcquireLineParses(name: string, bytes: Bytes)
    ensures ParseCommand(TryAcquireLine(name, bytes)) == ParseTryAcquire(["try_acquire"] + Tokens(name) + [Numeral(bytes)])
    ensures Word(name) ==> ParseCommand(TryAcquireLine(name, bytes)) == TryAcquireArrival(name, bytes)
  {
    hide Word, Tokens, Joined, ParseTokens, ValidName, ParseSize, Numeral;
    NumeralsAreWords(bytes);
    VerbsAreWords();
    Joined3("try_acquire", name, Numeral(bytes));
    assert "try_acquire " == "try_acquire" + " ";
    assert ["try_acquire", name] + [Numeral(bytes)] == ["try_acquire", name, Numeral(bytes)];
    TokensAround("try_acquire", name, [Numeral(bytes)]);
    AcquireVerb(["try_acquire"] + Tokens(name) + [Numeral(bytes)]);
    SizeReadsBack(bytes);
    if Word(name) {
      WordIsOneToken(name);
    }
  }

  /** The verbs of the one-name commands, with the command each one is. */
  function VerbOf(kind: CommandType): string
    requires kind in {Release, LoadModel, UnloadModel, Share}
  {
    match kind
    case Release => "release"
    case LoadModel => "load"
    case UnloadModel => "unload"
    case Share => "share"
  }

  lemma NamedVerb(tokens: seq<string>, kind: CommandType)
    requires |tokens| > 0 && kind in {Release, LoadModel, UnloadModel, Share} && tokens[0] == VerbOf(kind)
    ensures ParseTokens(tokens) == Named(kind, tokens, if kind == Release then InvalidName else InvalidModelId)
  {
    hide ParseAcquire, ParseTryAcquire, Listing, Named, ParseNodeRegister, ParseRegister, ParseRegisterFile;
  }

  /** A one-name command arrives if the name is one word, and then without the blanks around it. */
  lemma NameLineParses(kind: CommandType, name: string)
    requires kind in {Release, LoadModel, UnloadModel, Share}
    ensures ParseCommand(NameLine(VerbOf(kind), name)) ==
      if |Tokens(name)| != 1 then Rejected(InvalidRequest)
      else if ValidName(Tokens(name)[0]) then Accepted(Command(kind, Tokens(name)[0], 0, Wait, DEFAULTS, "", ""))
      else Rejected(if kind == Release then InvalidName else InvalidModelId)
    ensures Word(name) ==> Tokens(name) == [name]
  {
    hide Word, Tokens, Joined, ParseTokens, ValidName;
    VerbsAreWords();
    Joined2(VerbOf(kind), name);
    assert [VerbOf(kind), name] + [] == [VerbOf(kind), name];
    TokensAround(VerbOf(kind), name, []);
    NamedVerb([VerbOf(kind)] + Tokens(name) + [], kind);
    if Word(name) {
      WordIsOneToken(name);
    }
  }
}
