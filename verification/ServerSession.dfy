/** How the daemon cuts the bytes of a connection into command lines. */
module ServerSession {
  import opened Common
  import opened Protocol
  import Numerals

  const MAX_LINE: nat := 4096

  /** The complete lines of an input, what is left over, and whether the connection stays open. */
  datatype Cut = Cut(lines: seq<string>, rest: string, open: bool)

  predicate OneLine(s: string) { forall i :: 0 <= i < |s| ==> s[i] != '\n' }

  /** The position of the first newline; the length when there is none. */
  function Newline(s: string): (n: nat)
    ensures n <= |s| && OneLine(s[..n])
    ensures n < |s| ==> s[n] == '\n'
  {
    if s == "" || s[0] == '\n' then 0 else
      var n := Newline(s[1..]);
      assert s[..1 + n] == [s[0]] + s[1..][..n];
      1 + n
  }

  function Cuts(input: string): Cut
    decreases |input|
  {
    var n := Newline(input);
    if n == |input| then Cut([], input, |input| < MAX_LINE)
    else if n + 1 > MAX_LINE then Cut([], input, false)
    else
      var more := Cuts(input[n + 1..]);
      Cut([input[..n]] + more.lines, more.rest, more.open)
  }

  function Begun(): Cut { Cut([], "", true) }

  /** One read: a connection that was closed takes nothing more. */
  function Feed(s: Cut, chunk: string): Cut {
    if !s.open then s else
      var c := Cuts(s.rest + chunk);
      Cut(s.lines + c.lines, c.rest, c.open)
  }

  function FeedAll(s: Cut, chunks: seq<string>): Cut
    decreases |chunks|
  {
    if chunks == [] then s else FeedAll(Feed(s, chunks[0]), chunks[1..])
  }

  function Concat(chunks: seq<string>): string {
    if chunks == [] then "" else chunks[0] + Concat(chunks[1..])
  }

  /** What is left over matters only while the connection is open. */
  predicate SameReading(a: Cut, b: Cut) {
    a.lines == b.lines && a.open == b.open && (a.open ==> a.rest == b.rest)
  }

  // ------------------------------------------------------- the only reading

  function Unlines(lines: seq<string>): string {
    if lines == [] then "" else lines[0] + "\n" + Unlines(lines[1..])
  }

  predicate Fits(line: string) { OneLine(line) && |line| < MAX_LINE }

  predicate IsCut(stream: string, c: Cut) {
    && (forall i :: 0 <= i < |c.lines| ==> Fits(c.lines[i]))
    && stream == Unlines(c.lines) + c.rest
    && (if c.open then Fits(c.rest) else |c.rest| >= MAX_LINE && OneLine(c.rest[..MAX_LINE]))
  }

  lemma NewlineIs(s: string, n: nat)
    requires n <= |s| && OneLine(s[..n]) && (n < |s| ==> s[n] == '\n')
    ensures Newline(s) == n
  {
    forall i | 0 <= i < n ensures s[i] != '\n' {
      assert s[..n][i] == s[i];
    }
    forall i | 0 <= i < Newline(s) ensures s[i] != '\n' {
      assert s[..Newline(s)][i] == s[i];
    }
  }

  lemma CutsOfLine(line: string, tail: string)
    requires Fits(line)
    ensures Cuts(line + "\n" + tail) ==
      Cut([line] + Cuts(tail).lines, Cuts(tail).rest, Cuts(tail).open)
  {
    hide Newline;
    var input := line + "\n" + tail;
    assert input[..|line|] == line && input[|line| + 1..] == tail;
    NewlineIs(input, |line|);
  }

  lemma CutsOfRest(rest: string)
    ensures OneLine(rest) ==> Cuts(rest) == Cut([], rest, |rest| < MAX_LINE)
    ensures |rest| >= MAX_LINE && OneLine(rest[..MAX_LINE]) ==> Cuts(rest) == Cut([], rest, false)
  {
    hide Newline;
    if OneLine(rest) {
      assert rest[..|rest|] == rest;
      NewlineIs(rest, |rest|);
    }
    var n := Newline(rest);
    if |rest| >= MAX_LINE && n < MAX_LINE {
      assert rest[..MAX_LINE][n] == '\n';
    }
  }

  /** Any division of the stream into short lines and a remainder is the one that is read ... */
  lemma {:induction false} ReadingIsForced(stream: string, c: Cut)
    requires IsCut(stream, c)
    ensures Cuts(stream) == c
    decreases |c.lines|
  {
    hide Fits, OneLine, Cuts;
    if c.lines == [] {
      assert stream == c.rest;
      CutsOfRest(c.rest);
      assert c.open ==> Fits(c.rest);
      FitsIs(c.rest);
    } else {
      var tail := Cut(c.lines[1..], c.rest, c.open);
      var rest := Unlines(tail.lines) + c.rest;
      ReadingIsForced(rest, tail);
      assert stream == c.lines[0] + "\n" + rest;
      CutsOfLine(c.lines[0], rest);
      assert [c.lines[0]] + c.lines[1..] == c.lines;
    }
  }

  lemma FitsIs(line: string)
    ensures Fits(line) <==> OneLine(line) && |line| < MAX_LINE
  {
  }

  /** ... and there always is such a division. */
  lemma {:induction false} ReadingExists(stream: string)
    ensures IsCut(stream, Cuts(stream))
    decreases |stream|
  {
    hide Newline, Cuts, IsCut;
    var n := Newline(stream);
    if n < |stream| && n + 1 <= MAX_LINE {
      var line, tail := stream[..n], stream[n + 1..];
      assert stream == line + "\n" + tail;
      ReadingExists(tail);
      CutsOfLine(line, tail);
      CutGrows(line, tail, Cuts(tail));
    } else {
      NoLine(stream, n);
    }
  }

  lemma CutGrows(line: string, tail: string, c: Cut)
    requires Fits(line) && IsCut(tail, c)
    ensures IsCut(line + "\n" + tail, c.(lines := [line] + c.lines))
  {
    hide Fits;
    assert ([line] + c.lines)[1..] == c.lines;
    assert line + "\n" + tail == line + "\n" + Unlines(c.lines) + c.rest;
  }

  lemma NoLine(stream: string, n: nat)
    requires n == Newline(stream) && (n == |stream| || n + 1 > MAX_LINE)
    ensures IsCut(stream, Cuts(stream))
  {
    hide Newline, Cuts;
    assert "" + stream == stream;
    CutsOfRest(stream);
    if n == |stream| {
      assert stream[..n] == stream;
      PrefixIsOneLine(stream, MAX_LINE);
    } else {
      PrefixIsOneLine(stream[..n], MAX_LINE);
      assert stream[..n][..MAX_LINE] == stream[..MAX_LINE];
    }
  }

  lemma PrefixIsOneLine(s: string, n: nat)
    requires OneLine(s)
    ensures n <= |s| ==> OneLine(s[..n])
  {
  }

  /** The lines, the remainder and the decision to close are those of the one division of the stream
      into lines of at most 4095 characters and a remainder that has no newline or is too long. */
  lemma CutsIff(stream: string, c: Cut)
    ensures Cuts(stream) == c <==> IsCut(stream, c)
  {
    ReadingExists(stream);
    if IsCut(stream, c) {
      ReadingIsForced(stream, c);
    }
  }

  // ------------------------------------------------------- chunk invariance

  lemma {:induction false} UnlinesSplit(a: seq<string>, b: seq<string>)
    ensures Unlines(a + b) == Unlines(a) + Unlines(b)
  {
    if a == [] {
      assert a + b == b;
    } else {
      UnlinesSplit(a[1..], b);
      assert (a + b)[1..] == a[1..] + b;
      Regroup(a[0] + "\n", Unlines(a[1..]), Unlines(b));
    }
  }

  /** Reading a prefix first, and then its remainder with the rest, reads the whole. */
  lemma CutsInTwo(a: string, b: string)
    ensures SameReading(Feed(Cuts(a), b), Cuts(a + b))
  {
    hide Cuts, IsCut;
    ReadingExists(a);
    var first := Cuts(a);
    if first.open {
      ReadingExists(first.rest + b);
      CutsChain(a, b, first, Cuts(first.rest + b));
      ReadingIsForced(a + b, Feed(first, b));
    } else {
      CutsAreFinal(a, b, first);
      ReadingIsForced(a + b, first.(rest := first.rest + b));
    }
  }

  lemma CutsChain(a: string, b: string, first: Cut, second: Cut)
    requires IsCut(a, first) && first.open && IsCut(first.rest + b, second)
    ensures IsCut(a + b, second.(lines := first.lines + second.lines))
  {
    hide Fits, OneLine, Unlines;
    UnlinesSplit(first.lines, second.lines);
    Regroup(Unlines(first.lines), first.rest, b);
    Regroup(Unlines(first.lines), Unlines(second.lines), second.rest);
  }

  lemma CutsAreFinal(a: string, b: string, first: Cut)
    requires IsCut(a, first) && !first.open
    ensures IsCut(a + b, first.(rest := first.rest + b))
  {
    hide Fits, OneLine, Unlines;
    assert (first.rest + b)[..MAX_LINE] == first.rest[..MAX_LINE];
    Regroup(Unlines(first.lines), first.rest, b);
  }

  lemma Regroup(a: string, b: string, c: string)
    ensures a + b + c == a + (b + c)
  {
  }

  lemma {:induction false} ClosedStaysClosed(s: Cut, chunks: seq<string>)
    requires !s.open
    ensures FeedAll(s, chunks) == s
  {
    if chunks != [] {
      ClosedStaysClosed(s, chunks[1..]);
    }
  }

  lemma {:induction false} FeedAllReads(read: string, s: Cut, chunks: seq<string>)
    requires SameReading(s, Cuts(read))
    ensures SameReading(FeedAll(s, chunks), Cuts(read + Concat(chunks)))
    decreases |chunks|
  {
    hide Cuts;
    if chunks == [] {
      assert read + "" == read;
    } else {
      CutsInTwo(read, chunks[0]);
      FeedAllReads(read + chunks[0], Feed(s, chunks[0]), chunks[1..]);
      assert read + chunks[0] + Concat(chunks[1..]) == read + Concat(chunks);
    }
  }

  /** However the stream is delivered, the same lines are read and the same decision is taken, and
      the same text is left over while the connection is open. */
  lemma ChunksDoNotMatter(chunks: seq<string>)
    ensures SameReading(FeedAll(Begun(), chunks), Cuts(Concat(chunks)))
  {
    hide Cuts;
    CutsOfRest("");
    FeedAllReads("", Begun(), chunks);
    assert "" + Concat(chunks) == Concat(chunks);
  }

  // ----------------------------------------------------------- the session

  /** One carriage return before the newline is dropped. */
  function Stripped(line: string): string {
    if line != "" && line[|line| - 1] == '\r' then line[..|line| - 1] else line
  }

  /** Only one, and nothing else. */
  lemma OneReturnIsDropped(line: string)
    ensures Stripped(line + "\r") == line
    ensures line == "" || line[|line| - 1] as int != 13 ==> Stripped(line) == line
  {
  }

  function Answers(lines: seq<string>): seq<Parsed> {
    if lines == [] then [] else [ParseCommand(Stripped(lines[0]))] + Answers(lines[1..])
  }

  lemma NothingToAnswer()
    ensures Answers([]) == []
  {
  }

  lemma AnswersStep(line: string, lines: seq<string>)
    ensures Answers([line] + lines) == [ParseCommand(Stripped(line))] + Answers(lines)
  {
    assert ([line] + lines)[1..] == lines;
  }

  lemma {:induction false} AnswersSplit(a: seq<string>, b: seq<string>)
    ensures Answers(a + b) == Answers(a) + Answers(b)
  {
    hide ParseCommand, Stripped, Answers;
    if a == [] {
      NothingToAnswer();
      assert a + b == b;
    } else {
      var rest := a[1..];
      AnswersSplit(rest, b);
      AnswersStep(a[0], rest + b);
      AnswersStep(a[0], rest);
      assert a + b == [a[0]] + (rest + b) && a == [a[0]] + rest;
    }
  }

  lemma TooLong(input: string, newline: nat)
    requires newline < |input| && newline == Newline(input) && newline + 1 > MAX_LINE
    ensures Cuts(input) == Cut([], input, false)
  {
  }

  class Session {
    var input: string
    var open: bool
    /** What each line was taken for, in order of arrival. */
    var answered: seq<Parsed>

    ghost predicate Reads(s: Cut)
      reads this
    {
      input == s.rest && open == s.open && answered == Answers(s.lines)
    }

    constructor ()
      ensures Reads(Begun())
    {
      input, open, answered := "", true, [];
    }

    method ProcessInput() returns (keep: bool)
      modifies this`input, this`answered
      ensures keep == Cuts(old(input)).open && input == Cuts(old(input)).rest
      ensures answered == old(answered) + Answers(Cuts(old(input)).lines)
    {
      hide Newline, ParseCommand, Cuts, Answers;
      while true
        invariant Cuts(input).open == Cuts(old(input)).open && Cuts(input).rest == Cuts(old(input)).rest
        invariant answered + Answers(Cuts(input).lines) == old(answered) + Answers(Cuts(old(input)).lines)
        decreases |input|
      {
        var newline := Newline(input);
        if newline == |input| {
          assert input[..newline] == input;
          CutsOfRest(input);
          NothingToAnswer();
          return |input| < MAX_LINE;
        }
        if newline + 1 > MAX_LINE {
          TooLong(input, newline);
          NothingToAnswer();
          return false;
        }
        var line := input[..newline];
        ghost var tail := input[newline + 1..];
        assert input == line + "\n" + tail;
        CutsOfLine(line, tail);
        AnswersStep(line, Cuts(tail).lines);
        input := input[newline + 1..];
        if line != "" && line[|line| - 1] == '\r' {
          line := line[..|line| - 1];
        }
        answered := answered + [ParseCommand(line)];
      }
    }

    method Receive(chunk: string, ghost s: Cut)
      requires Reads(s)
      modifies this
      ensures Reads(Feed(s, chunk))
    {
      hide Cuts, Answers;
      if open {
        input := input + chunk;
        ghost var lines := Cuts(input).lines;
        open := ProcessInput();
        AnswersSplit(s.lines, lines);
      }
    }

    /** The reads of one connection, up to the end of the stream or the first refusal. */
    method Serve(chunks: seq<string>)
      requires Reads(Begun())
      modifies this
      ensures open == Cuts(Concat(chunks)).open && (open ==> input == Cuts(Concat(chunks)).rest)
      ensures answered == Answers(Cuts(Concat(chunks)).lines)
    {
      hide Cuts, Answers, Feed;
      ghost var s := Begun();
      var next := 0;
      assert chunks[0..] == chunks;
      while next < |chunks| && open
        invariant next <= |chunks| && Reads(s)
        invariant FeedAll(s, chunks[next..]) == FeedAll(Begun(), chunks)
      {
        assert chunks[next..][1..] == chunks[next + 1..];
        Receive(chunks[next], s);
        s := Feed(s, chunks[next]);
        next := next + 1;
      }
      if !open {
        ClosedStaysClosed(s, chunks[next..]);
      }
      ChunksDoNotMatter(chunks);
    }
  }

  // ------------------------------------------------------------ end to end

  /** A line the client library may send: it fits, and no carriage return is lost from it. */
  predicate Sendable(line: string) {
    Fits(line) && Stripped(line) == line
  }

  lemma {:induction false} SentLinesAreAnswered(lines: seq<string>)
    requires forall i :: 0 <= i < |lines| ==> Sendable(lines[i])
    ensures |Answers(lines)| == |lines| && forall i :: 0 <= i < |lines| ==> Answers(lines)[i] == ParseCommand(lines[i])
  {
    hide ParseCommand, Fits, Stripped;
    if lines != [] {
      SentLinesAreAnswered(lines[1..]);
      assert Sendable(lines[0]);
    }
  }

  lemma {:induction false} ReturnedAnswers(lines: seq<string>, returned: seq<string>)
    requires |returned| == |lines| && forall i :: 0 <= i < |lines| ==> Sendable(lines[i]) && returned[i] == lines[i] + "\r"
    ensures Answers(returned) == Answers(lines)
  {
    hide ParseCommand, Fits;
    if lines != [] {
      ReturnedAnswers(lines[1..], returned[1..]);
      assert returned[0][..|lines[0]|] == lines[0];
      assert Sendable(lines[0]);
    }
  }

  /** The first line that leaves no room for a carriage return. */
  function FirstLong(lines: seq<string>): (k: nat)
    ensures k <= |lines| && forall j :: 0 <= j < k ==> |lines[j]| < MAX_LINE - 1
    ensures k < |lines| ==> |lines[k]| >= MAX_LINE - 1
  {
    if lines == [] || |lines[0]| >= MAX_LINE - 1 then 0 else 1 + FirstLong(lines[1..])
  }

  lemma ReturnedFits(line: string)
    requires Sendable(line)
    ensures Fits(line + "\r") <==> |line| < MAX_LINE - 1
    ensures |line| < MAX_LINE - 1 || OneLine((line + "\r")[..MAX_LINE])
  {
  }

  /** Lines that end in a carriage return and a newline are answered like lines that end in a newline
      alone, up to the first that the carriage return makes too long: there the connection ends. */
  lemma ReturnsReadIff(lines: seq<string>, returned: seq<string>, chunks: seq<string>)
    requires |returned| == |lines| && forall i :: 0 <= i < |lines| ==> Sendable(lines[i]) && returned[i] == lines[i] + "\r"
    requires Concat(chunks) == Unlines(returned)
    ensures var s, k := FeedAll(Begun(), chunks), FirstLong(lines);
      && s.lines == returned[..k] && Answers(s.lines) == Answers(lines[..k])
      && (s.open <==> k == |lines|) && (s.open ==> s.rest == "")
  {
    hide FeedAll, Cuts, Answers, Sendable, FirstLong, Fits, OneLine, Unlines, ParseCommand, Stripped;
    var k := FirstLong(lines);
    forall i | 0 <= i < k ensures Fits(returned[i]) {
      ReturnedFits(lines[i]);
    }
    ChunksDoNotMatter(chunks);
    ReturnedAnswers(lines[..k], returned[..k]);
    if k == |lines| {
      assert returned[..k] == returned && lines[..k] == lines;
      FittingLinesAreRead(returned);
    } else {
      ReturnedFits(lines[k]);
      SplitAt(returned, k);
      LongLineEnds(returned[..k], returned[k], returned[k + 1..]);
    }
  }

  lemma SplitAt(lines: seq<string>, k: nat)
    requires k < |lines|
    ensures lines == lines[..k] + ([lines[k]] + lines[k + 1..])
  {
  }

  lemma FittingLinesAreRead(lines: seq<string>)
    requires forall i :: 0 <= i < |lines| ==> Fits(lines[i])
    ensures Cuts(Unlines(lines)) == Cut(lines, "", true)
  {
    hide Cuts, Fits, Unlines;
    NothingFits();
    assert Unlines(lines) + "" == Unlines(lines);
    ReadingIsForced(Unlines(lines), Cut(lines, "", true));
  }

  lemma LongLineEnds(short: seq<string>, long: string, more: seq<string>)
    requires forall i :: 0 <= i < |short| ==> Fits(short[i])
    requires |long| >= MAX_LINE && OneLine(long[..MAX_LINE])
    ensures var c := Cuts(Unlines(short + ([long] + more))); c.lines == short && !c.open
  {
    hide Cuts, Fits, Unlines, OneLine;
    UnlinesSplit(short, [long] + more);
    LongStart(long, more);
    ReadingIsForced(Unlines(short + ([long] + more)), Cut(short, Unlines([long] + more), false));
  }

  lemma OneUnlined(line: string)
    ensures Unlines([line]) == line + "\n"
  {
    assert [line][1..] == [];
  }

  lemma NothingFits()
    ensures Fits("")
  {
  }

  lemma LongStart(line: string, lines: seq<string>)
    requires |line| >= MAX_LINE && OneLine(line[..MAX_LINE])
    ensures var rest := Unlines([line] + lines); |rest| >= MAX_LINE && OneLine(rest[..MAX_LINE])
  {
    assert ([line] + lines)[1..] == lines;
    var rest := Unlines([line] + lines);
    assert rest[..MAX_LINE] == line[..MAX_LINE];
  }

  /** The longest line that can be sent is answered, and ends the connection with a carriage return. */
  lemma LongestLineCannotReturn() returns (line: string)
    ensures Sendable(line) && |line| == MAX_LINE - 1
    ensures Cuts(line + "\n") == Cut([line], "", true)
    ensures Cuts(line + "\r\n").lines == [] && !Cuts(line + "\r\n").open
  {
    hide Cuts;
    line := seq(MAX_LINE - 1, _ => 'a');
    CutsOfLine(line, "");
    CutsOfRest("");
    assert line + "\n" + "" == line + "\n";
    var long := line + "\r\n";
    assert forall i :: 0 <= i < MAX_LINE ==> long[i] != '\n';
    assert OneLine(long[..MAX_LINE]);
    CutsOfRest(long);
  }

  /** A line of up to 4095 characters is cut out whole once its newline has come, in whatever pieces;
      until then the connection stays open, and 4096 characters without a newline close it. */
  lemma LineLimit(line: string, chunks: seq<string>)
    requires forall i :: 0 <= i < |line| ==> line[i] != '\n'
    ensures Concat(chunks) == line + "\n" && |line| <= 4095 ==> FeedAll(Begun(), chunks) == Cut([line], "", true)
    ensures Concat(chunks) == line && |line| <= 4095 ==> FeedAll(Begun(), chunks) == Cut([], line, true)
    ensures Concat(chunks) == line && |line| >= 4096 ==>
      FeedAll(Begun(), chunks).lines == [] && !FeedAll(Begun(), chunks).open
  {
    hide FeedAll, Cuts, Unlines;
    ChunksDoNotMatter(chunks);
    CutsOfRest(line);
    if |line| <= 4095 {
      CutsOfLine(line, "");
      CutsOfRest("");
      assert line + "\n" + "" == line + "\n";
    }
  }

  /** The same in the middle of a stream: what follows the newline is read on its own. */
  lemma LineIsCutOut(line: string, rest: string)
    requires |line| <= 4095 && forall i :: 0 <= i < |line| ==> line[i] != '\n'
    ensures Cuts(line + "\n" + rest) == Cut([line] + Cuts(rest).lines, Cuts(rest).rest, Cuts(rest).open)
  {
    CutsOfLine(line, rest);
  }

  /** Any number of such lines, sent one after another and delivered in any pieces, are answered one
      by one and leave nothing behind. */
  lemma PipelinedLinesArrive(lines: seq<string>, chunks: seq<string>)
    requires forall i :: 0 <= i < |lines| ==> Sendable(lines[i])
    requires Concat(chunks) == Unlines(lines)
    ensures FeedAll(Begun(), chunks) == Cut(lines, "", true)
    ensures |Answers(lines)| == |lines| && forall i :: 0 <= i < |lines| ==> Answers(lines)[i] == ParseCommand(lines[i])
  {
    hide FeedAll, Cuts, Answers, ParseCommand, Stripped;
    forall i | 0 <= i < |lines| ensures Fits(lines[i]) {
      assert Sendable(lines[i]);
    }
    assert Unlines(lines) + "" == Unlines(lines);
    ReadingIsForced(Concat(chunks), Cut(lines, "", true));
    ChunksDoNotMatter(chunks);
    SentLinesAreAnswered(lines);
  }

  /** No character of the text ends a line. */
  predicate Unbroken(s: string) { forall i :: 0 <= i < |s| ==> s[i] != '\n' && s[i] != '\r' }

  lemma UnbrokenJoins(a: string, b: string)
    requires Unbroken(a) && Unbroken(b)
    ensures Unbroken(a + b)
  {
  }

  lemma NumeralsAreUnbroken(n: int)
    requires 0 - MAX_BYTES <= n <= MAX_BYTES
    ensures Unbroken(" " + Numerals.SignedNumeral(n)) && |Numerals.SignedNumeral(n)| <= 21
  {
    var magnitude: Bytes := if n < 0 then 0 - n else n;
    var digits := Numerals.Numeral(magnitude);
    Numerals.NumeralOfBytesIsShort(magnitude);
    forall i | 0 <= i < |digits| ensures digits[i] != '\n' && digits[i] != '\r' {
      assert Numerals.IsDigit(digits[i]);
    }
  }

  lemma ValidNamesAreUnbroken(name: string)
    requires ValidName(name)
    ensures Unbroken(name)
  {
    forall i | 0 <= i < |name| ensures name[i] != '\n' && name[i] != '\r' {
      assert NameChar(name[i]);
    }
  }
}
