/** From the client's command to the daemon's understanding of it: what is sent, cut out of the
    stream, stripped and parsed. */
module Delivery {
  import opened Common
  import opened Scheduler
  import opened Numerals
  import opened Protocol
  import opened ClientCommands
  import opened CommandLanguage
  import opened ServerSession
  import Admission
  import ModelStores

  /** What becomes of a command on a fresh connection: the client does not send it, the daemon refuses
      the line as too long, or the line is understood in some way. */
  datatype Arrival = NotSent | TooLong | Understood(parsed: Parsed)

  function Arrives(command: string): Arrival {
    if command == "" || !OneLine(command) then NotSent
    else if |command| >= MAX_LINE then TooLong
    else Understood(ParseCommand(Stripped(command)))
  }

  /** In whatever pieces a command is delivered, this is how it is answered. */
  lemma ArrivesAsServed(command: string, chunks: seq<string>)
    requires Arrives(command) != NotSent && Concat(chunks) == command + "\n"
    ensures var s := FeedAll(Begun(), chunks);
      match Arrives(command)
      case TooLong => s.lines == [] && !s.open
      case Understood(parsed) => s == Cut([command], "", true) && Answers(s.lines) == [parsed]
      case NotSent => false
  {
    hide FeedAll, Cuts, Answers, ParseCommand, Stripped, OneLine;
    ChunksDoNotMatter(chunks);
    if |command| < MAX_LINE {
      assert Fits(command) && Fits("") by { NothingFits(); }
      CutsOfLine(command, "");
      CutsOfRest("");
      assert OneLine("") by { NothingFits(); }
      assert command + "\n" + "" == command + "\n";
      AnswersStep(command, []);
      NothingToAnswer();
    } else {
      LongCommand(command);
      CutsOfRest(command + "\n");
    }
  }

  lemma LongCommand(command: string)
    requires OneLine(command) && |command| >= MAX_LINE
    ensures OneLine((command + "\n")[..MAX_LINE])
  {
  }

  // ---------------------------------------------------------- the printed lines

  /** The text ends in a character that is neither stripped nor a newline. */
  predicate Ended(text: string) { text != "" && Unbroken(text) }

  lemma EndedKeeps(head: string, tail: string)
    requires Ended(tail)
    ensures Stripped(head + tail) == head + tail
    ensures OneLine(head + tail) <==> OneLine(head)
  {
    assert forall i :: 0 <= i < |head| ==> (head + tail)[i] == head[i];
    assert forall i :: 0 <= i < |tail| ==> (head + tail)[|head| + i] == tail[i];
    if OneLine(head) {
      forall i | 0 <= i < |head + tail| ensures (head + tail)[i] != '\n' {
        assert i >= |head| ==> (head + tail)[i] == tail[i - |head|];
      }
    }
  }

  lemma VerbBefore(verb: string, name: string)
    requires Unbroken(verb)
    ensures OneLine(verb + name) <==> OneLine(name)
  {
    assert forall i :: 0 <= i < |name| ==> (verb + name)[|verb| + i] == name[i];
  }

  /** What the client prints after the name. */
  lemma AcquireLineParts(name: string, bytes: Bytes, options: Admission.AcquireOptions) returns (tail: string)
    ensures AcquireLine(name, bytes, options) == "acquire " + name + tail && Ended(tail) && |tail| <= 88
  {
    hide Unbroken, SignedNumeral, Numeral;
    var b, p := Numeral(bytes), SignedNumeral(options.priority);
    NumeralsAreUnbroken(bytes);
    NumeralIsItself(bytes);
    NumeralsAreUnbroken(options.priority);
    var line := "acquire " + name + " " + b + " " + p;
    UnbrokenJoins(" " + b, " " + p);
    tail := " " + b + (" " + p);
    assert line == "acquire " + name + tail;
    if options.timeout == NO_TIMEOUT {
      assert AcquireLine(name, bytes, options) == line + "" == line;
    } else {
      var t, c := " " + SignedNumeral(options.timeout), " " + SignedNumeral(options.cost);
      NumeralsAreUnbroken(options.timeout);
      NumeralsAreUnbroken(options.cost);
      if options.cost == 0 {
        assert AcquireLine(name, bytes, options) == line + (t + "") == "acquire " + name + (tail + t);
        UnbrokenJoins(tail, t);
        tail := tail + t;
      } else {
        assert AcquireLine(name, bytes, options) == line + (t + c) == "acquire " + name + (tail + (t + c));
        UnbrokenJoins(t, c);
        UnbrokenJoins(tail, t + c);
        tail := tail + (t + c);
      }
    }
  }

  lemma VerbsAreUnbroken()
    ensures Unbroken("acquire ") && Unbroken("try_acquire ")
    ensures Unbroken("release ") && Unbroken("load ") && Unbroken("unload ") && Unbroken("share ")
  {
  }

  /** Whatever the client is given as a name: one with a newline is not sent, one that is too long is
      refused, and of any other the words are read as if they were fields.  A name without blanks is
      one field, and then the outcome is the stated one. */
  lemma AcquireArrives(name: string, bytes: Bytes, options: Admission.AcquireOptions)
    ensures var line := AcquireLine(name, bytes, options);
      Arrives(line) ==
        if !OneLine(name) then NotSent
        else if |line| >= MAX_LINE then TooLong
        else Understood(ParseAcquire(["acquire"] + Tokens(name) + AcquireFields(bytes, options)))
    ensures Word(name) && OneLine(name) && |AcquireLine(name, bytes, options)| < MAX_LINE ==>
      Arrives(AcquireLine(name, bytes, options)) == Understood(AcquireArrival(name, bytes, options))
  {
    hide OneLine, Stripped, Ended, Tokens, ParseCommand, ParseAcquire, AcquireLine, Word, AcquireArrival, Unbroken;
    var tail := AcquireLineParts(name, bytes, options);
    VerbsAreUnbroken();
    EndedKeeps("acquire " + name, tail);
    VerbBefore("acquire ", name);
    AcquireLineParses(name, bytes, options);
  }

  lemma TryAcquireArrives(name: string, bytes: Bytes)
    ensures var line := TryAcquireLine(name, bytes);
      Arrives(line) ==
        if !OneLine(name) then NotSent
        else if |line| >= MAX_LINE then TooLong
        else Understood(ParseTryAcquire(["try_acquire"] + Tokens(name) + [Numeral(bytes)]))
    ensures Word(name) && OneLine(name) && |TryAcquireLine(name, bytes)| < MAX_LINE ==>
      Arrives(TryAcquireLine(name, bytes)) == Understood(TryAcquireArrival(name, bytes))
  {
    hide OneLine, Stripped, Tokens, ParseCommand, ParseTryAcquire, Word, TryAcquireArrival, Unbroken, Numeral, SignedNumeral;
    NumeralsAreUnbroken(bytes);
    NumeralIsItself(bytes);
    VerbsAreUnbroken();
    var tail := " " + Numeral(bytes);
    assert TryAcquireLine(name, bytes) == "try_acquire " + name + tail;
    EndedKeeps("try_acquire " + name, tail);
    VerbBefore("try_acquire ", name);
    TryAcquireLineParses(name, bytes);
  }

  /** What a one-name command is taken for: the blanks around the name and one carriage return after
      it are dropped, and what is left must be a single acceptable word. */
  function NameArrival(kind: CommandType, name: string): Parsed {
    var words := Tokens(Stripped(name));
    if |words| != 1 then Rejected(InvalidRequest)
    else if ValidName(words[0]) then Accepted(Command(kind, words[0], 0, Wait, DEFAULTS, "", ""))
    else Rejected(if kind == Release then InvalidName else InvalidModelId)
  }

  lemma NameLineArrives(kind: CommandType, name: string)
    requires kind in {Release, LoadModel, UnloadModel, Share}
    ensures var line := NameLine(VerbOf(kind), name);
      Arrives(line) ==
        if !OneLine(name) then NotSent
        else if |line| >= MAX_LINE then TooLong
        else Understood(NameArrival(kind, name))
  {
    hide OneLine, Tokens, ParseCommand, ValidName, Unbroken;
    var verb := VerbOf(kind);
    VerbsAreUnbroken();
    assert verb + " " + name == (verb + " ") + name;
    VerbBefore(verb + " ", name);
    StrippedAfter(verb, name);
    NameLineParses(kind, Stripped(name));
  }

  lemma StrippedAfter(verb: string, name: string)
    ensures Stripped(NameLine(verb, name)) == NameLine(verb, Stripped(name))
  {
    var line := NameLine(verb, name);
    if name != "" && name[|name| - 1] == '\r' {
      assert line[..|line| - 1] == verb + " " + name[..|name| - 1];
    }
  }

  // ------------------------------------------------------------ round trips

  lemma NamesArrive(name: string)
    requires ValidName(name)
    ensures |name| <= 64 && OneLine(name) && Word(name) && Stripped(name) == name
  {
    ValidNamesAreUnbroken(name);
    ValidNamesAreWords(name);
  }

  /** Whatever the client is given as a name, a request arrives as it was made exactly when its name
      and size are acceptable, its timeout is not negative and its cost is zero. */
  lemma AcquireRoundTripIff(name: string, bytes: Bytes, options: Admission.AcquireOptions)
    ensures Arrives(AcquireLine(name, bytes, options)) ==
        Understood(Accepted(Command(Acquire, name, bytes, Wait, options, "", "")))
      <==> ValidName(name) && bytes > 0 && options.timeout >= 0 && options.cost == 0
  {
    hide OneLine, Stripped, Ended, ParseCommand, AcquireLine, Unbroken, ValidName, Word;
    var tail := AcquireLineParts(name, bytes, options);
    EndedKeeps("acquire " + name, tail);
    VerbsAreUnbroken();
    VerbBefore("acquire ", name);
    AcquireParsesBackIff(name, bytes, options);
    if ValidName(name) {
      NamesArrive(name);
    }
  }

  lemma TryAcquireRoundTripIff(name: string, bytes: Bytes)
    ensures Arrives(TryAcquireLine(name, bytes)) ==
        Understood(Accepted(Command(Acquire, name, bytes, Try, Admission.AcquireOptions(0, 0, 0), "", "")))
      <==> ValidName(name) && bytes > 0
  {
    hide OneLine, Stripped, ParseCommand, Unbroken, ValidName, Word, Numeral, SignedNumeral;
    NumeralsAreUnbroken(bytes);
    NumeralIsItself(bytes);
    VerbsAreUnbroken();
    var tail := " " + Numeral(bytes);
    assert TryAcquireLine(name, bytes) == "try_acquire " + name + tail;
    EndedKeeps("try_acquire " + name, tail);
    VerbBefore("try_acquire ", name);
    TryAcquireParsesBackIff(name, bytes);
    if ValidName(name) {
      NamesArrive(name);
    }
  }

  lemma NameLineRoundTripIff(kind: CommandType, name: string)
    requires kind in {Release, LoadModel, UnloadModel, Share}
    ensures Arrives(NameLine(VerbOf(kind), name)) == Understood(Accepted(Command(kind, name, 0, Wait, DEFAULTS, "", "")))
      <==> ValidName(name)
  {
    hide OneLine, Stripped, Unbroken, ValidName, Word, Tokens;
    NameLineArrives(kind, name);
    if ValidName(name) {
      NamesArrive(name);
      WordIsOneToken(name);
    }
  }

  /** A name with a blank in it can arrive as another name, size, priority and timeout ... */
  lemma BlankNameIsAnotherRequest()
    ensures Arrives(AcquireLine("a 5", 100, Admission.AcquireOptions(0, NO_TIMEOUT, 0))) ==
      Understood(Accepted(Command(Acquire, "a", 5, Wait, Admission.AcquireOptions(100, 0, 0), "", "")))
  {
    hide ParseCommand, ParseAcquire, Tokens, AcquireLine, Ended;
    var c := Command(Acquire, "a", 5, Wait, Admission.AcquireOptions(100, 0, 0), "", "");
    var o := Admission.AcquireOptions(0, NO_TIMEOUT, 0);
    LineSaysCommand(c);
    SameLine(c);
    AcquireArrives("a 5", 100, o);
    AcquireLineParses("a 5", 100, o);
    var tail := AcquireLineParts("a 5", 100, o);
    assert OneLine("a 5");
  }

  /** ... and a name that ends in a carriage return as the name before it: another client is released. */
  lemma ReturnReleasesAnother()
    ensures ParseCommand(NameLine("release", "a\r")) == Rejected(InvalidName)
    ensures Arrives(NameLine("release", "a\r")) == Understood(Accepted(Command(Release, "a", 0, Wait, DEFAULTS, "", "")))
  {
    hide ParseCommand, Tokens;
    var name := "a\r";
    assert Word(name) && Word("a") && Stripped(name) == "a" && OneLine(name);
    assert !ValidName(name) by { assert !NameChar(name[1]); }
    WordIsOneToken(name);
    WordIsOneToken("a");
    NameLineParses(Release, name);
    NameLineArrives(Release, name);
  }

  /** A request for memory, delivered in any pieces, is answered as one command with the fields the
      client was given, up to the field that is not read. */
  lemma AcquireReachesTheDaemon(
    name: string, bytes: Bytes, options: Admission.AcquireOptions, chunks: seq<string>)
    requires ValidName(name)
    requires Concat(chunks) == AcquireLine(name, bytes, options) + "\n"
    ensures FeedAll(Begun(), chunks) == Cut([AcquireLine(name, bytes, options)], "", true)
    ensures Answers(FeedAll(Begun(), chunks).lines) == [AcquireArrival(name, bytes, options)]
  {
    hide FeedAll, Answers, Arrives, ValidName, AcquireLine, Word, OneLine, Stripped, ParseAcquire, AcquireArrival, Ended;
    NamesArrive(name);
    var tail := AcquireLineParts(name, bytes, options);
    AcquireArrives(name, bytes, options);
    ArrivesAsServed(AcquireLine(name, bytes, options), chunks);
  }

  // --------------------------------------------------- what can be delivered

  /** A command that can be said in a line the daemon reads: its path, which may hold anything but
      blanks, holds no newline, and the line of a file registration, which may be long, fits. */
  predicate Deliverable(c: Command) {
    Sayable(c) && OneLine(c.path) && (c.kind == RegisterFile ==> |Line(c)| < MAX_LINE)
  }

  lemma {:induction false} TokensAreOneLine(line: string)
    requires OneLine(line)
    ensures forall i :: 0 <= i < |Tokens(line)| ==> OneLine(Tokens(line)[i])
    decreases |line|
  {
    hide Tokens, Word, AllBlank;
    var gap, word, tail := FirstWord(line);
    PartsOfOneLine(gap, word, tail);
    if word == "" {
      TokensOfBlank(line);
    } else {
      TokensStep(gap, word, tail);
      TokensAreOneLine(tail);
    }
  }

  lemma PartsOfOneLine(a: string, b: string, c: string)
    requires OneLine(a + b + c)
    ensures OneLine(b) && OneLine(c)
  {
    var line := a + b + c;
    assert forall i :: 0 <= i < |b| ==> line[|a| + i] == b[i];
    assert forall i :: 0 <= i < |c| ==> line[|a| + |b| + i] == c[i];
  }

  /** No line with these tokens is shorter than the tokens with a blank between them. */
  lemma {:induction false} JoinedIsShortest(words: seq<string>, gaps: seq<string>)
    requires IsLayout(words, gaps)
    ensures |Joined(words)| <= |Layout(words, gaps)|
    ensures words != [] && gaps[0] != "" ==> |Joined(words)| < |Layout(words, gaps)|
  {
    if |words| > 1 {
      JoinedIsShortest(words[1..], gaps[1..]);
      assert gaps[1..][0] != "";
    } else if |words| == 1 {
      assert words[1..] == [];
    }
  }

  lemma {:induction false} JoinedIsShort(words: seq<string>)
    requires forall i :: 0 <= i < |words| ==> |words[i]| <= 256
    ensures |Joined(words)| <= 257 * |words|
  {
    if |words| > 1 {
      JoinedIsShort(words[1..]);
    }
  }

  lemma {:induction false} JoinedIsOneLine(words: seq<string>)
    requires forall i :: 0 <= i < |words| ==> OneLine(words[i])
    ensures OneLine(Joined(words))
  {
    if |words| > 1 {
      JoinedIsOneLine(words[1..]);
    }
  }

  lemma {:induction false} JoinedEndsInLast(words: seq<string>)
    requires words != [] && Ended(words[|words| - 1])
    ensures Joined(words) != "" && Stripped(Joined(words)) == Joined(words)
  {
    if |words| == 1 {
      EndedKeeps("", words[0]);
      assert "" + words[0] == words[0];
    } else {
      JoinedMore(words[..|words| - 1], words[|words| - 1]);
      assert words[..|words| - 1] + [words[|words| - 1]] == words;
      EndedKeeps(Joined(words[..|words| - 1]) + " ", words[|words| - 1]);
    }
  }

  lemma FieldsAreShort(c: Command)
    requires Sayable(c)
    ensures Ended(Verb(c.kind, c.mode)) && |Verb(c.kind, c.mode)| <= 13
    ensures Ended(Numeral(c.bytes)) && |Numeral(c.bytes)| <= 20
    ensures forall n :: n in {c.options.priority, c.options.timeout, c.options.cost} ==>
      Ended(SignedNumeral(n)) && |SignedNumeral(n)| <= 21
    ensures !IsListing(c.kind) ==> Ended(c.name) && |c.name| <= 64
    ensures c.kind in {RegisterModel, RegisterFile} ==> Ended(c.metadata) && |c.metadata| <= 128
    ensures c.kind == RegisterNode ==> |c.path| <= 256
  {
    hide Numeral, SignedNumeral, SayableOptions, Verb;
    VerbIsShort(c.kind, c.mode);
    NumeralOfBytesIsShort(c.bytes);
    NumeralIsItself(c.bytes);
    forall n | n in {c.bytes, c.options.priority, c.options.timeout, c.options.cost}
      ensures Ended(SignedNumeral(n)) && |SignedNumeral(n)| <= 21
    {
      NumeralsAreUnbroken(n);
      NumeralEnds(n);
    }
    if !IsListing(c.kind) {
      ValidNamesAreUnbroken(c.name);
    }
    if c.kind in {RegisterModel, RegisterFile} {
      MetadataIsUnbroken(c.metadata);
    }
  }

  lemma VerbIsShort(kind: CommandType, mode: AcquireMode)
    ensures Ended(Verb(kind, mode)) && |Verb(kind, mode)| <= 13
  {
    hide Verb;
    VerbIsText(kind, mode);
  }

  lemma NumeralEnds(n: int)
    requires Unbroken(" " + SignedNumeral(n))
    ensures Ended(SignedNumeral(n))
  {
    var text := " " + SignedNumeral(n);
    forall i | 0 <= i < |SignedNumeral(n)| ensures SignedNumeral(n)[i] == text[i + 1] {
    }
  }

  lemma MetadataIsUnbroken(metadata: string)
    requires ModelStores.ValidMetadata(metadata)
    ensures Ended(metadata)
  {
  }

  /** The canonical line of a deliverable command can be sent and is read as it is. */
  lemma LineIsDelivered(c: Command)
    requires Deliverable(c)
    ensures Line(c) != "" && OneLine(Line(c)) && |Line(c)| < MAX_LINE && Stripped(Line(c)) == Line(c)
  {
    hide Numeral, SignedNumeral, Verb, ValidName, Joined, Stripped, Ended, OneLine, Unbroken;
    FieldsAreShort(c);
    var words := Words(c);
    LastWordEnds(c);
    JoinedEndsInLast(words);
    WordsAreOneLine(c);
    JoinedIsOneLine(words);
    if c.kind != RegisterFile {
      JoinedIsShort(words);
    }
  }

  lemma LastWordEnds(c: Command)
    requires Sayable(c)
    ensures Words(c) != [] && Ended(Words(c)[|Words(c)| - 1])
  {
    hide Numeral, SignedNumeral, Verb, ValidName, Ended;
    FieldsAreShort(c);
  }

  lemma ZeroEnds()
    ensures Ended("0")
  {
  }

  lemma EndedIsOneLine(text: string)
    requires Ended(text)
    ensures OneLine(text)
  {
  }

  lemma WordsAreOneLine(c: Command)
    requires Sayable(c) && OneLine(c.path)
    ensures forall i :: 0 <= i < |Words(c)| ==> OneLine(Words(c)[i])
  {
    hide Numeral, SignedNumeral, Verb, ValidName, Ended, OneLine;
    FieldsAreShort(c);
    ZeroEnds();
    forall i | 0 <= i < |Words(c)| ensures OneLine(Words(c)[i]) {
      if Words(c)[i] != c.path {
        assert Ended(Words(c)[i]);
        EndedIsOneLine(Words(c)[i]);
      }
    }
  }

  /** A path is a token of the line it comes from. */
  lemma PathIsToken(tokens: seq<string>)
    ensures var r := ParseTokens(tokens); r.Accepted? ==>
      && (r.command.path != "" ==> r.command.path in tokens)
      && (r.command.kind == RegisterFile ==> tokens == Words(r.command))
  {
    hide ParseSize, ParseOptions, ValidName, Verb, ParseTokens;
    if ParseTokens(tokens).Accepted? {
      var kind, mode := AcceptedHasVerb(tokens);
      PathOfBranch(tokens, kind, mode);
    }
  }

  lemma PathOfBranch(tokens: seq<string>, kind: CommandType, mode: AcquireMode)
    requires tokens != [] && tokens[0] == Verb(kind, mode)
    ensures var r := Branch(kind, mode, tokens); r.Accepted? ==>
      && (r.command.path != "" ==> r.command.path in tokens)
      && (r.command.kind == RegisterFile ==> tokens == Words(r.command))
  {
    hide ParseSize, ParseOptions, ValidName, Verb;
    OneVerbOtherwise(kind, mode, Wait);
  }

  /** The commands that can reach the daemon are exactly the deliverable ones. */
  lemma DeliverableIff(c: Command)
    ensures Deliverable(c) <==> exists command :: Arrives(command) == Understood(Accepted(c))
  {
    hide Deliverable, Arrives, ParseCommand;
    if Deliverable(c) {
      DeliverableArrives(c);
    }
    forall command | Arrives(command) == Understood(Accepted(c)) ensures Deliverable(c) {
      ArrivedIsDeliverable(command, c);
    }
  }

  lemma DeliverableArrives(c: Command)
    requires Deliverable(c)
    ensures Arrives(Line(c)) == Understood(Accepted(c))
  {
    hide Sayable, Line, ParseCommand, OneLine, Stripped;
    LineIsDelivered(c);
    LineSaysCommand(c);
  }

  lemma ArrivedIsDeliverable(command: string, c: Command)
    requires Arrives(command) == Understood(Accepted(c))
    ensures Deliverable(c)
  {
    hide Sayable, Tokens, ParseTokens, Words, Joined, IsLayout, Layout;
    var line := Stripped(command);
    AcceptedIsSayable(line);
    TokensAreOneLine(line);
    PathIsToken(Tokens(line));
    var gaps := TokensAreALayout(line);
    JoinedIsShortest(Tokens(line), gaps);
  }
}
