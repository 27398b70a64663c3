/** The commands that can be said in the text protocol, and a canonical line for each. */
module CommandLanguage {
  import opened Common
  import opened Scheduler
  import opened Numerals
  import opened Protocol
  import opened ClientCommands
  import Admission
  import ModelStores

  function Verb(kind: CommandType, mode: AcquireMode): string {
    match kind
    case Status => "status"
    case Models => "models"
    case Residency => "residency"
    case Metrics => "metrics"
    case Nodes => "nodes"
    case Share => "share"
    case RegisterNode => "node_register"
    case UnregisterNode => "node_remove"
    case RegisterModel => "register"
    case RegisterFile => "register_file"
    case UnregisterModel => "unregister"
    case RetainModel => "retain"
    case ReleaseModel => "release_model"
    case LoadModel => "load"
    case UnloadModel => "unload"
    case Release => "release"
    case Acquire => if mode == Try then "try_acquire" else "acquire"
  }

  predicate OnlyNamed(kind: CommandType) {
    kind in {Share, UnregisterNode, UnregisterModel, RetainModel, ReleaseModel, LoadModel, UnloadModel, Release}
  }

  /** The options a line can carry: a timeout or a cost, neither of them negative, but not both. */
  predicate SayableOptions(mode: AcquireMode, o: Admission.AcquireOptions) {
    if mode == Try then o == Admission.AcquireOptions(0, 0, 0)
    else o.timeout >= 0 && o.cost >= 0 && (o.timeout == NO_TIMEOUT || o.cost == 0)
  }

  predicate PathToken(path: string, longest: nat) { Word(path) && |path| <= longest }

  /** A command that some line stands for: a valid name, a positive size, and nothing set that its
      kind does not use. */
  predicate Sayable(c: Command) {
    if IsListing(c.kind) then c == Command(c.kind, "", 0, Wait, DEFAULTS, "", "")
    else
      && ValidName(c.name)
      && match c.kind
         case Acquire => c.bytes > 0 && SayableOptions(c.mode, c.options) && c.metadata == "" && c.path == ""
         case RegisterModel =>
           c.bytes > 0 && c.mode == Wait && c.options == DEFAULTS && ModelStores.ValidMetadata(c.metadata) && c.path == ""
         case RegisterFile =>
           c.bytes == 0 && c.mode == Wait && c.options == DEFAULTS && ModelStores.ValidMetadata(c.metadata) && PathToken(c.path, 4096)
         case RegisterNode =>
           c.bytes > 0 && c.mode == Wait && c.options == DEFAULTS && c.metadata == "" && PathToken(c.path, 256)
         case _ => c == Command(c.kind, c.name, 0, Wait, DEFAULTS, "", "")
  }

  function OptionWords(o: Admission.AcquireOptions): seq<string> {
    [SignedNumeral(o.priority)] +
    if o.cost != 0 then ["0", SignedNumeral(o.cost)]
    else if o.timeout != NO_TIMEOUT then [SignedNumeral(o.timeout)]
    else []
  }

  /** The words of the canonical line. */
  function Words(c: Command): seq<string> {
    if IsListing(c.kind) then [Verb(c.kind, c.mode)]
    else
      [Verb(c.kind, c.mode), c.name] +
      match c.kind
      case Acquire => [Numeral(c.bytes)] + if c.mode == Try then [] else OptionWords(c.options)
      case RegisterModel => [Numeral(c.bytes), c.metadata]
      case RegisterFile => [c.path, c.metadata]
      case RegisterNode => [c.path, Numeral(c.bytes)]
      case _ => []
  }

  function Line(c: Command): string { Joined(Words(c)) }

  // -------------------------------------------------------------- dispatch

  function NameError(kind: CommandType): ParseError {
    if kind in {Release, UnregisterNode} then InvalidName else InvalidModelId
  }

  /** What the verb of a command leads to. */
  function Branch(kind: CommandType, mode: AcquireMode, tokens: seq<string>): Parsed {
    if IsListing(kind) then Listing(kind, tokens)
    else if OnlyNamed(kind) then Named(kind, tokens, NameError(kind))
    else
      match kind
      case RegisterModel => ParseRegister(tokens)
      case RegisterFile => ParseRegisterFile(tokens)
      case RegisterNode => ParseNodeRegister(tokens)
      case _ => if mode == Try then ParseTryAcquire(tokens) else ParseAcquire(tokens)
  }

  lemma VerbLeadsToBranch(tokens: seq<string>, kind: CommandType, mode: AcquireMode)
    requires tokens != [] && tokens[0] == Verb(kind, mode)
    ensures ParseTokens(tokens) == Branch(kind, mode, tokens)
  {
    hide ParseAcquire, ParseTryAcquire, Listing, Named, ParseNodeRegister, ParseRegister, ParseRegisterFile;
  }

  /** The kind a verb stands for, and the mode of an acquire; other words stand for anything. */
  function KindOf(verb: string): (CommandType, AcquireMode) {
    if verb == "status" then (Status, Wait)
    else if verb == "models" then (Models, Wait)
    else if verb == "residency" then (Residency, Wait)
    else if verb == "metrics" then (Metrics, Wait)
    else if verb == "nodes" then (Nodes, Wait)
    else if verb == "share" then (Share, Wait)
    else if verb == "node_register" then (RegisterNode, Wait)
    else if verb == "node_remove" then (UnregisterNode, Wait)
    else if verb == "register" then (RegisterModel, Wait)
    else if verb == "register_file" then (RegisterFile, Wait)
    else if verb == "unregister" then (UnregisterModel, Wait)
    else if verb == "retain" then (RetainModel, Wait)
    else if verb == "release_model" then (ReleaseModel, Wait)
    else if verb == "load" then (LoadModel, Wait)
    else if verb == "unload" then (UnloadModel, Wait)
    else if verb == "release" then (Release, Wait)
    else if verb == "try_acquire" then (Acquire, Try)
    else (Acquire, Wait)
  }

  lemma VerbNamesKind(kind: CommandType, mode: AcquireMode)
    ensures KindOf(Verb(kind, mode)) == (kind, if kind == Acquire then mode else Wait)
  {
  }

  /** No two kinds share a verb, and the two modes of an acquire do not. */
  lemma VerbsDiffer(kind: CommandType, mode: AcquireMode, other: CommandType, otherMode: AcquireMode)
    ensures Verb(kind, mode) == Verb(other, otherMode) <==> kind == other && (kind == Acquire ==> mode == otherMode)
  {
    hide Verb, KindOf;
    VerbNamesKind(kind, mode);
    VerbNamesKind(other, otherMode);
    OneVerbOtherwise(kind, mode, otherMode);
  }

  predicate KnownVerb(verb: string) {
    verb in {"status", "models", "residency", "share", "metrics", "nodes", "node_register", "node_remove", "register",
      "register_file", "unregister", "retain", "release_model", "load", "unload", "release", "try_acquire", "acquire"}
  }

  lemma KnownVerbNamesItself(verb: string)
    requires KnownVerb(verb)
    ensures Verb(KindOf(verb).0, KindOf(verb).1) == verb
  {
  }

  lemma AcceptedVerbIsKnown(tokens: seq<string>)
    requires ParseTokens(tokens).Accepted?
    ensures tokens != [] && KnownVerb(tokens[0])
  {
    hide ParseAcquire, ParseTryAcquire, Listing, Named, ParseNodeRegister, ParseRegister, ParseRegisterFile;
  }

  /** A line is accepted only under the verb of some kind, and then as that kind's branch says. */
  lemma AcceptedHasVerb(tokens: seq<string>) returns (kind: CommandType, mode: AcquireMode)
    requires ParseTokens(tokens).Accepted?
    ensures tokens != [] && tokens[0] == Verb(kind, mode)
    ensures ParseTokens(tokens) == Branch(kind, mode, tokens)
  {
    hide ParseTokens, Verb, KindOf, KnownVerb, Branch;
    AcceptedVerbIsKnown(tokens);
    KnownVerbNamesItself(tokens[0]);
    kind, mode := KindOf(tokens[0]).0, KindOf(tokens[0]).1;
    VerbLeadsToBranch(tokens, kind, mode);
  }

  // ------------------------------------------------ what is accepted is sayable

  lemma BranchIsSayable(kind: CommandType, mode: AcquireMode, tokens: seq<string>)
    requires forall i :: 0 <= i < |tokens| ==> Word(tokens[i])
    ensures var r := Branch(kind, mode, tokens); r.Accepted? ==>
      Sayable(r.command) && r.command.kind == kind && (kind == Acquire ==> r.command.mode == mode)
  {
    hide ParseSize, ParseOptions, Word, ValidName;
    if |tokens| > 2 {
      SizeIsPositive(tokens[2]);
    }
    if |tokens| > 3 {
      SizeIsPositive(tokens[3]);
    }
    if 3 <= |tokens| <= 6 {
      OptionsAreSayable(tokens);
    }
  }

  lemma OptionsAreSayable(tokens: seq<string>)
    requires 3 <= |tokens| <= 6
    ensures ParseOptions(tokens).Some? ==> SayableOptions(Wait, ParseOptions(tokens).value)
  {
    hide ParsePriority, ParseUnsigned;
  }

  /** Whatever line arrives, the command it is taken for is a sayable one, with the line's verb. */
  lemma AcceptedIsSayable(line: string)
    ensures var r := ParseCommand(line); r.Accepted? ==>
      Sayable(r.command) && Tokens(line) != [] && Tokens(line)[0] == Verb(r.command.kind, r.command.mode)
  {
    hide Sayable, Tokens, ParseTokens, Branch, Verb, IsLayout;
    var tokens := Tokens(line);
    if ParseTokens(tokens).Accepted? {
      var gaps := TokensAreALayout(line);
      LayoutWords(tokens, gaps);
      var kind, mode := AcceptedHasVerb(tokens);
      VerbLeadsToBranch(tokens, kind, mode);
      BranchIsSayable(kind, mode, tokens);
      OneVerbOtherwise(kind, mode, ParseTokens(tokens).command.mode);
    }
  }

  lemma LayoutWords(words: seq<string>, gaps: seq<string>)
    requires IsLayout(words, gaps)
    ensures forall i :: 0 <= i < |words| ==> Word(words[i])
  {
  }

  lemma OneVerbOtherwise(kind: CommandType, mode: AcquireMode, other: AcquireMode)
    ensures kind != Acquire ==> Verb(kind, mode) == Verb(kind, other)
  {
  }

  // ------------------------------------------------ what is sayable is accepted

  lemma OptionWordsRead(tokens: seq<string>, o: Admission.AcquireOptions)
    requires SayableOptions(Wait, o) && |tokens| >= 3 && tokens[3..] == OptionWords(o)
    ensures |tokens| <= 6 && ParseOptions(tokens) == Some(o)
  {
    hide ParsePriority, ParseTimeout, SignedNumeral;
    PriorityReadsBack(o.priority);
    TimeoutReadsBack(o.timeout);
    TimeoutReadsBack(o.cost);
    assert forall i :: 3 <= i < |tokens| ==> tokens[i] == tokens[3..][i - 3];
  }

  lemma BranchReadsWords(c: Command)
    requires Sayable(c)
    ensures Branch(c.kind, c.mode, Words(c)) == Accepted(c)
  {
    hide ParseSize, ParseOptions, ValidName, Word, Numeral, Verb, OptionWords;
    SizeReadsBack(c.bytes);
    WordsAreNotEmpty(c);
    var tokens := Words(c);
    if c.kind == Acquire && c.mode == Wait {
      assert tokens[3..] == OptionWords(c.options);
      OptionWordsRead(tokens, c.options);
    }
  }

  lemma WordsAreNotEmpty(c: Command)
    ensures Word(c.path) ==> c.path != ""
  {
  }

  lemma WordsAreWords(c: Command)
    requires Sayable(c)
    ensures forall i :: 0 <= i < |Words(c)| ==> Word(Words(c)[i])
  {
    hide Word, Numeral, SignedNumeral, Verb, ValidName, ModelStores.ValidMetadata;
    NumeralsAreWords(c.bytes);
    NumeralsAreWords(c.options.priority);
    NumeralsAreWords(c.options.timeout);
    NumeralsAreWords(c.options.cost);
    FixedWords(c.kind, c.mode);
    if ValidName(c.name) {
      ValidNamesAreWords(c.name);
    }
    MetadataIsWord(c.metadata);
  }

  /** A verb is short and made of letters and underscores. */
  predicate VerbText(text: string) {
    0 < |text| <= 13 && forall i :: 0 <= i < |text| ==> 'a' <= text[i] <= 'z' || text[i] == '_'
  }

  lemma ListingVerbText(kind: CommandType, mode: AcquireMode)
    requires IsListing(kind)
    ensures VerbText(Verb(kind, mode))
  {
  }

  lemma NamedVerbText(kind: CommandType, mode: AcquireMode)
    requires OnlyNamed(kind)
    ensures VerbText(Verb(kind, mode))
  {
  }

  lemma VerbIsText(kind: CommandType, mode: AcquireMode)
    ensures VerbText(Verb(kind, mode))
  {
    if IsListing(kind) {
      ListingVerbText(kind, mode);
    } else if OnlyNamed(kind) {
      NamedVerbText(kind, mode);
    }
  }

  lemma FixedWords(kind: CommandType, mode: AcquireMode)
    ensures Word(Verb(kind, mode)) && Word("0")
  {
    hide Verb;
    VerbIsText(kind, mode);
  }

  lemma MetadataIsWord(metadata: string)
    ensures ModelStores.ValidMetadata(metadata) ==> Word(metadata)
  {
  }

  /** The canonical line of a sayable command is taken for that command. */
  lemma LineSaysCommand(c: Command)
    requires Sayable(c)
    ensures ParseCommand(Line(c)) == Accepted(c)
  {
    hide Sayable, Words, Tokens, ParseTokens, Branch, Verb;
    WordsAreWords(c);
    JoinedIsTokenized(Words(c));
    FirstWordIsVerb(c);
    VerbLeadsToBranch(Words(c), c.kind, c.mode);
    BranchReadsWords(c);
  }

  lemma FirstWordIsVerb(c: Command)
    ensures Words(c) != [] && Words(c)[0] == Verb(c.kind, c.mode)
  {
  }

  /** A command can be said by some line exactly when it is sayable. */
  lemma SayableIff(c: Command)
    ensures Sayable(c) <==> exists line :: ParseCommand(line) == Accepted(c)
  {
    hide Sayable, ParseCommand;
    if Sayable(c) {
      LineSaysCommand(c);
    }
    forall line | ParseCommand(line) == Accepted(c) ensures Sayable(c) {
      AcceptedIsSayable(line);
    }
  }

  // ------------------------------------------------------- printed and parsed

  /** Whatever the client is given as a name, a request is parsed as it was made exactly when its name
      and size are acceptable, its timeout is not negative and its cost is zero. */
  lemma AcquireParsesBackIff(name: string, bytes: Bytes, options: Admission.AcquireOptions)
    ensures ParseCommand(AcquireLine(name, bytes, options)) == Accepted(Command(Acquire, name, bytes, Wait, options, "", ""))
      <==> ValidName(name) && bytes > 0 && options.timeout >= 0 && options.cost == 0
  {
    hide ParseCommand, ParseAcquire, AcquireLine, Word;
    if ValidName(name) {
      ValidNamesAreWords(name);
      AcquireLineParses(name, bytes, options);
    } else {
      AcceptedIsSayable(AcquireLine(name, bytes, options));
    }
  }

  lemma TryAcquireParsesBackIff(name: string, bytes: Bytes)
    ensures ParseCommand(TryAcquireLine(name, bytes)) ==
        Accepted(Command(Acquire, name, bytes, Try, Admission.AcquireOptions(0, 0, 0), "", ""))
      <==> ValidName(name) && bytes > 0
  {
    hide ParseCommand, ParseTryAcquire, TryAcquireLine, Word;
    if ValidName(name) {
      ValidNamesAreWords(name);
      TryAcquireLineParses(name, bytes);
    } else {
      AcceptedIsSayable(TryAcquireLine(name, bytes));
    }
  }

  lemma NameLineParsesBackIff(kind: CommandType, name: string)
    requires kind in {Release, LoadModel, UnloadModel, Share}
    ensures ParseCommand(NameLine(VerbOf(kind), name)) == Accepted(Command(kind, name, 0, Wait, DEFAULTS, "", ""))
      <==> ValidName(name)
  {
    hide ParseCommand, NameLine, Word;
    if ValidName(name) {
      ValidNamesAreWords(name);
      NameLineParses(kind, name);
    } else {
      AcceptedIsSayable(NameLine(VerbOf(kind), name));
    }
  }

  lemma SameLine(c: Command)
    requires c == Command(Acquire, "a", 5, Wait, Admission.AcquireOptions(100, 0, 0), "", "")
    ensures Line(c) == AcquireLine("a 5", 100, Admission.AcquireOptions(0, NO_TIMEOUT, 0))
  {
    hide Joined;
    assert Numeral(5) == "5" && Numeral(10) == "10" && Numeral(100) == "100" && Numeral(0) == "0";
    assert Words(c) == ["acquire", "a", "5", "100"] + ["0"];
    JoinedMore(["acquire", "a", "5", "100"], "0");
    Joined4("acquire", "a", "5", "100");
  }
}
