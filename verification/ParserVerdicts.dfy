/** Which words the command parser accepts and as what, and which error it finds in any others. */
module ParserVerdicts {
  import opened Common
  import opened Scheduler
  import opened Numerals
  import opened Protocol
  import opened CommandLanguage
  import Admission
  import ModelStores

  /** How many words a command has, its verb included. */
  predicate Arity(kind: CommandType, mode: AcquireMode, n: nat) {
    if kind in {Status, Models, Residency, Metrics, Nodes} then n == 1
    else if kind in {RegisterModel, RegisterFile, RegisterNode} then n == 4
    else if kind == Acquire && mode == Try then n == 3
    else if kind == Acquire then 3 <= n <= 6
    else n == 2
  }

  predicate HasName(kind: CommandType) { kind !in {Status, Models, Residency, Metrics, Nodes} }

  /** The commands about clients and nodes complain of a name, the others of a model id. */
  predicate NamesClient(kind: CommandType) { kind in {Acquire, Release, RegisterNode, UnregisterNode} }

  predicate NameStands(kind: CommandType, mode: AcquireMode, tokens: seq<string>) {
    Arity(kind, mode, |tokens|) && (HasName(kind) ==> |tokens| > 1 && ValidName(tokens[1]))
  }

  /** The word that gives a size. */
  function SizeWord(kind: CommandType, tokens: seq<string>): Option<string> {
    if kind in {Acquire, RegisterModel} && |tokens| > 2 then Some(tokens[2])
    else if kind == RegisterNode && |tokens| > 3 then Some(tokens[3])
    else None
  }

  predicate SizeStands(kind: CommandType, tokens: seq<string>) {
    SizeWord(kind, tokens).Some? ==> ParseSize(SizeWord(kind, tokens).value).Some?
  }

  /** The optional words of an acquire: a priority, then a timeout in the last of five places or a cost
      in the last of six. */
  predicate OptionsStand(tokens: seq<string>) {
    && (|tokens| > 3 ==> ParsePriority(tokens[3]).Some?)
    && (|tokens| == 5 ==> ParseTimeout(tokens[4]).Some?)
    && (|tokens| == 6 ==> ParseTimeout(tokens[5]).Some?)
  }

  /** Which error is found in the words under a verb, for each error exactly when; in all other words
      that are not accepted the request itself is at fault. */
  lemma RejectionIff(tokens: seq<string>, kind: CommandType, mode: AcquireMode)
    requires tokens != [] && tokens[0] == Verb(kind, mode) && forall i :: 0 <= i < |tokens| ==> tokens[i] != ""
    ensures var r := ParseTokens(tokens);
      var counted, named, sized := Arity(kind, mode, |tokens|), NameStands(kind, mode, tokens), SizeStands(kind, tokens);
      && (r == Rejected(InvalidName) <==> counted && !named && NamesClient(kind))
      && (r == Rejected(InvalidModelId) <==> counted && !named && !NamesClient(kind))
      && (r == Rejected(InvalidSize) <==> named && !sized)
      && (r == Rejected(InvalidPath) <==> named && kind == RegisterFile && |tokens[2]| > 4096)
      && (r == Rejected(InvalidMetadata)
          <==> && named && sized && kind in {RegisterModel, RegisterFile}
               && (kind == RegisterFile ==> |tokens[2]| <= 4096) && !ModelStores.ValidMetadata(tokens[3]))
      && (r == Rejected(InvalidRequest)
          <==> || !counted
               || (named && sized && kind == RegisterNode && |tokens[2]| > 256)
               || (named && sized && kind == Acquire && mode == Wait && !OptionsStand(tokens)))
  {
    hide ParseTokens, ParseSize, ParsePriority, ParseTimeout, ValidName, ModelStores.ValidMetadata, Verb;
    VerbLeadsToBranch(tokens, kind, mode);
  }

  /** What accepted words are taken for: each word in its own place. */
  lemma AcceptedFields(tokens: seq<string>, kind: CommandType, mode: AcquireMode)
    requires tokens != [] && tokens[0] == Verb(kind, mode) && ParseTokens(tokens).Accepted?
    ensures Arity(kind, mode, |tokens|)
    ensures var c := ParseTokens(tokens).command;
      && c.kind == kind && (kind == Acquire ==> c.mode == mode)
      && c.name == (if HasName(kind) then tokens[1] else "")
      && (if SizeWord(kind, tokens).Some? then Some(c.bytes) == ParseSize(SizeWord(kind, tokens).value) else c.bytes == 0)
      && c.metadata == (if kind in {RegisterModel, RegisterFile} then tokens[3] else "")
      && c.path == (if kind in {RegisterFile, RegisterNode} then tokens[2] else "")
    ensures var o := ParseTokens(tokens).command.options;
      if kind == Acquire && mode == Wait then
        && (if |tokens| > 3 then ParsePriority(tokens[3]) == Some(o.priority) else o.priority == 0)
        && (if |tokens| == 5 then ParseTimeout(tokens[4]) == Some(o.timeout) else o.timeout == 0x7FFF_FFFF_FFFF_FFFF)
        && (if |tokens| == 6 then ParseTimeout(tokens[5]) == Some(o.cost) else o.cost == 0)
      else if kind == Acquire then o == Admission.AcquireOptions(0, 0, 0)
      else o == Admission.AcquireOptions(0, 0x7FFF_FFFF_FFFF_FFFF, 0)
  {
    hide ParseTokens, ParseSize, ParsePriority, ParseTimeout, ValidName, ModelStores.ValidMetadata, Verb;
    VerbLeadsToBranch(tokens, kind, mode);
  }

  /** A line without words, or under a verb that no kind has, is refused as it stands. */
  lemma UnknownVerbIsRefused(tokens: seq<string>)
    requires tokens != [] ==> forall kind, mode :: tokens[0] != Verb(kind, mode)
    ensures ParseTokens(tokens) == Rejected(InvalidRequest)
  {
    hide Verb, ParseAcquire, ParseTryAcquire, Listing, Named, ParseNodeRegister, ParseRegister, ParseRegisterFile;
    if tokens != [] {
      NotAVerb(tokens[0]);
    }
  }

  lemma NotAVerb(word: string)
    requires forall kind, mode :: word != Verb(kind, mode)
    ensures !KnownVerb(word)
  {
    assert word != Verb(Status, Wait) && word != Verb(Models, Wait) && word != Verb(Residency, Wait);
    assert word != Verb(Share, Wait) && word != Verb(Metrics, Wait) && word != Verb(Nodes, Wait);
    assert word != Verb(RegisterNode, Wait) && word != Verb(UnregisterNode, Wait) && word != Verb(RegisterModel, Wait);
    assert word != Verb(RegisterFile, Wait) && word != Verb(UnregisterModel, Wait) && word != Verb(RetainModel, Wait);
    assert word != Verb(ReleaseModel, Wait) && word != Verb(LoadModel, Wait) && word != Verb(UnloadModel, Wait);
    assert word != Verb(Release, Wait) && word != Verb(Acquire, Try) && word != Verb(Acquire, Wait);
  }
}
