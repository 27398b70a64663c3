/** The text protocol: words of a command line, size tokens, and the command parser. */
module Protocol {
  import opened Common
  import opened Scheduler
  import opened Numerals
  import Admission
  import ModelStores

  // ------------------------------------------------------------------- words

  predicate Blank(c: char) { c == ' ' || c == '\t' }

  predicate AllBlank(s: string) { forall i :: 0 <= i < |s| ==> Blank(s[i]) }

  predicate Word(s: string) { s != "" && forall i :: 0 <= i < |s| ==> !Blank(s[i]) }

  /** The length of the longest prefix whose characters are all blank, or all not blank. */
  function Run(s: string, blank: bool): (n: nat)
    ensures n <= |s|
    ensures forall i :: 0 <= i < n ==> Blank(s[i]) == blank
    ensures n < |s| ==> Blank(s[n]) != blank
  {
    if s == "" || Blank(s[0]) != blank then 0 else 1 + Run(s[1..], blank)
  }

  function Tokens(line: string): seq<string>
    decreases |line|
  {
    var rest := line[Run(line, true)..];
    if rest == "" then [] else [rest[..Run(rest, false)]] + Tokens(rest[Run(rest, false)..])
  }

  /** Words with the blanks before, between and after them. */
  predicate IsLayout(words: seq<string>, gaps: seq<string>) {
    && |gaps| == |words| + 1
    && (forall i :: 0 <= i < |gaps| ==> AllBlank(gaps[i]))
    && (forall i :: 0 < i < |words| ==> gaps[i] != "")
    && (forall i :: 0 <= i < |words| ==> Word(words[i]))
  }

  function Layout(words: seq<string>, gaps: seq<string>): string
    requires |gaps| == |words| + 1
  {
    if words == [] then gaps[0] else gaps[0] + words[0] + Layout(words[1..], gaps[1..])
  }

  lemma RunEnds(s: string, blank: bool, n: nat)
    requires n <= |s|
    requires forall i :: 0 <= i < n ==> Blank(s[i]) == blank
    requires n < |s| ==> Blank(s[n]) != blank
    ensures Run(s, blank) == n
  {
  }

  lemma TokensStep(gap: string, word: string, tail: string)
    requires AllBlank(gap) && Word(word) && (tail == "" || Blank(tail[0]))
    ensures Tokens(gap + word + tail) == [word] + Tokens(tail)
  {
    hide Run;
    var line := gap + word + tail;
    assert forall i :: 0 <= i < |gap| ==> line[i] == gap[i];
    assert line[|gap|] == word[0];
    RunEnds(line, true, |gap|);
    var rest := line[|gap|..];
    assert rest == word + tail;
    RunEnds(rest, false, |word|);
    assert rest[..|word|] == word && rest[|word|..] == tail;
  }

  lemma TokensOfBlank(gap: string)
    requires AllBlank(gap)
    ensures Tokens(gap) == []
  {
    RunEnds(gap, true, |gap|);
  }

  /** Whatever blanks separate them, the words of a line are its tokens ... */
  lemma {:induction false} LayoutIsTokenized(words: seq<string>, gaps: seq<string>)
    requires IsLayout(words, gaps)
    ensures Tokens(Layout(words, gaps)) == words
  {
    hide Tokens, AllBlank, Word;
    if words == [] {
      TokensOfBlank(gaps[0]);
    } else {
      LayoutIsTokenized(words[1..], gaps[1..]);
      var tail := Layout(words[1..], gaps[1..]);
      GapComesFirst(words[1..], gaps[1..]);
      TokensStep(gaps[0], words[0], tail);
    }
  }

  lemma GapComesFirst(words: seq<string>, gaps: seq<string>)
    requires |gaps| == |words| + 1 && AllBlank(gaps[0]) && (words != [] ==> gaps[0] != "")
    ensures Layout(words, gaps) == "" || Blank(Layout(words, gaps)[0])
  {
  }

  lemma LayoutGrows(gap: string, word: string, words: seq<string>, gaps: seq<string>)
    requires AllBlank(gap) && Word(word) && IsLayout(words, gaps) && (words != [] ==> gaps[0] != "")
    ensures IsLayout([word] + words, [gap] + gaps)
    ensures Layout([word] + words, [gap] + gaps) == gap + word + Layout(words, gaps)
  {
    assert ([word] + words)[1..] == words && ([gap] + gaps)[1..] == gaps;
  }

  /** ... and every line is laid out from its tokens: nothing but blanks is dropped. */
  lemma {:induction false} TokensAreALayout(line: string) returns (gaps: seq<string>)
    ensures IsLayout(Tokens(line), gaps) && Layout(Tokens(line), gaps) == line
    decreases |line|
  {
    hide IsLayout, Layout, Tokens, AllBlank, Word;
    var gap, word, tail := FirstWord(line);
    if word == "" {
      TokensOfBlank(line);
      BlankLayout(line);
      gaps := [line];
    } else {
      var more := TokensAreALayout(tail);
      TokensStep(gap, word, tail);
      LayoutStarts(Tokens(tail), more);
      LayoutGrows(gap, word, Tokens(tail), more);
      gaps := [gap] + more;
    }
  }

  lemma FirstWord(line: string) returns (gap: string, word: string, tail: string)
    ensures line == gap + word + tail
    ensures if word == "" then AllBlank(line) else AllBlank(gap) && Word(word) && |tail| < |line|
    ensures tail == "" || Blank(tail[0])
  {
    hide Run;
    gap := line[..Run(line, true)];
    var rest := line[Run(line, true)..];
    word, tail := rest[..Run(rest, false)], rest[Run(rest, false)..];
  }

  lemma BlankLayout(gap: string)
    requires AllBlank(gap)
    ensures IsLayout([], [gap]) && Layout([], [gap]) == gap
  {
  }

  lemma LayoutStarts(words: seq<string>, gaps: seq<string>)
    requires IsLayout(words, gaps) && (Layout(words, gaps) == "" || Blank(Layout(words, gaps)[0]))
    ensures |gaps| > 0 && (words != [] ==> gaps[0] != "")
  {
    if words != [] && gaps[0] == "" {
      WordComesFirst(words, gaps);
    }
  }

  lemma WordComesFirst(words: seq<string>, gaps: seq<string>)
    requires IsLayout(words, gaps) && words != [] && gaps[0] == ""
    ensures Layout(words, gaps) != "" && !Blank(Layout(words, gaps)[0])
  {
    assert Layout(words, gaps)[0] == words[0][0];
  }

  lemma BlankIsSkipped(s: string)
    requires s != "" && Blank(s[0])
    ensures Tokens(s) == Tokens(s[1..])
  {
    assert s[Run(s, true)..] == s[1..][Run(s[1..], true)..];
  }

  lemma {:induction false} BlanksAreSkipped(gap: string, s: string)
    requires AllBlank(gap)
    ensures Tokens(gap + s) == Tokens(s)
    decreases |gap|
  {
    hide Tokens;
    if gap == "" {
      assert gap + s == s;
    } else {
      BlankIsSkipped(gap + s);
      BlanksAreSkipped(gap[1..], s);
      assert (gap + s)[1..] == gap[1..] + s;
    }
  }

  /** A blank separates the words before it from those after it. */
  lemma {:induction false} TokensAcross(a: string, b: string)
    ensures Tokens(a + " " + b) == Tokens(a) + Tokens(b)
    decreases |a|
  {
    hide Tokens, Word;
    var gap, word, tail := FirstWord(a);
    if word == "" {
      TokensOfBlank(a);
      BlanksAreSkipped(a + " ", b);
    } else {
      var more := tail + " " + b;
      TokensAcross(tail, b);
      TokensStep(gap, word, tail);
      TokensStep(gap, word, more);
      assert a + " " + b == gap + word + more;
    }
  }

  /** So does a tab, and no other character separates anything. */
  lemma {:induction false} TabSeparates(a: string, b: string)
    ensures Tokens(a + "\t" + b) == Tokens(a) + Tokens(b)
    decreases |a|
  {
    hide Tokens, Word;
    var gap, word, tail := FirstWord(a);
    if word == "" {
      TokensOfBlank(a);
      BlanksAreSkipped(a + "\t", b);
    } else {
      TabSeparates(tail, b);
      TokensStep(gap, word, tail);
      TokensStep(gap, word, tail + "\t" + b);
      assert a + "\t" + b == gap + word + (tail + "\t" + b);
    }
  }

  lemma NothingElseSeparates(s: string)
    requires s != "" && forall i :: 0 <= i < |s| ==> s[i] as int !in {32, 9}
    ensures Tokens(s) == [s]
  {
    hide Tokens;
    TokensStep("", s, "");
    TokensOfBlank("");
    assert "" + s + "" == s;
  }

  lemma WordIsTaken(s: string)
    requires s != "" && !Blank(s[0])
    ensures Tokens(s) == [s[..Run(s, false)]] + Tokens(s[Run(s, false)..])
  {
    assert s[0..] == s;
  }

  lemma RunShrinks(s: string)
    requires s != ""
    ensures Run(s, false) == if Blank(s[0]) then 0 else 1 + Run(s[1..], false)
  {
  }

  method Tokenize(line: string) returns (tokens: seq<string>)
    ensures tokens == Tokens(line)
  {
    hide Tokens, Run;
    tokens := [];
    var position := 0;
    assert line[0..] == line;
    while position < |line|
      invariant position <= |line|
      invariant tokens + Tokens(line[position..]) == Tokens(line)
      decreases |line| - position
    {
      ghost var first := position;
      while position < |line| && Blank(line[position])
        invariant first <= position <= |line|
        invariant Tokens(line[first..]) == Tokens(line[position..])
        invariant position == first ==> line[position..] == line[first..]
      {
        BlankIsSkipped(line[position..]);
        assert line[position..][1..] == line[position + 1..];
        position := position + 1;
      }
      if position == |line| {
        break;
      }
      var start := position;
      while position < |line| && !Blank(line[position])
        invariant start <= position <= |line| && (position == start ==> position < |line| && !Blank(line[position]))
        invariant start + Run(line[start..], false) == position + Run(line[position..], false)
      {
        RunShrinks(line[position..]);
        assert line[position..][1..] == line[position + 1..];
        position := position + 1;
      }
      if position < |line| {
        RunShrinks(line[position..]);
      }
      WordIsTaken(line[start..]);
      assert line[start..][..position - start] == line[start..position];
      assert line[start..][position - start..] == line[position..];
      tokens := tokens + [line[start..position]];
    }
    assert line[|line|..] == "";
    TokensOfBlank("");
  }

  // ------------------------------------------------------------------- sizes

  const SUFFIXES: seq<(string, Bytes)> := [
    ("KiB", 1024), ("MiB", 1024 * 1024), ("GiB", 1024 * 1024 * 1024),
    ("KB", 1000), ("MB", 1000 * 1000), ("GB", 1000 * 1000 * 1000), ("B", 1)]

  predicate EndsWith(s: string, suffix: string) {
    |suffix| <= |s| && s[|s| - |suffix|..] == suffix
  }

  /** The first listed suffix the token ends with, at or after position i. */
  function FirstSuffix(token: string, i: nat): (k: nat)
    requires i <= |SUFFIXES|
    ensures i <= k <= |SUFFIXES|
    ensures forall j :: i <= j < k ==> !EndsWith(token, SUFFIXES[j].0)
    ensures k < |SUFFIXES| ==> EndsWith(token, SUFFIXES[k].0)
    decreases |SUFFIXES| - i
  {
    if i == |SUFFIXES| || EndsWith(token, SUFFIXES[i].0) then i else FirstSuffix(token, i + 1)
  }

  function ParseSize(token: string): Option<Bytes> {
    var k := FirstSuffix(token, 0);
    var digits := if k < |SUFFIXES| then token[..|token| - |SUFFIXES[k].0|] else token;
    Scaled(digits, if k < |SUFFIXES| then SUFFIXES[k].1 else 1)
  }

  function Scaled(digits: string, multiplier: Bytes): Option<Bytes>
    requires multiplier > 0
  {
    if digits == "" || !AllDigits(digits) then None else
      match ScanUnsigned(digits)
      case Number(value, stop) =>
        if stop != |digits| || value == 0 || value > MAX_BYTES / multiplier then None
        else Some(Product(value, multiplier))
      case _ => None
  }

  /** The check against the quotient is what keeps the product within 64 bits. */
  function Product(value: Bytes, multiplier: Bytes): (p: Bytes)
    requires multiplier > 0 && value <= MAX_BYTES / multiplier
    ensures p == value * multiplier
  {
    QuotientBound(value, multiplier);
    value * multiplier
  }

  lemma QuotientBound(value: nat, multiplier: nat)
    requires multiplier > 0
    ensures value <= MAX_BYTES / multiplier <==> value * multiplier <= MAX_BYTES
  {
    var q, r := MAX_BYTES / multiplier, MAX_BYTES % multiplier;
    assert MAX_BYTES == q * multiplier + r;
    if value <= q {
      assert value * multiplier <= q * multiplier;
    } else {
      assert value * multiplier >= (q + 1) * multiplier;
    }
  }

  method ReadSize(token: string) returns (size: Option<Bytes>)
    ensures size == ParseSize(token)
  {
    hide Scaled;
    var multiplier: Bytes := 1;
    var digits := token;
    var k := 0;
    while k < |SUFFIXES|
      invariant k <= |SUFFIXES| && multiplier == 1 && digits == token
      invariant FirstSuffix(token, 0) == FirstSuffix(token, k)
    {
      if EndsWith(token, SUFFIXES[k].0) {
        digits, multiplier := token[..|token| - |SUFFIXES[k].0|], SUFFIXES[k].1;
        break;
      }
      k := k + 1;
    }
    size := ReadScaled(digits, multiplier);
  }

  method ReadScaled(digits: string, multiplier: Bytes) returns (size: Option<Bytes>)
    requires multiplier > 0
    ensures size == Scaled(digits, multiplier)
  {
    if digits == "" {
      return None;
    }
    var i := 0;
    while i < |digits|
      invariant i <= |digits| && forall j :: 0 <= j < i ==> IsDigit(digits[j])
    {
      if !IsDigit(digits[i]) {
        return None;
      }
      i := i + 1;
    }
    match ScanUnsigned(digits) {
      case Number(value, stop) =>
        if stop != |digits| || value == 0 {
          return None;
        }
        if value > MAX_BYTES / multiplier {
          return None;
        }
        return Some(Product(value, multiplier));
      case _ =>
        return None;
    }
  }

  /** What a unit is worth; no unit means bytes. */
  function Worth(unit: string): Option<nat> {
    if unit == "" || unit == "B" then Some(1)
    else if unit == "KB" then Some(1_000)
    else if unit == "MB" then Some(1_000_000)
    else if unit == "GB" then Some(1_000_000_000)
    else if unit == "KiB" then Some(0x400)
    else if unit == "MiB" then Some(0x10_0000)
    else if unit == "GiB" then Some(0x4000_0000)
    else None
  }

  predicate SizeText(token: string, digits: string, unit: string, size: nat) {
    && token == digits + unit
    && digits != "" && AllDigits(digits)
    && Worth(unit).Some?
    && size == Value(digits) * Worth(unit).value
  }

  lemma ScaledIff(digits: string, multiplier: Bytes, size: Bytes)
    requires multiplier > 0
    ensures Scaled(digits, multiplier) == Some(size) <==>
            digits != "" && AllDigits(digits) && size == Value(digits) * multiplier && size > 0
  {
    if digits != "" && AllDigits(digits) {
      assert DigitRun(digits) == |digits| && digits[..|digits|] == digits;
      QuotientBound(Value(digits), multiplier);
      AtLeastItself(Value(digits), multiplier);
    }
  }

  lemma AtLeastItself(x: nat, factor: nat)
    requires factor > 0
    ensures x <= x * factor
    ensures x * factor == 0 <==> x == 0
  {
    assert x * factor == x + x * (factor - 1);
  }

  lemma SuffixWorth(k: nat)
    requires k < |SUFFIXES|
    ensures Worth(SUFFIXES[k].0) == Some(SUFFIXES[k].1) && SUFFIXES[k].0 != ""
  {
  }

  lemma UnitShape(unit: string)
    requires Worth(unit).Some? && unit != ""
    ensures |unit| <= 3 && unit[|unit| - 1] == 'B' && forall i :: 0 <= i < |unit| ==> !IsDigit(unit[i])
    ensures |unit| > 1 ==> unit[0] != 'i'
    ensures |unit| == 3 ==> unit[1] == 'i'
  {
  }

  /** A digit string followed by a unit ends with no other unit of more than one letter. */
  lemma SuffixIsUnit(token: string, digits: string, unit: string, suffix: string)
    requires token == digits + unit && digits != "" && AllDigits(digits) && Worth(unit).Some?
    requires Worth(suffix).Some? && suffix != "" && EndsWith(token, suffix)
    ensures unit != "" && (|suffix| > 1 ==> suffix == unit)
  {
    hide AllDigits, Worth, IsDigit;
    var n := |token|;
    UnitShape(suffix);
    DigitAt(digits, |digits| - 1);
    assert token[n - 1] == suffix[|suffix| - 1];
    if unit != "" {
      UnitShape(unit);
      if |suffix| > 1 {
        assert token[n - 2] == suffix[|suffix| - 2];
        assert |unit| == |suffix|;
        assert unit == token[n - |unit|..];
      }
    }
  }

  lemma DigitAt(digits: string, i: nat)
    requires AllDigits(digits) && i < |digits|
    ensures IsDigit(digits[i])
  {
  }

  function UnitIndex(unit: string): (u: nat)
    requires unit != "" && Worth(unit).Some?
    ensures u < |SUFFIXES| && SUFFIXES[u].0 == unit
  {
    if unit == "KiB" then 0 else if unit == "MiB" then 1 else if unit == "GiB" then 2
    else if unit == "KB" then 3 else if unit == "MB" then 4 else if unit == "GB" then 5 else 6
  }

  lemma UnitIsFound(token: string, digits: string, unit: string)
    requires token == digits + unit && digits != "" && AllDigits(digits) && Worth(unit).Some?
    ensures var k := FirstSuffix(token, 0); if unit == "" then k == |SUFFIXES| else k < |SUFFIXES| && SUFFIXES[k].0 == unit
  {
    hide AllDigits, Worth, FirstSuffix;
    var k := FirstSuffix(token, 0);
    if k < |SUFFIXES| {
      SuffixWorth(k);
      SuffixIsUnit(token, digits, unit, SUFFIXES[k].0);
    }
    if unit != "" {
      var u := UnitIndex(unit);
      assert EndsWith(token, SUFFIXES[u].0);
      assert k <= u;
    }
  }

  /** A token is a size exactly when it is digits and a known unit (or none) whose product is a
      positive 64-bit number. */
  lemma SizeIsDigitsAndUnit(token: string, size: Bytes)
    ensures ParseSize(token) == Some(size) <==> size > 0 && exists digits, unit :: SizeText(token, digits, unit, size)
  {
    if ParseSize(token) == Some(size) {
      var digits, unit := SizeComesApart(token, size);
      assert SizeText(token, digits, unit, size);
    }
    forall digits, unit | size > 0 && SizeText(token, digits, unit, size)
      ensures ParseSize(token) == Some(size)
    {
      SizeIsRead(token, digits, unit, size);
    }
  }

  lemma SizeComesApart(token: string, size: Bytes) returns (digits: string, unit: string)
    requires ParseSize(token) == Some(size)
    ensures size > 0 && SizeText(token, digits, unit, size)
  {
    hide FirstSuffix, Scaled, Worth;
    var k := FirstSuffix(token, 0);
    digits, unit := token, "";
    if k < |SUFFIXES| {
      digits, unit := token[..|token| - |SUFFIXES[k].0|], SUFFIXES[k].0;
      SuffixWorth(k);
    }
    assert token == digits + unit;
    assert Worth("") == Some(1) by { NoUnit(); }
    ScaledIff(digits, if k < |SUFFIXES| then SUFFIXES[k].1 else 1, size);
  }

  lemma NoUnit()
    ensures Worth("") == Some(1)
  {
  }

  lemma SizeIsRead(token: string, digits: string, unit: string, size: Bytes)
    requires size > 0 && SizeText(token, digits, unit, size)
    ensures ParseSize(token) == Some(size)
  {
    hide FirstSuffix, Scaled, Worth, AllDigits;
    UnitIsFound(token, digits, unit);
    var k := FirstSuffix(token, 0);
    if k < |SUFFIXES| {
      SuffixWorth(k);
      assert token[..|token| - |unit|] == digits;
    } else {
      NoUnit();
      assert token == digits;
    }
    ScaledIff(digits, if k < |SUFFIXES| then SUFFIXES[k].1 else 1, size);
  }

  // ---------------------------------------------------------------- commands

  datatype CommandType =
    | Acquire | Release | Status | RegisterModel | RegisterFile | Share | Metrics | RegisterNode | UnregisterNode
    | Nodes | UnregisterModel | RetainModel | ReleaseModel | Models | LoadModel | UnloadModel | Residency

  datatype AcquireMode = Wait | Try

  datatype ParseError = InvalidRequest | InvalidSize | InvalidName | InvalidModelId | InvalidMetadata | InvalidPath

  const DEFAULTS := Admission.AcquireOptions(0, NO_TIMEOUT, 0)

  datatype Command = Command(
    kind: CommandType, name: string, bytes: Bytes, mode: AcquireMode, options: Admission.AcquireOptions, metadata: string,
    path: string)

  datatype Parsed = Accepted(command: Command) | Rejected(error: ParseError)

  function Plain(kind: CommandType, name: string): Parsed {
    Accepted(Command(kind, name, 0, Wait, DEFAULTS, "", ""))
  }

  function Listing(kind: CommandType, tokens: seq<string>): Parsed {
    if |tokens| != 1 then Rejected(InvalidRequest) else Plain(kind, "")
  }

  function Named(kind: CommandType, tokens: seq<string>, error: ParseError): Parsed {
    if |tokens| != 2 then Rejected(InvalidRequest)
    else if !ValidName(tokens[1]) then Rejected(error)
    else Plain(kind, tokens[1])
  }

  function ParseNodeRegister(tokens: seq<string>): Parsed {
    if |tokens| != 4 then Rejected(InvalidRequest)
    else if !ValidName(tokens[1]) then Rejected(InvalidName)
    else
      var capacity := ParseSize(tokens[3]);
      if capacity == None then Rejected(InvalidSize)
      else if tokens[2] == "" || |tokens[2]| > 256 then Rejected(InvalidRequest)
      else Accepted(Command(RegisterNode, tokens[1], capacity.value, Wait, DEFAULTS, "", tokens[2]))
  }

  function ParseRegister(tokens: seq<string>): Parsed {
    if |tokens| != 4 then Rejected(InvalidRequest)
    else if !ValidName(tokens[1]) then Rejected(InvalidModelId)
    else
      var bytes := ParseSize(tokens[2]);
      if bytes == None then Rejected(InvalidSize)
      else if !ModelStores.ValidMetadata(tokens[3]) then Rejected(InvalidMetadata)
      else Accepted(Command(RegisterModel, tokens[1], bytes.value, Wait, DEFAULTS, tokens[3], ""))
  }

  function ParseRegisterFile(tokens: seq<string>): Parsed {
    if |tokens| != 4 then Rejected(InvalidRequest)
    else if !ValidName(tokens[1]) then Rejected(InvalidModelId)
    else if tokens[2] == "" || |tokens[2]| > 4096 then Rejected(InvalidPath)
    else if !ModelStores.ValidMetadata(tokens[3]) then Rejected(InvalidMetadata)
    else Accepted(Command(RegisterFile, tokens[1], 0, Wait, DEFAULTS, tokens[3], tokens[2]))
  }

  function ParseTryAcquire(tokens: seq<string>): Parsed {
    if |tokens| != 3 then Rejected(InvalidRequest)
    else if !ValidName(tokens[1]) then Rejected(InvalidName)
    else
      var bytes := ParseSize(tokens[2]);
      if bytes == None then Rejected(InvalidSize)
      else Accepted(Command(Acquire, tokens[1], bytes.value, Try, Admission.AcquireOptions(0, 0, 0), "", ""))
  }

  /** The fifth field is read only when it is the last one, the sixth takes its place. */
  function ParseOptions(tokens: seq<string>): Option<Admission.AcquireOptions>
    requires 3 <= |tokens| <= 6
  {
    var priority := if |tokens| >= 4 then ParsePriority(tokens[3]) else Some(0);
    var timeout := if |tokens| == 5 then ParseTimeout(tokens[4]) else Some(NO_TIMEOUT);
    var cost := if |tokens| == 6 then ParseTimeout(tokens[5]) else Some(0);
    if priority == None || timeout == None || cost == None then None
    else Some(Admission.AcquireOptions(priority.value, timeout.value, cost.value))
  }

  function ParseAcquire(tokens: seq<string>): Parsed {
    if |tokens| < 3 || |tokens| > 6 then Rejected(InvalidRequest)
    else if !ValidName(tokens[1]) then Rejected(InvalidName)
    else
      var bytes := ParseSize(tokens[2]);
      if bytes == None then Rejected(InvalidSize)
      else
        var options := ParseOptions(tokens);
        if options == None then Rejected(InvalidRequest)
        else Accepted(Command(Acquire, tokens[1], bytes.value, Wait, options.value, "", ""))
  }

  function ParseTokens(tokens: seq<string>): Parsed {
    if tokens == [] then Rejected(InvalidRequest) else
      var verb := tokens[0];
      if verb == "status" then Listing(Status, tokens)
      else if verb == "models" then Listing(Models, tokens)
      else if verb == "residency" then Listing(Residency, tokens)
      else if verb == "share" then Named(Share, tokens, InvalidModelId)
      else if verb == "metrics" then Listing(Metrics, tokens)
      else if verb == "nodes" then Listing(Nodes, tokens)
      else if verb == "node_register" then ParseNodeRegister(tokens)
      else if verb == "node_remove" then Named(UnregisterNode, tokens, InvalidName)
      else if verb == "register" then ParseRegister(tokens)
      else if verb == "register_file" then ParseRegisterFile(tokens)
      else if verb == "unregister" then Named(UnregisterModel, tokens, InvalidModelId)
      else if verb == "retain" then Named(RetainModel, tokens, InvalidModelId)
      else if verb == "release_model" then Named(ReleaseModel, tokens, InvalidModelId)
      else if verb == "load" then Named(LoadModel, tokens, InvalidModelId)
      else if verb == "unload" then Named(UnloadModel, tokens, InvalidModelId)
      else if verb == "release" then Named(Release, tokens, InvalidName)
      else if verb == "try_acquire" then ParseTryAcquire(tokens)
      else if verb == "acquire" then ParseAcquire(tokens)
      else Rejected(InvalidRequest)
  }

  function ParseCommand(line: string): Parsed { ParseTokens(Tokens(line)) }

  predicate IsListing(kind: CommandType) {
    kind in {Status, Models, Residency, Metrics, Nodes}
  }

  lemma SizeIsPositive(token: string)
    ensures ParseSize(token).Some? ==> ParseSize(token).value > 0
  {
    if ParseSize(token).Some? {
      SizeIsDigitsAndUnit(token, ParseSize(token).value);
    }
  }
}
