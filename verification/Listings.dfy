/** The daemon's listings, and how the client receives them. */
module Listings {
  import opened Common
  import opened Numerals
  import opened Protocol
  import opened ServerSession
  import opened Responses
  import opened Readings
  import ClientCommands
  import ModelStores
  import opened Snapshots

  datatype ResidencyRow = ResidencyRow(id: string, footprint: Bytes, refCount: nat, resident: bool, lastLoaded: nat)
  datatype NodeRow = NodeRow(id: string, endpoint: string, capacity: Bytes, used: Bytes, healthy: bool)

  // ----------------------------------------------------------------- lines

  function StatusHeader(s: StatusSnapshot): string {
    "OK status " + Numeral(s.capacity) + " " + Numeral(s.used) + " " + Numeral(s.free) + " " + Numeral(|s.reservations|)
  }

  function ReservationLine(r: Reservation): string { "CLIENT " + r.name + " " + Numeral(r.bytes) }

  function ResidencyHeader(count: nat): string { "OK residency " + Numeral(count) }

  function ResidentLine(r: ResidencyRow): string {
    "RESIDENT " + r.id + " " + Numeral(r.footprint) + " " + Numeral(r.refCount) + " " + Numeral(r.lastLoaded)
  }

  function NodesHeader(count: nat): string { "OK nodes " + Numeral(count) }

  function NodeLine(n: NodeRow): string {
    "NODE " + n.id + " " + n.endpoint + " " + Numeral(n.capacity) + " " + Numeral(n.used) + " " +
    if n.healthy then "healthy" else "unhealthy"
  }

  function ModelsHeader(count: nat): string { "OK models " + Numeral(count) }

  function ModelLine(m: ModelStores.Model): string {
    "MODEL " + m.id + " " + m.metadata + " " + Numeral(m.footprint) + " " + Numeral(m.refCount) + " " +
    Numeral(m.lastAccess) + if m.sourcePath == "" then "" else " " + m.sourcePath
  }

  function Each<T>(f: T -> string, rows: seq<T>): (lines: seq<string>)
    ensures |lines| == |rows| && forall i :: 0 <= i < |rows| ==> lines[i] == f(rows[i])
  {
    if rows == [] then [] else Each(f, rows[..|rows| - 1]) + [f(rows[|rows| - 1])]
  }

  function Residents(rows: seq<ResidencyRow>): (kept: seq<ResidencyRow>)
    ensures forall i :: 0 <= i < |kept| ==> kept[i] in rows && kept[i].resident
  {
    if rows == [] then [] else Residents(rows[..|rows| - 1]) + if rows[|rows| - 1].resident then [rows[|rows| - 1]] else []
  }

  function StatusLines(s: StatusSnapshot): seq<string> {
    [StatusHeader(s)] + Each(ReservationLine, s.reservations)
  }

  function ResidencyLines(rows: seq<ResidencyRow>): seq<string> {
    [ResidencyHeader(|Residents(rows)|)] + Each(ResidentLine, Residents(rows))
  }

  function NodesLines(nodes: seq<NodeRow>): seq<string> {
    [NodesHeader(|nodes|)] + Each(NodeLine, nodes)
  }

  function ModelsLines(models: seq<ModelStores.Model>): seq<string> {
    [ModelsHeader(|models|)] + Each(ModelLine, models)
  }

  datatype MetricsSnapshot = MetricsSnapshot(
    requests: nat, successes: nat, failures: nat, acquires: nat, releases: nat, modelLoads: nat, modelUnloads: nat,
    acquiredBytes: nat, releasedBytes: nat)

  datatype Counter = Counter(name: string, value: nat)

  function Counters(s: MetricsSnapshot): seq<Counter> {
    [Counter("requests", s.requests), Counter("successes", s.successes), Counter("failures", s.failures),
     Counter("acquires", s.acquires), Counter("releases", s.releases), Counter("model_loads", s.modelLoads),
     Counter("model_unloads", s.modelUnloads), Counter("acquired_bytes", s.acquiredBytes),
     Counter("released_bytes", s.releasedBytes)]
  }

  function CounterLine(c: Counter): string { c.name + " " + Numeral(c.value) }

  function MetricsLines(s: MetricsSnapshot): seq<string> { ["OK metrics"] + Each(CounterLine, Counters(s)) }

  // ---------------------------------------------------------------- tables

  /** What a status listing is to say: four numbers, and each reservation in order. */
  function StatusTable(s: StatusSnapshot): seq<seq<Cell>> {
    [[Text("OK"), Text("status"), Num(s.capacity), Num(s.used), Num(s.free), Num(|s.reservations|)]] +
    seq(|s.reservations|, i requires 0 <= i < |s.reservations| =>
      [Text("CLIENT"), Text(s.reservations[i].name), Num(s.reservations[i].bytes)])
  }

  /** The resident models only. */
  function ResidentTable(rows: seq<ResidencyRow>): seq<seq<Cell>> {
    if rows == [] then []
    else
      var r := rows[|rows| - 1];
      ResidentTable(rows[..|rows| - 1]) +
      if r.resident then [[Text("RESIDENT"), Text(r.id), Num(r.footprint), Num(r.refCount), Num(r.lastLoaded)]] else []
  }

  function ResidencyTable(rows: seq<ResidencyRow>): seq<seq<Cell>> {
    [[Text("OK"), Text("residency"), Num(|ResidentTable(rows)|)]] + ResidentTable(rows)
  }

  function NodesTable(nodes: seq<NodeRow>): seq<seq<Cell>> {
    [[Text("OK"), Text("nodes"), Num(|nodes|)]] +
    seq(|nodes|, i requires 0 <= i < |nodes| =>
      [Text("NODE"), Text(nodes[i].id)] + Texts(nodes[i].endpoint) +
      [Num(nodes[i].capacity), Num(nodes[i].used), Text(if nodes[i].healthy then "healthy" else "unhealthy")])
  }

  /** A model loaded by size has no path, and an empty path no words. */
  function ModelsTable(models: seq<ModelStores.Model>): seq<seq<Cell>> {
    [[Text("OK"), Text("models"), Num(|models|)]] +
    seq(|models|, i requires 0 <= i < |models| =>
      [Text("MODEL"), Text(models[i].id), Text(models[i].metadata), Num(models[i].footprint), Num(models[i].refCount),
       Num(models[i].lastAccess)] + Texts(models[i].sourcePath))
  }

  function MetricsTable(s: MetricsSnapshot): seq<seq<Cell>> {
    [[Text("OK"), Text("metrics")],
     [Text("requests"), Num(s.requests)], [Text("successes"), Num(s.successes)], [Text("failures"), Num(s.failures)],
     [Text("acquires"), Num(s.acquires)], [Text("releases"), Num(s.releases)],
     [Text("model_loads"), Num(s.modelLoads)], [Text("model_unloads"), Num(s.modelUnloads)],
     [Text("acquired_bytes"), Num(s.acquiredBytes)], [Text("released_bytes"), Num(s.releasedBytes)]]
  }

  // ----------------------------------------------------------- reading back

  lemma OkReads(verb: string)
    requires Word(verb)
    ensures SaysAll(Tokens("OK " + verb), [Text("OK"), Text(verb)])
  {
    hide Tokens, SaysAll;
    assert "OK " == "OK" + " ";
    TwoWordsStart("OK", verb);
  }

  lemma StatusHeaderReads(s: StatusSnapshot)
    ensures SaysAll(Tokens(StatusHeader(s)),
      [Text("OK"), Text("status"), Num(s.capacity), Num(s.used), Num(s.free), Num(|s.reservations|)])
  {
    hide Tokens, SaysAll, Numeral;
    var c0 := [Text("OK"), Text("status")];
    OkReads("status");
    assert "OK " + "status" == "OK status" && "OK status" + " " == "OK status ";
    NumeralFollows("OK status", c0, s.capacity);
    var l1, c1 := "OK status " + Numeral(s.capacity), c0 + [Num(s.capacity)];
    NumeralFollows(l1, c1, s.used);
    var l2, c2 := l1 + " " + Numeral(s.used), c1 + [Num(s.used)];
    NumeralFollows(l2, c2, s.free);
    NumeralFollows(l2 + " " + Numeral(s.free), c2 + [Num(s.free)], |s.reservations|);
    assert c2 + [Num(s.free)] + [Num(|s.reservations|)]
        == [Text("OK"), Text("status"), Num(s.capacity), Num(s.used), Num(s.free), Num(|s.reservations|)];
  }

  lemma ReservationReads(r: Reservation)
    requires Word(r.name)
    ensures SaysAll(Tokens(ReservationLine(r)), [Text("CLIENT"), Text(r.name), Num(r.bytes)])
  {
    hide Tokens, SaysAll, Numeral, Word;
    assert Word("CLIENT") by { ClientIsWord(); }
    TwoWordsStart("CLIENT", r.name);
    assert "CLIENT" + " " == "CLIENT ";
    NumeralFollows("CLIENT " + r.name, [Text("CLIENT"), Text(r.name)], r.bytes);
    assert [Text("CLIENT"), Text(r.name)] + [Num(r.bytes)] == [Text("CLIENT"), Text(r.name), Num(r.bytes)];
  }

  lemma ClientIsWord()
    ensures Word("CLIENT")
  {
  }

  lemma ListedNamesAreWords(name: string)
    requires ListedName(name)
    ensures Word(name)
  {
    hide ValidName;
    if ValidName(name) {
      ClientCommands.ValidNamesAreWords(name);
    } else {
      ClientCommands.ValidNamesAreWords(name[6..]);
      assert name == MODEL_PREFIX + name[6..];
    }
  }

  /** Read back, the status listing says what the snapshot holds. */
  lemma StatusReads(s: StatusSnapshot)
    requires forall i :: 0 <= i < |s.reservations| ==> ListedName(s.reservations[i].name)
    ensures Reads(ListingText(StatusLines(s)), StatusTable(s))
  {
    hide Tokens, SaysAll, StatusHeader, ReservationLine, ListedName, Word, Safe;
    StatusHeaderIsSafe(s);
    StatusHeaderReads(s);
    SafeIsOneLine(StatusHeader(s));
    forall i | 0 <= i < |s.reservations|
      ensures OneLine(ReservationLine(s.reservations[i]))
      ensures SaysAll(Tokens(ReservationLine(s.reservations[i])),
        [Text("CLIENT"), Text(s.reservations[i].name), Num(s.reservations[i].bytes)])
    {
      ListedNamesAreWords(s.reservations[i].name);
      ReservationLineIsSafe(s.reservations[i]);
      SafeIsOneLine(ReservationLine(s.reservations[i]));
      ReservationReads(s.reservations[i]);
    }
    ListingReads(StatusLines(s), StatusTable(s));
  }

  /** A heading with a count. */
  lemma CountReads(verb: string, header: string, n: nat)
    requires Word(verb) && header == "OK " + verb + " "
    ensures SaysAll(Tokens(header + Numeral(n)), [Text("OK"), Text(verb), Num(n)])
    ensures OneLine(verb) ==> OneLine(header + Numeral(n))
  {
    hide Tokens, SaysAll, Numeral, Word, OneLine;
    OkReads(verb);
    NumeralFollows("OK " + verb, [Text("OK"), Text(verb)], n);
    assert [Text("OK"), Text(verb)] + [Num(n)] == [Text("OK"), Text(verb), Num(n)];
    if OneLine(verb) {
      WordsAreOneLine();
      OneLineJoins("OK ", verb);
      Field("OK " + verb, n);
    }
  }

  lemma HeadingWords()
    ensures Word("residency") && Word("nodes") && Word("models") && Word("metrics")
    ensures OneLine("residency") && OneLine("nodes") && OneLine("models") && OneLine("metrics")
    ensures Word("RESIDENT") && Word("NODE") && Word("MODEL") && Word("healthy") && Word("unhealthy")
  {
  }

  lemma ResidentReads(r: ResidencyRow)
    requires ValidName(r.id)
    ensures SaysAll(Tokens(ResidentLine(r)),
      [Text("RESIDENT"), Text(r.id), Num(r.footprint), Num(r.refCount), Num(r.lastLoaded)])
  {
    hide Tokens, SaysAll, Numeral, Word, ValidName;
    HeadingWords();
    ClientCommands.ValidNamesAreWords(r.id);
    TwoWordsStart("RESIDENT", r.id);
    assert "RESIDENT" + " " == "RESIDENT ";
    var l0, c0 := "RESIDENT " + r.id, [Text("RESIDENT"), Text(r.id)];
    NumeralFollows(l0, c0, r.footprint);
    var l1, c1 := l0 + " " + Numeral(r.footprint), c0 + [Num(r.footprint)];
    NumeralFollows(l1, c1, r.refCount);
    NumeralFollows(l1 + " " + Numeral(r.refCount), c1 + [Num(r.refCount)], r.lastLoaded);
    assert c1 + [Num(r.refCount)] + [Num(r.lastLoaded)]
        == [Text("RESIDENT"), Text(r.id), Num(r.footprint), Num(r.refCount), Num(r.lastLoaded)];
  }

  lemma {:induction false} ResidentsRead(rows: seq<ResidencyRow>)
    requires forall i :: 0 <= i < |rows| ==> ValidName(rows[i].id)
    ensures |ResidentTable(rows)| == |Residents(rows)|
    ensures forall i :: 0 <= i < |Residents(rows)| ==>
      OneLine(ResidentLine(Residents(rows)[i])) && SaysAll(Tokens(ResidentLine(Residents(rows)[i])), ResidentTable(rows)[i])
  {
    hide ResidentLine, SaysAll, Tokens, ValidName, Safe, OneLine;
    if rows != [] {
      var last := rows[|rows| - 1];
      ResidentsRead(rows[..|rows| - 1]);
      ResidentReads(last);
      ResidentLineIsSafe(last);
      SafeIsOneLine(ResidentLine(last));
    }
  }

  /** Read back, the residency listing says which models are resident, and what of them. */
  lemma ResidencyReads(rows: seq<ResidencyRow>)
    requires forall i :: 0 <= i < |rows| ==> ValidName(rows[i].id)
    ensures Reads(ListingText(ResidencyLines(rows)), ResidencyTable(rows))
  {
    hide ResidentLine, SaysAll, Tokens, ValidName, OneLine, Residents, ResidentTable, Numeral;
    ResidentsRead(rows);
    HeadingWords();
    assert "OK residency " == "OK " + "residency" + " ";
    CountReads("residency", "OK residency ", |Residents(rows)|);
    ListingReads(ResidencyLines(rows), ResidencyTable(rows));
  }

  lemma NodeReads(n: NodeRow)
    requires ValidName(n.id)
    ensures SaysAll(Tokens(NodeLine(n)),
      [Text("NODE"), Text(n.id)] + Texts(n.endpoint) +
      [Num(n.capacity), Num(n.used), Text(if n.healthy then "healthy" else "unhealthy")])
  {
    hide Tokens, SaysAll, Numeral, Word, ValidName, Texts;
    HeadingWords();
    ClientCommands.ValidNamesAreWords(n.id);
    TwoWordsStart("NODE", n.id);
    assert "NODE" + " " == "NODE ";
    var l0, c0 := "NODE " + n.id, [Text("NODE"), Text(n.id)];
    TextsFollow(l0, c0, n.endpoint);
    var l1, c1 := l0 + " " + n.endpoint, c0 + Texts(n.endpoint);
    NumeralFollows(l1, c1, n.capacity);
    var l2, c2 := l1 + " " + Numeral(n.capacity), c1 + [Num(n.capacity)];
    NumeralFollows(l2, c2, n.used);
    var l3, c3 := l2 + " " + Numeral(n.used), c2 + [Num(n.used)];
    var health := if n.healthy then "healthy" else "unhealthy";
    WordFollows(l3, c3, health);
    assert c3 + [Text(health)] == c1 + [Num(n.capacity), Num(n.used), Text(health)];
  }

  /** Read back, the node listing says what each node is. */
  lemma NodesRead(nodes: seq<NodeRow>)
    requires forall i :: 0 <= i < |nodes| ==> ValidName(nodes[i].id) && OneLine(nodes[i].endpoint)
    ensures Reads(ListingText(NodesLines(nodes)), NodesTable(nodes))
  {
    hide NodeLine, SaysAll, Tokens, ValidName, OneLine, Numeral, Texts, Safe;
    HeadingWords();
    assert "OK nodes " == "OK " + "nodes" + " ";
    CountReads("nodes", "OK nodes ", |nodes|);
    var lines, table := NodesLines(nodes), NodesTable(nodes);
    forall i | 0 <= i < |lines| ensures OneLine(lines[i]) && SaysAll(Tokens(lines[i]), table[i]) {
      if i > 0 {
        assert lines[i] == NodeLine(nodes[i - 1]);
        NodeReads(nodes[i - 1]);
        NodeLineIsSafe(nodes[i - 1]);
        SafeIsOneLine(NodeLine(nodes[i - 1]));
      }
    }
    ListingReads(lines, table);
  }

  lemma ModelReads(m: ModelStores.Model)
    requires ModelStores.Listable(m)
    ensures SaysAll(Tokens(ModelLine(m)),
      [Text("MODEL"), Text(m.id), Text(m.metadata), Num(m.footprint), Num(m.refCount), Num(m.lastAccess)] + Texts(m.sourcePath))
  {
    hide Tokens, SaysAll, Numeral, Word, ValidName, ModelStores.ValidMetadata, ModelStores.ValidPath, Texts;
    HeadingWords();
    ClientCommands.ValidNamesAreWords(m.id);
    MetadataIsWord(m.metadata);
    TwoWordsStart("MODEL", m.id);
    assert "MODEL" + " " == "MODEL ";
    var l0, c0 := "MODEL " + m.id, [Text("MODEL"), Text(m.id)];
    WordFollows(l0, c0, m.metadata);
    var l1, c1 := l0 + " " + m.metadata, c0 + [Text(m.metadata)];
    NumeralFollows(l1, c1, m.footprint);
    var l2, c2 := l1 + " " + Numeral(m.footprint), c1 + [Num(m.footprint)];
    NumeralFollows(l2, c2, m.refCount);
    var l3, c3 := l2 + " " + Numeral(m.refCount), c2 + [Num(m.refCount)];
    NumeralFollows(l3, c3, m.lastAccess);
    var l4, c4 := l3 + " " + Numeral(m.lastAccess), c3 + [Num(m.lastAccess)];
    assert c4 == [Text("MODEL"), Text(m.id), Text(m.metadata), Num(m.footprint), Num(m.refCount), Num(m.lastAccess)];
    if m.sourcePath == "" {
      assert Texts("") == [] by { NoTexts(); }
      assert l4 + "" == l4 && c4 + [] == c4;
    } else {
      TextsFollow(l4, c4, m.sourcePath);
      assert l4 + (" " + m.sourcePath) == l4 + " " + m.sourcePath;
    }
  }

  lemma NoTexts()
    ensures Texts("") == []
  {
    TokensOfBlank("");
  }

  lemma MetadataIsWord(metadata: string)
    requires ModelStores.ValidMetadata(metadata)
    ensures Word(metadata)
  {
  }

  /** Read back, the model listing says what each model is, and the words of its source path. */
  lemma ModelsRead(models: seq<ModelStores.Model>)
    requires forall i :: 0 <= i < |models| ==> ModelStores.Listable(models[i])
    ensures Reads(ListingText(ModelsLines(models)), ModelsTable(models))
  {
    hide ModelLine, SaysAll, Tokens, ModelStores.Listable, OneLine, Numeral, Texts, EndsWith;
    HeadingWords();
    assert "OK models " == "OK " + "models" + " ";
    CountReads("models", "OK models ", |models|);
    var lines, table := ModelsLines(models), ModelsTable(models);
    forall i | 0 <= i < |lines| ensures OneLine(lines[i]) && SaysAll(Tokens(lines[i]), table[i]) {
      if i > 0 {
        assert lines[i] == ModelLine(models[i - 1]);
        ModelReads(models[i - 1]);
        ModelLineEnds(models[i - 1]);
      }
    }
    ListingReads(lines, table);
  }

  lemma CounterReads(c: Counter)
    requires Word(c.name) && OneLine(c.name)
    ensures OneLine(CounterLine(c)) && SaysAll(Tokens(CounterLine(c)), [Text(c.name), Num(c.value)])
  {
    hide Tokens, SaysAll, Numeral, Word, OneLine;
    WordStarts(c.name);
    NumeralFollows(c.name, [Text(c.name)], c.value);
    assert [Text(c.name)] + [Num(c.value)] == [Text(c.name), Num(c.value)];
    Field(c.name, c.value);
  }

  lemma CounterNamesAreWords(s: MetricsSnapshot, i: nat)
    requires i < |Counters(s)|
    ensures Word(Counters(s)[i].name) && OneLine(Counters(s)[i].name)
  {
    hide OneLine, Word;
    CounterTexts();
    CounterWords();
  }

  /** Read back, the metrics listing says nine names and numbers. */
  lemma MetricsRead(s: MetricsSnapshot)
    ensures Reads(ListingText(MetricsLines(s)), MetricsTable(s))
  {
    hide SaysAll, Tokens, OneLine, Numeral, Word, CounterLine;
    HeadingWords();
    OkReads("metrics");
    assert "OK " + "metrics" == "OK metrics";
    MetricsHeaderIsOneLine();
    var lines, table := MetricsLines(s), MetricsTable(s);
    forall i | 0 <= i < |lines| ensures OneLine(lines[i]) && SaysAll(Tokens(lines[i]), table[i]) {
      if i > 0 {
        assert lines[i] == CounterLine(Counters(s)[i - 1]);
        CounterNamesAreWords(s, i - 1);
        CounterReads(Counters(s)[i - 1]);
      }
    }
    ListingReads(lines, table);
  }

  lemma MetricsHeaderIsOneLine()
    ensures OneLine("OK metrics")
  {
  }

  // -------------------------------------------------------------- builders

  lemma EachStep<T>(header: string, f: T -> string, rows: seq<T>, i: nat)
    requires i < |rows|
    ensures Unlines([header] + Each(f, rows[..i + 1])) == Unlines([header] + Each(f, rows[..i])) + f(rows[i]) + "\n"
  {
    hide Unlines;
    assert rows[..i + 1][..i] == rows[..i];
    assert [header] + Each(f, rows[..i + 1]) == [header] + Each(f, rows[..i]) + [f(rows[i])];
    LineIsAdded([header] + Each(f, rows[..i]), f(rows[i]));
  }

  lemma EachStarts<T>(header: string, f: T -> string, rows: seq<T>)
    ensures Unlines([header] + Each(f, rows[..0])) == header + "\n"
  {
    assert [header] + Each(f, rows[..0]) == [header];
    OneUnlined(header);
  }

  method FormatStatus(s: StatusSnapshot) returns (output: string)
    ensures output == ListingText(StatusLines(s))
    ensures (forall i :: 0 <= i < |s.reservations| ==> ListedName(s.reservations[i].name)) ==> Reads(output, StatusTable(s))
  {
    hide Each, Unlines, ListingText, Reads, ListedName, StatusHeader, ReservationLine;
    output := StatusHeader(s) + "\n";
    EachStarts(StatusHeader(s), ReservationLine, s.reservations);
    var i := 0;
    while i < |s.reservations|
      invariant i <= |s.reservations|
      invariant output == Unlines([StatusHeader(s)] + Each(ReservationLine, s.reservations[..i]))
    {
      EachStep(StatusHeader(s), ReservationLine, s.reservations, i);
      output := output + ReservationLine(s.reservations[i]) + "\n";
      i := i + 1;
    }
    assert s.reservations[..i] == s.reservations;
    ListingTextIs(StatusLines(s));
    output := output + "END\n";
    if forall i :: 0 <= i < |s.reservations| ==> ListedName(s.reservations[i].name) {
      StatusReads(s);
    }
  }

  lemma ResidentsStep(rows: seq<ResidencyRow>, i: nat)
    requires i < |rows|
    ensures Residents(rows[..i + 1]) == Residents(rows[..i]) + if rows[i].resident then [rows[i]] else []
  {
    assert rows[..i + 1][..i] == rows[..i];
  }

  lemma NoResidents(rows: seq<ResidencyRow>)
    ensures Residents(rows[..0]) == []
  {
  }

  method FormatResidency(rows: seq<ResidencyRow>) returns (output: string)
    ensures output == ListingText(ResidencyLines(rows))
    ensures (forall i :: 0 <= i < |rows| ==> ValidName(rows[i].id)) ==> Reads(output, ResidencyTable(rows))
  {
    hide Each, Unlines, ListingText, Residents, Reads, ValidName, ResidentLine, Numeral;
    NoResidents(rows);
    var count := 0;
    for i := 0 to |rows|
      invariant count == |Residents(rows[..i])|
    {
      ResidentsStep(rows, i);
      count := count + if rows[i].resident then 1 else 0;
    }
    assert rows[..|rows|] == rows;
    var header := ResidencyHeader(count);
    output := header + "\n";
    EachStarts(header, ResidentLine, []);
    for i := 0 to |rows|
      invariant output == Unlines([header] + Each(ResidentLine, Residents(rows[..i])))
    {
      ResidentsStep(rows, i);
      if !rows[i].resident {
        assert Residents(rows[..i]) + [] == Residents(rows[..i]);
        continue;
      }
      ghost var kept := Residents(rows[..i + 1]);
      assert kept[|kept| - 1] == rows[i];
      EachStep(header, ResidentLine, kept, |kept| - 1);
      assert kept[..|kept| - 1] == Residents(rows[..i]) && kept[..|kept| - 1 + 1] == kept;
      output := output + ResidentLine(rows[i]) + "\n";
    }
    ListingTextIs(ResidencyLines(rows));
    output := output + "END\n";
    if forall i :: 0 <= i < |rows| ==> ValidName(rows[i].id) {
      ResidencyReads(rows);
    }
  }

  method FormatNodes(nodes: seq<NodeRow>) returns (output: string)
    ensures output == ListingText(NodesLines(nodes))
    ensures (forall i :: 0 <= i < |nodes| ==> ValidName(nodes[i].id) && OneLine(nodes[i].endpoint)) ==>
      Reads(output, NodesTable(nodes))
  {
    hide Each, Unlines, ListingText, Reads, ValidName, OneLine, NodeLine, Numeral;
    var header := NodesHeader(|nodes|);
    output := header + "\n";
    EachStarts(header, NodeLine, nodes);
    for i := 0 to |nodes|
      invariant output == Unlines([header] + Each(NodeLine, nodes[..i]))
    {
      EachStep(header, NodeLine, nodes, i);
      output := output + NodeLine(nodes[i]) + "\n";
    }
    assert nodes[..|nodes|] == nodes;
    ListingTextIs(NodesLines(nodes));
    output := output + "END\n";
    if forall i :: 0 <= i < |nodes| ==> ValidName(nodes[i].id) && OneLine(nodes[i].endpoint) {
      NodesRead(nodes);
    }
  }

  method FormatModels(models: seq<ModelStores.Model>) returns (output: string)
    ensures output == ListingText(ModelsLines(models))
    ensures (forall i :: 0 <= i < |models| ==> ModelStores.Listable(models[i])) ==> Reads(output, ModelsTable(models))
  {
    hide Each, Unlines, ListingText, Reads, ModelStores.Listable, ModelLine, Numeral;
    var header := ModelsHeader(|models|);
    output := header + "\n";
    EachStarts(header, ModelLine, models);
    for i := 0 to |models|
      invariant output == Unlines([header] + Each(ModelLine, models[..i]))
    {
      EachStep(header, ModelLine, models, i);
      output := output + ModelLine(models[i]) + "\n";
    }
    assert models[..|models|] == models;
    ListingTextIs(ModelsLines(models));
    output := output + "END\n";
    if forall i :: 0 <= i < |models| ==> ModelStores.Listable(models[i]) {
      ModelsRead(models);
    }
  }

  /** The metrics listing has a fixed number of lines. */
  function FormatMetrics(s: MetricsSnapshot): (output: string)
    ensures Reads(output, MetricsTable(s))
  {
    MetricsRead(s);
    ListingText(MetricsLines(s))
  }

  // ------------------------------------------------------------- endings

  /** The line has no newline and its last character is not the D of the last line. */
  predicate Safe(line: string) {
    OneLine(line) && line != "" && line[|line| - 1] != 'D'
  }

  lemma SafeIsNotEnd(line: string)
    requires Safe(line)
    ensures !EndsWith(line, "END")
  {
    EndHasItsLetters(line);
  }

  lemma EndHasItsLetters(line: string)
    ensures EndsWith(line, "END") ==> |line| > 2 && line[|line| - 1] == 'D' && line[|line| - 2] == 'N' && line[|line| - 3] == 'E'
  {
    if EndsWith(line, "END") {
      assert line[|line| - 3..][2] == line[|line| - 1];
      assert line[|line| - 3..][1] == line[|line| - 2];
    }
  }

  lemma SafeTail(head: string, tail: string)
    requires OneLine(head) && Safe(tail)
    ensures Safe(head + tail)
  {
  }

  lemma OneLineJoins(a: string, b: string)
    requires OneLine(a) && OneLine(b)
    ensures OneLine(a + b)
  {
  }

  lemma WordsAreOneLine()
    ensures OneLine("OK ") && OneLine(" ") && OneLine("ERR ")
  {
  }

  lemma NumeralsAreSafe(n: nat)
    ensures Safe(Numeral(n)) && OneLine(" ")
  {
    var s := Numeral(n);
    assert IsDigit(s[|s| - 1]);
    forall i | 0 <= i < |s| ensures s[i] != '\n' {
      assert IsDigit(s[i]);
    }
  }

  /** A text, a blank and a number. */
  lemma Field(head: string, n: nat)
    requires OneLine(head)
    ensures Safe(head + " " + Numeral(n)) && OneLine(head + " " + Numeral(n))
  {
    hide Numeral;
    NumeralsAreSafe(n);
    OneLineJoins(head, " ");
    SafeTail(head + " ", Numeral(n));
  }

  lemma ListingIsSafe<T>(header: string, f: T -> string, rows: seq<T>)
    requires StartsWith(header, "OK ") && Safe(header)
    requires forall i :: 0 <= i < |rows| ==> Safe(f(rows[i]))
    ensures Framed(true, ListingText([header] + Each(f, rows)))
  {
    hide Each, ListingText, Framed, StartsWith, EndsWith, Safe;
    var lines := [header] + Each(f, rows);
    forall i | 0 <= i < |lines| ensures OneLine(lines[i]) && !EndsWith(lines[i], "END") {
      assert Safe(lines[i]);
      SafeIsNotEnd(lines[i]);
      SafeIsOneLine(lines[i]);
    }
    ListingIsFramedIff(lines);
  }

  lemma SafeIsOneLine(line: string)
    requires Safe(line)
    ensures OneLine(line)
  {
  }

  lemma OkStarts(a: string, b: string)
    requires StartsWith(a, "OK ")
    ensures StartsWith(a + b, "OK ")
  {
    assert (a + b)[..3] == a[..3];
  }

  lemma HeaderIsSafe(verb: string, n: nat)
    requires StartsWith(verb, "OK ") && OneLine(verb)
    ensures StartsWith(verb + Numeral(n), "OK ") && Safe(verb + Numeral(n)) && OneLine(verb + Numeral(n))
  {
    hide Numeral;
    NumeralsAreSafe(n);
    SafeTail(verb, Numeral(n));
    OkStarts(verb, Numeral(n));
  }

  lemma NamesAreOneLine(name: string)
    requires ValidName(name)
    ensures OneLine(name)
  {
    forall i | 0 <= i < |name| ensures name[i] != '\n' {
      assert NameChar(name[i]);
    }
  }

  lemma StatusHeaderIsSafe(s: StatusSnapshot)
    ensures StartsWith(StatusHeader(s), "OK ") && Safe(StatusHeader(s))
  {
    hide Numeral, Safe;
    var h0 := "OK status " + Numeral(s.capacity);
    HeaderIsSafe("OK status ", s.capacity);
    Field(h0, s.used);
    OkStarts(h0, " ");
    OkStarts(h0 + " ", Numeral(s.used));
    var h1 := h0 + " " + Numeral(s.used);
    Field(h1, s.free);
    OkStarts(h1, " ");
    OkStarts(h1 + " ", Numeral(s.free));
    var h2 := h1 + " " + Numeral(s.free);
    Field(h2, |s.reservations|);
    OkStarts(h2, " ");
    OkStarts(h2 + " ", Numeral(|s.reservations|));
  }

  lemma ListedNamesAreOneLine(name: string)
    requires ListedName(name)
    ensures OneLine(name)
  {
    hide ValidName;
    if ValidName(name) {
      NamesAreOneLine(name);
    } else {
      NamesAreOneLine(name[6..]);
      assert OneLine(MODEL_PREFIX) && name == MODEL_PREFIX + name[6..];
      OneLineJoins(MODEL_PREFIX, name[6..]);
    }
  }

  lemma ReservationLineIsSafe(r: Reservation)
    requires ListedName(r.name)
    ensures Safe(ReservationLine(r))
  {
    hide ListedName;
    ListedNamesAreOneLine(r.name);
    OneLineJoins("CLIENT ", r.name);
    Field("CLIENT " + r.name, r.bytes);
  }

  lemma ResidentLineIsSafe(r: ResidencyRow)
    requires ValidName(r.id)
    ensures Safe(ResidentLine(r))
  {
    hide ValidName, Safe;
    NamesAreOneLine(r.id);
    OneLineJoins("RESIDENT ", r.id);
    var l0 := "RESIDENT " + r.id;
    Field(l0, r.footprint);
    Field(l0 + " " + Numeral(r.footprint), r.refCount);
    Field(l0 + " " + Numeral(r.footprint) + " " + Numeral(r.refCount), r.lastLoaded);
  }

  lemma NodeLineIsSafe(n: NodeRow)
    requires ValidName(n.id) && OneLine(n.endpoint)
    ensures Safe(NodeLine(n))
  {
    hide ValidName, Numeral;
    NamesAreOneLine(n.id);
    OneLineJoins("NODE ", n.id);
    var l0 := "NODE " + n.id + " " + n.endpoint;
    OneLineJoins("NODE " + n.id, " ");
    OneLineJoins("NODE " + n.id + " ", n.endpoint);
    Field(l0, n.capacity);
    var l1 := l0 + " " + Numeral(n.capacity);
    Field(l1, n.used);
    var l2 := l1 + " " + Numeral(n.used);
    OneLineJoins(l2, " ");
    SafeTail(l2 + " ", if n.healthy then "healthy" else "unhealthy");
  }

  // ---------------------------------------------------------- the listings

  /** The status listing, in whatever pieces it comes, is received whole and nothing after it is
      awaited; the same holds of the residency, node and metrics listings. */
  lemma StatusIsReceived(s: StatusSnapshot, pieces: seq<string>)
    requires forall i :: 0 <= i < |s.reservations| ==> ListedName(s.reservations[i].name)
    requires Delivers(pieces, ListingText(StatusLines(s)))
    ensures Collect(true, "", pieces) == ClientResponse(NoClientError, ListingText(StatusLines(s)))
  {
    hide StatusHeader, ReservationLine, Safe, ListingText, ListedName, Collect;
    StatusHeaderIsSafe(s);
    forall i | 0 <= i < |s.reservations| ensures Safe(ReservationLine(s.reservations[i])) {
      ReservationLineIsSafe(s.reservations[i]);
    }
    ListingIsSafe(StatusHeader(s), ReservationLine, s.reservations);
    ListingIsReceived(StatusLines(s), pieces);
  }

  lemma ResidencyIsReceived(rows: seq<ResidencyRow>, pieces: seq<string>)
    requires forall i :: 0 <= i < |rows| ==> ValidName(rows[i].id)
    requires Delivers(pieces, ListingText(ResidencyLines(rows)))
    ensures Collect(true, "", pieces) == ClientResponse(NoClientError, ListingText(ResidencyLines(rows)))
  {
    hide ResidentLine, Residents, Safe, ListingText, ValidName, Collect;
    var kept := Residents(rows);
    HeaderIsSafe("OK residency ", |kept|);
    forall i | 0 <= i < |kept| ensures Safe(ResidentLine(kept[i])) {
      ResidentLineIsSafe(kept[i]);
    }
    ListingIsSafe(ResidencyHeader(|kept|), ResidentLine, kept);
    ListingIsReceived(ResidencyLines(rows), pieces);
  }

  lemma NodesAreReceived(nodes: seq<NodeRow>, pieces: seq<string>)
    requires forall i :: 0 <= i < |nodes| ==> ValidName(nodes[i].id) && OneLine(nodes[i].endpoint)
    requires Delivers(pieces, ListingText(NodesLines(nodes)))
    ensures Collect(true, "", pieces) == ClientResponse(NoClientError, ListingText(NodesLines(nodes)))
  {
    hide NodeLine, Safe, ListingText, ValidName, Collect;
    HeaderIsSafe("OK nodes ", |nodes|);
    forall i | 0 <= i < |nodes| ensures Safe(NodeLine(nodes[i])) {
      NodeLineIsSafe(nodes[i]);
    }
    ListingIsSafe(NodesHeader(|nodes|), NodeLine, nodes);
    ListingIsReceived(NodesLines(nodes), pieces);
  }

  lemma CounterTexts()
    ensures OneLine("requests") && OneLine("successes") && OneLine("failures") && OneLine("acquires")
    ensures OneLine("releases") && OneLine("model_loads") && OneLine("model_unloads")
    ensures OneLine("acquired_bytes") && OneLine("released_bytes")
  {
  }

  lemma CounterWords()
    ensures Word("requests") && Word("successes") && Word("failures") && Word("acquires")
    ensures Word("releases") && Word("model_loads") && Word("model_unloads")
    ensures Word("acquired_bytes") && Word("released_bytes")
  {
  }

  lemma CounterNames(s: MetricsSnapshot, i: nat)
    requires i < |Counters(s)|
    ensures OneLine(Counters(s)[i].name)
  {
    hide OneLine;
    CounterTexts();
  }

  lemma MetricsHeader()
    ensures StartsWith("OK metrics", "OK ") && Safe("OK metrics")
  {
    assert "OK metrics"[..3] == "OK ";
  }

  lemma MetricsAreReceived(s: MetricsSnapshot, pieces: seq<string>)
    requires Delivers(pieces, FormatMetrics(s))
    ensures Collect(true, "", pieces) == ClientResponse(NoClientError, FormatMetrics(s))
  {
    hide Safe, ListingText, Counters, StartsWith, OneLine, Numeral;
    var rows := Counters(s);
    MetricsHeader();
    forall i | 0 <= i < |rows| ensures Safe(CounterLine(rows[i])) {
      CounterNames(s, i);
      Field(rows[i].name, rows[i].value);
    }
    ListingIsSafe("OK metrics", CounterLine, rows);
    ListingIsReceived(MetricsLines(s), pieces);
  }

  lemma ListingIsReceived(lines: seq<string>, pieces: seq<string>)
    requires lines != [] && StartsWith(lines[0], "OK ")
    requires Framed(true, ListingText(lines)) && Delivers(pieces, ListingText(lines))
    ensures Collect(true, "", pieces) == ClientResponse(NoClientError, ListingText(lines))
  {
    hide Collect, Complete, ListingText;
    var text := ListingText(lines);
    assert "" + Concat(pieces) == text;
    FramedIsCollected(true, "", text, pieces);
    ListingIsOk(lines);
  }

  lemma ListingIsOk(lines: seq<string>)
    requires lines != [] && StartsWith(lines[0], "OK ")
    ensures StartsWith(ListingText(lines), "OK ") && !StartsWith(ListingText(lines), "ERR ")
  {
    var text := ListingText(lines);
    assert (lines + ["END"])[0] == lines[0];
    assert text[..3] == lines[0][..3];
    assert text[0] == text[..3][0] == 'O';
    assert |text| >= 4 ==> text[..4][0] == 'O';
  }

  // ------------------------------------------------------ the model listing

  function ModelLineHead(m: ModelStores.Model): string {
    "MODEL " + m.id + " " + m.metadata + " " + Numeral(m.footprint) + " " + Numeral(m.refCount) + " " + Numeral(m.lastAccess)
  }

  lemma ModelLineHeadIsSafe(m: ModelStores.Model)
    requires ModelStores.Listable(m)
    ensures Safe(ModelLineHead(m)) && OneLine(ModelLineHead(m))
  {
    hide ValidName, Numeral, Safe;
    NamesAreOneLine(m.id);
    assert OneLine(m.metadata);
    OneLineJoins("MODEL ", m.id);
    OneLineJoins("MODEL " + m.id, " ");
    var l0 := "MODEL " + m.id + " " + m.metadata;
    OneLineJoins("MODEL " + m.id + " ", m.metadata);
    Field(l0, m.footprint);
    Field(l0 + " " + Numeral(m.footprint), m.refCount);
    Field(l0 + " " + Numeral(m.footprint) + " " + Numeral(m.refCount), m.lastAccess);
  }

  lemma LastWordEnds(head: string, path: string)
    requires Safe(head) && path != "" && OneLine(path)
    ensures OneLine(head + " " + path)
    ensures EndsWith(head + " " + path, "END") <==> EndsWith(path, "END")
  {
    var line := head + " " + path;
    EndHasItsLetters(line);
    EndHasItsLetters(path);
    if EndsWith(path, "END") {
      assert line[|line| - 3..] == path[|path| - 3..];
    }
    if EndsWith(line, "END") {
      assert line[|head|] == ' ';
      assert path[|path| - 3..] == line[|line| - 3..];
    }
  }

  lemma ModelLineEnds(m: ModelStores.Model)
    requires ModelStores.Listable(m)
    ensures OneLine(ModelLine(m)) && (EndsWith(ModelLine(m), "END") <==> EndsWith(m.sourcePath, "END"))
  {
    hide ValidName, Numeral, Safe, EndsWith;
    ModelLineHeadIsSafe(m);
    EndHasItsLetters("");
    if m.sourcePath == "" {
      assert ModelLine(m) == ModelLineHead(m);
      SafeIsNotEnd(ModelLineHead(m));
    } else {
      assert OneLine(m.sourcePath);
      LastWordEnds(ModelLineHead(m), m.sourcePath);
      assert ModelLine(m) == ModelLineHead(m) + " " + m.sourcePath;
    }
  }

  /** The model listing is received whole in whatever pieces exactly when no model comes from a file
      whose path ends in the letters of the last line. */
  lemma ModelsAreReceivedIff(models: seq<ModelStores.Model>)
    requires forall i :: 0 <= i < |models| ==> ModelStores.Listable(models[i])
    ensures var text := ListingText(ModelsLines(models));
      (forall pieces :: Delivers(pieces, text) ==> Collect(true, "", pieces) == ClientResponse(NoClientError, text))
      <==> forall i :: 0 <= i < |models| ==> !EndsWith(models[i].sourcePath, "END")
  {
    hide ModelLine, Safe, ListingText, Collect, EndsWith, ModelStores.Listable, Complete, Framed, StartsWith, OneLine;
    var lines, text := ModelsLines(models), ListingText(ModelsLines(models));
    ModelsHeaderIsSafe(|models|);
    SafeIsNotEnd(ModelsHeader(|models|));
    forall i | 0 <= i < |models|
      ensures OneLine(lines[i + 1]) && (EndsWith(lines[i + 1], "END") <==> EndsWith(models[i].sourcePath, "END"))
    {
      assert lines[i + 1] == ModelLine(models[i]);
      ModelLineEnds(models[i]);
    }
    forall i | 0 <= i < |lines| ensures OneLine(lines[i]) {
      assert i > 0 ==> OneLine(lines[i - 1 + 1]);
    }
    ListingIsFramedIff(lines);
    ListingIsOk(lines);
    assert Classified(text) == ClientResponse(NoClientError, text);
    ListingIsNotEmpty(lines);
    StopsAtEndIff(true, text);
    assert Framed(true, text) <==> forall i :: 0 <= i < |models| ==> !EndsWith(models[i].sourcePath, "END") by {
      assert forall i :: 0 < i < |lines| ==> (EndsWith(lines[i], "END") <==> EndsWith(models[i - 1].sourcePath, "END"));
    }
  }

  lemma ModelsHeaderIsSafe(n: nat)
    ensures StartsWith(ModelsHeader(n), "OK ") && Safe(ModelsHeader(n)) && OneLine(ModelsHeader(n))
  {
    HeaderIsSafe("OK models ", n);
  }

  lemma ListingIsNotEmpty(lines: seq<string>)
    ensures ListingText(lines) != ""
  {
    ListingTextIs(lines);
  }

  /** Registering a file under such a path succeeds, and its listing can then be cut short. */
  lemma LegendIsCutShort()
    ensures var (g, r) := ModelStores.RegisterFile(
        ModelStores.Registry(map[], 0), "a", "/models/LEGEND", "m", Some(1));
      && r.error == ModelStores.NoError
      && var text := ListingText(ModelsLines([g.models["a"]]));
      && exists pieces :: Delivers(pieces, text) && Collect(true, "", pieces) != ClientResponse(NoClientError, text)
  {
    hide ListingText, Collect;
    var models := [ModelStores.Model("a", "m", 1, 0, 0, "/models/LEGEND")];
    assert ModelStores.Listable(models[0]);
    assert EndsWith(models[0].sourcePath, "END");
    ModelsAreReceivedIff(models);
  }
}
