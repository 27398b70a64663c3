/** What a status request shows of the resource manager. */
module Snapshots {
  import opened Common
  import opened Sorting
  import Admission

  datatype Reservation = Reservation(name: string, bytes: Bytes)

  datatype StatusSnapshot = StatusSnapshot(capacity: Bytes, used: Bytes, free: Bytes, reservations: seq<Reservation>)

  /** Lexicographic order. */
  predicate NameLess(a: string, b: string) {
    b != "" && (a == "" || a[0] < b[0] || (a[0] == b[0] && NameLess(a[1..], b[1..])))
  }

  lemma {:induction false} NameOrder(a: string, b: string)
    ensures !(NameLess(a, b) && NameLess(b, a))
    ensures a == b || NameLess(a, b) || NameLess(b, a)
    ensures !NameLess(a, a)
  {
    if a != "" && b != "" {
      NameOrder(a[1..], b[1..]);
      NameOrder(a[1..], a[1..]);
      assert a[0] == b[0] && a[1..] == b[1..] ==> a == b by {
        assert a == [a[0]] + a[1..] && b == [b[0]] + b[1..];
      }
    } else if a != "" {
      NameOrder(a[1..], a[1..]);
    }
  }

  lemma {:induction false} NameOrderChains(a: string, b: string, c: string)
    requires NameLess(a, b) && NameLess(b, c)
    ensures NameLess(a, c)
  {
    if a != "" && a[0] == b[0] && b[0] == c[0] {
      NameOrderChains(a[1..], b[1..], c[1..]);
    }
  }

  /** The first place where two names part: one of them ends there, or has the smaller code. */
  ghost predicate PartsAt(a: string, b: string, k: nat) {
    && k <= |a| && k < |b| && (forall i :: 0 <= i < k ==> a[i] == b[i])
    && (k == |a| || a[k] as int < b[k] as int)
  }

  /** A name precedes another exactly when it ends first or has the smaller code where they part. */
  lemma {:induction false} NameLessIff(a: string, b: string)
    ensures NameLess(a, b) <==> exists k :: PartsAt(a, b, k)
  {
    if a == "" || b == "" || a[0] != b[0] {
      assert NameLess(a, b) ==> PartsAt(a, b, 0);
    } else {
      NameLessIff(a[1..], b[1..]);
      forall k: nat | PartsAt(a[1..], b[1..], k) ensures PartsAt(a, b, k + 1) {
        forall i | 0 <= i < k + 1 ensures a[i] == b[i] {
          assert i > 0 ==> a[1..][i - 1] == b[1..][i - 1];
        }
      }
      forall k: nat | PartsAt(a, b, k) ensures k > 0 && PartsAt(a[1..], b[1..], k - 1) {
      }
    }
  }

  predicate ByName(x: Reservation, y: Reservation) { NameLess(x.name, y.name) }

  lemma ByNameIsAnOrder()
    ensures StrictWeakOrder(ByName)
  {
    hide NameLess;
    forall x: Reservation, y: Reservation | ByName(x, y) ensures !ByName(y, x) {
      NameOrder(x.name, y.name);
    }
    forall x: Reservation, y: Reservation, z: Reservation | !ByName(x, y) && !ByName(y, z) ensures !ByName(x, z) {
      NameOrder(x.name, y.name);
      NameOrder(y.name, z.name);
      NameOrder(x.name, z.name);
      if ByName(x, z) {
        if x.name != y.name && y.name != z.name {
          NameOrderChains(z.name, y.name, x.name);
        }
      }
    }
  }

  // ------------------------------------------------------------- one ledger

  const MODEL_PREFIX: string := "model:"

  function ModelName(id: string): string { MODEL_PREFIX + id }

  lemma ModelNamesDiffer(id: string, other: string)
    ensures ModelName(id) == ModelName(other) ==> id == other
    ensures !ValidName(ModelName(id))
  {
    assert ModelName(id)[6..] == id && ModelName(other)[6..] == other;
    assert !NameChar(ModelName(id)[5]);
  }

  /** Model reservations under the names they are listed by. */
  function Prefixed(models: map<string, Bytes>): (m: map<string, Bytes>)
    ensures forall id :: id in models ==> ModelName(id) in m && m[ModelName(id)] == models[id]
    ensures forall n :: n in m ==> exists id :: id in models && n == ModelName(id)
  {
    var names := set id | id in models :: ModelName(id);
    assert forall id :: id in models ==> ModelName(id)[6..] == id;
    map n | n in names :: models[n[6..]]
  }

  lemma {:induction false} PrefixedTotal(models: map<string, Bytes>)
    ensures Total(Prefixed(models)) == Total(models)
    decreases |models|
  {
    hide Total, Prefixed;
    if models == map[] {
      NothingPrefixed();
    } else {
      var id :| id in models;
      Shrinks(models, id);
      PrefixedTotal(models - {id});
      TotalWithout(models, id);
      TotalWithout(Prefixed(models), ModelName(id));
      PrefixedWithout(models, id);
    }
  }

  lemma NothingPrefixed()
    ensures Prefixed(map[]) == map[]
  {
  }

  lemma PrefixedWithout(models: map<string, Bytes>, id: string)
    requires id in models
    ensures Prefixed(models) - {ModelName(id)} == Prefixed(models - {id})
  {
    hide Prefixed, ModelName;
    forall other ensures ModelName(id) == ModelName(other) ==> id == other {
      ModelNamesDiffer(id, other);
    }
  }

  /** Everything that is reserved, under the names a status request lists. */
  function Ledger(s: Admission.State): map<string, Bytes> { s.reservations + Prefixed(s.models) }

  lemma {:induction false} UnionTotal(a: map<string, Bytes>, b: map<string, Bytes>)
    requires a.Keys !! b.Keys
    ensures Total(a + b) == Total(a) + Total(b)
    decreases |b|
  {
    hide Total;
    if b == map[] {
      assert a + b == a;
      NothingTotals();
    } else {
      var k :| k in b;
      Shrinks(b, k);
      UnionTotal(a, b - {k});
      TotalWithout(b, k);
      TotalWithout(a + b, k);
      UnionWithout(a, b, k);
    }
  }

  lemma UnionWithout(a: map<string, Bytes>, b: map<string, Bytes>, k: string)
    requires k in b && k !in a
    ensures a + b - {k} == a + (b - {k})
    ensures k in a + b && (a + b)[k] == b[k]
  {
  }

  lemma NothingTotals()
    ensures Total(map[]) == 0
  {
  }

  lemma LedgerTotal(s: Admission.State)
    requires Admission.Accounted(s)
    ensures Total(Ledger(s)) == s.used
  {
    forall n | n in s.reservations ensures n !in Prefixed(s.models) {
      forall id | id in s.models ensures n != ModelName(id) {
        ModelNamesDiffer(id, id);
      }
    }
    UnionTotal(s.reservations, Prefixed(s.models));
    PrefixedTotal(s.models);
  }

  // ------------------------------------------------------------ the listing

  /** Each entry of the ledger once, by name. */
  ghost predicate Lists(m: map<string, Bytes>, rows: seq<Reservation>) {
    && (forall i :: 0 <= i < |rows| ==> rows[i].name in m && rows[i].bytes == m[rows[i].name])
    && (forall n :: n in m ==> Reservation(n, m[n]) in rows)
    && (forall i, j :: 0 <= i < j < |rows| ==> rows[i].name != rows[j].name)
  }

  ghost predicate Ascending(rows: seq<Reservation>) {
    forall i, j :: 0 <= i < j < |rows| ==> NameLess(rows[i].name, rows[j].name)
  }

  /** The snapshot a status request should give. */
  ghost predicate Shows(s: Admission.State, snapshot: StatusSnapshot) {
    && snapshot.capacity == s.capacity && snapshot.used == s.used && snapshot.free == s.Free()
    && Lists(Ledger(s), snapshot.reservations) && Ascending(snapshot.reservations)
  }

  function SumOf(rows: seq<Reservation>): nat {
    if rows == [] then 0 else SumOf(rows[..|rows| - 1]) + rows[|rows| - 1].bytes
  }

  lemma {:induction false} ListedTotal(m: map<string, Bytes>, rows: seq<Reservation>)
    requires Lists(m, rows)
    ensures SumOf(rows) == Total(m)
  {
    if rows == [] {
      assert forall n :: n !in m;
      assert m == map[];
    } else {
      var last, rest := rows[|rows| - 1], rows[..|rows| - 1];
      var fewer := m - {last.name};
      forall n | n in fewer ensures Reservation(n, fewer[n]) in rest {
        var i :| 0 <= i < |rows| && rows[i] == Reservation(n, m[n]);
        assert rest[i] == rows[i];
      }
      ListedTotal(fewer, rest);
      TotalWithout(m, last.name);
    }
  }

  /** The listed bytes are the used bytes, and with the free bytes they are the capacity. */
  lemma ShownBytesAddUp(s: Admission.State, snapshot: StatusSnapshot)
    requires Admission.Accounted(s) && Shows(s, snapshot)
    ensures SumOf(snapshot.reservations) == snapshot.used
    ensures snapshot.used + snapshot.free == snapshot.capacity
  {
    ListedTotal(Ledger(s), snapshot.reservations);
    LedgerTotal(s);
  }

  /** Clients are listed under their names, models with a prefix that no client name can have. */
  predicate ListedName(name: string) {
    ValidName(name) || (|name| >= 6 && name[..6] == MODEL_PREFIX && ValidName(name[6..]))
  }

  /** Every row is a client's, under the client's name, or a model's, under "model:" and its id, never
      both, and carries the bytes reserved. */
  lemma ShownNamesAreListed(s: Admission.State, snapshot: StatusSnapshot)
    requires Admission.Accounted(s) && Shows(s, snapshot)
    ensures forall i :: 0 <= i < |snapshot.reservations| ==>
      var row := snapshot.reservations[i];
      && ListedName(row.name)
      && (ValidName(row.name) <==> row.name in s.reservations)
      && (if ValidName(row.name) then row.bytes == s.reservations[row.name]
          else && |row.name| > 6 && row.name[..6] == "model:" && row.name[6..] in s.models
               && row.bytes == s.models[row.name[6..]])
  {
    hide ValidName, Prefixed;
    forall i | 0 <= i < |snapshot.reservations|
      ensures var row := snapshot.reservations[i];
        && ListedName(row.name)
        && (ValidName(row.name) <==> row.name in s.reservations)
        && (if ValidName(row.name) then row.bytes == s.reservations[row.name]
            else && |row.name| > 6 && row.name[..6] == "model:" && row.name[6..] in s.models
                 && row.bytes == s.models[row.name[6..]])
    {
      var n := snapshot.reservations[i].name;
      if n in Prefixed(s.models) {
        var id :| id in s.models && n == ModelName(id);
        ModelNamesDiffer(id, id);
        assert n[..6] == MODEL_PREFIX && n[6..] == id;
        assert |id| > 0 by { NamesAreNotEmpty(id); }
      }
    }
  }

  lemma NamesAreNotEmpty(id: string)
    requires ValidName(id)
    ensures |id| > 0
  {
  }

  /** Every reservation has its row. */
  lemma EverythingIsShown(s: Admission.State, snapshot: StatusSnapshot, name: string)
    requires Shows(s, snapshot) && forall n :: n in s.reservations ==> ValidName(n)
    ensures name in s.reservations ==> Reservation(name, s.reservations[name]) in snapshot.reservations
    ensures name in s.models ==> Reservation("model:" + name, s.models[name]) in snapshot.reservations
  {
    hide ValidName, Prefixed;
    ModelNamesDiffer(name, name);
    if name in s.models {
      assert ModelName(name) in Ledger(s) && Ledger(s)[ModelName(name)] == s.models[name];
    }
    if name in s.reservations {
      forall id | id in s.models ensures name != ModelName(id) {
        ModelNamesDiffer(id, id);
      }
      assert name in Ledger(s) && Ledger(s)[name] == s.reservations[name];
    }
  }

  /** The state determines the snapshot. */
  lemma {:induction false} SameRows(m: map<string, Bytes>, x: seq<Reservation>, y: seq<Reservation>)
    requires Lists(m, x) && Lists(m, y) && Ascending(x) && Ascending(y)
    ensures x == y
    decreases |x|
  {
    hide NameLess, Lists, Ascending;
    EmptyTogether(m, x, y);
    EmptyTogether(m, y, x);
    if x != [] {
      FirstInOrder(m, x, y);
      FirstInOrder(m, y, x);
      NameOrder(x[0].name, y[0].name);
      TailLists(m, x);
      TailLists(m, y);
      SameRows(m - {x[0].name}, x[1..], y[1..]);
      assert x == [x[0]] + x[1..] && y == [y[0]] + y[1..];
    }
  }

  lemma FirstInOrder(m: map<string, Bytes>, x: seq<Reservation>, y: seq<Reservation>)
    requires Lists(m, x) && Lists(m, y) && Ascending(x) && x != [] && y != []
    ensures x[0] == y[0] || NameLess(x[0].name, y[0].name)
  {
    hide NameLess;
    assert Reservation(y[0].name, m[y[0].name]) in x;
    var i :| 0 <= i < |x| && x[i] == y[0];
  }

  lemma EmptyTogether(m: map<string, Bytes>, x: seq<Reservation>, y: seq<Reservation>)
    requires Lists(m, x) && Lists(m, y)
    ensures x == [] ==> y == []
  {
    if y != [] {
      assert Reservation(y[0].name, m[y[0].name]) in x;
    }
  }

  lemma TailLists(m: map<string, Bytes>, rows: seq<Reservation>)
    requires Lists(m, rows) && Ascending(rows) && rows != []
    ensures Lists(m - {rows[0].name}, rows[1..]) && Ascending(rows[1..])
  {
    hide NameLess;
    forall n | n in m && n != rows[0].name ensures Reservation(n, m[n]) in rows[1..] {
      var i :| 0 <= i < |rows| && rows[i] == Reservation(n, m[n]);
      assert rows[1..][i - 1] == rows[i];
    }
  }

  lemma SnapshotIsDetermined(s: Admission.State, x: StatusSnapshot, y: StatusSnapshot)
    requires Shows(s, x) && Shows(s, y)
    ensures x == y
  {
    SameRows(Ledger(s), x.reservations, y.reservations);
  }

  // ------------------------------------------------------------ the building

  lemma ListsOneMore(m: map<string, Bytes>, rows: seq<Reservation>, n: string, bytes: Bytes)
    requires Lists(m, rows) && n !in m
    ensures Lists(m[n := bytes], rows + [Reservation(n, bytes)])
  {
    var more := rows + [Reservation(n, bytes)];
    assert more[|rows|] == Reservation(n, bytes);
    forall k | k in m ensures Reservation(k, m[k]) in more {
      assert Reservation(k, m[k]) in rows;
    }
  }

  /** Sorted by name, the rows still list the ledger. */
  lemma SortedLists(m: map<string, Bytes>, rows: seq<Reservation>, sorted: seq<Reservation>)
    requires Lists(m, rows) && multiset(sorted) == multiset(rows) && SortedBy(ByName, sorted)
    ensures Lists(m, sorted) && Ascending(sorted)
  {
    hide NameLess;
    PermutedIsDistinct(rows, sorted);
    forall i | 0 <= i < |sorted| ensures sorted[i] in rows {
      assert sorted[i] in multiset(rows);
    }
    forall n | n in m ensures Reservation(n, m[n]) in sorted {
      assert Reservation(n, m[n]) in multiset(sorted);
    }
    forall i, j | 0 <= i < j < |sorted| ensures NameLess(sorted[i].name, sorted[j].name) {
      assert sorted[i] != sorted[j] && sorted[i].name != sorted[j].name;
      assert !ByName(sorted[j], sorted[i]);
      NameOrder(sorted[i].name, sorted[j].name);
    }
  }

  lemma ListedSoFar(m: map<string, Bytes>, todo: set<string>, n: string)
    requires n in todo && todo <= m.Keys
    ensures n !in m - todo && m - (todo - {n}) == (m - todo)[n := m[n]]
  {
  }

  lemma NextModel(a: map<string, Bytes>, models: map<string, Bytes>, todo: set<string>, id: string)
    requires id in todo && todo <= models.Keys && forall n :: n in a ==> ValidName(n)
    ensures ModelName(id) !in a + Prefixed(models - todo)
    ensures a + Prefixed(models - (todo - {id})) == (a + Prefixed(models - todo))[ModelName(id) := models[id]]
  {
    hide Prefixed, ModelName, ValidName;
    PrefixedMore(models, todo, id);
    ModelNamesDiffer(id, id);
  }

  lemma PrefixedMore(models: map<string, Bytes>, todo: set<string>, id: string)
    requires id in todo && todo <= models.Keys
    ensures ModelName(id) !in Prefixed(models - todo)
    ensures Prefixed(models - (todo - {id})) == Prefixed(models - todo)[ModelName(id) := models[id]]
  {
    hide Prefixed, ModelName;
    forall other ensures ModelName(id) == ModelName(other) ==> id == other {
      ModelNamesDiffer(id, other);
    }
  }

  /** The two loops over the ledgers, and the sort. */
  method ListAll(reservations: map<string, Bytes>, models: map<string, Bytes>) returns (rows: seq<Reservation>)
    requires forall n :: n in reservations ==> ValidName(n)
    ensures Lists(reservations + Prefixed(models), rows) && Ascending(rows)
  {
    hide Lists, NameLess, Prefixed, ValidName;
    rows := [];
    NothingListed(reservations, models);
    var todo := reservations.Keys;
    while todo != {}
      invariant todo <= reservations.Keys && Lists(reservations - todo, rows)
      decreases |todo|
    {
      var n :| n in todo;
      ListedSoFar(reservations, todo, n);
      ListsOneMore(reservations - todo, rows, n, reservations[n]);
      rows := rows + [Reservation(n, reservations[n])];
      todo := todo - {n};
    }
    assert reservations - {} == reservations;
    var left := models.Keys;
    while left != {}
      invariant left <= models.Keys && Lists(reservations + Prefixed(models - left), rows)
      decreases |left|
    {
      var id :| id in left;
      NextModel(reservations, models, left, id);
      ListsOneMore(reservations + Prefixed(models - left), rows, ModelName(id), models[id]);
      rows := rows + [Reservation(ModelName(id), models[id])];
      left := left - {id};
    }
    assert models - {} == models;
    ByNameIsAnOrder();
    var sorted := Sort(rows, ByName);
    SortedLists(reservations + Prefixed(models), rows, sorted);
    rows := sorted;
  }

  lemma NothingListed(reservations: map<string, Bytes>, models: map<string, Bytes>)
    ensures Lists(reservations - reservations.Keys, [])
    ensures reservations + Prefixed(models - models.Keys) == reservations
  {
  }
}
