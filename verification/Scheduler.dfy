/** Queue order, expiry and the selection loop of the admission scheduler. */
module Scheduler {
  import opened Common

  datatype Policy = PriorityFifo | CostAware

  /** Nanoseconds on a monotonic clock; the largest value stands for "never". */
  type Time = t: int | 0 <= t <= 0x7FFF_FFFF_FFFF_FFFF

  const FOREVER: Time := 0x7FFF_FFFF_FFFF_FFFF

  /** Signed 64-bit milliseconds; as a timeout the largest value stands for "wait for ever". */
  type Millis = m: int | -0x8000_0000_0000_0000 <= m <= 0x7FFF_FFFF_FFFF_FFFF

  const NO_TIMEOUT: Millis := 0x7FFF_FFFF_FFFF_FFFF

  type Priority = p: int | -0x8000_0000 <= p <= 0x7FFF_FFFF

  datatype Request = Request(name: string, bytes: Bytes, priority: Priority, cost: Millis, sequence: nat, deadline: Time)

  function RemoveAt<T>(s: seq<T>, i: nat): seq<T>
    requires i < |s|
  {
    s[..i] + s[i + 1..]
  }

  /** How often a sequence number occurs in a queue. */
  function Count(q: seq<Request>, n: nat): nat {
    if q == [] then 0 else Count(q[..|q| - 1], n) + (if q[|q| - 1].sequence == n then 1 else 0)
  }

  lemma {:induction false} CountSplit(x: seq<Request>, y: seq<Request>, n: nat)
    ensures Count(x + y, n) == Count(x, n) + Count(y, n)
  {
    if y == [] {
      assert x + y == x;
    } else {
      assert (x + y)[..|x + y| - 1] == x + y[..|y| - 1];
      CountSplit(x, y[..|y| - 1], n);
    }
  }

  lemma CountWithout(q: seq<Request>, i: nat, n: nat)
    requires i < |q|
    ensures Count(q, n) == Count(RemoveAt(q, i), n) + (if q[i].sequence == n then 1 else 0)
  {
    assert q == q[..i] + ([q[i]] + q[i + 1..]);
    CountSplit(q[..i], [q[i]] + q[i + 1..], n);
    CountSplit([q[i]], q[i + 1..], n);
    CountSplit(q[..i], q[i + 1..], n);
  }

  // ------------------------------------------------------------------- order

  /** Candidate a displaces the selected request b. */
  predicate Ahead(policy: Policy, a: Request, b: Request) {
    || a.priority > b.priority
    || (a.priority == b.priority && policy == CostAware && a.cost < b.cost)
    || (a.priority == b.priority && (policy != CostAware || a.cost == b.cost) && a.sequence < b.sequence)
  }

  ghost predicate DistinctSequences(q: seq<Request>) {
    forall i, j :: 0 <= i < j < |q| ==> q[i].sequence != q[j].sequence
  }

  ghost predicate RankOrdered(policy: Policy, q: seq<Request>) {
    forall i, j :: 0 <= i < j < |q| ==> Ahead(policy, q[i], q[j])
  }

  /** The policy ranks requests with different sequence numbers strictly and totally: the higher
      priority first, then where costs count the lower cost, then the earlier arrival. */
  lemma AheadIsStrictTotalOrder(policy: Policy, a: Request, b: Request, c: Request)
    ensures !Ahead(policy, a, a)
    ensures Ahead(policy, a, b) ==> !Ahead(policy, b, a)
    ensures Ahead(policy, a, b) && Ahead(policy, b, c) ==> Ahead(policy, a, c)
    ensures a.sequence != b.sequence ==> Ahead(policy, a, b) || Ahead(policy, b, a)
    ensures a.priority > b.priority ==> Ahead(policy, a, b)
    ensures a.priority == b.priority && policy.CostAware? && a.cost < b.cost ==> Ahead(policy, a, b)
    ensures a.priority == b.priority && (policy.PriorityFifo? || a.cost == b.cost) && a.sequence < b.sequence ==>
      Ahead(policy, a, b)
  {
  }

  // ------------------------------------------------------------------ expiry

  predicate Due(r: Request, now: Time) { r.deadline != FOREVER && now >= r.deadline }

  function Live(q: seq<Request>, now: Time): seq<Request> {
    if q == [] then []
    else
      var before := Live(q[..|q| - 1], now);
      if Due(q[|q| - 1], now) then before else before + [q[|q| - 1]]
  }

  function Overdue(q: seq<Request>, now: Time): seq<Request> {
    if q == [] then []
    else
      var before := Overdue(q[..|q| - 1], now);
      if Due(q[|q| - 1], now) then before + [q[|q| - 1]] else before
  }

  lemma {:induction false} ExpirySplits(q: seq<Request>, now: Time)
    ensures forall r :: r in Live(q, now) <==> r in q && !Due(r, now)
    ensures forall r :: r in Overdue(q, now) <==> r in q && Due(r, now)
  {
    if q != [] {
      ExpirySplits(q[..|q| - 1], now);
      assert q == q[..|q| - 1] + [q[|q| - 1]];
    }
  }

  lemma {:induction false} ExpiryCounts(q: seq<Request>, now: Time, n: nat)
    ensures Count(q, n) == Count(Live(q, now), n) + Count(Overdue(q, now), n)
  {
    if q != [] {
      var last := [q[|q| - 1]];
      ExpiryCounts(q[..|q| - 1], now, n);
      CountSplit(Live(q[..|q| - 1], now), last, n);
      CountSplit(Overdue(q[..|q| - 1], now), last, n);
    }
  }

  // --------------------------------------------------------------- selection

  /** The index selected after looking at the first n requests; |q| when none of them fits. */
  function Scan(policy: Policy, q: seq<Request>, free: int, n: nat): (selected: nat)
    requires n <= |q|
    ensures selected < n || selected == |q|
  {
    if n == 0 then |q|
    else
      var selected := Scan(policy, q, free, n - 1);
      if q[n - 1].bytes > free then selected
      else if selected == |q| || Ahead(policy, q[n - 1], q[selected]) then n - 1
      else selected
  }

  /** The scan finds the fitting request that ranks ahead of all other fitting ones. */
  lemma {:induction false} ScanFindsBest(policy: Policy, q: seq<Request>, free: int, n: nat)
    requires n <= |q| && DistinctSequences(q)
    ensures var k := Scan(policy, q, free, n);
      && (k == |q| ==> forall j :: 0 <= j < n ==> q[j].bytes > free)
      && (k != |q| ==> k < n && q[k].bytes <= free)
      && (k != |q| ==> forall j :: 0 <= j < n && j != k && q[j].bytes <= free ==> Ahead(policy, q[k], q[j]))
  {
    if n > 0 {
      ScanFindsBest(policy, q, free, n - 1);
    }
  }

  datatype Round = Round(granted: seq<Request>, waiting: seq<Request>)

  /** Repeated selection: take the best fitting request until none fits. */
  function Select(policy: Policy, q: seq<Request>, free: int): Round
    decreases |q|
  {
    var k := Scan(policy, q, free, |q|);
    if k == |q| then Round([], q)
    else
      var rest := Select(policy, RemoveAt(q, k), free - q[k].bytes);
      Round([q[k]] + rest.granted, rest.waiting)
  }

  /** The simple form: walk the queue once, granting whatever still fits. */
  function OnePass(q: seq<Request>, free: int): Round {
    if q == [] then Round([], [])
    else if q[0].bytes > free then
      var rest := OnePass(q[1..], free);
      Round(rest.granted, [q[0]] + rest.waiting)
    else
      var rest := OnePass(q[1..], free - q[0].bytes);
      Round([q[0]] + rest.granted, rest.waiting)
  }

  ghost predicate SameMembers(p: seq<Request>, q: seq<Request>) {
    forall x :: x in p <==> x in q
  }

  lemma RemovedMembers(q: seq<Request>, i: nat, x: Request)
    requires i < |q| && DistinctSequences(q)
    ensures x in RemoveAt(q, i) <==> x in q && x != q[i]
  {
    var t := RemoveAt(q, i);
    if x in t {
      var j :| 0 <= j < |t| && t[j] == x;
      assert x == q[if j < i then j else j + 1];
    }
    if x in q && x != q[i] {
      var j :| 0 <= j < |q| && q[j] == x;
      assert t[if j < i then j else j - 1] == x;
    }
  }

  lemma RankedAreDistinct(policy: Policy, p: seq<Request>, q: seq<Request>, i: nat, j: nat)
    requires DistinctSequences(p) && SameMembers(p, q) && RankOrdered(policy, q) && i < j < |q|
    ensures q[i].sequence != q[j].sequence
  {
    AheadIsStrictTotalOrder(policy, q[i], q[j], q[j]);
    assert q[i] in p && q[j] in p;
    var k :| 0 <= k < |p| && p[k] == q[i];
    var l :| 0 <= l < |p| && p[l] == q[j];
  }

  lemma RemovedStaysDistinct(q: seq<Request>, i: nat)
    requires i < |q| && DistinctSequences(q)
    ensures DistinctSequences(RemoveAt(q, i))
    ensures InSequence(q) ==> InSequence(RemoveAt(q, i))
  {
    var t := RemoveAt(q, i);
    forall j, k | 0 <= j < k < |t|
      ensures t[j].sequence != t[k].sequence
      ensures InSequence(q) ==> t[j].sequence < t[k].sequence
    {
      assert t[j] == q[if j < i then j else j + 1] && t[k] == q[if k < i then k else k + 1];
    }
  }

  lemma {:induction false} PassSkips(q: seq<Request>, k: nat, free: int)
    requires k <= |q| && forall j :: 0 <= j < k ==> q[j].bytes > free
    ensures OnePass(q, free).granted == OnePass(q[k..], free).granted
  {
    if k > 0 {
      PassSkips(q[1..], k - 1, free);
      assert q[1..][k - 1..] == q[k..];
    } else {
      assert q[0..] == q;
    }
  }

  lemma RemovedStaysOrdered(policy: Policy, q: seq<Request>, i: nat)
    requires i < |q| && RankOrdered(policy, q)
    ensures RankOrdered(policy, RemoveAt(q, i))
  {
    var t := RemoveAt(q, i);
    forall j, k | 0 <= j < k < |t| ensures Ahead(policy, t[j], t[k]) {
      assert t[j] == q[if j < i then j else j + 1] && t[k] == q[if k < i then k else k + 1];
    }
  }

  /** In the ranked queue the best fitting request comes right after some that do not fit. */
  lemma BestInRankedQueue(policy: Policy, p: seq<Request>, q: seq<Request>, free: int) returns (k: nat)
    requires DistinctSequences(p) && SameMembers(p, q) && RankOrdered(policy, q)
    requires Scan(policy, p, free, |p|) < |p|
    ensures k < |q| && q[k] == p[Scan(policy, p, free, |p|)] && q[k].bytes <= free
    ensures forall j :: 0 <= j < k ==> q[j].bytes > free
  {
    var i := Scan(policy, p, free, |p|);
    ScanFindsBest(policy, p, free, |p|);
    assert p[i] in q;
    k :| 0 <= k < |q| && q[k] == p[i];
    forall j | 0 <= j < k ensures q[j].bytes > free {
      assert Ahead(policy, q[j], q[k]);
      assert q[j] in p;
      var l :| 0 <= l < |p| && p[l] == q[j];
      AheadIsStrictTotalOrder(policy, p[l], p[i], p[i]);
    }
  }

  lemma PassAtFirstFit(q: seq<Request>, k: nat, free: int)
    requires k < |q| && q[k].bytes <= free && forall j :: 0 <= j < k ==> q[j].bytes > free
    ensures OnePass(q, free).granted == [q[k]] + OnePass(RemoveAt(q, k), free - q[k].bytes).granted
  {
    PassSkips(q, k, free);
    assert q[k..][1..] == q[k + 1..];
    var t := RemoveAt(q, k);
    PassSkips(t, k, free - q[k].bytes);
    assert t[k..] == q[k + 1..];
  }

  lemma NoneFits(p: seq<Request>, q: seq<Request>, free: int)
    requires SameMembers(p, q) && forall j :: 0 <= j < |p| ==> p[j].bytes > free
    ensures OnePass(q, free).granted == []
  {
    forall j | 0 <= j < |q| ensures q[j].bytes > free {
      assert q[j] in p;
    }
    PassSkips(q, |q|, free);
  }

  /** One turn of the selection loop. */
  lemma SelectTurn(policy: Policy, q: seq<Request>, free: int) returns (best: Request, rest: seq<Request>)
    requires DistinctSequences(q) && Scan(policy, q, free, |q|) < |q|
    ensures best == q[Scan(policy, q, free, |q|)] && best.bytes <= free
    ensures |rest| == |q| - 1 && forall x :: x in rest <==> x in q && x != best
    ensures DistinctSequences(rest) && (InSequence(q) ==> InSequence(rest))
    ensures Select(policy, q, free).granted == [best] + Select(policy, rest, free - best.bytes).granted
    ensures Select(policy, q, free).waiting == Select(policy, rest, free - best.bytes).waiting
    ensures forall x :: x in rest ==> MayPass(policy, best, x)
    ensures forall n :: Count(q, n) == Count(rest, n) + (if best.sequence == n then 1 else 0)
  {
    hide Count, Scan, MayPass, Ahead;
    var k := Scan(policy, q, free, |q|);
    ScanFindsBest(policy, q, free, |q|);
    best, rest := q[k], RemoveAt(q, k);
    RemovedStaysDistinct(q, k);
    forall x ensures x in rest <==> x in q && x != best {
      RemovedMembers(q, k, x);
    }
    forall x | x in rest ensures MayPass(policy, best, x) {
      BestPassesOthers(policy, q, free, x);
    }
    forall n ensures Count(q, n) == Count(rest, n) + (if best.sequence == n then 1 else 0) {
      CountWithout(q, k, n);
    }
  }

  /** The same turn seen from the ranked queue. */
  lemma PassTurn(policy: Policy, p: seq<Request>, q: seq<Request>, free: int, best: Request)
    returns (rest: seq<Request>)
    requires DistinctSequences(p) && SameMembers(p, q) && RankOrdered(policy, q)
    requires Scan(policy, p, free, |p|) < |p| && best == p[Scan(policy, p, free, |p|)]
    ensures RankOrdered(policy, rest) && forall x :: x in rest <==> x in q && x != best
    ensures OnePass(q, free).granted == [best] + OnePass(rest, free - best.bytes).granted
  {
    var k := BestInRankedQueue(policy, p, q, free);
    PassAtFirstFit(q, k, free);
    forall i, j | 0 <= i < j < |q| ensures q[i].sequence != q[j].sequence {
      RankedAreDistinct(policy, p, q, i, j);
    }
    forall x ensures x in RemoveAt(q, k) <==> x in q && x != best {
      RemovedMembers(q, k, x);
    }
    RemovedStaysOrdered(policy, q, k);
    rest := RemoveAt(q, k);
  }

  /** Repeated best-fitting selection grants what one pass over the ranked queue grants, in the
      same order. */
  lemma {:induction false} SelectIsOnePass(policy: Policy, p: seq<Request>, q: seq<Request>, free: int)
    requires DistinctSequences(p) && SameMembers(p, q) && RankOrdered(policy, q)
    ensures Select(policy, p, free).granted == OnePass(q, free).granted
    decreases |p|
  {
    if Scan(policy, p, free, |p|) == |p| {
      ScanFindsBest(policy, p, free, |p|);
      NoneFits(p, q, free);
    } else {
      var best, p' := SelectTurn(policy, p, free);
      var q' := PassTurn(policy, p, q, free, best);
      SelectIsOnePass(policy, p', q', free - best.bytes);
    }
  }

  // ------------------------------------------------- the ranked queue exists

  function InsertByRank(policy: Policy, r: Request, q: seq<Request>): seq<Request> {
    if q == [] || Ahead(policy, r, q[0]) then [r] + q else [q[0]] + InsertByRank(policy, r, q[1..])
  }

  function RankQueue(policy: Policy, q: seq<Request>): seq<Request> {
    if q == [] then [] else InsertByRank(policy, q[0], RankQueue(policy, q[1..]))
  }

  lemma {:induction false} InsertElements(policy: Policy, r: Request, q: seq<Request>)
    ensures |InsertByRank(policy, r, q)| == |q| + 1
    ensures forall x :: x in InsertByRank(policy, r, q) <==> x == r || x in q
  {
    if q != [] && !Ahead(policy, r, q[0]) {
      InsertElements(policy, r, q[1..]);
    }
  }

  lemma RankedCons(policy: Policy, r: Request, q: seq<Request>)
    requires RankOrdered(policy, q) && forall x :: x in q ==> Ahead(policy, r, x)
    ensures RankOrdered(policy, [r] + q)
  {
  }

  lemma {:induction false} InsertKeepsRank(policy: Policy, r: Request, q: seq<Request>)
    requires RankOrdered(policy, q) && forall x :: x in q ==> x.sequence != r.sequence
    ensures RankOrdered(policy, InsertByRank(policy, r, q))
  {
    if q == [] {
    } else if Ahead(policy, r, q[0]) {
      forall x | x in q ensures Ahead(policy, r, x) {
        AheadIsStrictTotalOrder(policy, r, q[0], x);
      }
      RankedCons(policy, r, q);
    } else {
      var rest := InsertByRank(policy, r, q[1..]);
      InsertKeepsRank(policy, r, q[1..]);
      InsertElements(policy, r, q[1..]);
      AheadIsStrictTotalOrder(policy, r, q[0], q[0]);
      forall x | x in rest ensures Ahead(policy, q[0], x) {
      }
      RankedCons(policy, q[0], rest);
    }
  }

  /** Ranking permutes a queue into rank order. */
  lemma {:induction false} RankQueueSorts(policy: Policy, q: seq<Request>)
    requires DistinctSequences(q)
    ensures |RankQueue(policy, q)| == |q|
    ensures SameMembers(q, RankQueue(policy, q)) && RankOrdered(policy, RankQueue(policy, q))
  {
    if q != [] {
      RankQueueSorts(policy, q[1..]);
      InsertElements(policy, q[0], RankQueue(policy, q[1..]));
      forall x | x in RankQueue(policy, q[1..]) ensures x.sequence != q[0].sequence {
        assert x in q[1..];
      }
      InsertKeepsRank(policy, q[0], RankQueue(policy, q[1..]));
    }
  }

  /** The grants depend on which requests are queued, not on how the queue stores them. */
  lemma SelectIgnoresStorageOrder(policy: Policy, p: seq<Request>, p': seq<Request>, free: int)
    requires DistinctSequences(p) && DistinctSequences(p') && SameMembers(p, p')
    ensures Select(policy, p, free).granted == Select(policy, p', free).granted
    ensures Select(policy, p, free).granted == OnePass(RankQueue(policy, p), free).granted
  {
    RankQueueSorts(policy, p);
    SelectIsOnePass(policy, p, RankQueue(policy, p), free);
    SelectIsOnePass(policy, p', RankQueue(policy, p), free);
  }

  // -------------------------------------------------- what a round guarantees

  function SumBytes(q: seq<Request>): nat {
    if q == [] then 0 else q[0].bytes + SumBytes(q[1..])
  }

  ghost predicate Partition(q: seq<Request>, r: Round) {
    && |q| == |r.granted| + |r.waiting|
    && (forall x :: x in q <==> x in r.granted || x in r.waiting)
    && (forall x :: x in r.granted ==> x !in r.waiting)
    && DistinctSequences(r.granted)
  }

  lemma PartitionCons(q: seq<Request>, best: Request, rest: seq<Request>, r: Round)
    requires DistinctSequences(q) && best in q && |rest| == |q| - 1 && Partition(rest, r)
    requires forall x :: x in rest <==> x in q && x != best
    ensures Partition(q, Round([best] + r.granted, r.waiting))
  {
    forall x | x in q && x != best ensures x.sequence != best.sequence {
      var i, j :| 0 <= i < |q| && 0 <= j < |q| && q[i] == x && q[j] == best;
    }
    assert forall i :: 0 <= i < |r.granted| ==> r.granted[i] in rest;
  }

  /** A round splits the queue: every request is granted or still waits, none both. */
  lemma {:induction false} SelectSplits(policy: Policy, q: seq<Request>, free: int)
    requires DistinctSequences(q)
    ensures Partition(q, Select(policy, q, free))
    decreases |q|
  {
    if Scan(policy, q, free, |q|) < |q| {
      var best, rest := SelectTurn(policy, q, free);
      var r := Select(policy, rest, free - best.bytes);
      SelectSplits(policy, rest, free - best.bytes);
      PartitionCons(q, best, rest, r);
      assert Select(policy, q, free) == Round([best] + r.granted, r.waiting);
    } else {
      assert Select(policy, q, free) == Round([], q);
    }
  }

  lemma {:induction false} SelectCounts(policy: Policy, q: seq<Request>, free: int, n: nat)
    requires DistinctSequences(q)
    ensures var r := Select(policy, q, free); Count(q, n) == Count(r.granted, n) + Count(r.waiting, n)
    decreases |q|
  {
    if Scan(policy, q, free, |q|) < |q| {
      var best, rest := SelectTurn(policy, q, free);
      var left := free - best.bytes;
      SelectCounts(policy, rest, left, n);
      CountSplit([best], Select(policy, rest, left).granted, n);
    }
  }

  /** A round stays within the free bytes and stops only when nothing fits. */
  lemma {:induction false} SelectFills(policy: Policy, q: seq<Request>, free: int)
    requires DistinctSequences(q) && free >= 0
    ensures var r := Select(policy, q, free);
      && SumBytes(r.granted) <= free
      && forall j :: 0 <= j < |r.waiting| ==> r.waiting[j].bytes > free - SumBytes(r.granted)
    decreases |q|
  {
    if Scan(policy, q, free, |q|) < |q| {
      var best, rest := SelectTurn(policy, q, free);
      SelectFills(policy, rest, free - best.bytes);
    } else {
      ScanFindsBest(policy, q, free, |q|);
    }
  }

  ghost predicate InSequence(q: seq<Request>) {
    forall i, j :: 0 <= i < j < |q| ==> q[i].sequence < q[j].sequence
  }

  lemma {:induction false} SelectKeepsArrivalOrder(policy: Policy, q: seq<Request>, free: int)
    requires InSequence(q)
    ensures InSequence(Select(policy, q, free).waiting)
    decreases |q|
  {
    if Scan(policy, q, free, |q|) < |q| {
      var best, rest := SelectTurn(policy, q, free);
      SelectKeepsArrivalOrder(policy, rest, free - best.bytes);
    }
  }

  lemma {:induction false} LiveKeepsArrivalOrder(q: seq<Request>, now: Time)
    requires InSequence(q)
    ensures InSequence(Live(q, now))
  {
    if q != [] {
      LiveKeepsArrivalOrder(q[..|q| - 1], now);
      ExpirySplits(q[..|q| - 1], now);
      forall r | r in Live(q[..|q| - 1], now) ensures r.sequence < q[|q| - 1].sequence {
        var i :| 0 <= i < |q| - 1 && q[i] == r;
      }
    }
  }

  /** r may be granted while x waits only if it is smaller or ranks ahead. */
  predicate MayPass(policy: Policy, r: Request, x: Request) {
    r.bytes < x.bytes || Ahead(policy, r, x)
  }

  lemma BestPassesOthers(policy: Policy, q: seq<Request>, free: int, x: Request)
    requires DistinctSequences(q)
    requires var k := Scan(policy, q, free, |q|); k < |q| && x in RemoveAt(q, k)
    ensures MayPass(policy, q[Scan(policy, q, free, |q|)], x)
  {
    var k := Scan(policy, q, free, |q|);
    ScanFindsBest(policy, q, free, |q|);
    var t := RemoveAt(q, k);
    var j :| 0 <= j < |t| && t[j] == x;
    assert x == q[if j < k then j else j + 1];
  }

  ghost predicate NeverOvertakes(policy: Policy, r: Round) {
    && (forall i, j :: 0 <= i < j < |r.granted| ==> MayPass(policy, r.granted[i], r.granted[j]))
    && (forall i, x :: 0 <= i < |r.granted| && x in r.waiting ==> MayPass(policy, r.granted[i], x))
  }

  lemma NeverOvertakesCons(policy: Policy, x: Request, r: Round)
    requires NeverOvertakes(policy, r)
    requires forall y :: y in r.granted || y in r.waiting ==> MayPass(policy, x, y)
    ensures NeverOvertakes(policy, Round([x] + r.granted, r.waiting))
  {
  }

  /** Within a round, nothing is granted before a request it neither outranks nor undercuts. */
  lemma {:induction false} SelectNeverOvertakes(policy: Policy, q: seq<Request>, free: int)
    requires DistinctSequences(q)
    ensures NeverOvertakes(policy, Select(policy, q, free))
    decreases |q|
  {
    if Scan(policy, q, free, |q|) < |q| {
      var best, rest := SelectTurn(policy, q, free);
      var left := free - best.bytes;
      SelectNeverOvertakes(policy, rest, left);
      SelectSplits(policy, rest, left);
      NeverOvertakesCons(policy, best, Select(policy, rest, left));
    }
  }

  lemma {:induction false} SumStarts(best: Request, q: seq<Request>, i: nat)
    requires i <= |q|
    ensures SumBytes(([best] + q)[..i + 1]) == best.bytes + SumBytes(q[..i])
  {
    assert ([best] + q)[..i + 1][1..] == q[..i];
  }

  lemma BestOutranksOthers(policy: Policy, q: seq<Request>, free: int, x: Request)
    requires DistinctSequences(q) && x.bytes <= free
    requires var k := Scan(policy, q, free, |q|); k < |q| && x in q && x != q[k]
    ensures var r := q[Scan(policy, q, free, |q|)];
      || r.priority > x.priority
      || (r.priority == x.priority && policy.CostAware? && r.cost < x.cost)
      || (r.priority == x.priority && (policy.PriorityFifo? || r.cost == x.cost) && r.sequence < x.sequence)
  {
    ScanFindsBest(policy, q, free, |q|);
    var j :| 0 <= j < |q| && q[j] == x;
  }

  /** When grant number i is made, every other request still queued that would also fit in what is
      free then has a lower priority, or as high a one and a higher cost where costs count, or the
      same of both and a later arrival. */
  lemma {:induction false} GrantsAreBestFitting(policy: Policy, q: seq<Request>, free: int, i: nat, x: Request)
    requires DistinctSequences(q) && i < |Select(policy, q, free).granted|
    requires x in Select(policy, q, free).waiting || x in Select(policy, q, free).granted[i + 1..]
    requires x.bytes <= free - SumBytes(Select(policy, q, free).granted[..i])
    ensures var r := Select(policy, q, free).granted[i];
      || r.priority > x.priority
      || (r.priority == x.priority && policy.CostAware? && r.cost < x.cost)
      || (r.priority == x.priority && (policy.PriorityFifo? || r.cost == x.cost) && r.sequence < x.sequence)
    decreases |q|
  {
    hide Scan, Ahead, MayPass;
    assert Scan(policy, q, free, |q|) < |q|;
    var best, rest := SelectTurn(policy, q, free);
    var more := Select(policy, rest, free - best.bytes);
    assert Select(policy, q, free).granted == [best] + more.granted;
    SelectSplits(policy, rest, free - best.bytes);
    if i == 0 {
      assert x in rest;
      BestOutranksOthers(policy, q, free, x);
    } else {
      SumStarts(best, more.granted, i - 1);
      assert ([best] + more.granted)[i + 1..] == more.granted[i..];
      GrantsAreBestFitting(policy, rest, free - best.bytes, i - 1, x);
    }
  }

  // -------------------------------------------------- rounds with one newcomer

  lemma SelectNothing(policy: Policy, q: seq<Request>, free: int)
    requires DistinctSequences(q) && forall x :: x in q ==> x.bytes > free
    ensures Select(policy, q, free) == Round([], q)
  {
    ScanFindsBest(policy, q, free, |q|);
    forall j | 0 <= j < |q| ensures q[j].bytes > free {
      assert q[j] in q;
    }
  }

  lemma ScanNewcomer(policy: Policy, q: seq<Request>, r: Request, free: int)
    requires DistinctSequences(q + [r]) && r.bytes <= free && forall x :: x in q ==> x.bytes > free
    ensures Scan(policy, q + [r], free, |q| + 1) == |q|
  {
    var all := q + [r];
    forall j | 0 <= j < |q| ensures all[j].bytes > free {
      assert q[j] in q;
    }
    assert all[|q|] == r;
    ScanFindsBest(policy, all, free, |all|);
  }

  /** When only the newcomer fits, the round grants it alone. */
  lemma SelectNewcomer(policy: Policy, q: seq<Request>, r: Request, free: int)
    requires DistinctSequences(q + [r]) && r.bytes <= free && forall x :: x in q ==> x.bytes > free
    ensures Select(policy, q + [r], free) == Round([r], q)
  {
    ScanNewcomer(policy, q, r, free);
    assert RemoveAt(q + [r], |q|) == q;
    RemovedStaysDistinct(q + [r], |q|);
    SelectNothing(policy, q, free - r.bytes);
  }

  lemma LiveNewcomer(q: seq<Request>, r: Request, now: Time)
    requires !Due(r, now)
    ensures Live(q + [r], now) == Live(q, now) + [r] && Overdue(q + [r], now) == Overdue(q, now)
  {
    assert (q + [r])[..|q|] == q;
  }
}
