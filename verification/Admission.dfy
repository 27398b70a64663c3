/** The resource manager as a state machine: one event is one critical section of its mutex. */
module Admission {
  import opened Common
  import opened Scheduler

  datatype ErrorCode =
    NoError | InvalidName | InvalidSize | DuplicateClient | UnknownClient | InsufficientMemory | TimedOut | InvalidTimeout

  datatype OperationResult = OperationResult(error: ErrorCode, amount: Bytes)

  datatype AcquireOptions = AcquireOptions(priority: Priority, timeout: Millis, cost: Millis)

  /** `pending` is in arrival order; `models` and `reservations` are separate name spaces. */
  datatype State = State(
    capacity: Bytes,
    policy: Policy,
    used: int,
    reservations: map<string, Bytes>,
    models: map<string, Bytes>,
    pending: seq<Request>,
    nextSequence: nat)
  {
    function Free(): int { capacity - used }
  }

  /** What became of a client request: admitted without queueing, or the end of its wait. */
  datatype Fate =
    | Admitted(name: string, bytes: Bytes)
    | Granted(request: Request, at: Time)
    | Lapsed(request: Request, at: Time)
    | Cancelled(request: Request)

  /** The reply is None while the caller still waits. */
  datatype Outcome = Outcome(state: State, reply: Option<OperationResult>, log: seq<Fate>)

  function Initial(capacity: Bytes, policy: Policy): State {
    State(capacity, policy, 0, map[], map[], [], 0)
  }

  function Refuse(s: State, error: ErrorCode): Outcome {
    Outcome(s, Some(OperationResult(error, 0)), [])
  }

  // ---------------------------------------------------------------- the round

  function Enter(m: map<string, Bytes>, granted: seq<Request>): map<string, Bytes>
    decreases |granted|
  {
    if granted == [] then m else Enter(Emplace(m, granted[0].name, granted[0].bytes), granted[1..])
  }

  function Lapses(q: seq<Request>, now: Time): seq<Fate> { seq(|q|, i requires 0 <= i < |q| => Lapsed(q[i], now)) }

  function Grants(q: seq<Request>, now: Time): seq<Fate> { seq(|q|, i requires 0 <= i < |q| => Granted(q[i], now)) }

  /** Expire what is due, then grant the best fitting request until none fits. */
  function GrantRound(s: State, now: Time): Outcome {
    var round := Select(s.policy, Live(s.pending, now), s.Free());
    Outcome(s.(used := s.used + SumBytes(round.granted),
               reservations := Enter(s.reservations, round.granted),
               pending := round.waiting),
            None,
            Lapses(Overdue(s.pending, now), now) + Grants(round.granted, now))
  }

  predicate Queued(q: seq<Request>, name: string) { exists i :: 0 <= i < |q| && q[i].name == name }

  predicate HasName(s: State, name: string) { name in s.reservations || Queued(s.pending, name) }

  // --------------------------------------------------------------- operations

  function Admit(s: State, name: string, bytes: Bytes): State {
    s.(reservations := Emplace(s.reservations, name, bytes), used := s.used + bytes)
  }

  function AdmitModel(s: State, id: string, bytes: Bytes): State {
    s.(models := Emplace(s.models, id, bytes), used := s.used + bytes)
  }

  function Arrive(s: State, r: Request): State {
    s.(pending := s.pending + [r], nextSequence := s.nextSequence + 1)
  }

  function Vacate(s: State, name: string): State
    requires name in s.reservations
  {
    s.(reservations := s.reservations - {name}, used := s.used - s.reservations[name])
  }

  function VacateModel(s: State, id: string): State
    requires id in s.models
  {
    s.(models := s.models - {id}, used := s.used - s.models[id])
  }

  function Swap(s: State, evictions: seq<string>, id: string, bytes: Bytes): State
    requires forall i :: 0 <= i < |evictions| ==> evictions[i] in s.models
  {
    s.(models := Emplace(s.models - Elements(evictions), id, bytes),
       used := s.used - SumOf(s.models, evictions) + bytes)
  }

  function TryAcquire(s: State, name: string, bytes: Bytes, now: Time): Outcome {
    if !ValidName(name) then Refuse(s, InvalidName)
    else if bytes == 0 then Refuse(s, InvalidSize)
    else if HasName(s, name) then Refuse(s, DuplicateClient)
    else if bytes > s.Free() then Refuse(s, InsufficientMemory)
    else
      var round := GrantRound(Admit(s, name, bytes), now);
      Outcome(round.state, Some(OperationResult(NoError, bytes)), [Admitted(name, bytes)] + round.log)
  }

  /** Timeouts past the end of the clock are as good as none. */
  function Deadline(now: Time, timeout: Millis): Time
    requires timeout > 0
  {
    if timeout != NO_TIMEOUT && timeout <= (FOREVER - now) / 1_000_000 then now + timeout * 1_000_000 else FOREVER
  }

  /** What a finished request's caller is told: the bytes if the log grants it, else a timeout. */
  function ReplyTo(r: Request, log: seq<Fate>): OperationResult {
    if exists i :: 0 <= i < |log| && log[i].Granted? && log[i].request == r
    then OperationResult(NoError, r.bytes)
    else OperationResult(TimedOut, 0)
  }

  /** Join the queue and run two rounds: one on arrival, one on entering the wait loop unless the
      first already settled the request. */
  function Enqueue(s: State, r: Request, now: Time, again: Time): Outcome {
    var first := GrantRound(Arrive(s, r), now);
    if r !in first.state.pending then Outcome(first.state, Some(ReplyTo(r, first.log)), first.log)
    else
      var second := GrantRound(first.state, again);
      var log := first.log + second.log;
      Outcome(second.state, if r in second.state.pending then None else Some(ReplyTo(r, log)), log)
  }

  function Acquire(s: State, name: string, bytes: Bytes, options: AcquireOptions, now: Time, again: Time): Outcome {
    if !ValidName(name) then Refuse(s, InvalidName)
    else if bytes == 0 then Refuse(s, InvalidSize)
    else if options.timeout < 0 then Refuse(s, InvalidTimeout)
    else if bytes > s.capacity then Refuse(s, InsufficientMemory)
    else if options.timeout == 0 then TryAcquire(s, name, bytes, now)
    else if HasName(s, name) then Refuse(s, DuplicateClient)
    else if s.pending == [] && bytes <= s.Free() then
      Outcome(Admit(s, name, bytes), Some(OperationResult(NoError, bytes)), [Admitted(name, bytes)])
    else if options.cost < 0 then Refuse(s, InvalidTimeout)
    else
      Enqueue(s, Request(name, bytes, options.priority, options.cost, s.nextSequence, Deadline(now, options.timeout)),
              now, again)
  }

  function Release(s: State, name: string, now: Time): Outcome {
    if !ValidName(name) then Refuse(s, InvalidName)
    else if name !in s.reservations then Refuse(s, UnknownClient)
    else
      GrantRound(Vacate(s, name), now).(reply := Some(OperationResult(NoError, s.reservations[name])))
  }

  function AcquireModel(s: State, id: string, bytes: Bytes): Outcome {
    if !ValidName(id) then Refuse(s, InvalidName)
    else if bytes == 0 then Refuse(s, InvalidSize)
    else if id in s.models then Refuse(s, DuplicateClient)
    else if bytes > s.Free() then Refuse(s, InsufficientMemory)
    else
      Outcome(AdmitModel(s, id, bytes), Some(OperationResult(NoError, bytes)), [])
  }

  function ReleaseModel(s: State, id: string, now: Time): Outcome {
    if !ValidName(id) then Refuse(s, InvalidName)
    else if id !in s.models then Refuse(s, UnknownClient)
    else
      GrantRound(VacateModel(s, id), now).(reply := Some(OperationResult(NoError, s.models[id])))
  }

  predicate Repeats(ids: seq<string>) { exists i, j :: 0 <= i < j < |ids| && ids[i] == ids[j] }

  function SumOf(m: map<string, Bytes>, ids: seq<string>): nat
    requires forall i :: 0 <= i < |ids| ==> ids[i] in m
  {
    if ids == [] then 0 else SumOf(m, ids[..|ids| - 1]) + m[ids[|ids| - 1]]
  }

  function Elements(ids: seq<string>): set<string> { set i | 0 <= i < |ids| :: ids[i] }

  /** Swap some model reservations for a new one, or change nothing. */
  function Replace(s: State, evictions: seq<string>, id: string, bytes: Bytes, now: Time): Outcome {
    if !ValidName(id) then Refuse(s, InvalidName)
    else if bytes == 0 then Refuse(s, InvalidSize)
    else if id in s.models then Refuse(s, DuplicateClient)
    else if Repeats(evictions) then Refuse(s, DuplicateClient)
    else if exists i :: 0 <= i < |evictions| && evictions[i] !in s.models then Refuse(s, UnknownClient)
    else if bytes > s.Free() + SumOf(s.models, evictions) then Refuse(s, InsufficientMemory)
    else GrantRound(Swap(s, evictions, id, bytes), now).(reply := Some(OperationResult(NoError, bytes)))
  }

  // -------------------------------------------------------------------- steps

  datatype Event =
    | DoTryAcquire(name: string, bytes: Bytes, now: Time)
    | DoAcquire(name: string, bytes: Bytes, options: AcquireOptions, now: Time, again: Time)
    | DoRelease(name: string, now: Time)
    | DoAcquireModel(name: string, bytes: Bytes)
    | DoReleaseModel(name: string, now: Time)
    | DoReplace(evictions: seq<string>, name: string, bytes: Bytes, now: Time)
    | DoRecheck(request: Request, now: Time)  // a waiting caller wakes and runs a round
    | DoGiveUp(request: Request, now: Time)   // a waiting caller's timed wait ends at its deadline
    | DoCancel

  /** A caller that wakes while still queued runs a round; a settled one leaves the loop. */
  function Recheck(s: State, r: Request, now: Time): Outcome {
    if r in s.pending then GrantRound(s, now) else Outcome(s, None, [])
  }

  function Without(q: seq<Request>, r: Request): seq<Request> {
    if q == [] then [] else if q[0] == r then q[1..] else [q[0]] + Without(q[1..], r)
  }

  /** The timed wait reports a timeout only once the deadline has passed. */
  function GiveUp(s: State, r: Request, now: Time): Outcome {
    if r in s.pending && Due(r, now)
    then Outcome(s.(pending := Without(s.pending, r)), Some(OperationResult(TimedOut, 0)), [Lapsed(r, now)])
    else Outcome(s, None, [])
  }

  function Cancel(s: State): Outcome {
    Outcome(s.(pending := []), None, seq(|s.pending|, i requires 0 <= i < |s.pending| => Cancelled(s.pending[i])))
  }

  function Step(s: State, e: Event): Outcome {
    match e
    case DoTryAcquire(name, bytes, now) => TryAcquire(s, name, bytes, now)
    case DoAcquire(name, bytes, options, now, again) => Acquire(s, name, bytes, options, now, again)
    case DoRelease(name, now) => Release(s, name, now)
    case DoAcquireModel(id, bytes) => AcquireModel(s, id, bytes)
    case DoReleaseModel(id, now) => ReleaseModel(s, id, now)
    case DoReplace(evictions, id, bytes, now) => Replace(s, evictions, id, bytes, now)
    case DoRecheck(r, now) => Recheck(s, r, now)
    case DoGiveUp(r, now) => GiveUp(s, r, now)
    case DoCancel => Cancel(s)
  }

  // --------------------------------------------------------------- invariants

  /** A name is queued at most once. */
  ghost predicate NamesIdentify(q: seq<Request>) {
    forall x, y :: x in q && y in q && x.name == y.name ==> x == y
  }

  ghost predicate WellQueued(s: State, r: Request) {
    && r.sequence < s.nextSequence && ValidName(r.name) && r.name !in s.reservations
    && 0 < r.bytes <= s.capacity && r.cost >= 0
  }

  /** The books balance and the queue is well formed. */
  ghost predicate Accounted(s: State) {
    && s.capacity > 0
    && s.used == Total(s.reservations) + Total(s.models) <= s.capacity
    && InSequence(s.pending) && NamesIdentify(s.pending)
    && (forall r :: r in s.pending ==> WellQueued(s, r))
    && (forall n :: n in s.reservations ==> ValidName(n) && s.reservations[n] > 0)
    && (forall n :: n in s.models ==> ValidName(n) && s.models[n] > 0)
  }

  /** Work conservation: nothing that waits would fit. */
  ghost predicate Conserving(s: State) {
    forall r :: r in s.pending ==> r.bytes > s.Free()
  }

  /** What holds whenever the mutex is free. */
  ghost predicate Inv(s: State) { Accounted(s) && Conserving(s) }

  lemma InvIsAccounted(s: State)
    requires Inv(s)
    ensures Accounted(s) && 0 <= s.used <= s.capacity
  {
  }

  // ---------------------------------------------------------- round, in lemmas

  ghost predicate FreshNames(m: map<string, Bytes>, q: seq<Request>) {
    && (forall i :: 0 <= i < |q| ==> q[i].name !in m)
    && (forall i, j :: 0 <= i < j < |q| ==> q[i].name != q[j].name)
  }

  /** Every grant really inserts its reservation, and nothing else changes. */
  lemma {:induction false} EnterAdds(m: map<string, Bytes>, q: seq<Request>)
    requires FreshNames(m, q)
    ensures Total(Enter(m, q)) == Total(m) + SumBytes(q)
    ensures forall n :: n in Enter(m, q) <==> n in m || Queued(q, n)
    ensures forall n :: n in m ==> Enter(m, q)[n] == m[n]
    ensures forall i :: 0 <= i < |q| ==> q[i].name in Enter(m, q) && Enter(m, q)[q[i].name] == q[i].bytes
    decreases |q|
  {
    if q != [] {
      var m' := m[q[0].name := q[0].bytes];
      TotalWith(m, q[0].name, q[0].bytes);
      assert forall i :: 0 <= i < |q| - 1 ==> q[1..][i] == q[i + 1];
      EnterAdds(m', q[1..]);
      assert forall n :: Queued(q, n) <==> n == q[0].name || Queued(q[1..], n);
    }
  }

  lemma InSequenceIsDistinct(q: seq<Request>)
    requires InSequence(q)
    ensures DistinctSequences(q)
  {
  }

  /** What a grant round does to the queue. */
  lemma RoundSplits(s: State, now: Time)
    requires Accounted(s)
    ensures var round := Select(s.policy, Live(s.pending, now), s.Free());
      && DistinctSequences(Live(s.pending, now))
      && Partition(Live(s.pending, now), round)
      && FreshNames(s.reservations, round.granted)
      && SumBytes(round.granted) <= s.Free()
      && InSequence(round.waiting)
      && (forall x :: x in round.waiting ==> x.bytes > s.Free() - SumBytes(round.granted))
      && (forall x :: x in round.waiting ==> x in s.pending && x !in round.granted)
      && (forall x :: x in round.granted ==> x in s.pending && !Due(x, now))
  {
    var live := Live(s.pending, now);
    ExpirySplits(s.pending, now);
    LiveKeepsArrivalOrder(s.pending, now);
    InSequenceIsDistinct(live);
    SelectSplits(s.policy, live, s.Free());
    SelectFills(s.policy, live, s.Free());
    SelectKeepsArrivalOrder(s.policy, live, s.Free());
    var g := Select(s.policy, live, s.Free()).granted;
    forall i, j | 0 <= i < j < |g| ensures g[i].name != g[j].name {
      assert g[i] in s.pending && g[j] in s.pending;
    }
  }

  /** A round run on balanced books leaves balanced books and an idle scheduler. */
  lemma RoundKeepsInv(s: State, now: Time)
    requires Accounted(s)
    ensures Inv(GrantRound(s, now).state)
  {
    var round := Select(s.policy, Live(s.pending, now), s.Free());
    var t := GrantRound(s, now).state;
    RoundSplits(s, now);
    EnterAdds(s.reservations, round.granted);
    forall r | r in t.pending ensures WellQueued(t, r) {
      assert WellQueued(s, r);
      forall i | 0 <= i < |round.granted| ensures round.granted[i].name != r.name {
        assert round.granted[i] in round.granted;
      }
    }
    forall n | n in t.reservations ensures ValidName(n) && t.reservations[n] > 0 {
      if n !in s.reservations {
        var i :| 0 <= i < |round.granted| && round.granted[i].name == n;
        assert WellQueued(s, round.granted[i]);
      }
    }
  }

  // ------------------------------------------------- every step keeps the invariant

  lemma AdmitKeepsAccounts(s: State, name: string, bytes: Bytes)
    requires Inv(s) && ValidName(name) && !HasName(s, name) && 0 < bytes <= s.Free()
    ensures Inv(Admit(s, name, bytes))
  {
    TotalWith(s.reservations, name, bytes);
    var t := Admit(s, name, bytes);
    forall r | r in t.pending ensures WellQueued(t, r) && r.bytes > t.Free() {
      assert WellQueued(s, r);
    }
  }

  lemma ArrivalKeepsAccounts(s: State, r: Request)
    requires Inv(s) && !HasName(s, r.name) && ValidName(r.name) && 0 < r.bytes <= s.capacity && r.cost >= 0
    requires r.sequence == s.nextSequence
    ensures Accounted(Arrive(s, r))
  {
    var t := Arrive(s, r);
    forall i, j | 0 <= i < j < |t.pending| ensures t.pending[i].sequence < t.pending[j].sequence {
      assert WellQueued(s, s.pending[i]);
    }
    forall x | x in t.pending ensures WellQueued(t, x) {
      assert x == r || WellQueued(s, x);
    }
  }

  lemma ReleaseKeepsAccounts(s: State, name: string)
    requires Inv(s) && name in s.reservations
    ensures Accounted(Vacate(s, name))
  {
    var t := Vacate(s, name);
    TotalWithout(s.reservations, name);
    forall r | r in t.pending ensures WellQueued(t, r) {
      assert WellQueued(s, r);
    }
  }

  lemma ReleaseModelKeepsAccounts(s: State, id: string)
    requires Inv(s) && id in s.models
    ensures Accounted(VacateModel(s, id))
  {
    var t := VacateModel(s, id);
    TotalWithout(s.models, id);
    forall r | r in t.pending ensures WellQueued(t, r) {
      assert WellQueued(s, r);
    }
  }

  lemma AcquireModelKeepsInv(s: State, id: string, bytes: Bytes)
    requires Inv(s) && ValidName(id) && id !in s.models && 0 < bytes <= s.Free()
    ensures Inv(AdmitModel(s, id, bytes))
  {
    TotalWith(s.models, id, bytes);
    var t := AdmitModel(s, id, bytes);
    forall r | r in t.pending ensures WellQueued(t, r) && r.bytes > t.Free() {
      assert WellQueued(s, r);
    }
  }

  /** Distinct victims add up to what their removal frees, so never to more than is used. */
  lemma {:induction false} VictimsAddUp(m: map<string, Bytes>, ids: seq<string>)
    requires !Repeats(ids) && forall i :: 0 <= i < |ids| ==> ids[i] in m
    ensures SumOf(m, ids) + Total(m - Elements(ids)) == Total(m)
  {
    if ids == [] {
      assert m - Elements(ids) == m;
    } else {
      var n := |ids| - 1;
      assert forall i, j :: 0 <= i < j < n ==> ids[..n][i] == ids[i] && ids[..n][j] == ids[j];
      VictimsAddUp(m, ids[..n]);
      assert ids[n] !in Elements(ids[..n]) by {
        assert forall i :: 0 <= i < n ==> ids[i] != ids[n];
      }
      TotalWithout(m - Elements(ids[..n]), ids[n]);
      assert Elements(ids) == Elements(ids[..n]) + {ids[n]} by {
        assert forall i :: 0 <= i < n ==> ids[..n][i] == ids[i];
      }
      assert m - Elements(ids) == m - Elements(ids[..n]) - {ids[n]};
    }
  }

  lemma ReplaceKeepsAccounts(s: State, evictions: seq<string>, id: string, bytes: Bytes)
    requires Inv(s) && ValidName(id) && bytes > 0 && id !in s.models && !Repeats(evictions)
    requires forall i :: 0 <= i < |evictions| ==> evictions[i] in s.models
    requires bytes <= s.Free() + SumOf(s.models, evictions)
    ensures SumOf(s.models, evictions) <= s.used
    ensures Accounted(Swap(s, evictions, id, bytes))
  {
    var t := Swap(s, evictions, id, bytes);
    VictimsAddUp(s.models, evictions);
    TotalWith(s.models - Elements(evictions), id, bytes);
    forall r | r in t.pending ensures WellQueued(t, r) {
      assert WellQueued(s, r);
    }
  }

  lemma {:induction false} WithoutOne(q: seq<Request>, r: Request)
    requires InSequence(q) && r in q
    ensures InSequence(Without(q, r))
    ensures forall x :: x in Without(q, r) <==> x in q && x != r
  {
    if q[0] != r {
      WithoutOne(q[1..], r);
      var rest := Without(q[1..], r);
      forall i | 0 <= i < |rest| ensures q[0].sequence < rest[i].sequence {
        assert rest[i] in q[1..];
      }
    }
  }

  lemma GiveUpKeepsInv(s: State, r: Request)
    requires Inv(s) && r in s.pending
    ensures Inv(s.(pending := Without(s.pending, r)))
  {
    var t := s.(pending := Without(s.pending, r));
    WithoutOne(s.pending, r);
    forall x | x in t.pending ensures WellQueued(t, x) {
      assert WellQueued(s, x);
    }
  }

  /** With idle resources a round grants nothing: it only expires. */
  lemma RoundAtRest(s: State, now: Time)
    requires Inv(s)
    ensures Select(s.policy, Live(s.pending, now), s.Free()) == Round([], Live(s.pending, now))
    ensures GrantRound(s, now).state == s.(pending := Live(s.pending, now))
  {
    var live := Live(s.pending, now);
    ExpirySplits(s.pending, now);
    LiveKeepsArrivalOrder(s.pending, now);
    InSequenceIsDistinct(live);
    ScanFindsBest(s.policy, live, s.Free(), |live|);
    forall j | 0 <= j < |live| ensures live[j].bytes > s.Free() {
      assert live[j] in live;
    }
  }

  lemma EnqueueKeepsInv(s: State, r: Request, now: Time, again: Time)
    requires Accounted(Arrive(s, r))
    ensures Inv(Enqueue(s, r, now, again).state)
  {
    var first := GrantRound(Arrive(s, r), now).state;
    RoundKeepsInv(Arrive(s, r), now);
    if r in first.pending {
      RoundKeepsInv(first, again);
    }
  }

  lemma TryAcquireKeepsInv(s: State, name: string, bytes: Bytes, now: Time)
    requires Inv(s)
    ensures Inv(TryAcquire(s, name, bytes, now).state)
  {
    if ValidName(name) && !HasName(s, name) && 0 < bytes <= s.Free() {
      AdmitKeepsAccounts(s, name, bytes);
      RoundKeepsInv(Admit(s, name, bytes), now);
      assert TryAcquire(s, name, bytes, now).state == GrantRound(Admit(s, name, bytes), now).state;
    } else {
      assert TryAcquire(s, name, bytes, now).state == s;
    }
  }

  lemma AcquireKeepsInv(s: State, name: string, bytes: Bytes, options: AcquireOptions, now: Time, again: Time)
    requires Inv(s)
    ensures Inv(Acquire(s, name, bytes, options, now, again).state)
  {
    var t := Acquire(s, name, bytes, options, now, again).state;
    if ValidName(name) && 0 < bytes <= s.capacity && options.timeout == 0 {
      TryAcquireKeepsInv(s, name, bytes, now);
    } else if ValidName(name) && !HasName(s, name) && 0 < bytes <= s.capacity && options.timeout > 0 {
      if s.pending == [] && bytes <= s.Free() {
        AdmitKeepsAccounts(s, name, bytes);
        assert t == Admit(s, name, bytes);
      } else if options.cost >= 0 {
        var r := Request(name, bytes, options.priority, options.cost, s.nextSequence, Deadline(now, options.timeout));
        ArrivalKeepsAccounts(s, r);
        EnqueueKeepsInv(s, r, now, again);
        assert t == Enqueue(s, r, now, again).state;
      } else {
        assert t == s;
      }
    } else {
      assert t == s;
    }
  }

  lemma ReleaseKeepsInv(s: State, name: string, now: Time)
    requires Inv(s)
    ensures Inv(Release(s, name, now).state)
  {
    if ValidName(name) && name in s.reservations {
      ReleaseKeepsAccounts(s, name);
      RoundKeepsInv(Vacate(s, name), now);
      assert Release(s, name, now).state == GrantRound(Vacate(s, name), now).state;
    }
  }

  lemma ReleaseModelKeepsInv(s: State, id: string, now: Time)
    requires Inv(s)
    ensures Inv(ReleaseModel(s, id, now).state)
  {
    if ValidName(id) && id in s.models {
      ReleaseModelKeepsAccounts(s, id);
      RoundKeepsInv(VacateModel(s, id), now);
      assert ReleaseModel(s, id, now).state == GrantRound(VacateModel(s, id), now).state;
    }
  }

  /** The conditions under which a replacement goes through. */
  predicate Replaceable(s: State, evictions: seq<string>, id: string, bytes: Bytes) {
    && ValidName(id) && bytes > 0 && id !in s.models && !Repeats(evictions)
    && (forall i :: 0 <= i < |evictions| ==> evictions[i] in s.models)
    && bytes <= s.Free() + SumOf(s.models, evictions)
  }

  lemma ReplaceKeepsInv(s: State, evictions: seq<string>, id: string, bytes: Bytes, now: Time)
    requires Inv(s)
    ensures Inv(Replace(s, evictions, id, bytes, now).state)
  {
    if Replaceable(s, evictions, id, bytes) {
      ReplaceKeepsAccounts(s, evictions, id, bytes);
      RoundKeepsInv(Swap(s, evictions, id, bytes), now);
      assert Replace(s, evictions, id, bytes, now).state == GrantRound(Swap(s, evictions, id, bytes), now).state;
    } else {
      assert Replace(s, evictions, id, bytes, now).state == s;
    }
  }

  lemma WaiterKeepsInv(s: State, r: Request, now: Time)
    requires Inv(s)
    ensures Inv(Recheck(s, r, now).state) && Inv(GiveUp(s, r, now).state)
  {
    RoundKeepsInv(s, now);
    if r in s.pending {
      GiveUpKeepsInv(s, r);
    }
  }

  /** Whatever is called, the invariant holds again when the mutex is released. */
  lemma StepKeepsInv(s: State, e: Event)
    requires Inv(s)
    ensures Inv(Step(s, e).state)
  {
    match e
    case DoTryAcquire(name, bytes, now) => TryAcquireKeepsInv(s, name, bytes, now);
    case DoAcquire(name, bytes, options, now, again) => AcquireKeepsInv(s, name, bytes, options, now, again);
    case DoRelease(name, now) => ReleaseKeepsInv(s, name, now);
    case DoAcquireModel(id, bytes) =>
      if ValidName(id) && id !in s.models && 0 < bytes <= s.Free() {
        AcquireModelKeepsInv(s, id, bytes);
      }
    case DoReleaseModel(id, now) => ReleaseModelKeepsInv(s, id, now);
    case DoReplace(evictions, id, bytes, now) => ReplaceKeepsInv(s, evictions, id, bytes, now);
    case DoRecheck(r, now) => WaiterKeepsInv(s, r, now);
    case DoGiveUp(r, now) => WaiterKeepsInv(s, r, now);
    case DoCancel =>
  }
}
