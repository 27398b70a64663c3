/** Exactly-once completion and the other whole-run promises of the admission scheduler. */
module AdmissionRuns {
  import opened Common
  import opened Scheduler
  import opened Admission
  import opened AdmissionLaws

  // ------------------------------------------------------------- settlements

  /** How often a log settles the request with sequence number n. */
  function Settlements(log: seq<Fate>, n: nat): nat {
    if log == [] then 0
    else
      var f := log[|log| - 1];
      Settlements(log[..|log| - 1], n) + (if !f.Admitted? && f.request.sequence == n then 1 else 0)
  }

  lemma {:induction false} SettlementsSplit(x: seq<Fate>, y: seq<Fate>, n: nat)
    ensures Settlements(x + y, n) == Settlements(x, n) + Settlements(y, n)
  {
    if y == [] {
      assert x + y == x;
    } else {
      assert (x + y)[..|x + y| - 1] == x + y[..|y| - 1];
      SettlementsSplit(x, y[..|y| - 1], n);
    }
  }

  /** A log that only lists fates of the requests in q, one each. */
  ghost predicate Lists(log: seq<Fate>, q: seq<Request>) {
    |log| == |q| && forall i :: 0 <= i < |q| ==> !log[i].Admitted? && log[i].request == q[i]
  }

  lemma {:induction false} ListedOnce(log: seq<Fate>, q: seq<Request>, n: nat)
    requires Lists(log, q)
    ensures Settlements(log, n) == Count(q, n)
  {
    if q != [] {
      ListedOnce(log[..|log| - 1], q[..|q| - 1], n);
    }
  }

  /** A round settles exactly the requests that leave the queue, once each. */
  lemma RoundSettles(s: State, now: Time, n: nat)
    requires Accounted(s)
    ensures Settlements(GrantRound(s, now).log, n) + Count(GrantRound(s, now).state.pending, n) == Count(s.pending, n)
  {
    var live := Live(s.pending, now);
    var overdue, granted := Overdue(s.pending, now), Select(s.policy, live, s.Free()).granted;
    RoundSplits(s, now);
    ExpiryCounts(s.pending, now, n);
    SelectCounts(s.policy, live, s.Free(), n);
    ListedOnce(Lapses(overdue, now), overdue, n);
    ListedOnce(Grants(granted, now), granted, n);
    SettlementsSplit(Lapses(overdue, now), Grants(granted, now), n);
  }

  function Arrivals(s: State, t: State, n: nat): nat {
    if s.nextSequence <= n < t.nextSequence then 1 else 0
  }

  /** Sequence number n: settled in this step, still queued, or as before plus its arrival. */
  ghost predicate Balanced(s: State, o: Outcome, n: nat) {
    Settlements(o.log, n) + Count(o.state.pending, n) == Count(s.pending, n) + Arrivals(s, o.state, n)
  }

  lemma RoundKeepsNumber(s: State, now: Time)
    ensures GrantRound(s, now).state.nextSequence == s.nextSequence
  {
  }

  lemma CountOne(r: Request, n: nat)
    ensures Count([r], n) == if r.sequence == n then 1 else 0
  {
  }

  lemma EnqueueBalances(s: State, r: Request, now: Time, again: Time, n: nat)
    requires Accounted(Arrive(s, r)) && r.sequence == s.nextSequence
    ensures Balanced(s, Enqueue(s, r, now, again), n)
    ensures Enqueue(s, r, now, again).state.nextSequence == s.nextSequence + 1
  {
    hide GrantRound, Count, Settlements, Accounted, Inv;
    var first := GrantRound(Arrive(s, r), now);
    RoundKeepsInv(Arrive(s, r), now);
    InvIsAccounted(first.state);
    RoundSettles(Arrive(s, r), now, n);
    RoundKeepsNumber(Arrive(s, r), now);
    RoundKeepsNumber(first.state, again);
    CountSplit(s.pending, [r], n);
    CountOne(r, n);
    if r in first.state.pending {
      RoundSettles(first.state, again, n);
      SettlementsSplit(first.log, GrantRound(first.state, again).log, n);
    }
  }

  lemma AdmissionBalances(s: State, name: string, bytes: Bytes, now: Time, n: nat)
    requires Inv(s) && ValidName(name) && !HasName(s, name) && 0 < bytes <= s.Free()
    ensures Balanced(s, TryAcquire(s, name, bytes, now), n)
  {
    AdmitKeepsAccounts(s, name, bytes);
    RoundSettles(Admit(s, name, bytes), now, n);
    SettlementsSplit([Admitted(name, bytes)], GrantRound(Admit(s, name, bytes), now).log, n);
  }

  lemma AcquireBalances(s: State, name: string, bytes: Bytes, options: AcquireOptions, now: Time, again: Time, n: nat)
    requires Inv(s)
    ensures Balanced(s, Acquire(s, name, bytes, options, now, again), n)
  {
    if ValidName(name) && !HasName(s, name) && 0 < bytes <= s.capacity && options.timeout >= 0 {
      if options.timeout == 0 {
        if bytes <= s.Free() {
          AdmissionBalances(s, name, bytes, now, n);
        }
      } else if s.pending == [] && bytes <= s.Free() {
      } else if options.cost >= 0 {
        var r := Request(name, bytes, options.priority, options.cost, s.nextSequence, Deadline(now, options.timeout));
        ArrivalKeepsAccounts(s, r);
        EnqueueBalances(s, r, now, again, n);
      }
    }
  }

  lemma {:induction false} WithoutCounts(q: seq<Request>, r: Request, n: nat)
    requires r in q
    ensures Count(q, n) == Count(Without(q, r), n) + (if r.sequence == n then 1 else 0)
  {
    assert q == [q[0]] + q[1..];
    CountSplit([q[0]], q[1..], n);
    if q[0] != r {
      WithoutCounts(q[1..], r, n);
      CountSplit([q[0]], Without(q[1..], r), n);
    }
  }

  lemma GiveUpBalances(s: State, r: Request, now: Time, n: nat)
    ensures Balanced(s, GiveUp(s, r, now), n)
  {
    if r in s.pending {
      WithoutCounts(s.pending, r, n);
      ListedOnce([Lapsed(r, now)], [r], n);
      assert Count([r], n) == (if r.sequence == n then 1 else 0) by { assert [r][..0] == []; }
    }
  }

  lemma ReleaseBalances(s: State, name: string, now: Time, n: nat)
    requires Inv(s)
    ensures Balanced(s, Release(s, name, now), n)
  {
    if ValidName(name) && name in s.reservations {
      ReleaseKeepsAccounts(s, name);
      RoundSettles(Vacate(s, name), now, n);
    }
  }

  lemma ReleaseModelBalances(s: State, id: string, now: Time, n: nat)
    requires Inv(s)
    ensures Balanced(s, ReleaseModel(s, id, now), n)
  {
    if ValidName(id) && id in s.models {
      ReleaseModelKeepsAccounts(s, id);
      RoundSettles(VacateModel(s, id), now, n);
    }
  }

  lemma ReplaceBalances(s: State, evictions: seq<string>, id: string, bytes: Bytes, now: Time, n: nat)
    requires Inv(s)
    ensures Balanced(s, Replace(s, evictions, id, bytes, now), n)
  {
    hide Count, Settlements, GrantRound, Inv, Accounted, ValidName, SumOf;
    if Replaceable(s, evictions, id, bytes) {
      ReplaceKeepsAccounts(s, evictions, id, bytes);
      RoundSettles(Swap(s, evictions, id, bytes), now, n);
      RoundKeepsNumber(Swap(s, evictions, id, bytes), now);
    } else {
      QuietBalances(s, Replace(s, evictions, id, bytes, now), n);
    }
  }

  lemma TryAcquireBalances(s: State, name: string, bytes: Bytes, now: Time, n: nat)
    requires Inv(s)
    ensures Balanced(s, TryAcquire(s, name, bytes, now), n)
  {
    hide Count, Settlements, GrantRound, Inv;
    if ValidName(name) && !HasName(s, name) && 0 < bytes <= s.Free() {
      AdmissionBalances(s, name, bytes, now, n);
    } else {
      QuietBalances(s, TryAcquire(s, name, bytes, now), n);
    }
  }

  lemma QuietBalances(s: State, o: Outcome, n: nat)
    requires o.log == [] && o.state.pending == s.pending && o.state.nextSequence == s.nextSequence
    ensures Balanced(s, o, n)
  {
  }

  lemma RecheckBalances(s: State, r: Request, now: Time, n: nat)
    requires Inv(s)
    ensures Balanced(s, Recheck(s, r, now), n)
  {
    hide Count, Settlements, GrantRound;
    if r in s.pending {
      InvIsAccounted(s);
      RoundSettles(s, now, n);
      RoundKeepsNumber(s, now);
    } else {
      QuietBalances(s, Recheck(s, r, now), n);
    }
  }

  lemma CancelBalances(s: State, n: nat)
    ensures Balanced(s, Cancel(s), n)
  {
    ListedOnce(Cancel(s).log, s.pending, n);
  }

  /** Every step balances: what it settles leaves the queue, and nothing else does. */
  lemma StepBalances(s: State, e: Event, n: nat)
    requires Inv(s)
    ensures Balanced(s, Step(s, e), n)
  {
    hide Acquire, Release, ReleaseModel, Replace, GiveUp, TryAcquire, GrantRound, Count, Settlements, Inv;
    match e
    case DoTryAcquire(name, bytes, now) => TryAcquireBalances(s, name, bytes, now, n);
    case DoAcquire(name, bytes, options, now, again) => AcquireBalances(s, name, bytes, options, now, again, n);
    case DoRelease(name, now) => ReleaseBalances(s, name, now, n);
    case DoAcquireModel(id, bytes) => QuietBalances(s, AcquireModel(s, id, bytes), n);
    case DoReleaseModel(id, now) => ReleaseModelBalances(s, id, now, n);
    case DoReplace(evictions, id, bytes, now) => ReplaceBalances(s, evictions, id, bytes, now, n);
    case DoRecheck(r, now) => RecheckBalances(s, r, now, n);
    case DoGiveUp(r, now) => GiveUpBalances(s, r, now, n);
    case DoCancel => CancelBalances(s, n);
  }

  // -------------------------------------------------------------------- runs

  function After(s: State, run: seq<Event>): State {
    if run == [] then s else Step(After(s, run[..|run| - 1]), run[|run| - 1]).state
  }

  function History(s: State, run: seq<Event>): seq<Fate> {
    if run == [] then []
    else History(s, run[..|run| - 1]) + Step(After(s, run[..|run| - 1]), run[|run| - 1]).log
  }

  lemma InitialInv(capacity: Bytes, policy: Policy)
    requires capacity > 0
    ensures Inv(Admission.Initial(capacity, policy))
  {
  }

  /** Accounting, name uniqueness and work conservation hold after every run. */
  lemma {:induction false} RunKeepsInv(s: State, run: seq<Event>)
    requires Inv(s)
    ensures Inv(After(s, run))
  {
    if run != [] {
      RunKeepsInv(s, run[..|run| - 1]);
      StepKeepsInv(After(s, run[..|run| - 1]), run[|run| - 1]);
    }
  }

  /** Exactly once: after any run, each sequence number handed out is either still queued, once,
      or has been settled, once; numbers not yet handed out are neither. */
  lemma {:induction false} EveryRequestSettlesOnce(capacity: Bytes, policy: Policy, run: seq<Event>, n: nat)
    requires capacity > 0
    ensures var s := Admission.Initial(capacity, policy);
      Settlements(History(s, run), n) + Count(After(s, run).pending, n)
      == (if n < After(s, run).nextSequence then 1 else 0)
  {
    if run != [] {
      var s := Admission.Initial(capacity, policy);
      var before, e := run[..|run| - 1], run[|run| - 1];
      EveryRequestSettlesOnce(capacity, policy, before, n);
      InitialInv(capacity, policy);
      RunKeepsInv(s, before);
      StepBalances(After(s, before), e, n);
      NumbersOnlyGrow(After(s, before), e);
      SettlementsSplit(History(s, before), Step(After(s, before), e).log, n);
    }
  }

  lemma NumbersOnlyGrow(s: State, e: Event)
    ensures s.nextSequence <= Step(s, e).state.nextSequence <= s.nextSequence + 1
  {
  }

  /** No overtaking, at any point of any run. */
  lemma NoOvertakingInRuns(s: State, run: seq<Event>, k: nat, i: nat, q: Request)
    requires Inv(s) && k < |run|
    requires var o := Step(After(s, run[..k]), run[k]); i < |o.log| && StaysQueued(o, i, q)
    ensures Passes(After(s, run[..k]).policy, Step(After(s, run[..k]), run[k]).log[i], q)
  {
    RunKeepsInv(s, run[..k]);
    NoOvertaking(After(s, run[..k]), run[k], i, q);
  }

  // -------------------------------------------------------- arriving requests

  /** A valid, unused request with a usable timeout and cost. */
  predicate WellFormed(s: State, name: string, bytes: Bytes, options: AcquireOptions) {
    ValidName(name) && bytes > 0 && options.timeout >= 0 && options.cost >= 0 && !HasName(s, name)
  }

  lemma IdleQueue(s: State, now: Time)
    requires Inv(s)
    ensures forall x :: x in Live(s.pending, now) ==> x.bytes > s.Free() && x in s.pending
  {
    ExpirySplits(s.pending, now);
  }

  /** The round an arriving request triggers grants that request or nothing. */
  lemma ArrivalRound(s: State, r: Request, now: Time)
    requires Inv(s) && Accounted(Arrive(s, r)) && !Due(r, now)
    ensures Select(s.policy, Live(s.pending + [r], now), s.Free())
         == if r.bytes <= s.Free() then Round([r], Live(s.pending, now)) else Round([], Live(s.pending, now) + [r])
    ensures Overdue(s.pending + [r], now) == Overdue(s.pending, now)
  {
    var old' := Live(s.pending, now);
    LiveNewcomer(s.pending, r, now);
    LiveKeepsArrivalOrder(Arrive(s, r).pending, now);
    assert Arrive(s, r).pending == s.pending + [r];
    InSequenceIsDistinct(old' + [r]);
    IdleQueue(s, now);
    if r.bytes <= s.Free() {
      SelectNewcomer(s.policy, old', r, s.Free());
    } else {
      SelectNothing(s.policy, old' + [r], s.Free());
    }
  }

  /** The books after a request of this size is let in. */
  predicate LetIn(s: State, t: State, name: string, bytes: Bytes) {
    && name !in s.reservations && t.reservations == s.reservations[name := bytes]
    && t.used == s.used + bytes && t.models == s.models
  }

  lemma EnterOne(m: map<string, Bytes>, r: Request)
    requires r.name !in m
    ensures Enter(m, [r]) == m[r.name := r.bytes] && SumBytes([r]) == r.bytes
  {
    assert [r][1..] == [];
  }

  lemma RoundOf(s: State, now: Time, round: Round)
    requires Select(s.policy, Live(s.pending, now), s.Free()) == round
    ensures GrantRound(s, now) == Outcome(
        s.(used := s.used + SumBytes(round.granted), reservations := Enter(s.reservations, round.granted),
           pending := round.waiting),
        None, Lapses(Overdue(s.pending, now), now) + Grants(round.granted, now))
  {
  }

  lemma FirstRoundLetsIn(s: State, r: Request, now: Time)
    requires Inv(s) && Accounted(Arrive(s, r)) && r.name !in s.reservations && !Due(r, now) && r.bytes <= s.Free()
    ensures var first := GrantRound(Arrive(s, r), now);
      && LetIn(s, first.state, r.name, r.bytes) && first.state.pending == Live(s.pending, now)
      && first.log == Lapses(Overdue(s.pending, now), now) + [Granted(r, now)]
  {
    ArrivalRound(s, r, now);
    EnterOne(s.reservations, r);
    var t, round := Arrive(s, r), Round([r], Live(s.pending, now));
    assert t.pending == s.pending + [r] && t.Free() == s.Free() && t.reservations == s.reservations;
    RoundOf(t, now, round);
    assert Grants([r], now) == [Granted(r, now)];
  }

  lemma FirstRoundQueues(s: State, r: Request, now: Time)
    requires Inv(s) && Accounted(Arrive(s, r)) && !Due(r, now) && r.bytes > s.Free()
    ensures var first := GrantRound(Arrive(s, r), now);
      && first.state.reservations == s.reservations && first.state.used == s.used && first.state.models == s.models
      && first.state.pending == Live(s.pending, now) + [r]
      && first.log == Lapses(Overdue(s.pending, now), now)
  {
    hide GrantRound, Select, Live, Inv, Accounted, Overdue;
    ArrivalRound(s, r, now);
    assert Arrive(s, r).pending == s.pending + [r];
    RoundOf(Arrive(s, r), now, Round([], Live(s.pending, now) + [r]));
    assert Enter(s.reservations, []) == s.reservations && Grants([], now) == [];
  }

  lemma GrantedReply(r: Request, log: seq<Fate>, at: Time)
    ensures ReplyTo(r, log + [Granted(r, at)]) == OperationResult(NoError, r.bytes)
  {
    assert (log + [Granted(r, at)])[|log|] == Granted(r, at);
  }

  lemma EnqueueFits(s: State, r: Request, now: Time, again: Time)
    requires Inv(s) && Accounted(Arrive(s, r)) && r.name !in s.reservations && !Due(r, now) && r.bytes <= s.Free()
    ensures var o := Enqueue(s, r, now, again);
      && o.reply == Some(OperationResult(NoError, r.bytes)) && LetIn(s, o.state, r.name, r.bytes)
      && o.state.pending == Live(s.pending, now)
  {
    FirstRoundLetsIn(s, r, now);
    IdleQueue(s, now);
    GrantedReply(r, Lapses(Overdue(s.pending, now), now), now);
    var first := GrantRound(Arrive(s, r), now);
    assert Enqueue(s, r, now, again) == Outcome(first.state, Some(ReplyTo(r, first.log)), first.log);
  }

  lemma EnqueueWaits(s: State, r: Request, now: Time, again: Time)
    requires Inv(s) && Accounted(Arrive(s, r)) && !Due(r, now) && r.bytes > s.Free()
    requires r.name !in s.reservations && r !in s.pending
    ensures var o := Enqueue(s, r, now, again);
      && o.state.reservations == s.reservations && o.state.used == s.used && o.state.models == s.models
      && (if Due(r, again) then o.reply == Some(OperationResult(TimedOut, 0))
          else o.reply == None && r in o.state.pending)
  {
    var o, first := Enqueue(s, r, now, again), GrantRound(Arrive(s, r), now);
    FirstRoundQueues(s, r, now);
    RoundKeepsInv(Arrive(s, r), now);
    RoundAtRest(first.state, again);
    ExpirySplits(first.state.pending, again);
    assert forall i :: 0 <= i < |o.log| ==> !o.log[i].Granted? by {
      forall i | 0 <= i < |o.log| ensures !o.log[i].Granted? {
        if o.log[i].Granted? {
          EnqueueGrantsOnlyNewcomer(s, r, now, again, o.log[i]);
        }
      }
    }
  }

  lemma FirstRoundGrantsOnlyNewcomer(s: State, r: Request, now: Time, i: nat)
    requires Inv(s) && Accounted(Arrive(s, r)) && !Due(r, now) && r.name !in s.reservations
    requires i < |GrantRound(Arrive(s, r), now).log| && GrantRound(Arrive(s, r), now).log[i].Granted?
    ensures GrantRound(Arrive(s, r), now).log[i].request == r && r.bytes <= s.Free()
  {
    if r.bytes <= s.Free() {
      FirstRoundLetsIn(s, r, now);
    } else {
      FirstRoundQueues(s, r, now);
    }
  }

  lemma EnqueueGrantsOnlyNewcomer(s: State, r: Request, now: Time, again: Time, f: Fate)
    requires Inv(s) && Accounted(Arrive(s, r)) && !Due(r, now) && r.name !in s.reservations
    requires f in Enqueue(s, r, now, again).log && f.Granted?
    ensures f.request == r && r.bytes <= s.Free()
  {
    EnqueueShape(s, r, now, again);
    var log, head := Enqueue(s, r, now, again).log, GrantRound(Arrive(s, r), now).log;
    var i :| 0 <= i < |log| && log[i] == f;
    assert i < |head| && head[i] == f;
    FirstRoundGrantsOnlyNewcomer(s, r, now, i);
  }

  lemma FreshDeadlineIsNotDue(now: Time, timeout: Millis)
    requires timeout > 0
    ensures Deadline(now, timeout) == FOREVER || Deadline(now, timeout) > now
  {
  }

  lemma AcquireQueues(s: State, name: string, bytes: Bytes, options: AcquireOptions, now: Time, again: Time)
    returns (r: Request)
    requires Inv(s) && WellFormed(s, name, bytes, options) && options.timeout > 0 && bytes <= s.capacity
    requires !(s.pending == [] && bytes <= s.Free())
    ensures Acquire(s, name, bytes, options, now, again) == Enqueue(s, r, now, again)
    ensures Accounted(Arrive(s, r)) && !Due(r, now) && r.name !in s.reservations && r !in s.pending
    ensures r == Request(name, bytes, options.priority, options.cost, s.nextSequence, Deadline(now, options.timeout))
  {
    r := Request(name, bytes, options.priority, options.cost, s.nextSequence, Deadline(now, options.timeout));
    ArrivalKeepsAccounts(s, r);
    FreshDeadlineIsNotDue(now, options.timeout);
    forall x | x in s.pending ensures x.sequence < r.sequence {
      assert WellQueued(s, x);
    }
  }

  /** A well-formed acquire is granted on the spot exactly when it fits, with the same books
      whether it finds the queue empty or has to pass through it. */
  lemma AcquireAtOnceIffItFits(s: State, name: string, bytes: Bytes, options: AcquireOptions, now: Time, again: Time)
    requires Inv(s) && WellFormed(s, name, bytes, options)
    ensures var o := Acquire(s, name, bytes, options, now, again);
      && (o.reply == Some(OperationResult(NoError, bytes)) <==> bytes <= s.Free())
      && (bytes <= s.Free() ==> LetIn(s, o.state, name, bytes) && forall x :: x in o.state.pending ==> x in s.pending)
      && (bytes > s.Free() ==> o.state.reservations == s.reservations && o.state.used == s.used)
  {
    if bytes <= s.capacity {
      if options.timeout == 0 {
        if bytes <= s.Free() {
          AdmitKeepsAccounts(s, name, bytes);
          RoundAtRest(Admit(s, name, bytes), now);
          ExpirySplits(s.pending, now);
        }
      } else if s.pending == [] && bytes <= s.Free() {
      } else {
        var r := AcquireQueues(s, name, bytes, options, now, again);
        if bytes <= s.Free() {
          EnqueueFits(s, r, now, again);
          IdleQueue(s, now);
        } else {
          EnqueueWaits(s, r, now, again);
        }
      }
    }
  }

  /** An acquire that does not fit is refused when it can never fit or may not wait, and otherwise
      waits unless its deadline, so many milliseconds after its arrival if the clock can show that,
      has come before it goes to sleep. */
  lemma AcquireThatDoesNotFit(s: State, name: string, bytes: Bytes, options: AcquireOptions, now: Time, again: Time)
    requires Inv(s) && WellFormed(s, name, bytes, options) && bytes > s.Free()
    ensures var o := Acquire(s, name, bytes, options, now, again);
      o.reply ==
        if bytes > s.capacity || options.timeout == 0 then Some(OperationResult(InsufficientMemory, 0))
        else if now + options.timeout * 1_000_000 <= again && now + options.timeout * 1_000_000 < 0x7FFF_FFFF_FFFF_FFFF
        then Some(OperationResult(TimedOut, 0))
        else None
  {
    if bytes <= s.capacity && options.timeout > 0 {
      var r := AcquireQueues(s, name, bytes, options, now, again);
      EnqueueWaits(s, r, now, again);
      DeadlineComes(r, now, again, options.timeout);
    }
  }

  lemma DeadlineComes(r: Request, now: Time, again: Time, timeout: Millis)
    requires timeout > 0 && r.deadline == Deadline(now, timeout)
    ensures Due(r, again) <==> now + timeout * 1_000_000 <= again && now + timeout * 1_000_000 < 0x7FFF_FFFF_FFFF_FFFF
  {
  }

  lemma AcquireGrantsNoOlderRequest(s: State, name: string, bytes: Bytes, options: AcquireOptions, now: Time, again: Time,
                                    f: Fate)
    requires Inv(s) && options.timeout != 0
    requires f in Acquire(s, name, bytes, options, now, again).log && f.Granted?
    ensures f.request !in s.pending
  {
    var r := AcquireQueues(s, name, bytes, options, now, again);
    EnqueueGrantsOnlyNewcomer(s, r, now, again, f);
  }

  lemma TryAcquireGrantsNoOne(s: State, name: string, bytes: Bytes, now: Time, f: Fate)
    requires Inv(s) && f in TryAcquire(s, name, bytes, now).log
    ensures !f.Granted?
  {
    AdmitKeepsAccounts(s, name, bytes);
    if f != Admitted(name, bytes) {
      RestNeverGrants(Admit(s, name, bytes), now, f);
    }
  }

  /** An arriving acquire or try_acquire never causes an older waiter to be granted. */
  lemma ArrivalsGrantNoOlderRequest(s: State, e: Event, f: Fate)
    requires Inv(s) && (e.DoAcquire? || e.DoTryAcquire?)
    requires f in Step(s, e).log && f.Granted?
    ensures f.request !in s.pending
  {
    match e
    case DoTryAcquire(name, bytes, now) => TryAcquireGrantsNoOne(s, name, bytes, now, f);
    case DoAcquire(name, bytes, options, now, again) =>
      if options.timeout == 0 {
        TryAcquireGrantsNoOne(s, name, bytes, now, f);
      } else {
        AcquireGrantsNoOlderRequest(s, name, bytes, options, now, again, f);
      }
  }

  /** When a request of negative cost is refused for a bad time: if its timeout is negative too, or
      if it has to join the queue.  Neither a request that may not wait nor one that is let in past
      an empty queue has its cost looked at. */
  lemma NegativeCostIsRefusedIff(s: State, name: string, bytes: Bytes, options: AcquireOptions, now: Time, again: Time)
    requires options.cost < 0
    ensures Acquire(s, name, bytes, options, now, again).reply == Some(OperationResult(InvalidTimeout, 0))
       <==> && ValidName(name) && bytes > 0
            && (|| options.timeout < 0
                || (&& options.timeout > 0 && bytes <= s.capacity && !HasName(s, name)
                    && !(s.pending == [] && bytes <= s.Free())))
  {
  }

  /** Whatever is queued, a request that may not wait is let in exactly when it fits, at any cost. */
  lemma CostDoesNotMatterAtOnce(s: State, name: string, bytes: Bytes, options: AcquireOptions, now: Time, again: Time)
    requires Inv(s) && ValidName(name) && bytes > 0 && !HasName(s, name) && options.timeout == 0
    ensures var o := Acquire(s, name, bytes, options, now, again);
      && o == Acquire(s, name, bytes, options.(cost := 0), now, again)
      && (o.reply == Some(OperationResult(NoError, bytes)) <==> bytes <= s.Free())
      && (bytes <= s.Free() ==> LetIn(s, o.state, name, bytes))
  {
    AcquireAtOnceIffItFits(s, name, bytes, options.(cost := 0), now, again);
  }

  /** The documented refusal fails on an idle manager with room: a negative cost is granted ... */
  lemma NegativeCostGranted(s: State, options: AcquireOptions)
    requires s == Admission.Initial(100, CostAware) && options == AcquireOptions(0, 1000, -1)
    ensures Acquire(s, "a", 10, options, 0, 0).reply == Some(OperationResult(NoError, 10))
  {
    assert ValidName("a");
  }

  /** ... also to a request that may not wait. */
  lemma NegativeCostGrantedAtOnce(s: State, options: AcquireOptions)
    requires s == Admission.Initial(100, CostAware) && options == AcquireOptions(0, 0, -1)
    ensures Acquire(s, "a", 10, options, 0, 0).reply == Some(OperationResult(NoError, 10))
  {
    hide Acquire, Inv;
    assert ValidName("a");
    InitialInv(100, CostAware);
    CostDoesNotMatterAtOnce(s, "a", 10, options, 0, 0);
  }

  // ------------------------------------------------------------- replacement

  /** All or nothing: a replacement goes through exactly when the name is new and valid, the
      victims are distinct and reserved, and free bytes plus theirs suffice; otherwise nothing at
      all changes.  The byte arithmetic stays within the capacity. */
  lemma ReplaceIsAllOrNothing(s: State, evictions: seq<string>, id: string, bytes: Bytes, now: Time)
    requires Inv(s)
    ensures var o := Replace(s, evictions, id, bytes, now);
      && (o.reply == Some(OperationResult(NoError, bytes)) <==> Replaceable(s, evictions, id, bytes))
      && (!Replaceable(s, evictions, id, bytes) ==> o.state == s && o.log == [])
      && (Replaceable(s, evictions, id, bytes) ==>
            && o.state.models == (s.models - Elements(evictions))[id := bytes]
            && s.Free() + SumOf(s.models, evictions) <= s.capacity)
  {
    if Replaceable(s, evictions, id, bytes) {
      ReplaceKeepsAccounts(s, evictions, id, bytes);
    }
  }
}
