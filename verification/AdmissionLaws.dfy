/** What the admission scheduler promises, for every step and for every run. */
module AdmissionLaws {
  import opened Common
  import opened Scheduler
  import opened Admission

  // ------------------------------------------------------------ fates of a round

  /** What a round comes to, without the selection loop. */
  ghost predicate RoundShape(s: State, now: Time, o: Outcome, overdue: seq<Request>, granted: seq<Request>) {
    && LogShape(o.log, now, overdue, granted)
    && BookShape(s, o.state, granted)
    && QueueShape(s, now, o.state, overdue, granted)
  }

  ghost predicate LogShape(log: seq<Fate>, now: Time, overdue: seq<Request>, granted: seq<Request>) {
    && |log| == |overdue| + |granted|
    && (forall i :: 0 <= i < |overdue| ==> log[i] == Lapsed(overdue[i], now))
    && (forall i :: |overdue| <= i < |log| ==> log[i] == Granted(granted[i - |overdue|], now))
  }

  ghost predicate BookShape(s: State, t: State, granted: seq<Request>) {
    && (forall n :: n in t.reservations <==> n in s.reservations || Queued(granted, n))
    && (forall n :: n in s.reservations ==> n in t.reservations && t.reservations[n] == s.reservations[n])
    && (forall r :: r in granted ==> r.name in t.reservations && t.reservations[r.name] == r.bytes)
  }

  ghost predicate QueueShape(s: State, now: Time, t: State, overdue: seq<Request>, granted: seq<Request>) {
    && (forall r :: r in s.pending <==> r in overdue || r in granted || r in t.pending)
    && (forall r :: r in overdue ==> Due(r, now) && r !in t.pending)
    && (forall r :: r in granted ==> !Due(r, now) && r !in t.pending)
    && (forall r :: r in t.pending ==> !Due(r, now))
    && NeverOvertakes(s.policy, Round(granted, t.pending))
  }

  lemma LogHasShape(now: Time, overdue: seq<Request>, granted: seq<Request>)
    ensures LogShape(Lapses(overdue, now) + Grants(granted, now), now, overdue, granted)
  {
  }

  lemma BooksHaveShape(s: State, t: State, granted: seq<Request>)
    requires FreshNames(s.reservations, granted) && t.reservations == Enter(s.reservations, granted)
    ensures BookShape(s, t, granted)
  {
    EnterAdds(s.reservations, granted);
  }

  lemma RoundHasShape(s: State, now: Time) returns (overdue: seq<Request>, granted: seq<Request>)
    requires Accounted(s)
    ensures RoundShape(s, now, GrantRound(s, now), overdue, granted)
  {
    var round := Select(s.policy, Live(s.pending, now), s.Free());
    var t := GrantRound(s, now).state;
    overdue, granted := Overdue(s.pending, now), round.granted;
    RoundSplits(s, now);
    LogHasShape(now, overdue, granted);
    BooksHaveShape(s, t, granted);
    assert QueueShape(s, now, t, overdue, granted) by {
      ExpirySplits(s.pending, now);
      SelectNeverOvertakes(s.policy, Live(s.pending, now), s.Free());
    }
  }

  /** What happened to a request is true of the states around the step. */
  ghost predicate SoundFate(s: State, t: State, f: Fate) {
    match f
    case Admitted(name, bytes) =>
      name !in s.reservations && bytes <= s.Free() && name in t.reservations && t.reservations[name] == bytes
    case Granted(r, at) =>
      !Due(r, at) && r.name !in s.reservations && r.name in t.reservations && t.reservations[r.name] == r.bytes
    case Lapsed(r, at) =>
      Due(r, at) && r.name !in s.reservations && r.name !in t.reservations
    case Cancelled(r) =>
      r.name !in s.reservations && r.name !in t.reservations
  }

  lemma ShapeIsSound(s: State, now: Time, o: Outcome, overdue: seq<Request>, granted: seq<Request>, i: nat)
    requires NamesIdentify(s.pending) && forall r :: r in s.pending ==> r.name !in s.reservations
    requires RoundShape(s, now, o, overdue, granted) && i < |o.log|
    ensures o.log[i].Granted? || o.log[i].Lapsed?
    ensures o.log[i].request in s.pending && o.log[i].request !in o.state.pending
    ensures SoundFate(s, o.state, o.log[i])
  {
    if i < |overdue| {
      var r := overdue[i];
      assert r in overdue;
      forall j | 0 <= j < |granted| ensures granted[j].name != r.name {
        assert granted[j] in granted;
      }
    } else {
      assert granted[i - |overdue|] in granted;
    }
  }

  lemma WaitersHoldNothing(s: State)
    requires Accounted(s)
    ensures forall r :: r in s.pending ==> r.name !in s.reservations
  {
    forall r | r in s.pending ensures r.name !in s.reservations {
      assert WellQueued(s, r);
    }
  }

  lemma RoundIsSound(s: State, now: Time, f: Fate)
    requires Accounted(s) && f in GrantRound(s, now).log
    ensures f.Granted? || f.Lapsed?
    ensures f.request in s.pending && f.request !in GrantRound(s, now).state.pending
    ensures SoundFate(s, GrantRound(s, now).state, f)
  {
    var overdue, granted := RoundHasShape(s, now);
    var log := GrantRound(s, now).log;
    var i :| 0 <= i < |log| && log[i] == f;
    WaitersHoldNothing(s);
    ShapeIsSound(s, now, GrantRound(s, now), overdue, granted, i);
  }

  /** The grants of a log, by name. */
  ghost predicate GrantsName(log: seq<Fate>, n: string) {
    exists i :: 0 <= i < |log| && ((log[i].Granted? && log[i].request.name == n)
                                  || (log[i].Admitted? && log[i].name == n))
  }

  lemma ShapeLedger(s: State, now: Time, o: Outcome, overdue: seq<Request>, granted: seq<Request>, n: string)
    requires RoundShape(s, now, o, overdue, granted)
    ensures Queued(granted, n) <==> GrantsName(o.log, n)
  {
    if Queued(granted, n) {
      var i :| 0 <= i < |granted| && granted[i].name == n;
      assert o.log[|overdue| + i] == Granted(granted[i], now);
    }
    if GrantsName(o.log, n) {
      var i :| 0 <= i < |o.log| && ((o.log[i].Granted? && o.log[i].request.name == n)
                                   || (o.log[i].Admitted? && o.log[i].name == n));
      assert i >= |overdue|;
    }
  }

  /** A round changes the reservations by exactly the grants it logs. */
  lemma RoundLedger(s: State, now: Time, n: string)
    requires Accounted(s)
    ensures var o := GrantRound(s, now);
      && (n in o.state.reservations <==> n in s.reservations || GrantsName(o.log, n))
      && (n in s.reservations ==> n in o.state.reservations && o.state.reservations[n] == s.reservations[n])
  {
    var overdue, granted := RoundHasShape(s, now);
    ShapeLedger(s, now, GrantRound(s, now), overdue, granted, n);
  }

  // ------------------------------------------------------------- no overtaking

  /** q is queued when entry i of the log is written, and stays queued past it. */
  ghost predicate StaysQueued(o: Outcome, i: nat, q: Request) {
    q in o.state.pending || exists j :: i < j < |o.log| && !o.log[j].Admitted? && o.log[j].request == q
  }

  lemma ShapeNeverOvertakes(s: State, now: Time, o: Outcome, overdue: seq<Request>, granted: seq<Request>,
                            i: nat, q: Request)
    requires RoundShape(s, now, o, overdue, granted)
    requires i < |o.log| && o.log[i].Granted? && StaysQueued(o, i, q)
    ensures MayPass(s.policy, o.log[i].request, q)
  {
    assert i >= |overdue| && o.log[i] == Granted(granted[i - |overdue|], now);
    if q !in o.state.pending {
      var j :| i < j < |o.log| && !o.log[j].Admitted? && o.log[j].request == q;
      assert o.log[j] == Granted(granted[j - |overdue|], now);
    }
  }

  lemma RoundNeverOvertakes(s: State, now: Time, i: nat, q: Request)
    requires Accounted(s) && i < |GrantRound(s, now).log| && GrantRound(s, now).log[i].Granted?
    requires StaysQueued(GrantRound(s, now), i, q)
    ensures MayPass(s.policy, GrantRound(s, now).log[i].request, q)
  {
    var overdue, granted := RoundHasShape(s, now);
    ShapeNeverOvertakes(s, now, GrantRound(s, now), overdue, granted, i, q);
  }

  lemma RestNeverGrants(s: State, now: Time, f: Fate)
    requires Inv(s) && f in GrantRound(s, now).log
    ensures f.Lapsed? && f.request in s.pending
  {
    RoundAtRest(s, now);
    RoundIsSound(s, now, f);
  }

  /** The second round of an arrival, run at rest, only lengthens the log with lapses. */
  lemma EnqueueShape(s: State, r: Request, now: Time, again: Time)
    requires Accounted(Arrive(s, r))
    ensures var o, first := Enqueue(s, r, now, again), GrantRound(Arrive(s, r), now);
      && Inv(first.state)
      && first.log <= o.log
      && (forall j :: |first.log| <= j < |o.log| ==> o.log[j].Lapsed? && o.log[j].request in first.state.pending)
      && (forall x :: x in o.state.pending ==> x in first.state.pending)
      && o.state.reservations == first.state.reservations
  {
    var o, first := Enqueue(s, r, now, again), GrantRound(Arrive(s, r), now);
    RoundKeepsInv(Arrive(s, r), now);
    if r in first.state.pending {
      var second := GrantRound(first.state, again);
      forall j | |first.log| <= j < |o.log| ensures o.log[j].Lapsed? && o.log[j].request in first.state.pending {
        assert o.log[j] == second.log[j - |first.log|];
        RestNeverGrants(first.state, again, o.log[j]);
      }
      RoundAtRest(first.state, again);
      ExpirySplits(first.state.pending, again);
    }
  }

  lemma EnqueueNeverOvertakes(s: State, r: Request, now: Time, again: Time, i: nat, q: Request)
    requires Accounted(Arrive(s, r))
    requires var o := Enqueue(s, r, now, again); i < |o.log| && o.log[i].Granted? && StaysQueued(o, i, q)
    ensures MayPass(s.policy, Enqueue(s, r, now, again).log[i].request, q)
  {
    var o, first := Enqueue(s, r, now, again), GrantRound(Arrive(s, r), now);
    EnqueueShape(s, r, now, again);
    if q !in o.state.pending {
      var j :| i < j < |o.log| && !o.log[j].Admitted? && o.log[j].request == q;
      assert j < |first.log| ==> first.log[j] == o.log[j];
    }
    assert StaysQueued(first, i, q);
    RoundNeverOvertakes(Arrive(s, r), now, i, q);
  }

  lemma AdmissionNeverOvertakes(s: State, name: string, bytes: Bytes, now: Time, i: nat, q: Request)
    requires Inv(s) && ValidName(name) && !HasName(s, name) && 0 < bytes <= s.Free()
    requires var o := TryAcquire(s, name, bytes, now); i < |o.log| && StaysQueued(o, i, q)
    ensures TryAcquire(s, name, bytes, now).log[i].Admitted? <==> i == 0
    ensures i > 0 ==> TryAcquire(s, name, bytes, now).log[i].Lapsed?
    ensures bytes < q.bytes
  {
    var o, round := TryAcquire(s, name, bytes, now), GrantRound(Admit(s, name, bytes), now);
    AdmitKeepsAccounts(s, name, bytes);
    assert o.log == [Admitted(name, bytes)] + round.log;
    forall j | 0 < j < |o.log| ensures o.log[j].Lapsed? && o.log[j].request in s.pending {
      assert o.log[j] in round.log;
      RestNeverGrants(Admit(s, name, bytes), now, o.log[j]);
    }
    RoundSplits(Admit(s, name, bytes), now);
    assert q in s.pending;
  }

  /** The fates that let a request past others obey size or rank. */
  ghost predicate Passes(policy: Policy, f: Fate, q: Request) {
    match f
    case Admitted(_, bytes) => bytes < q.bytes
    case Granted(r, _) => MayPass(policy, r, q)
    case Lapsed(_, _) => true
    case Cancelled(_) => true
  }

  /** No overtaking: a client request is granted while q stays queued only if it needs fewer
      bytes than q or ranks strictly ahead of it.  Immediate admissions are always smaller. */
  lemma NoOvertaking(s: State, e: Event, i: nat, q: Request)
    requires Inv(s) && i < |Step(s, e).log| && StaysQueued(Step(s, e), i, q)
    ensures Passes(s.policy, Step(s, e).log[i], q)
  {
    var o := Step(s, e);
    match e
    case DoTryAcquire(name, bytes, now) =>
      AdmissionNeverOvertakes(s, name, bytes, now, i, q);
    case DoAcquire(name, bytes, options, now, again) =>
      AcquireNeverOvertakes(s, name, bytes, options, now, again, i, q);
    case DoRelease(name, now) =>
      ReleaseKeepsAccounts(s, name);
      OneRoundNeverOvertakes(Vacate(s, name), now, o, i, q);
    case DoAcquireModel(id, bytes) =>
    case DoReleaseModel(id, now) =>
      ReleaseModelKeepsAccounts(s, id);
      OneRoundNeverOvertakes(VacateModel(s, id), now, o, i, q);
    case DoReplace(evictions, id, bytes, now) =>
      ReplaceKeepsAccounts(s, evictions, id, bytes);
      OneRoundNeverOvertakes(Swap(s, evictions, id, bytes), now, o, i, q);
    case DoRecheck(r, now) =>
      OneRoundNeverOvertakes(s, now, o, i, q);
    case DoGiveUp(r, now) =>
    case DoCancel =>
      assert o.log[i].Cancelled?;
  }

  /** The same in terms of the requests: one granted while q stays queued needs fewer bytes, or has a
      higher priority, or the same priority and, where costs count, a lower cost, or the same of
      these and came earlier. */
  lemma GrantedAheadOf(s: State, e: Event, i: nat, q: Request)
    requires Inv(s) && i < |Step(s, e).log| && StaysQueued(Step(s, e), i, q)
    requires Step(s, e).log[i].Granted?
    ensures var r := Step(s, e).log[i].request;
      || r.bytes < q.bytes
      || r.priority > q.priority
      || (r.priority == q.priority && s.policy.CostAware? && r.cost < q.cost)
      || (r.priority == q.priority && (s.policy.PriorityFifo? || r.cost == q.cost) && r.sequence < q.sequence)
  {
    hide Step, Inv;
    NoOvertaking(s, e, i, q);
  }

  lemma OneRoundNeverOvertakes(s: State, now: Time, o: Outcome, i: nat, q: Request)
    requires Accounted(s) && o.state == GrantRound(s, now).state && o.log == GrantRound(s, now).log
    requires i < |o.log| && StaysQueued(o, i, q)
    ensures Passes(s.policy, o.log[i], q)
  {
    assert o.log[i] in o.log;
    RoundIsSound(s, now, o.log[i]);
    if o.log[i].Granted? {
      assert StaysQueued(GrantRound(s, now), i, q);
      RoundNeverOvertakes(s, now, i, q);
    }
  }

  lemma AcquireNeverOvertakes(s: State, name: string, bytes: Bytes, options: AcquireOptions, now: Time, again: Time,
                              i: nat, q: Request)
    requires Inv(s)
    requires var o := Acquire(s, name, bytes, options, now, again); i < |o.log| && StaysQueued(o, i, q)
    ensures Passes(s.policy, Acquire(s, name, bytes, options, now, again).log[i], q)
  {
    var o := Acquire(s, name, bytes, options, now, again);
    if options.timeout == 0 {
      AdmissionNeverOvertakes(s, name, bytes, now, i, q);
    } else if s.pending != [] || bytes > s.Free() {
      var r := Request(name, bytes, options.priority, options.cost, s.nextSequence, Deadline(now, options.timeout));
      assert o == Enqueue(s, r, now, again);
      ArrivalKeepsAccounts(s, r);
      if o.log[i].Granted? {
        EnqueueNeverOvertakes(s, r, now, again, i, q);
      } else {
        EnqueueNeverAdmits(s, r, now, again, o.log[i]);
      }
    }
  }

  lemma EnqueueNeverAdmits(s: State, r: Request, now: Time, again: Time, f: Fate)
    requires Accounted(Arrive(s, r)) && f in Enqueue(s, r, now, again).log
    ensures f.Granted? || f.Lapsed?
  {
    var first := GrantRound(Arrive(s, r), now);
    RoundKeepsInv(Arrive(s, r), now);
    if f in first.log {
      RoundIsSound(Arrive(s, r), now, f);
    } else {
      RoundIsSound(first.state, again, f);
    }
  }

  /** A model reservation taken without evicting anything is smaller than every queued request. */
  lemma ModelIsSmallerThanWaiters(s: State, id: string, bytes: Bytes, q: Request)
    requires Inv(s) && AcquireModel(s, id, bytes).reply == Some(OperationResult(NoError, bytes)) && q in s.pending
    ensures bytes < q.bytes
  {
  }

  // ------------------------------------------------------------ sound fates

  lemma EnqueueIsSound(s: State, r: Request, now: Time, again: Time, f: Fate)
    requires Inv(s) && Accounted(Arrive(s, r)) && f in Enqueue(s, r, now, again).log
    ensures f.Granted? || f.Lapsed?
    ensures SoundFate(s, Enqueue(s, r, now, again).state, f)
  {
    var o, first := Enqueue(s, r, now, again), GrantRound(Arrive(s, r), now);
    EnqueueShape(s, r, now, again);
    var i :| 0 <= i < |o.log| && o.log[i] == f;
    if i < |first.log| {
      assert first.log[i] == f;
      RoundIsSound(Arrive(s, r), now, f);
    } else {
      var second := GrantRound(first.state, again);
      assert f == second.log[i - |first.log|];
      RoundIsSound(first.state, again, f);
      RoundLedger(Arrive(s, r), now, f.request.name);
    }
  }

  lemma AcquireIsSound(s: State, name: string, bytes: Bytes, options: AcquireOptions, now: Time, again: Time, f: Fate)
    requires Inv(s) && f in Acquire(s, name, bytes, options, now, again).log
    ensures SoundFate(s, Acquire(s, name, bytes, options, now, again).state, f)
  {
    if options.timeout == 0 {
      TryAcquireIsSound(s, name, bytes, now, f);
    } else if s.pending != [] || bytes > s.Free() {
      var r := Request(name, bytes, options.priority, options.cost, s.nextSequence, Deadline(now, options.timeout));
      ArrivalKeepsAccounts(s, r);
      EnqueueIsSound(s, r, now, again, f);
    }
  }

  lemma TryAcquireIsSound(s: State, name: string, bytes: Bytes, now: Time, f: Fate)
    requires Inv(s) && f in TryAcquire(s, name, bytes, now).log
    ensures SoundFate(s, TryAcquire(s, name, bytes, now).state, f)
  {
    AdmitKeepsAccounts(s, name, bytes);
    RoundLedger(Admit(s, name, bytes), now, name);
    if f != Admitted(name, bytes) {
      RoundIsSound(Admit(s, name, bytes), now, f);
    }
  }

  /** The end of every wait is what it claims to be: a grant is made before the deadline and its
      reservation appears in the same step; a lapse comes at or after the deadline; and a request
      that lapses or is cancelled held nothing before the step and holds nothing after it. */
  lemma FatesAreSound(s: State, e: Event, f: Fate)
    requires Inv(s) && f in Step(s, e).log
    ensures SoundFate(s, Step(s, e).state, f)
    ensures e.DoGiveUp? ==> f.request.bytes > s.Free()
  {
    match e
    case DoTryAcquire(name, bytes, now) => TryAcquireIsSound(s, name, bytes, now, f);
    case DoAcquire(name, bytes, options, now, again) => AcquireIsSound(s, name, bytes, options, now, again, f);
    case DoRelease(name, now) =>
      ReleaseKeepsAccounts(s, name);
      RoundIsSound(Vacate(s, name), now, f);
      assert WellQueued(s, f.request);
    case DoAcquireModel(id, bytes) =>
    case DoReleaseModel(id, now) =>
      ReleaseModelKeepsAccounts(s, id);
      RoundIsSound(VacateModel(s, id), now, f);
    case DoReplace(evictions, id, bytes, now) =>
      ReplaceKeepsAccounts(s, evictions, id, bytes);
      RoundIsSound(Swap(s, evictions, id, bytes), now, f);
    case DoRecheck(r, now) => RoundIsSound(s, now, f);
    case DoGiveUp(r, now) => assert WellQueued(s, r);
    case DoCancel => assert WellQueued(s, f.request);
  }

  // ------------------------------------------------------------- the ledgers

  /** The client name a successful step gives back. */
  function Released(s: State, e: Event): set<string> {
    if e.DoRelease? && e.name in s.reservations then {e.name} else {}
  }

  lemma GrantsNameSplit(x: seq<Fate>, y: seq<Fate>, n: string)
    ensures GrantsName(x + y, n) <==> GrantsName(x, n) || GrantsName(y, n)
  {
    var all := x + y;
    if GrantsName(x, n) {
      var i :| 0 <= i < |x| && ((x[i].Granted? && x[i].request.name == n) || (x[i].Admitted? && x[i].name == n));
      assert all[i] == x[i];
    }
    if GrantsName(y, n) {
      var i :| 0 <= i < |y| && ((y[i].Granted? && y[i].request.name == n) || (y[i].Admitted? && y[i].name == n));
      assert all[|x| + i] == y[i];
    }
  }

  /** Name n is reserved afterwards exactly if it was kept or granted, and kept sizes stay. */
  ghost predicate Books(s: State, gone: set<string>, o: Outcome, n: string) {
    && (n in o.state.reservations <==> n in s.reservations - gone || GrantsName(o.log, n))
    && (n in s.reservations - gone ==> n in o.state.reservations && o.state.reservations[n] == s.reservations[n])
  }

  lemma EnqueueLedger(s: State, r: Request, now: Time, again: Time, n: string)
    requires Accounted(Arrive(s, r))
    ensures Books(s, {}, Enqueue(s, r, now, again), n)
  {
    var o, first := Enqueue(s, r, now, again), GrantRound(Arrive(s, r), now);
    EnqueueShape(s, r, now, again);
    RoundLedger(Arrive(s, r), now, n);
    var tail := o.log[|first.log|..];
    assert o.log == first.log + tail;
    GrantsNameSplit(first.log, tail, n);
    assert forall j :: 0 <= j < |tail| ==> tail[j] == o.log[|first.log| + j];
  }

  lemma AdmitLedger(s: State, name: string, bytes: Bytes, now: Time, n: string)
    requires Inv(s) && ValidName(name) && !HasName(s, name) && 0 < bytes <= s.Free()
    ensures Books(s, {}, TryAcquire(s, name, bytes, now), n)
  {
    AdmitKeepsAccounts(s, name, bytes);
    RoundLedger(Admit(s, name, bytes), now, n);
    var round := GrantRound(Admit(s, name, bytes), now);
    assert Books(s, {}, Outcome(round.state, None, [Admitted(name, bytes)] + round.log), n) by {
      AdmittedBooks(s, name, bytes, round, n);
    }
  }

  lemma AdmittedBooks(s: State, name: string, bytes: Bytes, round: Outcome, n: string)
    requires name !in s.reservations && Books(Admit(s, name, bytes), {}, round, n)
    ensures Books(s, {}, Outcome(round.state, None, [Admitted(name, bytes)] + round.log), n)
  {
    GrantsNameSplit([Admitted(name, bytes)], round.log, n);
    assert [Admitted(name, bytes)][0].name == name;
  }

  lemma AcquireLedger(s: State, name: string, bytes: Bytes, options: AcquireOptions, now: Time, again: Time, n: string)
    requires Inv(s)
    ensures Books(s, {}, Acquire(s, name, bytes, options, now, again), n)
  {
    var o := Acquire(s, name, bytes, options, now, again);
    if ValidName(name) && !HasName(s, name) && 0 < bytes <= s.capacity && options.timeout >= 0 {
      if options.timeout == 0 {
        if bytes <= s.Free() {
          AdmitLedger(s, name, bytes, now, n);
        }
      } else if s.pending == [] && bytes <= s.Free() {
        assert o.log[0] == Admitted(name, bytes);
      } else if options.cost >= 0 {
        var r := Request(name, bytes, options.priority, options.cost, s.nextSequence, Deadline(now, options.timeout));
        ArrivalKeepsAccounts(s, r);
        EnqueueLedger(s, r, now, again, n);
      }
    }
  }

  lemma ReleaseLedger(s: State, name: string, now: Time, n: string)
    requires Inv(s) && ValidName(name) && name in s.reservations
    ensures Books(s, {name}, Release(s, name, now), n)
  {
    ReleaseKeepsAccounts(s, name);
    RoundLedger(Vacate(s, name), now, n);
  }

  lemma ModelStepLedger(s: State, e: Event, n: string)
    requires Inv(s) && (e.DoAcquireModel? || e.DoReleaseModel? || e.DoReplace?)
    ensures Books(s, {}, Step(s, e), n)
  {
    if e.DoReleaseModel? && e.name in s.models {
      ReleaseModelKeepsAccounts(s, e.name);
      RoundLedger(VacateModel(s, e.name), e.now, n);
    }
    if e.DoReplace? && Replaceable(s, e.evictions, e.name, e.bytes) {
      ReplaceKeepsAccounts(s, e.evictions, e.name, e.bytes);
      RoundLedger(Swap(s, e.evictions, e.name, e.bytes), e.now, n);
    }
  }

  /** The client ledger changes by exactly the names released and the names the log grants;
      every other reservation keeps its size. */
  lemma LedgerIsExact(s: State, e: Event, n: string)
    requires Inv(s)
    ensures Books(s, Released(s, e), Step(s, e), n)
  {
    match e
    case DoTryAcquire(name, bytes, now) =>
      if ValidName(name) && !HasName(s, name) && 0 < bytes <= s.Free() {
        AdmitLedger(s, name, bytes, now, n);
      }
    case DoAcquire(name, bytes, options, now, again) =>
      AcquireLedger(s, name, bytes, options, now, again, n);
    case DoRelease(name, now) =>
      if name in s.reservations {
        ReleaseLedger(s, name, now, n);
      }
    case DoAcquireModel(id, bytes) => ModelStepLedger(s, e, n);
    case DoReleaseModel(id, now) => ModelStepLedger(s, e, n);
    case DoReplace(evictions, id, bytes, now) => ModelStepLedger(s, e, n);
    case DoRecheck(r, now) => RoundLedger(s, now, n);
    case DoGiveUp(r, now) =>
    case DoCancel =>
  }
}
