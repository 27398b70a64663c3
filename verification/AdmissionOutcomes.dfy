/** What each call of the resource manager comes to, told without its steps: the exact condition of
    every answer, and what the state holds afterwards.  Times are nanoseconds, timeouts milliseconds,
    and 0x7FFF_FFFF_FFFF_FFFF stands for "never". */
module AdmissionOutcomes {
  import opened Common
  import opened Scheduler
  import opened Admission
  import opened AdmissionLaws
  import opened AdmissionRuns

  /** A deadline that has come. */
  predicate Past(deadline: int, now: int) { deadline != 0x7FFF_FFFF_FFFF_FFFF && deadline <= now }

  /** The name is reserved or waited for. */
  predicate Taken(s: State, name: string) {
    name in s.reservations || exists x :: x in s.pending && x.name == name
  }

  /** The call was refused and changed nothing. */
  predicate Refused(s: State, o: Outcome, error: ErrorCode) {
    o.reply == Some(OperationResult(error, 0)) && o.state == s && o.log == []
  }

  /** The queue afterwards holds the former waiters whose deadline has not come, and nobody else. */
  ghost predicate OnlyExpires(s: State, now: Time, t: State) {
    InSequence(t.pending) && forall x :: x in t.pending <==> x in s.pending && !Past(x.deadline, now)
  }

  lemma TakenIsHasName(s: State, name: string)
    ensures Taken(s, name) <==> HasName(s, name)
  {
    if x :| x in s.pending && x.name == name {
      var i :| 0 <= i < |s.pending| && s.pending[i] == x;
    }
  }

  lemma PastIsDue(r: Request, now: Time)
    ensures Past(r.deadline, now) <==> Due(r, now)
  {
  }

  lemma LiveOnlyExpires(s: State, now: Time, t: State)
    requires Accounted(s) && t.pending == Live(s.pending, now)
    ensures OnlyExpires(s, now, t)
  {
    ExpirySplits(s.pending, now);
    LiveKeepsArrivalOrder(s.pending, now);
    forall x: Request ensures Past(x.deadline, now) <==> Due(x, now) {
      PastIsDue(x, now);
    }
  }

  // ------------------------------------------------------------- every step

  lemma SettingsStay(s: State, e: Event)
    ensures Step(s, e).state.capacity == s.capacity && Step(s, e).state.policy == s.policy
  {
    hide Select, Live, Enter, ReplyTo, Overdue;
  }

  lemma {:induction false} SettingsStayInRuns(s: State, run: seq<Event>)
    ensures After(s, run).capacity == s.capacity && After(s, run).policy == s.policy
  {
    hide Step;
    if run != [] {
      SettingsStayInRuns(s, run[..|run| - 1]);
      SettingsStay(After(s, run[..|run| - 1]), run[|run| - 1]);
    }
  }

  /** At any point of any run: a request granted while q stays queued needs fewer bytes, or has a
      higher priority, or the same priority and, where costs count, a lower cost, or the same of
      these and came earlier. */
  lemma GrantedAheadOfInRuns(s: State, run: seq<Event>, k: nat, i: nat, q: Request)
    requires Inv(s) && k < |run|
    requires var o := Step(After(s, run[..k]), run[k]); i < |o.log| && StaysQueued(o, i, q) && o.log[i].Granted?
    ensures var r := Step(After(s, run[..k]), run[k]).log[i].request;
      || r.bytes < q.bytes
      || r.priority > q.priority
      || (r.priority == q.priority && s.policy.CostAware? && r.cost < q.cost)
      || (r.priority == q.priority && (s.policy.PriorityFifo? || r.cost == q.cost) && r.sequence < q.sequence)
  {
    hide Step, Inv;
    RunKeepsInv(s, run[..k]);
    SettingsStayInRuns(s, run[..k]);
    GrantedAheadOf(After(s, run[..k]), run[k], i, q);
  }

  /** A round leaves nobody queued whose deadline has come. */
  lemma NobodyIsOverdue(s: State, now: Time, x: Request)
    requires Accounted(s) && x in GrantRound(s, now).state.pending
    ensures x in s.pending && !Past(x.deadline, now)
  {
    RoundSplits(s, now);
    ExpirySplits(s.pending, now);
    PastIsDue(x, now);
    SelectSplits(s.policy, Live(s.pending, now), s.Free());
  }

  /** A wait ends in a grant only before its deadline, and in a lapse only at or after it. */
  lemma FatesKeepDeadlines(s: State, e: Event, f: Fate)
    requires Inv(s) && f in Step(s, e).log
    ensures f.Granted? ==> f.request.deadline == 0x7FFF_FFFF_FFFF_FFFF || f.at < f.request.deadline
    ensures f.Lapsed? ==> f.request.deadline != 0x7FFF_FFFF_FFFF_FFFF && f.at >= f.request.deadline
  {
    FatesAreSound(s, e, f);
  }

  lemma EnqueuedFates(s: State, r: Request, now: Time, again: Time, f: Fate)
    requires Accounted(Arrive(s, r)) && f in Enqueue(s, r, now, again).log
    ensures !f.Admitted? && (f.request in s.pending || f.request == r)
  {
    EnqueueNeverAdmits(s, r, now, again, f);
    EnqueueShape(s, r, now, again);
    var o, first := Enqueue(s, r, now, again), GrantRound(Arrive(s, r), now);
    var i :| 0 <= i < |o.log| && o.log[i] == f;
    if i < |first.log| {
      assert first.log[i] == f;
      RoundIsSound(Arrive(s, r), now, f);
    } else {
      NobodyIsOverdue(Arrive(s, r), now, f.request);
    }
  }

  /** What a log tells of is a former waiter, or a newcomer under a name that was free. */
  lemma FatesAreOfWaiters(s: State, e: Event, f: Fate)
    requires Inv(s) && f in Step(s, e).log
    ensures if f.Admitted? then !Taken(s, f.name) else f.request in s.pending || !Taken(s, f.request.name)
  {
    hide GrantRound, Inv, Accounted, Enqueue, Taken;
    InvIsAccounted(s);
    match e
    case DoTryAcquire(name, bytes, now) =>
      AdmittedFates(s, name, bytes, now, f);
    case DoAcquire(name, bytes, options, now, again) =>
      TakenIsHasName(s, name);
      if options.timeout == 0 {
        AdmittedFates(s, name, bytes, now, f);
      } else if f != Admitted(name, bytes) {
        var r := Request(name, bytes, options.priority, options.cost, s.nextSequence, Deadline(now, options.timeout));
        assert Acquire(s, name, bytes, options, now, again) == Enqueue(s, r, now, again);
        ArrivalKeepsAccounts(s, r);
        EnqueuedFates(s, r, now, again, f);
      }
    case DoRelease(name, now) =>
      ReleaseKeepsAccounts(s, name);
      RoundIsSound(Vacate(s, name), now, f);
    case DoAcquireModel(id, bytes) =>
    case DoReleaseModel(id, now) =>
      ReleaseModelKeepsAccounts(s, id);
      RoundIsSound(VacateModel(s, id), now, f);
    case DoReplace(evictions, id, bytes, now) =>
      ReplaceKeepsAccounts(s, evictions, id, bytes);
      RoundIsSound(Swap(s, evictions, id, bytes), now, f);
    case DoRecheck(r, now) => RoundIsSound(s, now, f);
    case DoGiveUp(r, now) =>
    case DoCancel =>
  }

  lemma AdmittedFates(s: State, name: string, bytes: Bytes, now: Time, f: Fate)
    requires Inv(s) && f in TryAcquire(s, name, bytes, now).log
    ensures if f.Admitted? then !Taken(s, f.name) else f.request in s.pending
  {
    hide GrantRound, Taken;
    TakenIsHasName(s, name);
    AdmitKeepsAccounts(s, name, bytes);
    if f != Admitted(name, bytes) {
      RoundIsSound(Admit(s, name, bytes), now, f);
    }
  }

  /** A waiter that a step settles is told the truth: its bytes if they are reserved for it now, a
      timeout if they are not. */
  lemma WaitersAreToldTheTruth(s: State, e: Event, r: Request)
    requires Inv(s) && r in s.pending && r !in Step(s, e).state.pending
    ensures var t := Step(s, e).state;
      ReplyTo(r, Step(s, e).log) ==
        (if r.name in t.reservations then OperationResult(NoError, r.bytes) else OperationResult(TimedOut, 0))
    ensures r.name in Step(s, e).state.reservations ==> Step(s, e).state.reservations[r.name] == r.bytes
  {
    hide Step, GrantRound;
    var o := Step(s, e);
    assert WellQueued(s, r);
    LedgerIsExact(s, e, r.name);
    if i :| 0 <= i < |o.log| && o.log[i].Granted? && o.log[i].request == r {
      FatesAreSound(s, e, o.log[i]);
    }
    if GrantsName(o.log, r.name) {
      var i :| 0 <= i < |o.log| && ((o.log[i].Granted? && o.log[i].request.name == r.name)
                                   || (o.log[i].Admitted? && o.log[i].name == r.name));
      FatesAreOfWaiters(s, e, o.log[i]);
      assert Taken(s, r.name);
      assert o.log[i].Granted? && o.log[i].request == r;
    }
  }

  // ----------------------------------------------------------------- waiting

  /** A caller that wakes while queued takes everybody out of the queue whose deadline has come, and
      nothing else happens; one that is settled changes nothing. */
  lemma RecheckOutcome(s: State, r: Request, now: Time)
    requires Inv(s)
    ensures var o := Recheck(s, r, now);
      && o.reply == None && o.state == s.(pending := o.state.pending)
      && (if r in s.pending then OnlyExpires(s, now, o.state) else o.state == s && o.log == [])
      && (forall f :: f in o.log ==> f.Lapsed? && f.at == now && f.request in s.pending && Past(f.request.deadline, now))
  {
    RoundAtRest(s, now);
    LiveOnlyExpires(s, now, s.(pending := Live(s.pending, now)));
    forall f | f in Recheck(s, r, now).log
      ensures f.Lapsed? && f.at == now && f.request in s.pending && Past(f.request.deadline, now)
    {
      RestNeverGrants(s, now, f);
      FatesAreSound(s, DoRecheck(r, now), f);
      RoundTime(s, now, f);
    }
  }

  lemma RoundTime(s: State, now: Time, f: Fate)
    requires f in GrantRound(s, now).log
    ensures !f.Admitted? && (f.Granted? || f.Lapsed? ==> f.at == now)
  {
    hide Select, Live, Overdue;
  }

  /** A timed wait that ends at the deadline takes its request, and only it, out of the queue. */
  lemma GiveUpOutcome(s: State, r: Request, now: Time)
    requires Inv(s)
    ensures var o := GiveUp(s, r, now);
      if r in s.pending && Past(r.deadline, now) then
        && o.reply == Some(OperationResult(TimedOut, 0)) && o.log == [Lapsed(r, now)]
        && o.state == s.(pending := o.state.pending)
        && InSequence(o.state.pending) && (forall x :: x in o.state.pending <==> x in s.pending && x != r)
      else o == Outcome(s, None, [])
  {
    PastIsDue(r, now);
    if r in s.pending {
      WithoutOne(s.pending, r);
    }
  }

  /** A cancellation settles every waiter and touches nothing else. */
  lemma CancelOutcome(s: State)
    ensures var o := Cancel(s);
      && o.reply == None && o.state == s.(pending := [])
      && |o.log| == |s.pending| && (forall i :: 0 <= i < |s.pending| ==> o.log[i] == Cancelled(s.pending[i]))
  {
  }

  // ---------------------------------------------------------------- arriving

  /** Let in at once: the books gain exactly this entry, and the queue at most expires. */
  ghost predicate LetInAtOnce(s: State, o: Outcome, name: string, bytes: Bytes, now: Time) {
    && o.reply == Some(OperationResult(NoError, bytes))
    && name !in s.reservations && o.state.reservations == s.reservations[name := bytes]
    && o.state.used == s.used + bytes && o.state.models == s.models
    && OnlyExpires(s, now, o.state)
  }

  /** Which answer a try_acquire gets, for each answer exactly when. */
  lemma TryAcquireOutcome(s: State, name: string, bytes: Bytes, now: Time)
    requires Inv(s)
    ensures var o, free := TryAcquire(s, name, bytes, now), s.capacity - s.used;
      && (Refused(s, o, InvalidName) <==> !ValidName(name))
      && (Refused(s, o, InvalidSize) <==> ValidName(name) && bytes == 0)
      && (Refused(s, o, DuplicateClient) <==> ValidName(name) && bytes > 0 && Taken(s, name))
      && (Refused(s, o, InsufficientMemory) <==> ValidName(name) && bytes > free && !Taken(s, name))
      && (LetInAtOnce(s, o, name, bytes, now) <==> ValidName(name) && 0 < bytes <= free && !Taken(s, name))
      && o.state.nextSequence == s.nextSequence
  {
    hide GrantRound, Inv, Accounted, OnlyExpires, Taken;
    InvIsAccounted(s);
    TakenIsHasName(s, name);
    if ValidName(name) && !HasName(s, name) && 0 < bytes <= s.Free() {
      var t := Admit(s, name, bytes);
      AdmitKeepsAccounts(s, name, bytes);
      InvIsAccounted(t);
      RoundAtRest(t, now);
      LiveOnlyExpires(s, now, t.(pending := Live(s.pending, now)));
      assert TryAcquire(s, name, bytes, now).state == t.(pending := Live(s.pending, now));
    }
  }

  /** The request has to join the queue. */
  predicate Joins(s: State, name: string, bytes: Bytes, options: AcquireOptions) {
    && ValidName(name) && 0 < bytes <= s.capacity && options.timeout > 0 && options.cost >= 0 && !Taken(s, name)
    && (s.pending != [] || bytes > s.capacity - s.used)
  }

  /** The arrival plus the timeout if the clock can show it, and otherwise never. */
  function WaitsUntil(now: Time, timeout: Millis): (deadline: Time)
    requires timeout > 0
  {
    if now + timeout * 1_000_000 <= 0x7FFF_FFFF_FFFF_FFFF then now + timeout * 1_000_000 else 0x7FFF_FFFF_FFFF_FFFF
  }

  /** What a request that joins the queue is queued as. */
  function AsQueued(s: State, name: string, bytes: Bytes, options: AcquireOptions, now: Time): Request
    requires options.timeout > 0
  {
    Request(name, bytes, options.priority, options.cost, s.nextSequence, WaitsUntil(now, options.timeout))
  }

  lemma DeadlineIsArrivalPlusTimeout(now: Time, timeout: Millis)
    requires timeout > 0
    ensures Deadline(now, timeout) == WaitsUntil(now, timeout)
  {
  }

  /** A newcomer for which there is no room is queued with the caller's priority and cost, the next
      sequence number and that deadline; it times out if the deadline has come on entering the wait,
      and everybody whose deadline came at either reading of the clock leaves. */
  ghost predicate QueuedOrTimedOut(s: State, o: Outcome, r: Request, now: Time, again: Time) {
    && o.reply == (if Past(r.deadline, again) then Some(OperationResult(TimedOut, 0)) else None)
    && o.state == s.(pending := o.state.pending, nextSequence := s.nextSequence + 1)
    && InSequence(o.state.pending)
    && forall x :: x in o.state.pending <==>
         (x in s.pending || x == r) && !Past(x.deadline, now) && !Past(x.deadline, again)
  }

  lemma JoinsAsQueued(s: State, name: string, bytes: Bytes, options: AcquireOptions, now: Time, again: Time)
    requires Inv(s) && Joins(s, name, bytes, options)
    ensures var r := AsQueued(s, name, bytes, options, now);
      && Acquire(s, name, bytes, options, now, again) == Enqueue(s, r, now, again)
      && Accounted(Arrive(s, r)) && !Due(r, now) && r.name !in s.reservations && r !in s.pending
  {
    hide Enqueue, Accounted, Conserving;
    TakenIsHasName(s, name);
    DeadlineIsArrivalPlusTimeout(now, options.timeout);
    var r := AcquireQueues(s, name, bytes, options, now, again);
    assert r == AsQueued(s, name, bytes, options, now);
  }

  lemma JoinsWithoutRoom(s: State, name: string, bytes: Bytes, options: AcquireOptions, now: Time, again: Time)
    requires Inv(s) && Joins(s, name, bytes, options) && bytes > s.capacity - s.used
    ensures QueuedOrTimedOut(s, Acquire(s, name, bytes, options, now, again),
                             AsQueued(s, name, bytes, options, now), now, again)
  {
    hide GrantRound, Inv, Accounted, Due, Past, WaitsUntil, Enqueue;
    var r := AsQueued(s, name, bytes, options, now);
    JoinsAsQueued(s, name, bytes, options, now, again);
    assert r.bytes == bytes;
    QueuesWithoutRoom(s, r, now, again);
  }

  lemma QueuesWithoutRoom(s: State, r: Request, now: Time, again: Time)
    requires Inv(s) && Accounted(Arrive(s, r)) && !Due(r, now) && r.bytes > s.Free()
    requires r.name !in s.reservations && r !in s.pending
    ensures QueuedOrTimedOut(s, Enqueue(s, r, now, again), r, now, again)
  {
    hide GrantRound, Inv, Accounted, Due, Past, Live;
    EnqueueWaits(s, r, now, again);
    FirstStateQueues(s, r, now);
    var first := s.(pending := Live(s.pending, now) + [r], nextSequence := s.nextSequence + 1);
    assert GrantRound(Arrive(s, r), now).state == first;
    RoundKeepsInv(Arrive(s, r), now);
    RoundAtRest(first, again);
    LastRound(s, r, first, now, again);
    assert r in first.pending;
    PastIsDue(r, again);
    assert Enqueue(s, r, now, again).state == first.(pending := Live(first.pending, again));
  }

  lemma LastRound(s: State, r: Request, first: State, now: Time, again: Time)
    requires Accounted(first) && first.pending == Live(s.pending, now) + [r] && !Due(r, now)
    ensures InSequence(Live(first.pending, again))
    ensures forall x :: x in Live(first.pending, again) <==>
      (x in s.pending || x == r) && !Past(x.deadline, now) && !Past(x.deadline, again)
  {
    hide Live, Due, Past;
    ExpirySplits(s.pending, now);
    LiveOnlyExpires(first, again, first.(pending := Live(first.pending, again)));
    forall x: Request ensures Past(x.deadline, now) <==> Due(x, now) {
      PastIsDue(x, now);
    }
  }

  lemma FirstStateQueues(s: State, r: Request, now: Time)
    requires Inv(s) && Accounted(Arrive(s, r)) && !Due(r, now) && r.bytes > s.Free()
    ensures GrantRound(Arrive(s, r), now).state == s.(pending := Live(s.pending, now) + [r], nextSequence := s.nextSequence + 1)
  {
    FirstRoundQueues(s, r, now);
  }

  lemma JoinsWithRoom(s: State, name: string, bytes: Bytes, options: AcquireOptions, now: Time, again: Time)
    requires Inv(s) && Joins(s, name, bytes, options) && bytes <= s.capacity - s.used
    ensures var o := Acquire(s, name, bytes, options, now, again);
      LetInAtOnce(s, o, name, bytes, now) && o.state.nextSequence == s.nextSequence + 1
  {
    hide GrantRound, Inv, Accounted, Due, Past, WaitsUntil, Enqueue, Joins, OnlyExpires;
    var r := JoinedRequest(s, name, bytes, options, now, again);
    InvIsAccounted(s);
    EnqueueFits(s, r, now, again);
    LiveOnlyExpires(s, now, Enqueue(s, r, now, again).state);
    EnqueueNumbers(s, r, now, again);
  }

  lemma JoinedRequest(s: State, name: string, bytes: Bytes, options: AcquireOptions, now: Time, again: Time)
    returns (r: Request)
    requires Inv(s) && Joins(s, name, bytes, options)
    ensures r.name == name && r.bytes == bytes && Acquire(s, name, bytes, options, now, again) == Enqueue(s, r, now, again)
    ensures Accounted(Arrive(s, r)) && !Due(r, now) && r.name !in s.reservations
  {
    hide GrantRound, Inv, Accounted, Due, Enqueue;
    JoinsAsQueued(s, name, bytes, options, now, again);
    r := AsQueued(s, name, bytes, options, now);
  }

  lemma EnqueueNumbers(s: State, r: Request, now: Time, again: Time)
    ensures Enqueue(s, r, now, again).state.nextSequence == s.nextSequence + 1
  {
    hide GrantRound;
    var first := GrantRound(Arrive(s, r), now);
    RoundKeepsNumber(Arrive(s, r), now);
    RoundKeepsNumber(first.state, again);
  }

  /** A negative cost is found only in a request that would have to join the queue. */
  predicate CostMatters(s: State, name: string, bytes: Bytes, options: AcquireOptions) {
    && options.cost < 0 && options.timeout > 0 && bytes <= s.capacity && !Taken(s, name)
    && (s.pending != [] || bytes > s.capacity - s.used)
  }

  predicate MayNotWait(s: State, name: string, bytes: Bytes, options: AcquireOptions) {
    bytes > s.capacity - s.used && options.timeout == 0 && !Taken(s, name)
  }

  /** Which answer an acquire gets, for each answer exactly when; a valid request that has to join the
      queue behind others or for want of room is queued as AsQueued says. */
  lemma AcquireOutcome(s: State, name: string, bytes: Bytes, options: AcquireOptions, now: Time, again: Time)
    requires Inv(s)
    ensures var o, free := Acquire(s, name, bytes, options, now, again), s.capacity - s.used;
      var sized, joins := ValidName(name) && bytes > 0, Joins(s, name, bytes, options);
      && (Refused(s, o, InvalidName) <==> !ValidName(name))
      && (Refused(s, o, InvalidSize) <==> ValidName(name) && bytes == 0)
      && (Refused(s, o, InvalidTimeout) <==> sized && (options.timeout < 0 || CostMatters(s, name, bytes, options)))
      && (Refused(s, o, InsufficientMemory)
          <==> sized && options.timeout >= 0 && (bytes > s.capacity || MayNotWait(s, name, bytes, options)))
      && (Refused(s, o, DuplicateClient) <==> sized && options.timeout >= 0 && bytes <= s.capacity && Taken(s, name))
      && (LetInAtOnce(s, o, name, bytes, now)
          <==> && sized && options.timeout >= 0 && bytes <= free && !Taken(s, name)
               && (options.timeout == 0 || s.pending == [] || options.cost >= 0))
      && (joins && bytes > free ==> QueuedOrTimedOut(s, o, AsQueued(s, name, bytes, options, now), now, again))
      && (o.state.nextSequence != s.nextSequence <==> joins)
  {
    hide GrantRound, Inv, Accounted, OnlyExpires, Taken, TryAcquire, Enqueue, QueuedOrTimedOut;
    InvIsAccounted(s);
    TakenIsHasName(s, name);
    if Joins(s, name, bytes, options) {
      if bytes > s.capacity - s.used {
        JoinsWithoutRoom(s, name, bytes, options, now, again);
        AnsweredLater(s, name, bytes, options, now, again);
      } else {
        JoinsWithRoom(s, name, bytes, options, now, again);
      }
    } else if options.timeout == 0 {
      TryAcquireOutcome(s, name, bytes, now);
    } else if s.pending == [] {
      NobodyExpires(s, now);
    }
  }

  lemma AnsweredLater(s: State, name: string, bytes: Bytes, options: AcquireOptions, now: Time, again: Time)
    requires options.timeout > 0
    requires QueuedOrTimedOut(s, Acquire(s, name, bytes, options, now, again),
                              AsQueued(s, name, bytes, options, now), now, again)
    ensures var o := Acquire(s, name, bytes, options, now, again);
      && o.state.nextSequence == s.nextSequence + 1
      && (o.reply == None || o.reply == Some(OperationResult(TimedOut, 0)))
  {
  }

  lemma NobodyExpires(s: State, now: Time)
    requires s.pending == []
    ensures forall t: State :: t.pending == [] ==> OnlyExpires(s, now, t)
  {
  }

  // ----------------------------------------------------------------- leaving

  /** After a round started by freed memory: the queue keeps waiters whose deadline has not come, and
      each of these that left it holds its bytes now. */
  ghost predicate RoundFollows(s: State, o: Outcome, now: Time) {
    && InSequence(o.state.pending)
    && (forall x :: x in o.state.pending ==> x in s.pending && !Past(x.deadline, now))
    && (forall x :: x in s.pending && !Past(x.deadline, now) && x !in o.state.pending ==>
          x.name in o.state.reservations && o.state.reservations[x.name] == x.bytes)
    && (forall x :: x in s.pending && Past(x.deadline, now) ==> x.name !in o.state.reservations)
    && o.state.nextSequence == s.nextSequence
  }

  /** Reservations are only added. */
  ghost predicate Kept(m: map<string, Bytes>, t: map<string, Bytes>) {
    forall n :: n in m ==> n in t && t[n] == m[n]
  }

  lemma RoundIsFollowed(s: State, now: Time)
    requires Accounted(s)
    ensures var o := GrantRound(s, now);
      RoundFollows(s, o, now) && Kept(s.reservations, o.state.reservations) && o.state.models == s.models
  {
    hide GrantRound, Past, Accounted, Due, LogShape;
    var o := GrantRound(s, now);
    var overdue, granted := RoundHasShape(s, now);
    RoundRest(s, now);
    forall x: Request ensures Past(x.deadline, now) <==> Due(x, now) {
      PastIsDue(x, now);
    }
    forall x | x in s.pending && Due(x, now) ensures x.name !in o.state.reservations {
      OverdueGetNothing(s, now, o, overdue, granted, x);
    }
  }

  lemma OverdueGetNothing(s: State, now: Time, o: Outcome, overdue: seq<Request>, granted: seq<Request>, x: Request)
    requires Accounted(s) && RoundShape(s, now, o, overdue, granted) && x in s.pending && Due(x, now)
    ensures x.name !in o.state.reservations
  {
    hide Due, LogShape, NeverOvertakes;
    assert WellQueued(s, x);
    forall i | 0 <= i < |granted| ensures granted[i].name != x.name {
      assert granted[i] in granted;
    }
  }

  lemma RoundRest(s: State, now: Time)
    requires Accounted(s)
    ensures var t := GrantRound(s, now).state;
      InSequence(t.pending) && t.models == s.models && t.nextSequence == s.nextSequence
  {
    RoundSplits(s, now);
  }

  /** Which answer a release gets, and what it hands back; the name holds nothing afterwards. */
  lemma ReleaseOutcome(s: State, name: string, now: Time)
    requires Inv(s)
    ensures var o := Release(s, name, now);
      && (Refused(s, o, InvalidName) <==> !ValidName(name))
      && (Refused(s, o, UnknownClient) <==> ValidName(name) && name !in s.reservations)
      && (ValidName(name) && name in s.reservations ==>
            && o.reply == Some(OperationResult(NoError, s.reservations[name]))
            && name !in o.state.reservations && o.state.models == s.models
            && Kept(s.reservations - {name}, o.state.reservations)
            && RoundFollows(s, o, now))
  {
    hide GrantRound, Inv, Accounted, RoundFollows, Kept;
    if ValidName(name) && name in s.reservations {
      var t := Vacate(s, name);
      ReleaseKeepsAccounts(s, name);
      RoundIsFollowed(t, now);
      SameWaiters(s, t, GrantRound(t, now), Release(s, name, now), now);
      NothingGrantedTo(s, name, now);
    }
  }

  lemma NothingGrantedTo(s: State, name: string, now: Time)
    requires Inv(s) && ValidName(name) && name in s.reservations
    ensures name !in GrantRound(Vacate(s, name), now).state.reservations
  {
    hide GrantRound;
    var t := Vacate(s, name);
    ReleaseKeepsAccounts(s, name);
    var overdue, granted := RoundHasShape(t, now);
    forall i | 0 <= i < |granted| ensures granted[i].name != name {
      assert granted[i] in granted && granted[i] in s.pending;
      assert WellQueued(s, granted[i]);
    }
  }

  // ------------------------------------------------------------------ models

  /** Which answer a model reservation gets; the queue is not looked at. */
  lemma AcquireModelOutcome(s: State, id: string, bytes: Bytes)
    requires Inv(s)
    ensures var o, free := AcquireModel(s, id, bytes), s.capacity - s.used;
      && (Refused(s, o, InvalidName) <==> !ValidName(id))
      && (Refused(s, o, InvalidSize) <==> ValidName(id) && bytes == 0)
      && (Refused(s, o, DuplicateClient) <==> ValidName(id) && bytes > 0 && id in s.models)
      && (Refused(s, o, InsufficientMemory) <==> ValidName(id) && id !in s.models && bytes > free)
      && (ValidName(id) && 0 < bytes <= free && id !in s.models ==>
            o == Outcome(s.(models := s.models[id := bytes], used := s.used + bytes),
                         Some(OperationResult(NoError, bytes)), []))
  {
    InvIsAccounted(s);
  }

  /** Which answer the release of a model gets, and what it hands back. */
  lemma ReleaseModelOutcome(s: State, id: string, now: Time)
    requires Inv(s)
    ensures var o := ReleaseModel(s, id, now);
      && (Refused(s, o, InvalidName) <==> !ValidName(id))
      && (Refused(s, o, UnknownClient) <==> ValidName(id) && id !in s.models)
      && (ValidName(id) && id in s.models ==>
            && o.reply == Some(OperationResult(NoError, s.models[id])) && o.state.models == s.models - {id}
            && Kept(s.reservations, o.state.reservations)
            && RoundFollows(s, o, now))
  {
    hide GrantRound, Inv, Accounted, RoundFollows, Kept;
    if ValidName(id) && id in s.models {
      var t := VacateModel(s, id);
      ReleaseModelKeepsAccounts(s, id);
      RoundIsFollowed(t, now);
      SameWaiters(s, t, GrantRound(t, now), ReleaseModel(s, id, now), now);
    }
  }

  /** The victims are gone, the newcomer is there, and every other entry is as it was. */
  ghost predicate Exchanged(m: map<string, Bytes>, victims: seq<string>, id: string, bytes: Bytes, t: map<string, Bytes>) {
    && (forall n :: n in t <==> n == id || (n in m && n !in victims))
    && (forall n :: n in t && n != id ==> t[n] == m[n])
    && id in t && t[id] == bytes
  }

  lemma SwapExchanges(s: State, victims: seq<string>, id: string, bytes: Bytes)
    requires id !in s.models && forall i :: 0 <= i < |victims| ==> victims[i] in s.models
    ensures Exchanged(s.models, victims, id, bytes, Swap(s, victims, id, bytes).models)
  {
    forall n ensures n in victims <==> n in Elements(victims) {
    }
  }

  /** Which answer a replacement gets.  A bad name, a missing size, a model that is already there, a
      repeated victim, an unknown victim and too little room are told apart in this order. */
  lemma ReplaceOutcome(s: State, victims: seq<string>, id: string, bytes: Bytes, now: Time)
    requires Inv(s)
    ensures var o := Replace(s, victims, id, bytes, now);
      var fresh' := ValidName(id) && bytes > 0 && id !in s.models;
      var distinct := forall i, j :: 0 <= i < j < |victims| ==> victims[i] != victims[j];
      var known := forall i :: 0 <= i < |victims| ==> victims[i] in s.models;
      && (Refused(s, o, InvalidName) <==> !ValidName(id))
      && (Refused(s, o, InvalidSize) <==> ValidName(id) && bytes == 0)
      && (Refused(s, o, DuplicateClient) <==> ValidName(id) && bytes > 0 && (id in s.models || !distinct))
      && (Refused(s, o, UnknownClient) <==> fresh' && distinct && !known)
      && (Refused(s, o, InsufficientMemory) <==>
            fresh' && distinct && known && bytes > s.capacity - s.used + SumOf(s.models, victims))
      && (fresh' && distinct && known && bytes <= s.capacity - s.used + SumOf(s.models, victims) ==>
            && o.reply == Some(OperationResult(NoError, bytes))
            && Exchanged(s.models, victims, id, bytes, o.state.models)
            && Kept(s.reservations, o.state.reservations)
            && RoundFollows(s, o, now))
  {
    hide GrantRound, Inv, Accounted, RoundFollows, Exchanged, Kept, Swap, SumOf;
    InvIsAccounted(s);
    if Replaceable(s, victims, id, bytes) {
      ReplacementFollows(s, victims, id, bytes, now);
    }
  }

  lemma ReplacementFollows(s: State, victims: seq<string>, id: string, bytes: Bytes, now: Time)
    requires Inv(s) && Replaceable(s, victims, id, bytes)
    ensures var o := Replace(s, victims, id, bytes, now);
      && o.reply == Some(OperationResult(NoError, bytes))
      && Exchanged(s.models, victims, id, bytes, o.state.models)
      && Kept(s.reservations, o.state.reservations)
      && RoundFollows(s, o, now)
  {
    hide GrantRound, Inv, Accounted, RoundFollows, Exchanged, Kept;
    var t := Swap(s, victims, id, bytes);
    ReplaceKeepsAccounts(s, victims, id, bytes);
    RoundIsFollowed(t, now);
    SwapExchanges(s, victims, id, bytes);
    SameWaiters(s, t, GrantRound(t, now), Replace(s, victims, id, bytes, now), now);
  }

  /** A round is judged by its state alone. */
  lemma SameWaiters(s: State, t: State, round: Outcome, o: Outcome, now: Time)
    requires t.pending == s.pending && t.nextSequence == s.nextSequence
    requires RoundFollows(t, round, now) && o.state == round.state
    ensures RoundFollows(s, o, now)
  {
  }
}
