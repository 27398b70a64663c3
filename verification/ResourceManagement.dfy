/** The resource manager itself: every method is one critical section, proved to be one step of
    the admission state machine. */
module ResourceManagement {
  import opened Common
  import opened Scheduler
  import opened Admission
  import opened AdmissionLaws
  import Snapshots

  /** A queued request as its waiting caller sees it. */
  class PendingRequest {
    const request: Request
    var completed: bool
    var result: OperationResult

    constructor (request: Request)
      ensures this.request == request && !completed
    {
      this.request := request;
      completed, result := false, OperationResult(NoError, 0);
    }
  }

  ghost function Requests(waiters: seq<PendingRequest>): seq<Request> {
    seq(|waiters|, i requires 0 <= i < |waiters| => waiters[i].request)
  }

  ghost predicate NoneCompleted(waiters: seq<PendingRequest>)
    reads waiters
  {
    forall i :: 0 <= i < |waiters| ==> !waiters[i].completed
  }

  ghost predicate Among(some: seq<PendingRequest>, all: seq<PendingRequest>) {
    forall i :: 0 <= i < |some| ==> some[i] in all
  }

  /** Each of these waiters is still queued, or has been told what the log says about it. */
  ghost predicate Informed(waiters: seq<PendingRequest>, s: State, log: seq<Fate>)
    reads waiters
  {
    forall i :: 0 <= i < |waiters| ==>
      if waiters[i].request in s.pending then !waiters[i].completed
      else waiters[i].completed && waiters[i].result == ReplyTo(waiters[i].request, log)
  }

  /** The first k of these waiters have been through the expiry loop: the due ones have been told
      of their timeout, the others are kept. */
  ghost predicate Expired(all: seq<PendingRequest>, kept: seq<PendingRequest>, k: nat, now: Time)
    requires k <= |all|
    reads all
  {
    && Among(kept, all)
    && (forall i :: 0 <= i < k ==>
          if Due(all[i].request, now) then all[i].completed && all[i].result == OperationResult(TimedOut, 0)
          else !all[i].completed && all[i] in kept)
  }

  ghost predicate AllDistinct(all: seq<PendingRequest>) {
    forall i, j :: 0 <= i < j < |all| ==> all[i] != all[j]
  }

  lemma DistinctWaiters(all: seq<PendingRequest>)
    requires InSequence(Requests(all))
    ensures AllDistinct(all)
  {
    forall i, j | 0 <= i < j < |all| ensures all[i] != all[j] {
      assert Requests(all)[i] == all[i].request && Requests(all)[j] == all[j].request;
    }
  }

  lemma DropNext<T>(all: seq<T>, kept: seq<T>, k: nat)
    requires k < |all|
    ensures RemoveAt(kept + all[k..], |kept|) == kept + all[k + 1..]
  {
    assert all[k..] == [all[k]] + all[k + 1..];
  }

  lemma KeepNext<T>(all: seq<T>, kept: seq<T>, k: nat)
    requires k < |all|
    ensures kept + all[k..] == kept + [all[k]] + all[k + 1..]
  {
    assert all[k..] == [all[k]] + all[k + 1..];
  }

  lemma LiveStep(all: seq<PendingRequest>, kept: seq<PendingRequest>, k: nat, now: Time)
    requires k < |all| && Requests(kept) == Live(Requests(all[..k]), now)
    ensures Due(all[k].request, now) ==> Requests(kept) == Live(Requests(all[..k + 1]), now)
    ensures !Due(all[k].request, now) ==> Requests(kept + [all[k]]) == Live(Requests(all[..k + 1]), now)
  {
    assert Requests(all[..k + 1])[..k] == Requests(all[..k]);
  }

  lemma RemovedWaiters(all: seq<PendingRequest>, i: nat)
    requires i < |all| && DistinctSequences(Requests(all))
    ensures Requests(RemoveAt(all, i)) == RemoveAt(Requests(all), i)
    ensures forall t :: t in RemoveAt(all, i) <==> t in all && t != all[i]
  {
    var rest := RemoveAt(all, i);
    forall t | t in all && t != all[i] ensures t in rest {
      var j :| 0 <= j < |all| && all[j] == t;
      assert rest[if j < i then j else j - 1] == t;
    }
    forall t | t in rest ensures t in all && t != all[i] {
      var j :| 0 <= j < |rest| && rest[j] == t;
      var k := if j < i then j else j + 1;
      assert all[k] == t && Requests(all)[k] == t.request && Requests(all)[i] == all[i].request;
    }
  }

  /** Granting on from these books and this queue ends in that outcome. */
  ghost predicate LeadsTo(policy: Policy, free: int, used: int, books: map<string, Bytes>, q: seq<Request>,
                          used': int, books': map<string, Bytes>, waiting: seq<Request>)
  {
    var rest := Select(policy, q, free);
    && rest.waiting == waiting
    && Enter(books, rest.granted) == books'
    && used + SumBytes(rest.granted) == used'
  }

  lemma GrantTurn(policy: Policy, free: int, used: int, books: map<string, Bytes>, q: seq<Request>,
                  used': int, books': map<string, Bytes>, waiting: seq<Request>)
    requires DistinctSequences(q) && Scan(policy, q, free, |q|) < |q|
    requires LeadsTo(policy, free, used, books, q, used', books', waiting)
    ensures var best := q[Scan(policy, q, free, |q|)];
      && best.bytes <= free && DistinctSequences(RemoveAt(q, Scan(policy, q, free, |q|)))
      && LeadsTo(policy, free - best.bytes, used + best.bytes, Emplace(books, best.name, best.bytes),
                 RemoveAt(q, Scan(policy, q, free, |q|)), used', books', waiting)
  {
    var k := Scan(policy, q, free, |q|);
    var best := q[k];
    ScanFindsBest(policy, q, free, |q|);
    RemovedStaysDistinct(q, k);
    var rest := Select(policy, RemoveAt(q, k), free - best.bytes);
    assert Select(policy, q, free) == Round([best] + rest.granted, rest.waiting);
    assert ([best] + rest.granted)[1..] == rest.granted;
  }

  lemma NothingLive(now: Time)
    ensures Live([], now) == []
  {
  }

  lemma KeptAreOpen(all: seq<PendingRequest>, kept: seq<PendingRequest>, now: Time)
    requires Requests(kept) == Live(Requests(all), now) && Expired(all, kept, |all|, now)
    ensures NoneCompleted(kept)
  {
    ExpirySplits(Requests(all), now);
    forall i | 0 <= i < |kept| ensures !kept[i].completed {
      assert kept[i] in kept && Requests(kept)[i] == kept[i].request;
      assert kept[i].request in Requests(kept);
      var j :| 0 <= j < |all| && all[j] == kept[i];
    }
  }

  /** What the round's log says of one waiter is what it has been told. */
  lemma RoundReplies(s: State, now: Time, r: Request)
    requires Accounted(s) && r in s.pending
    ensures var o := GrantRound(s, now);
      if Due(r, now) then r !in o.state.pending && ReplyTo(r, o.log) == OperationResult(TimedOut, 0)
      else r in o.state.pending || ReplyTo(r, o.log) == OperationResult(NoError, r.bytes)
  {
    var o := GrantRound(s, now);
    var overdue, granted := RoundHasShape(s, now);
    if !Due(r, now) && r !in o.state.pending {
      var i :| 0 <= i < |granted| && granted[i] == r;
      assert o.log[|overdue| + i] == Granted(r, now);
    }
    if Due(r, now) {
      forall i | 0 <= i < |o.log| ensures !(o.log[i].Granted? && o.log[i].request == r) {
        if i >= |overdue| {
          assert o.log[i] == Granted(granted[i - |overdue|], now) && granted[i - |overdue|] in granted;
        }
      }
    }
  }

  lemma InformedByRound(s: State, now: Time, all: seq<PendingRequest>, live: seq<PendingRequest>, left: seq<PendingRequest>)
    requires Accounted(s) && Requests(all) == s.pending
    requires Requests(left) == GrantRound(s, now).state.pending
    requires forall i :: 0 <= i < |all| ==>
      if Due(all[i].request, now) then all[i].completed && all[i].result == OperationResult(TimedOut, 0) else all[i] in live
    requires Among(left, all) && NoneCompleted(left)
    requires forall t :: t in live && t !in left ==> t.completed && t.result == OperationResult(NoError, t.request.bytes)
    ensures Informed(all, GrantRound(s, now).state, GrantRound(s, now).log)
  {
    hide GrantRound;
    var o := GrantRound(s, now);
    DistinctRequests(all);
    forall i | 0 <= i < |all|
      ensures if all[i].request in o.state.pending then !all[i].completed
        else all[i].completed && all[i].result == ReplyTo(all[i].request, o.log)
    {
      var r := all[i].request;
      assert Requests(all)[i] == r;
      RoundReplies(s, now, r);
      if r in o.state.pending {
        var j :| 0 <= j < |left| && Requests(left)[j] == r;
        assert left[j] in left && left[j].request == r;
      } else {
        forall j | 0 <= j < |left| ensures left[j] != all[i] {
          assert Requests(left)[j] == left[j].request && Requests(left)[j] in o.state.pending;
        }
      }
    }
  }

  lemma DistinctRequests(all: seq<PendingRequest>)
    requires InSequence(Requests(all))
    ensures forall t, u :: t in all && u in all && t.request == u.request ==> t == u
  {
    forall t, u | t in all && u in all && t.request == u.request ensures t == u {
      var i, j :| 0 <= i < |all| && 0 <= j < |all| && all[i] == t && all[j] == u;
      assert Requests(all)[i] == Requests(all)[j];
    }
  }

  lemma LeadsNowhere(policy: Policy, free: int, used: int, books: map<string, Bytes>, q: seq<Request>,
                     used': int, books': map<string, Bytes>, waiting: seq<Request>)
    requires Scan(policy, q, free, |q|) == |q| && LeadsTo(policy, free, used, books, q, used', books', waiting)
    ensures used == used' && books == books' && q == waiting
  {
  }

  lemma RoundLeads(s: State, now: Time)
    requires Accounted(s)
    ensures var t := GrantRound(s, now).state;
      && LeadsTo(s.policy, s.Free(), s.used, s.reservations, Live(s.pending, now), t.used, t.reservations, t.pending)
      && t == s.(used := t.used, reservations := t.reservations, pending := t.pending)
      && Inv(t) && InSequence(s.pending) && DistinctSequences(Live(s.pending, now)) && s.used <= s.capacity
  {
    RoundSplits(s, now);
    RoundKeepsInv(s, now);
  }

  lemma QueuedWaiters(waiters: seq<PendingRequest>, name: string)
    ensures Queued(Requests(waiters), name) <==> exists i :: 0 <= i < |waiters| && waiters[i].request.name == name
  {
    if Queued(Requests(waiters), name) {
      var i :| 0 <= i < |Requests(waiters)| && Requests(waiters)[i].name == name;
      assert waiters[i].request.name == name;
    }
    if i :| 0 <= i < |waiters| && waiters[i].request.name == name {
      assert Requests(waiters)[i].name == name;
    }
  }

  /** A step that settles nobody leaves everybody waiting. */
  lemma StandingInform(waiters: seq<PendingRequest>, s: State)
    requires NoneCompleted(waiters) && s.pending == Requests(waiters)
    ensures forall log :: Informed(waiters, s, log)
  {
    forall i | 0 <= i < |waiters| ensures waiters[i].request in s.pending {
      assert Requests(waiters)[i] == waiters[i].request;
    }
  }

  lemma AdmissionInforms(waiters: seq<PendingRequest>, t: State, f: Fate, log: seq<Fate>)
    requires f.Admitted? && Informed(waiters, t, log)
    ensures Informed(waiters, t, [f] + log)
  {
    forall r ensures ReplyTo(r, [f] + log) == ReplyTo(r, log) {
      assert forall i :: 0 <= i < |log| ==> ([f] + log)[i + 1] == log[i];
    }
  }

  lemma InformedPrefix(waiters: seq<PendingRequest>, last: PendingRequest, t: State, log: seq<Fate>)
    requires Informed(waiters + [last], t, log)
    ensures Informed(waiters, t, log)
    ensures if last.request in t.pending then !last.completed
      else last.completed && last.result == ReplyTo(last.request, log)
  {
    assert forall i :: 0 <= i < |waiters| ==> (waiters + [last])[i] == waiters[i];
    assert (waiters + [last])[|waiters|] == last;
  }

  /** A reply given by the second of two rounds is the reply of both logs together, and a reply
      given by the first is not revised by the second. */
  lemma LaterRoundReplies(s: State, now: Time, again: Time, r: Request)
    requires Accounted(s) && r in s.pending
    ensures var first := GrantRound(s, now);
      var second := GrantRound(first.state, again);
      ReplyTo(r, first.log + second.log) == ReplyTo(r, if r in first.state.pending then second.log else first.log)
  {
    var first := GrantRound(s, now);
    RoundKeepsInv(s, now);
    var second := GrantRound(first.state, again);
    var log := first.log + second.log;
    if r in first.state.pending {
      forall i | 0 <= i < |first.log| ensures first.log[i].request != r {
        assert first.log[i] in first.log;
        RoundIsSound(s, now, first.log[i]);
      }
      RepliesAfter(r, first.log, second.log);
    } else {
      forall i | 0 <= i < |second.log| ensures !(second.log[i].Granted? && second.log[i].request == r) {
        assert second.log[i] in second.log;
        RoundIsSound(first.state, again, second.log[i]);
      }
      RepliesBefore(r, first.log, second.log);
    }
  }

  lemma RepliesAfter(r: Request, x: seq<Fate>, y: seq<Fate>)
    requires forall i :: 0 <= i < |x| ==> !(x[i].Granted? && x[i].request == r)
    ensures ReplyTo(r, x + y) == ReplyTo(r, y)
  {
    assert forall i :: 0 <= i < |y| ==> (x + y)[|x| + i] == y[i];
    if i :| 0 <= i < |x + y| && (x + y)[i].Granted? && (x + y)[i].request == r {
      assert y[i - |x|].Granted? && y[i - |x|].request == r;
    }
  }

  lemma RepliesBefore(r: Request, x: seq<Fate>, y: seq<Fate>)
    requires forall i :: 0 <= i < |y| ==> !(y[i].Granted? && y[i].request == r)
    ensures ReplyTo(r, x + y) == ReplyTo(r, x)
  {
    assert forall i :: 0 <= i < |x| ==> (x + y)[i] == x[i];
    if i :| 0 <= i < |x + y| && (x + y)[i].Granted? && (x + y)[i].request == r {
      assert i < |x|;
    }
  }

  lemma AmongOneMore(some: seq<PendingRequest>, all: seq<PendingRequest>, last: PendingRequest)
    requires Among(some, all + [last])
    ensures forall i :: 0 <= i < |some| ==> some[i] in all || some[i] == last
  {
  }

  lemma StillAmong(some: seq<PendingRequest>, all: seq<PendingRequest>, last: PendingRequest)
    requires Among(some, all + [last])
    ensures forall t :: t in some ==> t in all || t == last
  {
    AmongOneMore(some, all, last);
  }

  lemma StillQueued(waiters: seq<PendingRequest>, left: seq<PendingRequest>, t: PendingRequest)
    requires InSequence(Requests(waiters)) && Among(left, waiters) && t in waiters && t.request in Requests(left)
    ensures t in left
  {
    var i :| 0 <= i < |Requests(left)| && Requests(left)[i] == t.request;
    DistinctRequests(waiters);
    assert left[i] in waiters && left[i].request == t.request;
  }

  lemma ArrivalOrder(s: State)
    requires Accounted(s)
    ensures InSequence(s.pending)
  {
  }

  /** The waiters a round has dropped from the queue carry their reply. */
  lemma SettledOutside(waiters: seq<PendingRequest>, left: seq<PendingRequest>, s: State, now: Time)
    requires Accounted(s) && Requests(waiters) == s.pending
    requires var o := GrantRound(s, now); Informed(waiters, o.state, o.log) && Requests(left) == o.state.pending
    requires Among(left, waiters)
    ensures forall i :: 0 <= i < |waiters| && waiters[i] !in left ==>
      && waiters[i].request !in Requests(left)
      && waiters[i].completed && waiters[i].result == ReplyTo(waiters[i].request, GrantRound(s, now).log)
  {
    hide GrantRound;
    ArrivalOrder(s);
    forall i | 0 <= i < |waiters| && waiters[i] !in left ensures waiters[i].request !in Requests(left) {
      if waiters[i].request in Requests(left) {
        StillQueued(waiters, left, waiters[i]);
      }
    }
  }

  lemma BothRoundsInform(s: State, now: Time, again: Time, waiters: seq<PendingRequest>, middle: seq<PendingRequest>)
    requires Accounted(s) && Requests(waiters) == s.pending
    requires var first := GrantRound(s, now);
      var second := GrantRound(first.state, again);
      && Requests(middle) == first.state.pending
      && Informed(middle, second.state, second.log)
      && (forall i :: 0 <= i < |waiters| && waiters[i] !in middle ==>
            && waiters[i].request !in Requests(middle)
            && waiters[i].completed && waiters[i].result == ReplyTo(waiters[i].request, first.log))
    ensures var first := GrantRound(s, now);
      var second := GrantRound(first.state, again);
      Informed(waiters, second.state, first.log + second.log)
  {
    var first := GrantRound(s, now);
    var second := GrantRound(first.state, again);
    forall i | 0 <= i < |waiters|
      ensures if waiters[i].request in second.state.pending then !waiters[i].completed
        else waiters[i].completed && waiters[i].result == ReplyTo(waiters[i].request, first.log + second.log)
    {
      var t := waiters[i];
      assert Requests(waiters)[i] == t.request;
      LaterRoundReplies(s, now, again, t.request);
      if t.request in second.state.pending {
        SecondRoundShrinks(s, now, again, t.request);
      }
      if t in middle {
        var j :| 0 <= j < |middle| && middle[j] == t;
        assert Requests(middle)[j] == t.request;
      }
    }
  }

  lemma SecondRoundShrinks(s: State, now: Time, again: Time, r: Request)
    requires Accounted(s) && r in GrantRound(GrantRound(s, now).state, again).state.pending
    ensures r in GrantRound(s, now).state.pending
  {
    RoundKeepsInv(s, now);
    RoundSplits(GrantRound(s, now).state, again);
  }

  lemma {:induction false} WithoutIsRemoveAt(q: seq<Request>, i: nat)
    requires InSequence(q) && i < |q|
    ensures Without(q, q[i]) == RemoveAt(q, i)
  {
    if i > 0 {
      WithoutIsRemoveAt(q[1..], i - 1);
      assert RemoveAt(q, i) == [q[0]] + RemoveAt(q[1..], i - 1);
    }
  }

  lemma LeaveQueue(waiters: seq<PendingRequest>, i: nat)
    requires InSequence(Requests(waiters)) && i < |waiters|
    ensures Requests(RemoveAt(waiters, i)) == Without(Requests(waiters), waiters[i].request)
    ensures forall j :: 0 <= j < |RemoveAt(waiters, i)| ==> RemoveAt(waiters, i)[j] in waiters
    ensures forall j :: 0 <= j < |RemoveAt(waiters, i)| ==> RemoveAt(waiters, i)[j] != waiters[i]
    ensures AllDistinct(waiters)
  {
    InSequenceIsDistinct(Requests(waiters));
    RemovedWaiters(waiters, i);
    WithoutIsRemoveAt(Requests(waiters), i);
    DistinctWaiters(waiters);
    assert Requests(waiters)[i] == waiters[i].request;
    assert forall j :: 0 <= j < |RemoveAt(waiters, i)| ==> RemoveAt(waiters, i)[j] in RemoveAt(waiters, i);
  }

  lemma LapseInforms(all: seq<PendingRequest>, i: nat, s: State, now: Time)
    requires i < |all| && s.pending == Requests(all) && InSequence(s.pending) && Due(all[i].request, now)
    requires all[i].completed && all[i].result == OperationResult(TimedOut, 0)
    requires forall j :: 0 <= j < |all| && j != i ==> !all[j].completed
    ensures var o := GiveUp(s, all[i].request, now); Informed(all, o.state, o.log)
  {
    var r := all[i].request;
    assert Requests(all)[i] == r;
    WithoutOne(s.pending, r);
    forall j | 0 <= j < |all| && j != i ensures all[j].request in Without(s.pending, r) {
      assert Requests(all)[j] == all[j].request;
    }
  }

  lemma CancelKeepsInv(s: State)
    requires Inv(s)
    ensures Inv(Cancel(s).state)
  {
  }

  lemma PrefixElements(ids: seq<string>, i: nat)
    requires i < |ids|
    ensures Elements(ids[..i + 1]) == Elements(ids[..i]) + {ids[i]}
    ensures ids[i] in Elements(ids[..i]) ==> Repeats(ids)
    ensures !Repeats(ids[..i]) && ids[i] !in Elements(ids[..i]) ==> !Repeats(ids[..i + 1])
    ensures !Repeats(ids) ==> ids[i] !in Elements(ids[..i])
  {
    assert forall j :: 0 <= j < i ==> ids[..i][j] == ids[j] && ids[..i + 1][j] == ids[j];
    assert ids[..i + 1][i] == ids[i];
    if ids[i] in Elements(ids[..i]) {
      var j :| 0 <= j < i && ids[..i][j] == ids[i];
      assert ids[j] == ids[i];
    }
    forall x ensures x in Elements(ids[..i + 1]) <==> x in Elements(ids[..i]) + {ids[i]} {
      if x in Elements(ids[..i + 1]) {
        var j :| 0 <= j < i + 1 && ids[..i + 1][j] == x;
        assert j < i ==> ids[..i][j] == x;
      }
      if x in Elements(ids[..i]) {
        var j :| 0 <= j < i && ids[..i][j] == x;
        assert ids[..i + 1][j] == x;
      }
    }
  }

  lemma {:induction false} PrefixSum(m: map<string, Bytes>, ids: seq<string>, i: nat)
    requires i <= |ids| && forall j :: 0 <= j < |ids| ==> ids[j] in m
    ensures SumOf(m, ids[..i]) <= SumOf(m, ids)
    decreases |ids|
  {
    if i < |ids| {
      var n := |ids| - 1;
      PrefixSum(m, ids[..n], i);
      assert ids[..n][..i] == ids[..i];
    } else {
      assert ids[..i] == ids;
    }
  }

  /** The victims' total never exceeds what is in use. */
  lemma VictimsFit(s: State, ids: seq<string>, i: nat)
    requires Inv(s) && i <= |ids| && !Repeats(ids) && forall j :: 0 <= j < i ==> ids[j] in s.models
    ensures SumOf(s.models, ids[..i]) <= s.used <= s.capacity
  {
    assert forall j :: 0 <= j < i ==> ids[..i][j] == ids[j];
    VictimsAddUp(s.models, ids[..i]);
  }

  lemma AccountsAreBounded(s: State)
    requires Accounted(s)
    ensures 0 <= s.used <= s.capacity
  {
  }

  class ResourceManager {
    const capacity: Bytes
    const policy: Policy
    var used: Bytes
    var reservations: map<string, Bytes>
    var modelReservations: map<string, Bytes>
    var pending: seq<PendingRequest>
    var nextSequence: nat

    ghost function State(): State
      reads this
    {
      Admission.State.State(capacity, policy, used, reservations, modelReservations, Requests(pending), nextSequence)
    }

    ghost predicate Valid()
      reads this, pending
    {
      Inv(State()) && NoneCompleted(pending)
    }

    constructor (capacity: Bytes, policy: Policy)
      requires capacity > 0
      ensures Valid() && State() == Admission.Initial(capacity, policy) && pending == []
    {
      this.capacity, this.policy := capacity, policy;
      used, reservations, modelReservations, pending, nextSequence := 0, map[], map[], [], 0;
    }

    /** Construction as callers see it: a zero capacity is refused. */
    static method Create(capacity: Bytes, policy: Policy) returns (manager: ResourceManager?)
      ensures manager == null <==> capacity == 0
      ensures manager != null ==>
        fresh(manager) && manager.Valid() && manager.State() == Admission.Initial(capacity, policy) && manager.pending == []
    {
      if capacity == 0 {
        return null;
      }
      manager := new ResourceManager(capacity, policy);
    }

    // -------------------------------------------------------- the grant round

    /** Take a request out of the queue and leave its result for its caller. */
    method Settle(index: nat, result: OperationResult)
      requires index < |pending|
      modifies this`pending, pending[index]
      ensures pending == RemoveAt(old(pending), index)
      ensures old(pending[index]).completed && old(pending[index]).result == result
    {
      pending[index].completed := true;
      pending[index].result := result;
      pending := pending[..index] + pending[index + 1..];
    }

    /** Where the expiry loop stands: the first k waiters seen, `kept` of them still queued. */
    ghost predicate Sweeping(all: seq<PendingRequest>, kept: seq<PendingRequest>, k: nat, now: Time)
      reads this, all
    {
      && k <= |all| && AllDistinct(all) && pending == kept + all[k..]
      && Requests(kept) == Live(Requests(all[..k]), now)
      && Expired(all, kept, k, now)
      && forall i :: k <= i < |all| ==> !all[i].completed
    }

    /** One turn of the expiry loop. */
    method ExpireNext(index: nat, now: Time, ghost all: seq<PendingRequest>, ghost kept: seq<PendingRequest>, ghost k: nat)
      returns (next: nat, ghost still: seq<PendingRequest>)
      requires k < |all| && index == |kept| && Sweeping(all, kept, k, now)
      modifies this`pending, all
      ensures next == |still| && Sweeping(all, still, k + 1, now)
    {
      var t := pending[index];
      assert t == all[k];
      next, still := index, kept;
      LiveStep(all, kept, k, now);
      if t.request.deadline != FOREVER && now >= t.request.deadline {
        DropNext(all, kept, k);
        Settle(index, OperationResult(TimedOut, 0));
      } else {
        KeepNext(all, kept, k);
        next := index + 1;
        still := kept + [t];
      }
    }

    /** The expiry loop. */
    method ExpireWaiters(now: Time)
      requires NoneCompleted(pending) && InSequence(Requests(pending))
      modifies this`pending, pending
      ensures Requests(pending) == Live(old(Requests(pending)), now)
      ensures Expired(old(pending), pending, |old(pending)|, now)
      ensures NoneCompleted(pending)
    {
      hide Live, ReplyTo;
      ghost var all, kept, k := pending, [], 0;
      DistinctWaiters(all);
      NothingLive(now);
      var index := 0;
      while index < |pending|
        invariant index == |kept| && Sweeping(all, kept, k, now)
        decreases |all| - k
      {
        index, kept := ExpireNext(index, now, all, kept, k);
        k := k + 1;
      }
      assert |all[k..]| == 0 && all[..k] == all;
      assert pending == kept;
      KeptAreOpen(all, kept, now);
    }

    /** The scan for the best fitting request. */
    method FindBest() returns (selected: nat)
      requires used <= capacity
      ensures selected == Scan(policy, Requests(pending), capacity - used, |pending|)
    {
      ghost var q := Requests(pending);
      selected := |pending|;
      for index := 0 to |pending|
        invariant selected == Scan(policy, q, capacity - used, index)
      {
        var candidate := pending[index].request;
        assert q[index] == candidate;
        if candidate.bytes > capacity - used {
          continue;
        }
        if selected == |pending| || Ahead(policy, candidate, pending[selected].request) {
          selected := index;
        }
      }
    }

    /** Of the waiters in `live`, those no longer queued have been granted. */
    ghost predicate GrantedSoFar(live: seq<PendingRequest>)
      reads this, live
    {
      && DistinctSequences(Requests(pending))
      && Among(pending, live) && NoneCompleted(pending)
      && (forall t :: t in live && t !in pending ==> t.completed && t.result == OperationResult(NoError, t.request.bytes))
    }

    method SettleGranted(selected: nat, ghost live: seq<PendingRequest>)
      requires selected < |pending| && GrantedSoFar(live)
      modifies this`pending, pending[selected]
      ensures GrantedSoFar(live)
      ensures Requests(pending) == RemoveAt(old(Requests(pending)), selected)
    {
      RemovedWaiters(pending, selected);
      RemovedStaysDistinct(Requests(pending), selected);
      Settle(selected, OperationResult(NoError, pending[selected].request.bytes));
    }

    /** Granting on from here ends in the given books and queue. */
    ghost predicate Granting(used': int, books': map<string, Bytes>, waiting: seq<Request>)
      reads this
    {
      used <= capacity && LeadsTo(policy, capacity - used, used, reservations, Requests(pending), used', books', waiting)
    }

    /** One turn of the grant loop: the selected request gets its reservation. */
    method GrantSelected(selected: nat, ghost live: seq<PendingRequest>,
                         ghost used': int, ghost books': map<string, Bytes>, ghost waiting: seq<Request>)
      requires selected < |pending| && GrantedSoFar(live) && Granting(used', books', waiting)
      requires selected == Scan(policy, Requests(pending), capacity - used, |pending|)
      modifies this`pending, this`used, this`reservations, pending[selected]
      ensures GrantedSoFar(live) && Granting(used', books', waiting) && |pending| == old(|pending|) - 1
    {
      hide LeadsTo;
      GrantTurn(policy, capacity - used, used, reservations, Requests(pending), used', books', waiting);
      var request := pending[selected].request;
      assert Requests(pending)[selected] == request;
      reservations := Emplace(reservations, request.name, request.bytes);
      used := used + request.bytes;
      SettleGranted(selected, live);
      assert |Requests(pending)| == |pending|;
    }

    /** The grant loop: the best fitting request, again and again, until none fits. */
    method GrantFitting(ghost all: seq<PendingRequest>,
                        ghost used': int, ghost books': map<string, Bytes>, ghost waiting: seq<Request>)
      requires NoneCompleted(pending) && DistinctSequences(Requests(pending)) && Granting(used', books', waiting)
      requires Among(pending, all)
      modifies this`pending, this`used, this`reservations, all
      ensures forall t :: t in all && t !in old(pending) ==> t.completed == old(t.completed) && t.result == old(t.result)
      ensures used == used' && reservations == books' && Requests(pending) == waiting
      ensures GrantedSoFar(old(pending))
    {
      hide LeadsTo;
      ghost var live := pending;
      while true
        invariant GrantedSoFar(live) && Granting(used', books', waiting) && Among(pending, all)
        invariant forall t :: t in all && t !in live ==> t.completed == old(t.completed) && t.result == old(t.result)
        decreases |pending|
      {
        var selected := FindBest();
        if selected == |pending| {
          break;
        }
        GrantSelected(selected, live, used', books', waiting);
      }
      assert |Requests(pending)| == |pending|;
      LeadsNowhere(policy, capacity - used, used, reservations, Requests(pending), used', books', waiting);
    }

    /** Expire what is due, then grant the best fitting request until none fits. */
    method GrantWaiters(now: Time)
      requires Accounted(State()) && NoneCompleted(pending)
      modifies this`pending, this`used, this`reservations, pending
      ensures Valid() && State() == GrantRound(old(State()), now).state
      ensures Informed(old(pending), State(), GrantRound(old(State()), now).log)
      ensures Among(pending, old(pending))
    {
      hide LeadsTo, GrantRound, Accounted, Inv;
      ghost var s, all, t := State(), pending, GrantRound(State(), now).state;
      RoundLeads(s, now);
      ExpireWaiters(now);
      ghost var live := pending;
      GrantFitting(all, t.used, t.reservations, t.pending);
      assert State() == t;
      InformedByRound(s, now, all, live, pending);
    }

    // ------------------------------------------------------------- operations

    /** The manager has taken exactly this step, and told its waiters so. */
    ghost predicate Performed(o: Outcome, waiters: seq<PendingRequest>)
      reads this, waiters, pending
    {
      Valid() && State() == o.state && Informed(waiters, o.state, o.log)
    }

    method TryAcquire(name: string, bytes: Bytes, now: Time) returns (r: OperationResult)
      requires Valid()
      modifies this`pending, this`used, this`reservations, pending
      ensures Performed(Admission.TryAcquire(old(State()), name, bytes, now), old(pending))
      ensures Some(r) == Admission.TryAcquire(old(State()), name, bytes, now).reply
      ensures Among(pending, old(pending))
    {
      hide GrantRound, Inv, Accounted;
      ghost var s, all := State(), pending;
      QueuedWaiters(pending, name);
      StandingInform(all, s);
      if !ValidName(name) {
        return OperationResult(InvalidName, 0);
      }
      if bytes == 0 {
        return OperationResult(InvalidSize, 0);
      }
      if name in reservations || exists i :: 0 <= i < |pending| && pending[i].request.name == name {
        return OperationResult(DuplicateClient, 0);
      }
      InvIsAccounted(s);
      if bytes > capacity - used {
        return OperationResult(InsufficientMemory, 0);
      }
      AdmitKeepsAccounts(s, name, bytes);
      InvIsAccounted(Admit(s, name, bytes));
      reservations := Emplace(reservations, name, bytes);
      used := used + bytes;
      assert State() == Admit(s, name, bytes);
      GrantWaiters(now);
      AdmissionInforms(all, State(), Admitted(name, bytes), GrantRound(Admit(s, name, bytes), now).log);
      r := OperationResult(NoError, bytes);
    }

    method Release(name: string, now: Time) returns (r: OperationResult)
      requires Valid()
      modifies this`pending, this`used, this`reservations, pending
      ensures Performed(Admission.Release(old(State()), name, now), old(pending))
      ensures Some(r) == Admission.Release(old(State()), name, now).reply
      ensures Among(pending, old(pending))
    {
      hide GrantRound, Inv, Accounted;
      ghost var s := State();
      StandingInform(pending, s);
      if !ValidName(name) {
        return OperationResult(InvalidName, 0);
      }
      if name !in reservations {
        return OperationResult(UnknownClient, 0);
      }
      ReleaseKeepsAccounts(s, name);
      AccountsAreBounded(Vacate(s, name));
      var bytes := reservations[name];
      reservations := reservations - {name};
      used := used - bytes;
      assert State() == Vacate(s, name);
      GrantWaiters(now);
      r := OperationResult(NoError, bytes);
    }

    method AcquireModel(id: string, bytes: Bytes) returns (r: OperationResult)
      requires Valid()
      modifies this`used, this`modelReservations
      ensures Performed(Admission.AcquireModel(old(State()), id, bytes), old(pending))
      ensures Some(r) == Admission.AcquireModel(old(State()), id, bytes).reply
    {
      hide Inv, Accounted;
      ghost var s := State();
      StandingInform(pending, s);
      if !ValidName(id) {
        return OperationResult(InvalidName, 0);
      }
      if bytes == 0 {
        return OperationResult(InvalidSize, 0);
      }
      if id in modelReservations {
        return OperationResult(DuplicateClient, 0);
      }
      InvIsAccounted(s);
      if bytes > capacity - used {
        return OperationResult(InsufficientMemory, 0);
      }
      AcquireModelKeepsInv(s, id, bytes);
      modelReservations := Emplace(modelReservations, id, bytes);
      used := used + bytes;
      assert State() == AdmitModel(s, id, bytes);
      StandingInform(pending, State());
      r := OperationResult(NoError, bytes);
    }

    method ReleaseModel(id: string, now: Time) returns (r: OperationResult)
      requires Valid()
      modifies this`pending, this`used, this`reservations, this`modelReservations, pending
      ensures Performed(Admission.ReleaseModel(old(State()), id, now), old(pending))
      ensures Some(r) == Admission.ReleaseModel(old(State()), id, now).reply
      ensures Among(pending, old(pending))
    {
      hide GrantRound, Inv, Accounted;
      ghost var s := State();
      StandingInform(pending, s);
      if !ValidName(id) {
        return OperationResult(InvalidName, 0);
      }
      if id !in modelReservations {
        return OperationResult(UnknownClient, 0);
      }
      ReleaseModelKeepsAccounts(s, id);
      AccountsAreBounded(VacateModel(s, id));
      var bytes := modelReservations[id];
      modelReservations := modelReservations - {id};
      used := used - bytes;
      assert State() == VacateModel(s, id);
      GrantWaiters(now);
      r := OperationResult(NoError, bytes);
    }

    /** The two checks that precede a replacement's arithmetic, and the victims' total. */
    method InspectVictims(evictions: seq<string>) returns (error: ErrorCode, evicted: Bytes)
      requires Valid()
      ensures error == DuplicateClient <==> Repeats(evictions)
      ensures error == UnknownClient <==>
        !Repeats(evictions) && exists i :: 0 <= i < |evictions| && evictions[i] !in modelReservations
      ensures error in {NoError, DuplicateClient, UnknownClient}
      ensures error == NoError ==> evicted == SumOf(modelReservations, evictions) <= used
    {
      hide Inv, Accounted;
      var unique: set<string> := {};
      for i := 0 to |evictions|
        invariant unique == Elements(evictions[..i])
        invariant !Repeats(evictions[..i])
      {
        PrefixElements(evictions, i);
        if evictions[i] in unique {
          return DuplicateClient, 0;
        }
        unique := unique + {evictions[i]};
      }
      assert evictions[..|evictions|] == evictions;
      evicted := 0;
      for i := 0 to |evictions|
        invariant forall j :: 0 <= j < i ==> evictions[j] in modelReservations
        invariant evicted == SumOf(modelReservations, evictions[..i])
      {
        if evictions[i] !in modelReservations {
          return UnknownClient, 0;
        }
        assert evictions[..i + 1][..i] == evictions[..i];
        VictimsFit(State(), evictions, i + 1);
        evicted := evicted + modelReservations[evictions[i]];
      }
      VictimsFit(State(), evictions, |evictions|);
      error := NoError;
    }

    /** The victims leave the ledger one by one. */
    method RemoveVictims(evictions: seq<string>)
      requires !Repeats(evictions) && forall i :: 0 <= i < |evictions| ==> evictions[i] in modelReservations
      requires SumOf(modelReservations, evictions) <= used
      modifies this`used, this`modelReservations
      ensures modelReservations == old(modelReservations) - Elements(evictions)
      ensures used == old(used) - SumOf(old(modelReservations), evictions)
    {
      ghost var m := modelReservations;
      assert m - Elements([]) == m;
      for i := 0 to |evictions|
        invariant modelReservations == m - Elements(evictions[..i])
        invariant used == old(used) - SumOf(m, evictions[..i])
      {
        PrefixElements(evictions, i);
        PrefixSum(m, evictions, i + 1);
        assert evictions[..i + 1][..i] == evictions[..i];
        assert evictions[i] !in Elements(evictions[..i]);
        used := used - modelReservations[evictions[i]];
        modelReservations := modelReservations - {evictions[i]};
      }
      assert evictions[..|evictions|] == evictions;
    }

    method ReplaceModelReservations(evictions: seq<string>, id: string, bytes: Bytes, now: Time) returns (r: OperationResult)
      requires Valid()
      modifies this`pending, this`used, this`reservations, this`modelReservations, pending
      ensures Performed(Replace(old(State()), evictions, id, bytes, now), old(pending))
      ensures Some(r) == Replace(old(State()), evictions, id, bytes, now).reply
      ensures Among(pending, old(pending))
    {
      hide GrantRound, Inv, Accounted;
      ghost var s := State();
      StandingInform(pending, s);
      if !ValidName(id) {
        return OperationResult(InvalidName, 0);
      }
      if bytes == 0 {
        return OperationResult(InvalidSize, 0);
      }
      if id in modelReservations {
        return OperationResult(DuplicateClient, 0);
      }
      var error, evicted := InspectVictims(evictions);
      if error != NoError {
        return OperationResult(error, 0);
      }
      InvIsAccounted(s);
      var free: Bytes := capacity - used;
      var available: Bytes := free + evicted;
      if bytes > available {
        return OperationResult(InsufficientMemory, 0);
      }
      ReplaceKeepsAccounts(s, evictions, id, bytes);
      AccountsAreBounded(Swap(s, evictions, id, bytes));
      RemoveVictims(evictions);
      modelReservations := Emplace(modelReservations, id, bytes);
      used := used + bytes;
      assert State() == Swap(s, evictions, id, bytes);
      GrantWaiters(now);
      r := OperationResult(NoError, bytes);
    }

    /** acquire up to its first sleep: the call either ends here or leaves a ticket in the queue. */
    method BeginAcquire(name: string, bytes: Bytes, options: AcquireOptions, now: Time, again: Time)
      returns (reply: Option<OperationResult>, ticket: PendingRequest?)
      requires Valid()
      modifies this`pending, this`used, this`reservations, this`nextSequence, pending
      ensures Performed(Admission.Acquire(old(State()), name, bytes, options, now, again), old(pending))
      ensures reply == Admission.Acquire(old(State()), name, bytes, options, now, again).reply
      ensures reply == None ==> ticket != null && fresh(ticket) && ticket in pending && !ticket.completed
      ensures forall t :: t in pending ==> t in old(pending) || t == ticket
    {
      hide GrantRound, Inv, Accounted, Admission.TryAcquire, Enqueue;
      ghost var s, all := State(), pending;
      ticket := null;
      QueuedWaiters(pending, name);
      StandingInform(all, s);
      if !ValidName(name) {
        return Some(OperationResult(InvalidName, 0)), null;
      }
      if bytes == 0 {
        return Some(OperationResult(InvalidSize, 0)), null;
      }
      if options.timeout < 0 {
        return Some(OperationResult(InvalidTimeout, 0)), null;
      }
      if bytes > capacity {
        return Some(OperationResult(InsufficientMemory, 0)), null;
      }
      if options.timeout == 0 {
        var r := TryAcquire(name, bytes, now);
        return Some(r), null;
      }
      if name in reservations || exists i :: 0 <= i < |pending| && pending[i].request.name == name {
        return Some(OperationResult(DuplicateClient, 0)), null;
      }
      InvIsAccounted(s);
      if pending == [] && bytes <= capacity - used {
        AdmitKeepsAccounts(s, name, bytes);
        reservations := Emplace(reservations, name, bytes);
        used := used + bytes;
        assert State() == Admit(s, name, bytes);
        StandingInform(all, State());
        return Some(OperationResult(NoError, bytes)), null;
      }
      if options.cost < 0 {
        return Some(OperationResult(InvalidTimeout, 0)), null;
      }
      var deadline := FOREVER;
      if options.timeout != NO_TIMEOUT {
        var maximum := (FOREVER - now) / 1_000_000;
        if options.timeout <= maximum {
          deadline := now + options.timeout * 1_000_000;
        }
      }
      var request := Request(name, bytes, options.priority, options.cost, nextSequence, deadline);
      ArrivalKeepsAccounts(s, request);
      reply, ticket := JoinQueue(request, now, again);
    }

    /** Push the request, run a round, and run another before the first sleep if still queued. */
    method JoinQueue(request: Request, now: Time, again: Time)
      returns (reply: Option<OperationResult>, ticket: PendingRequest)
      requires Valid() && Accounted(Arrive(State(), request)) && request.sequence == nextSequence
      modifies this`pending, this`used, this`reservations, this`nextSequence, pending
      ensures Performed(Enqueue(old(State()), request, now, again), old(pending))
      ensures reply == Enqueue(old(State()), request, now, again).reply
      ensures reply == None ==> fresh(ticket) && ticket in pending && !ticket.completed
      ensures forall t :: t in pending ==> t in old(pending) || t == ticket
    {
      hide GrantRound, Inv, Accounted;
      ghost var s, all := State(), pending;
      ghost var first := GrantRound(Arrive(s, request), now);
      ticket := new PendingRequest(request);
      nextSequence := nextSequence + 1;
      pending := pending + [ticket];
      assert Requests(pending) == Requests(all) + [request];
      assert State() == Arrive(s, request);
      GrantWaiters(now);
      InformedPrefix(all, ticket, first.state, first.log);
      StillAmong(pending, all, ticket);
      if ticket.completed {
        return Some(ticket.result), ticket;
      }
      reply := WaitOnce(ticket, again, Arrive(s, request), now, all);
    }

    /** The second round, seen as the continuation of the first one. */
    method WaitOnce(ticket: PendingRequest, again: Time, ghost s: State, ghost now: Time, ghost all: seq<PendingRequest>)
      returns (reply: Option<OperationResult>)
      requires Accounted(s) && Requests(all + [ticket]) == s.pending
      requires Valid() && State() == GrantRound(s, now).state
      requires Informed(all + [ticket], State(), GrantRound(s, now).log)
      requires Among(pending, all + [ticket])
      modifies this`pending, this`used, this`reservations, all, ticket
      ensures Valid() && State() == GrantRound(GrantRound(s, now).state, again).state
      ensures var log := GrantRound(s, now).log + GrantRound(GrantRound(s, now).state, again).log;
        && Informed(all, State(), log)
        && reply == (if ticket.request in State().pending then None else Some(ReplyTo(ticket.request, log)))
      ensures reply == None ==> !ticket.completed && ticket in pending
      ensures Among(pending, old(pending))
    {
      hide GrantRound, Inv, Accounted;
      ghost var first, waiters, middle := GrantRound(s, now), all + [ticket], pending;
      ghost var second := GrantRound(first.state, again);
      ghost var log := first.log + second.log;
      ArrivalOrder(s);
      SettledOutside(waiters, middle, s, now);
      InvIsAccounted(first.state);
      AmongOneMore(middle, all, ticket);
      GrantWaiters(again);
      BothRoundsInform(s, now, again, waiters, middle);
      InformedPrefix(all, ticket, State(), log);
      if ticket.completed {
        reply := Some(ticket.result);
      } else {
        reply := None;
        StillQueued(waiters, pending, ticket);
      }
    }

    /** acquire from one wake-up to the next sleep or to its end. */
    method Resume(ticket: PendingRequest, timedOut: bool, now: Time) returns (reply: Option<OperationResult>)
      requires Valid()
      requires ticket !in pending ==> ticket.completed
      requires timedOut ==> Due(ticket.request, now)
      modifies this`pending, this`used, this`reservations, pending
      ensures var s, r := old(State()), ticket.request;
        if old(ticket !in pending) then Performed(Outcome(s, None, []), old(pending)) && reply == Some(old(ticket.result))
        else if timedOut then
          Performed(GiveUp(s, r, now), old(pending)) && reply == GiveUp(s, r, now).reply == Some(OperationResult(TimedOut, 0))
        else
          && Performed(Recheck(s, r, now), old(pending))
          && reply == (if r in State().pending then None else Some(ReplyTo(r, Recheck(s, r, now).log)))
    {
      hide GrantRound, Inv, Accounted;
      ghost var s, all, r := State(), pending, ticket.request;
      StandingInform(all, s);
      if ticket in pending {
        ghost var k :| 0 <= k < |pending| && pending[k] == ticket;
        assert Requests(pending)[k] == r;
        InvIsAccounted(s);
        ArrivalOrder(s);
      }
      if timedOut && !ticket.completed {
        var index := 0;
        while pending[index] != ticket
          invariant 0 <= index < |pending| && ticket !in pending[..index]
          invariant ticket in pending
          decreases |pending| - index
        {
          index := index + 1;
        }
        assert Requests(pending)[index] == r;
        LeaveQueue(pending, index);
        GiveUpKeepsInv(s, r);
        Settle(index, OperationResult(TimedOut, 0));
        assert State() == GiveUp(s, r, now).state;
        LapseInforms(all, index, s, now);
      }
      if !ticket.completed {
        GrantWaiters(now);
      }
      if ticket.completed {
        reply := Some(ticket.result);
      } else {
        reply := None;
      }
    }

    /** Shutting down: every waiter is told it timed out. */
    method CancelWaiters()
      requires Valid()
      modifies this`pending, pending
      ensures Performed(Cancel(old(State())), old(pending))
    {
      hide Inv, Accounted;
      ghost var s, all := State(), pending;
      for i := 0 to |pending|
        invariant pending == all
        invariant forall j :: 0 <= j < i ==> all[j].completed && all[j].result == OperationResult(TimedOut, 0)
      {
        pending[i].completed := true;
        pending[i].result := OperationResult(TimedOut, 0);
      }
      pending := [];
      CancelKeepsInv(s);
      assert State() == Cancel(s).state;
      forall i | 0 <= i < |all| ensures ReplyTo(all[i].request, Cancel(s).log) == OperationResult(TimedOut, 0) {
      }
    }

    /** What a status request shows: the totals, and all reservations by name. */
    method Status() returns (snapshot: Snapshots.StatusSnapshot)
      requires Valid()
      ensures Snapshots.Shows(State(), snapshot)
      ensures snapshot.capacity == State().capacity && snapshot.free == State().Free()
    {
      InvIsAccounted(State());
      var rows := Snapshots.ListAll(reservations, modelReservations);
      snapshot := Snapshots.StatusSnapshot(capacity, used, capacity - used, rows);
    }
  }
}
