/** The residency manager itself.  Each method is one uninterrupted stretch of a call, proved to be
    one act of the residency state machine; between the stretches of a load other callers may run. */
module ResidencyManagement {
  import opened Common
  import opened Sorting
  import Scheduler
  import Admission
  import ResourceManagement
  import Snapshots
  import opened ModelStores
  import opened Residency
  import opened ResidencyLaws
  import opened Eviction
  import ResidencyOutcomes

  // ---------------------------------------------------------------- rankings

  function Ids(records: seq<Record>): (ids: seq<string>)
    ensures |ids| == |records|
  {
    seq(|records|, i requires 0 <= i < |records| => records[i].id)
  }

  ghost predicate SelfNamed(records: map<string, Record>) {
    forall id :: id in records ==> records[id].id == id
  }

  /** The candidates gathered from the records named in `seen`. */
  ghost predicate Gathered(records: map<string, Record>, seen: set<string>, candidates: seq<Record>) {
    && Distinct(candidates)
    && (forall c :: c in candidates ==> c.id in seen && Evictable(records, c.id) && c == records[c.id])
    && (forall id :: id in seen && Evictable(records, id) ==> records[id] in candidates)
  }

  /** Sorting all candidates by score gives a ranking. */
  lemma SortedIsRanking(round: Rounding, records: map<string, Record>, candidates: seq<Record>, sorted: seq<Record>)
    requires SelfNamed(records) && Gathered(records, records.Keys, candidates)
    requires multiset(sorted) == multiset(candidates) && SortedBy(ScoreLess(round), sorted)
    ensures Ranking(round, records, Ids(sorted)) && Candidates(records, Ids(sorted))
    ensures forall i :: 0 <= i < |sorted| ==> Ids(sorted)[i] in records && sorted[i] == records[Ids(sorted)[i]]
  {
    hide Score;
    var order := Ids(sorted);
    PermutedIsDistinct(candidates, sorted);
    forall i | 0 <= i < |sorted| ensures Evictable(records, order[i]) && sorted[i] == records[order[i]] {
      assert sorted[i] in multiset(candidates);
      assert sorted[i] in candidates;
    }
    assert !Admission.Repeats(order) by {
      forall i, j | 0 <= i < j < |order| ensures order[i] != order[j] {
        assert sorted[i] == records[order[i]] && sorted[j] == records[order[j]];
      }
    }
    forall id | Evictable(records, id) ensures id in order {
      assert records[id] in multiset(sorted);
      var i :| 0 <= i < |sorted| && sorted[i] == records[id];
      assert order[i] == id;
    }
  }

  lemma NothingGathered(records: map<string, Record>)
    ensures Gathered(records, records.Keys - records.Keys, [])
  {
  }

  /** One turn of the gathering loop. */
  lemma SeenOneMore(records: map<string, Record>, todo: set<string>, s: seq<Record>, k: nat, id: string)
    requires SelfNamed(records) && id in todo && todo <= records.Keys && Gathered(records, records.Keys - todo, s) && k <= |s|
    ensures Gathered(records, records.Keys - (todo - {id}), if Evictable(records, id) then Inserted(s, k, records[id]) else s)
  {
    assert records.Keys - (todo - {id}) == records.Keys - todo + {id};
    if Evictable(records, id) {
      InsertedGathers(records, records.Keys - todo, s, k, id);
    }
  }

  /** A ranking always exists, so planning is never blocked. */
  lemma RankingExists(round: Rounding, records: map<string, Record>) returns (order: seq<string>)
    requires SelfNamed(records)
    ensures Ranking(round, records, order) && Candidates(records, order)
  {
    hide Score, Gathered;
    ScoreIsAnOrder(round);
    var less := ScoreLess(round);
    NothingGathered(records);
    var todo, sorted: seq<Record> := records.Keys, [];
    while todo != {}
      invariant todo <= records.Keys
      invariant Gathered(records, records.Keys - todo, sorted) && SortedBy(less, sorted)
      decreases |todo|
    {
      var id :| id in todo;
      if !Evictable(records, id) {
        SeenOneMore(records, todo, sorted, 0, id);
      } else {
        var r, k := records[id], |sorted|;
        while k > 0 && less(r, sorted[k - 1])
          invariant 0 <= k <= |sorted| && forall j :: k <= j < |sorted| ==> less(r, sorted[j])
        {
          k := k - 1;
        }
        InsertedIsSorted(less, sorted, k, r);
        SeenOneMore(records, todo, sorted, k, id);
        sorted := Inserted(sorted, k, r);
      }
      todo := todo - {id};
    }
    assert records.Keys - {} == records.Keys;
    SortedIsRanking(round, records, sorted, sorted);
    order := Ids(sorted);
  }

  lemma InsertedGathers(records: map<string, Record>, seen: set<string>, s: seq<Record>, k: nat, id: string)
    requires SelfNamed(records) && Gathered(records, seen, s) && k <= |s| && id !in seen && Evictable(records, id)
    ensures Gathered(records, seen + {id}, Inserted(s, k, records[id]))
  {
    var t, r := Inserted(s, k, records[id]), records[id];
    forall x ensures x in t <==> x in s || x == r {
      InsertedMember(s, k, r, x);
    }
    InsertedIsDistinct(s, k, r);
  }

  /** The loop that takes ranked candidates until there is room. */
  method TakeVictims(sorted: seq<Record>, free: Bytes, need: Bytes, ghost m: map<string, Bytes>)
    returns (count: nat, available: Bytes)
    requires forall i :: 0 <= i < |sorted| ==> Ids(sorted)[i] in m && m[Ids(sorted)[i]] == sorted[i].footprint
    requires free + Admission.SumOf(m, Ids(sorted)) <= MAX_BYTES
    ensures count == Needed(m, Ids(sorted), free, need, 0)
    ensures available == free + Admission.SumOf(m, Ids(sorted)[..count])
  {
    hide Needed, Admission.SumOf;
    ghost var order := Ids(sorted);
    NothingTaken(m, order);
    count, available := 0, free;
    while available < need && count < |sorted|
      invariant count <= |sorted|
      invariant available == free + Admission.SumOf(m, order[..count])
      invariant Needed(m, order, free, need, 0) == Needed(m, order, available, need, count)
      decreases |sorted| - count
    {
      SumStep(m, order, count);
      NoPrefixSumsMore(m, order, count + 1);
      NeededStep(m, order, available, need, count);
      available := available + sorted[count].footprint;
      count := count + 1;
    }
    NeededStep(m, order, available, need, count);
  }

  lemma NothingTaken(m: map<string, Bytes>, order: seq<string>)
    ensures Admission.SumOf(m, order[..0]) == 0
  {
  }

  lemma NeededStep(m: map<string, Bytes>, order: seq<string>, available: int, need: int, k: nat)
    requires k <= |order| && forall i :: 0 <= i < |order| ==> order[i] in m
    ensures Needed(m, order, available, need, k) ==
      if available >= need || k == |order| then k else Needed(m, order, available + m[order[k]], need, k + 1)
  {
  }

  lemma RecordsAreSelfNamed(w: World)
    requires Inv(w)
    ensures SelfNamed(w.records)
  {
  }

  lemma ResidentsHold(records: map<string, Record>, sorted: seq<Record>)
    requires Candidates(records, Ids(sorted))
    requires forall i :: 0 <= i < |sorted| ==> Ids(sorted)[i] in records && sorted[i] == records[Ids(sorted)[i]]
    ensures forall i :: 0 <= i < |sorted| ==>
      Ids(sorted)[i] in Residents(records) && Residents(records)[Ids(sorted)[i]] == sorted[i].footprint
  {
    RankedAreResident(records, Ids(sorted));
  }

  lemma ReplaceReplies(s: Admission.State, victims: seq<string>, id: string, bytes: Bytes, now: Scheduler.Time)
    ensures var reply := Admission.Replace(s, victims, id, bytes, now).reply;
      && reply.Some?
      && (reply.value.error == Admission.NoError <==> reply == Some(Admission.OperationResult(Admission.NoError, bytes)))
  {
    hide Admission.GrantRound;
  }

  lemma LookupPhases(w: World, id: string)
    requires w.phase.Idle?
    ensures var t := DoLookup(w, id); if t.reply == None then t.world.phase.Looked? else t.world.phase.Idle?
    ensures DoLookup(w, id).world.records == w.records
  {
  }

  lemma PlanPhases(w: World, order: seq<string>)
    requires w.phase.Looked? && Candidates(w.records, order)
    ensures forall i :: 0 <= i < |order| ==> Evictable(w.records, order[i])
    ensures var t := DoPlan(w, order); if t.reply == None then t.world.phase.Planned? else t.world.phase.Idle?
  {
    RankedAreEvictable(w.records, order);
    PlanReplies(w, order);
  }

  /** No candidates are needed where nothing helps or nothing is needed. */
  lemma PlanWithoutEviction(w: World, order: seq<string>)
    requires w.phase.Looked? && Candidates(w.records, order)
    requires w.phase.model.footprint > w.resources.capacity || w.resources.Free() >= w.phase.model.footprint
    ensures DoPlan(w, order) ==
      if w.phase.model.footprint > w.resources.capacity then Fail(w.(phase := Idle), InsufficientMemory)
      else Step(w.(phase := Planned(w.phase.model, [])), None)
  {
    hide Residents, DoPlan;
    PlanCases(w, order);
  }

  lemma BackendPhases(w: World, file: FileOutcome, accepts: bool, cost: nat)
    requires w.phase.Planned?
    ensures var t := DoBackend(w, file, accepts, cost); if t.reply == None then t.world.phase.Loaded? else t.world.phase.Idle?
  {
  }

  lemma UnloadPhases(w: World, id: string, now: Scheduler.Time)
    requires w.phase.Idle?
    ensures var t := DoUnloadStart(w, id);
      if t.reply == None then
        && t.world.phase.Unloading? && t.world.phase.id in t.world.records
        && DoUnloadFinish(t.world, now).world.phase.Idle?
      else t.world.phase.Idle?
  {
    hide Admission.ReleaseModel;
  }

  lemma ReplacePhases(w: World, now: Scheduler.Time)
    requires w.phase.Loaded?
    ensures var t := DoReplace(w, now); if t.reply == None then t.world.phase.Swapped? else t.world.phase.Idle?
  {
    hide Admission.Replace;
  }

  lemma VictimsAreNamed(w: World)
    requires Inv(w) && w.phase.Swapped?
    ensures forall i :: 0 <= i < |w.phase.victims| ==>
      w.phase.victims[i] in w.records && ValidName(w.phase.victims[i]) && w.phase.victims[i] in w.backend
    ensures !Admission.Repeats(w.phase.victims)
  {
    forall i | 0 <= i < |w.phase.victims|
      ensures w.phase.victims[i] in w.records && ValidName(w.phase.victims[i]) && w.phase.victims[i] in w.backend
    {
      assert Evictable(w.records, w.phase.victims[i]);
    }
  }

  lemma EvictNone(records: map<string, Record>)
    ensures forall ids: seq<string> :: ids == [] ==> Evicted(records, ids) == records
  {
  }

  lemma EvictOneMore(records: map<string, Record>, victims: seq<string>, i: nat)
    requires i < |victims| && victims[i] in records
    ensures victims[i] in Evicted(records, victims[..i])
    ensures var m := Evicted(records, victims[..i]);
      Evicted(records, victims[..i + 1]) == m[victims[i] := m[victims[i]].(resident := false)]
  {
    assert victims[..i + 1] == victims[..i] + [victims[i]];
  }

  // -------------------------------------------------------------- the class

  class ModelResidencyManager {
    const registry: ModelRegistry
    const resources: ResourceManagement.ResourceManager
    const backend: MockBackend
    /** The arithmetic of the machine. */
    const round: Rounding
    var records: map<string, Record>
    var nextLoaded: nat
    /** The local variables of the call that holds the mutex. */
    var phase: Phase

    ghost function State(): World
      reads this, registry, resources, backend
    {
      World(registry.State(), resources.State(), backend.allocations, records, nextLoaded, phase)
    }

    ghost predicate Valid()
      reads this, registry, resources, resources.pending, backend
    {
      resources.Valid() && Inv(State())
    }

    constructor (registry: ModelRegistry, resources: ResourceManagement.ResourceManager, backend: MockBackend,
                 round: Rounding)
      requires resources.Valid() && resources.modelReservations == map[]
      requires registry.State() == Registry(map[], 0) && backend.allocations == map[]
      ensures Valid() && State() == Residency.Initial(resources.State())
      ensures this.registry == registry && this.resources == resources && this.backend == backend && this.round == round
    {
      this.registry, this.resources, this.backend, this.round := registry, resources, backend, round;
      records, nextLoaded, phase := map[], 0, Idle;
      new;
      InitialInv(resources.State());
    }

    // ------------------------------------------------------------------ load

    method Lookup(id: string) returns (reply: Option<ModelResult>)
      requires Valid() && phase.Idle?
      modifies this`phase
      ensures Valid() && Residency.Step(State(), reply) == DoLookup(old(State()), id)
    {
      hide Inv;
      LookupKeepsInv(State(), id);
      if id !in registry.models {
        return Some(Failed(UnknownModel));
      }
      if id in records && records[id].resident {
        return Some(ModelResult(NoError, records[id].footprint));
      }
      phase := Looked(registry.models[id]);
      reply := None;
    }

    /** The loop over the records that collects the resident, unreferenced ones. */
    method GatherCandidates() returns (candidates: seq<Record>)
      requires SelfNamed(records)
      ensures Gathered(records, records.Keys, candidates)
    {
      hide Gathered;
      NothingGathered(records);
      candidates := [];
      var todo := records.Keys;
      while todo != {}
        invariant todo <= records.Keys && Gathered(records, records.Keys - todo, candidates)
        decreases |todo|
      {
        var id :| id in todo;
        SeenOneMore(records, todo, candidates, |candidates|, id);
        assert Inserted(candidates, |candidates|, records[id]) == candidates + [records[id]];
        if records[id].resident && records[id].refCount == 0 {
          candidates := candidates + [records[id]];
        }
        todo := todo - {id};
      }
      assert records.Keys - {} == records.Keys;
    }

    /** Plan against one status snapshot: who must go for the model to fit. */
    method Plan() returns (reply: Option<ModelResult>, ghost order: seq<string>)
      requires Valid() && phase.Looked?
      modifies this`phase
      ensures Ranking(round, records, order) && Candidates(records, order)
      ensures Valid() && Residency.Step(State(), reply) == DoPlan(old(State()), order)
    {
      hide Inv, Ranking, Candidates, DoPlan, ResourceManagement.ResourceManager.Valid, Snapshots.Shows;
      var status := resources.Status();
      reply, order := PlanAgainst(status.capacity, status.free);
    }

    method PlanAgainst(capacity: Bytes, free: Bytes) returns (reply: Option<ModelResult>, ghost order: seq<string>)
      requires Valid() && phase.Looked?
      requires capacity == State().resources.capacity && free == State().resources.Free()
      modifies this`phase
      ensures Ranking(round, records, order) && Candidates(records, order)
      ensures Valid() && Residency.Step(State(), reply) == DoPlan(old(State()), order)
    {
      RecordsAreSelfNamed(State());
      hide Inv, Score, Ranking, Candidates, Residents, DoPlan, ResourceManagement.ResourceManager.Valid;
      ghost var w := State();
      var need := phase.model.footprint;
      if need <= capacity && free < need {
        reply, order := PlanEviction(need, free);
        return;
      }
      order := RankingExists(round, records);
      PlanWithoutEviction(w, order);
      PlanKeepsInv(w, order);
      if need > capacity {
        phase := Idle;
        reply := Some(Failed(InsufficientMemory));
      } else {
        phase := Planned(phase.model, []);
        reply := None;
      }
    }

    method RankCandidates() returns (sorted: seq<Record>)
      requires SelfNamed(records)
      ensures Ranking(round, records, Ids(sorted)) && Candidates(records, Ids(sorted))
      ensures forall i :: 0 <= i < |sorted| ==>
        Ids(sorted)[i] in Residents(records) && Residents(records)[Ids(sorted)[i]] == sorted[i].footprint
    {
      hide Score, Ranking, Candidates, Residents, Gathered;
      ScoreIsAnOrder(round);
      var candidates := GatherCandidates();
      sorted := Sort(candidates, ScoreLess(round));
      SortedIsRanking(round, records, candidates, sorted);
      ResidentsHold(records, sorted);
    }

    method PlanEviction(need: Bytes, free: Bytes) returns (reply: Option<ModelResult>, ghost order: seq<string>)
      requires Valid() && phase.Looked? && SelfNamed(records)
      requires need == phase.model.footprint && free == State().resources.Free() < need <= resources.capacity
      modifies this`phase
      ensures Ranking(round, records, order) && Candidates(records, order)
      ensures Valid() && Residency.Step(State(), reply) == DoPlan(old(State()), order)
    {
      hide Inv, Score, Ranking, Candidates, Residents, DoPlan, ResourceManagement.ResourceManager.Valid;
      ghost var w := State();
      var sorted := RankCandidates();
      order := Ids(sorted);
      PlanCases(w, order);
      PlanKeepsInv(w, order);
      AvailableNeverExceedsCapacity(w, order, |order|);
      assert order[..|order|] == order;
      var count, available := TakeVictims(sorted, free, need, Residents(records));
      if available < need {
        phase := Idle;
        reply := Some(Failed(InsufficientMemory));
      } else {
        phase := Planned(phase.model, Ids(sorted)[..count]);
        reply := None;
      }
    }

    /** Read the source, if there is one, and put the model on the device, which may refuse it for
        reasons of its own. */
    method LoadOntoDevice(file: FileOutcome, accepts: bool, cost: nat) returns (reply: Option<ModelResult>)
      requires Valid() && phase.Planned?
      modifies this`phase, backend
      ensures Valid() && Residency.Step(State(), reply) == DoBackend(old(State()), file, accepts, cost)
    {
      hide Inv, ResourceManagement.ResourceManager.Valid;
      BackendKeepsInv(State(), file, accepts, cost);
      var model := phase.model;
      if model.sourcePath != "" && file != FileOk {
        phase := Idle;
        return Some(Failed(if file == FileGone then FileUnavailable else if file == FileChanged then SourceChanged
                           else ReadFailure));
      }
      if !accepts {
        phase := Idle;
        return Some(Failed(BackendFailure));
      }
      var loaded := backend.LoadModel(model.id, model.footprint);
      if loaded != BackendOk {
        phase := Idle;
        return Some(Failed(BackendFailure));
      }
      phase := Loaded(model, phase.victims, if cost < 1 then 1 else cost);
      reply := None;
    }

    /** Swap the reservations, or take the model off the device again. */
    method SwapReservations(now: Scheduler.Time) returns (reply: Option<ModelResult>)
      requires Valid() && phase.Loaded?
      modifies this`phase, backend, resources, resources.pending
      ensures Valid() && Residency.Step(State(), reply) == DoReplace(old(State()), now)
    {
      hide Inv, Admission.Replace, Admission.Inv;
      ReplaceKeepsInv(State(), now);
      var model := phase.model;
      var acquired := resources.ReplaceModelReservations(phase.victims, model.id, model.footprint, now);
      ReplaceReplies(old(resources.State()), phase.victims, model.id, model.footprint, now);
      if acquired.error != Admission.NoError {
        var _ := backend.UnloadModel(model.id);
        phase := Idle;
        return Some(Failed(InsufficientMemory));
      }
      phase := Swapped(model, phase.victims, phase.cost);
      reply := None;
    }

    /** The loop that unloads the victims and marks their records. */
    method DropVictims(victims: seq<string>)
      requires !Admission.Repeats(victims)
      requires forall i :: 0 <= i < |victims| ==>
        victims[i] in records && ValidName(victims[i]) && victims[i] in backend.allocations
      modifies this`records, backend
      ensures backend.allocations == old(backend.allocations) - Admission.Elements(victims)
      ensures records == Evicted(old(records), victims)
    {
      ghost var device, before := backend.allocations, records;
      EvictNone(records);
      assert device - Admission.Elements(victims[..0]) == device;
      for i := 0 to |victims|
        invariant backend.allocations == device - Admission.Elements(victims[..i])
        invariant records == Evicted(before, victims[..i])
      {
        EvictOneMore(before, victims, i);
        ResourceManagement.PrefixElements(victims, i);
        var _ := backend.UnloadModel(victims[i]);
        assert backend.allocations == device - Admission.Elements(victims[..i]) - {victims[i]};
        records := records[victims[i] := records[victims[i]].(resident := false)];
      }
      assert victims[..|victims|] == victims;
    }

    /** Drop the victims and record the new resident. */
    method FinishLoad() returns (r: ModelResult)
      requires Valid() && phase.Swapped?
      modifies this`phase, this`records, this`nextLoaded, backend
      ensures Valid() && Residency.Step(State(), Some(r)) == DoFinalize(old(State()))
    {
      hide Inv, ResourceManagement.ResourceManager.Valid, Evicted, ValidName, Admission.Repeats;
      VictimsAreNamed(State());
      FinalizeKeepsInv(State());
      r := ModelResult(NoError, phase.model.footprint);
      DropVictims(phase.victims);
      RecordLoad(phase.model, phase.cost);
    }

    method RecordLoad(model: Model, cost: nat)
      modifies this`phase, this`records, this`nextLoaded
      ensures phase == Idle && nextLoaded == old(nextLoaded) + 1
      ensures records == old(records)[model.id := Record(model.id, model.footprint, model.refCount, true, nextLoaded,
        (if model.id in old(records) then old(records)[model.id].loadCount else 0) + 1, cost)]
    {
      nextLoaded := nextLoaded + 1;
      var loads := if model.id in records then records[model.id].loadCount else 0;
      records := records[model.id := Record(model.id, model.footprint, model.refCount, true, nextLoaded, loads + 1, cost)];
      phase := Idle;
    }

    /** load with nobody stepping in between. */
    method Load(id: string, file: FileOutcome, accepts: bool, cost: nat, now: Scheduler.Time)
      returns (r: ModelResult, ghost order: seq<string>)
      requires Valid() && phase.Idle?
      modifies this, backend, resources, resources.pending
      ensures Ranking(round, old(records), order) && Candidates(old(records), order)
      ensures Valid() && phase.Idle?
      ensures Residency.Step(State(), Some(r)) == LoadAlone(old(State()), id, order, file, accepts, cost, now)
    {
      RecordsAreSelfNamed(State());
      hide Inv, Ranking, Candidates, DoLookup, DoPlan, DoBackend, DoReplace, DoFinalize, Evictable,
        ResourceManagement.ResourceManager.Valid;
      order := RankingExists(round, records);
      RankedAreEvictable(records, order);
      LookupPhases(State(), id);
      var reply := Lookup(id);
      if reply.Some? {
        return reply.value, order;
      }
      ghost var w := State();
      reply, order := Plan();
      PlanPhases(w, order);
      if reply.Some? {
        return reply.value, order;
      }
      r := CompleteLoad(file, accepts, cost, now);
    }

    /** The phases of load after planning. */
    method CompleteLoad(file: FileOutcome, accepts: bool, cost: nat, now: Scheduler.Time) returns (r: ModelResult)
      requires Valid() && phase.Planned?
      modifies this, backend, resources, resources.pending
      ensures Valid() && phase.Idle?
      ensures Residency.Step(State(), Some(r)) == Completion(old(State()), file, accepts, cost, now)
    {
      hide Inv, DoBackend, DoReplace, DoFinalize, ResourceManagement.ResourceManager.Valid;
      BackendPhases(State(), file, accepts, cost);
      var reply := LoadOntoDevice(file, accepts, cost);
      if reply.Some? {
        return reply.value;
      }
      ReplacePhases(State(), now);
      reply := SwapReservations(now);
      if reply.Some? {
        return reply.value;
      }
      FinalizeSettles(State());
      r := FinishLoad();
    }

    // ------------------------------------------------- unload and the counts

    method BeginUnload(id: string) returns (reply: Option<ModelResult>)
      requires Valid() && phase.Idle?
      modifies this`phase, backend
      ensures Valid() && Residency.Step(State(), reply) == DoUnloadStart(old(State()), id)
    {
      hide Inv, ResourceManagement.ResourceManager.Valid;
      UnloadStartKeepsInv(State(), id);
      if id !in registry.models {
        return Some(Failed(UnknownModel));
      }
      if id !in records || !records[id].resident {
        return Some(Failed(UnknownResidency));
      }
      if records[id].refCount != 0 {
        return Some(Failed(ModelInUse));
      }
      var unloaded := backend.UnloadModel(id);
      if unloaded != BackendOk {
        return Some(Failed(BackendFailure));
      }
      phase := Unloading(id);
      reply := None;
    }

    method FinishUnload(now: Scheduler.Time) returns (r: ModelResult)
      requires Valid() && phase.Unloading? && phase.id in records
      modifies this`phase, this`records, backend, resources, resources.pending
      ensures Valid() && Residency.Step(State(), Some(r)) == DoUnloadFinish(old(State()), now)
    {
      hide Inv, Admission.ReleaseModel, Admission.Inv;
      UnloadFinishKeepsInv(State(), now);
      var id := phase.id;
      var released := resources.ReleaseModel(id, now);
      if released.error != Admission.NoError {
        var _ := backend.LoadModel(id, records[id].footprint);
        phase := Idle;
        return Failed(UnknownResidency);
      }
      r := ModelResult(NoError, records[id].footprint);
      records := records[id := records[id].(resident := false)];
      phase := Idle;
    }

    /** unload with nobody stepping in between. */
    method Unload(id: string, now: Scheduler.Time) returns (r: ModelResult)
      requires Valid() && phase.Idle?
      modifies this`phase, this`records, backend, resources, resources.pending
      ensures Valid() && phase.Idle?
      ensures Residency.Step(State(), Some(r)) == ResidencyOutcomes.UnloadAlone(old(State()), id, now)
    {
      hide Inv, ResourceManagement.ResourceManager.Valid, DoUnloadFinish;
      UnloadPhases(State(), id, now);
      var reply := BeginUnload(id);
      if reply.Some? {
        return reply.value;
      }
      r := FinishUnload(now);
    }

    method Retain(id: string) returns (r: ModelResult)
      requires Valid() && phase.Idle?
      modifies this`records, registry
      ensures Valid() && Residency.Step(State(), Some(r)) == DoRetain(old(State()), id)
    {
      hide Inv, ResourceManagement.ResourceManager.Valid;
      RetainKeepsInv(State(), id);
      if id !in registry.models {
        return Failed(UnknownModel);
      }
      var footprint := registry.models[id].footprint;
      r := registry.RetainModel(id);
      Recount(id, footprint, r);
    }

    method ReleaseModel(id: string) returns (r: ModelResult)
      requires Valid() && phase.Idle?
      modifies this`records, registry
      ensures Valid() && Residency.Step(State(), Some(r)) == DoRelease(old(State()), id)
    {
      hide Inv, ResourceManagement.ResourceManager.Valid;
      ReleaseKeepsInv(State(), id);
      if id !in registry.models {
        return Failed(UnknownModel);
      }
      var footprint := registry.models[id].footprint;
      r := registry.ReleaseModel(id);
      Recount(id, footprint, r);
    }

    /** A successful retain or release updates the model's record or creates one. */
    method Recount(id: string, footprint: Bytes, r: ModelResult)
      modifies this`records
      ensures records == if r.error != NoError then old(records) else
        old(records)[id := if id in old(records) then old(records)[id].(refCount := r.amount)
                           else Record(id, footprint, r.amount, false, 0, 0, 0)]
    {
      if r.error == NoError {
        if id in records {
          records := records[id := records[id].(refCount := r.amount)];
        } else {
          records := records[id := Record(id, footprint, r.amount, false, 0, 0, 0)];
        }
      }
    }

    method UnregisterModel(id: string) returns (r: ModelResult)
      requires Valid() && phase.Idle?
      modifies this`records, registry
      ensures Valid() && Residency.Step(State(), Some(r)) == DoUnregister(old(State()), id)
    {
      hide Inv, ResourceManagement.ResourceManager.Valid;
      UnregisterKeepsInv(State(), id);
      if id in records && records[id].resident {
        return Failed(ModelInUse);
      }
      r := registry.UnregisterModel(id);
      if r.error == NoError {
        records := records - {id};
      }
    }
  }
}
