/** Whole-run promises of model residency: agreement at rest, pinning, exact reference counts, and
    failed loads that change nothing. */
module ResidencyRuns {
  import opened Common
  import Scheduler
  import Admission
  import AdmissionRuns
  import opened ModelStores
  import opened Residency
  import opened ResidencyLaws

  /** ws[k] is the world before the k-th act. */
  ghost predicate IsRun(ws: seq<World>, acts: seq<Act>) {
    && |ws| == |acts| + 1
    && forall k :: 0 <= k < |acts| ==> Enabled(ws[k], acts[k]) && ws[k + 1] == Next(ws[k], acts[k]).world
  }

  lemma {:induction false} RunKeepsInv(ws: seq<World>, acts: seq<Act>, k: nat)
    requires IsRun(ws, acts) && Inv(ws[0]) && k <= |acts|
    ensures Inv(ws[k])
  {
    hide Inv, Enabled, Next;
    if k > 0 {
      RunKeepsInv(ws, acts, k - 1);
      NextKeepsInv(ws[k - 1], acts[k - 1]);
    }
  }

  /** Whenever no residency call is in progress, after any interleaving of all callers: residents,
      model reservations and accelerator allocations are the same ids with the same bytes; records
      agree with the registry; models without a record are unreferenced; the books balance. */
  lemma StoresAgreeAtRest(ws: seq<World>, acts: seq<Act>, k: nat)
    requires IsRun(ws, acts) && Inv(ws[0]) && k <= |acts| && ws[k].phase.Idle?
    ensures var w := ws[k];
      && w.backend == w.resources.models
      && (forall id :: id in w.backend <==> id in w.records && w.records[id].resident)
      && (forall id :: id in w.backend ==> w.backend[id] == w.records[id].footprint)
      && (forall id :: id in w.records ==> id in w.registry.models)
      && (forall id :: id in w.records ==> w.records[id].footprint == w.registry.models[id].footprint)
      && (forall id :: id in w.records ==> w.records[id].refCount == w.registry.models[id].refCount)
      && (forall id :: id in w.registry.models && id !in w.records ==> w.registry.models[id].refCount == 0)
      && w.resources.used == Total(w.resources.reservations) + Total(w.backend) <= w.resources.capacity
  {
    hide IsRun, Stamped;
    RunKeepsInv(ws, acts, k);
  }

  // ----------------------------------------------------------------- pinning

  /** Whatever was registered, every model on record has texts that its listing can carry. */
  lemma RegistryIsListable(ws: seq<World>, acts: seq<Act>, k: nat, id: string)
    requires IsRun(ws, acts) && Inv(ws[0]) && k <= |acts| && id in ws[k].registry.models
    ensures Listable(ws[k].registry.models[id])
  {
    hide IsRun, Stamped, Listable;
    RunKeepsInv(ws, acts, k);
  }

  ghost predicate Referenced(w: World, id: string) {
    id in w.registry.models && w.registry.models[id].refCount > 0
  }

  /** Resident, reserved and loaded. */
  ghost predicate InPlace(w: World, id: string, footprint: Bytes) {
    && id in w.records && w.records[id].resident && w.records[id].footprint == footprint
    && id in w.resources.models && w.resources.models[id] == footprint
    && id in w.backend && w.backend[id] == footprint
  }

  /** A referenced resident model is reserved and loaded in every phase. */
  lemma ReferencedIsInPlace(w: World, id: string)
    requires Inv(w) && Referenced(w, id) && id in w.records && w.records[id].resident
    ensures InPlace(w, id, w.records[id].footprint)
  {
    hide Admission.Inv, Stamped, WellRegistered;
    assert id in Residents(w.records);
    if w.phase.Swapped? {
      assert id !in Admission.Elements(w.phase.victims);
    }
  }

  predicate TouchesRecords(act: Act) {
    act.UnregisterModel? || act.RetainModel? || act.ReleaseModelRef? || act.LoadFinalize? || act.UnloadFinish?
  }

  lemma RecordsFrame(w: World, act: Act)
    requires Enabled(w, act) && !TouchesRecords(act)
    ensures Next(w, act).world.records == w.records
  {
    hide Candidates, Register, RegisterFile, Admission.Step, Admission.Replace, Residents, Needed;
  }

  /** No act of anybody makes a referenced model non-resident. */
  lemma ReferencedStaysResident(w: World, act: Act, id: string)
    requires Inv(w) && Enabled(w, act) && Referenced(w, id) && id in w.records && w.records[id].resident
    ensures var t := Next(w, act).world;
      id in t.records && t.records[id].resident && t.records[id].footprint == w.records[id].footprint
  {
    hide Admission.Inv, Stamped, Candidates, Admission.Step, Admission.Replace, Admission.ReleaseModel, Residents,
      DoPlan, DoBackend, DoReplace, DoFinalize;
    if act.LoadFinalize? {
      FinalizeSparesReferenced(w, id);
    } else if !TouchesRecords(act) {
      RecordsFrame(w, act);
    }
  }

  lemma FinalizeSparesReferenced(w: World, id: string)
    requires Inv(w) && w.phase.Swapped? && Referenced(w, id) && id in w.records && w.records[id].resident
    ensures var t := DoFinalize(w).world;
      id in t.records && t.records[id].resident && t.records[id].footprint == w.records[id].footprint
  {
    hide Admission.Inv, Stamped, WellRegistered;
    assert id in Residents(w.records) && id != w.phase.model.id;
    assert id !in w.phase.victims;
  }

  /** Pinning: from a state where it is resident, a model stays resident, reserved and loaded for
      as long as its count is positive, whatever loads, unloads, unregistrations and client traffic
      come. */
  lemma {:induction false} PinnedStaysInPlace(ws: seq<World>, acts: seq<Act>, k: nat, id: string)
    requires IsRun(ws, acts) && Inv(ws[0]) && k <= |acts|
    requires id in ws[0].records && ws[0].records[id].resident
    requires forall j :: 0 <= j <= k ==> Referenced(ws[j], id)
    ensures InPlace(ws[k], id, ws[0].records[id].footprint)
  {
    hide Inv, Enabled, Next;
    if k > 0 {
      PinnedStaysInPlace(ws, acts, k - 1, id);
      RunKeepsInv(ws, acts, k - 1);
      ReferencedStaysResident(ws[k - 1], acts[k - 1], id);
    }
    RunKeepsInv(ws, acts, k);
    ReferencedIsInPlace(ws[k], id);
  }

  // -------------------------------------------------------- reference counts

  function CountChange(act: Act, reply: Option<ModelResult>, id: string): int {
    if reply == None || reply.value.error != NoError then 0
    else if act == RetainModel(id) then 1
    else if act == ReleaseModelRef(id) then -1
    else 0
  }

  /** Successful retains minus successful releases of id among the first k acts. */
  ghost function Balance(ws: seq<World>, acts: seq<Act>, k: nat, id: string): int
    requires IsRun(ws, acts) && k <= |acts|
  {
    if k == 0 then 0
    else Balance(ws, acts, k - 1, id) + CountChange(acts[k - 1], Next(ws[k - 1], acts[k - 1]).reply, id)
  }

  predicate TouchesCounts(act: Act) { act.UnregisterModel? || act.RetainModel? || act.ReleaseModelRef? }

  lemma CountsFrame(w: World, act: Act, id: string)
    requires WellRegistered(w.registry) && Enabled(w, act) && id in w.registry.models && !TouchesCounts(act)
    ensures id in Next(w, act).world.registry.models
    ensures Next(w, act).world.registry.models[id].refCount == w.registry.models[id].refCount
  {
    hide Candidates, Admission.Step, Admission.Replace, Admission.ReleaseModel, Residents, Needed;
  }

  /** One act moves a count by exactly what its reply says, unless it unregisters the model. */
  lemma ActCounts(w: World, act: Act, id: string)
    requires WellRegistered(w.registry) && Enabled(w, act) && id in w.registry.models
    requires !(act == UnregisterModel(id) && Next(w, act).reply == Some(ModelResult(NoError, 0)))
    ensures var t := Next(w, act);
      && id in t.world.registry.models
      && t.world.registry.models[id].refCount == w.registry.models[id].refCount + CountChange(act, t.reply, id)
  {
    hide Candidates, DoPlan, DoBackend, DoReplace, DoFinalize, DoUnloadStart, DoUnloadFinish, DoLookup, Admission.Step;
    if !TouchesCounts(act) {
      CountsFrame(w, act, id);
    }
  }

  lemma RegistryIsWell(w: World)
    requires Inv(w)
    ensures WellRegistered(w.registry)
  {
  }

  /** The count is exactly the retains minus the releases since registration. */
  lemma {:induction false} CountIsBalance(ws: seq<World>, acts: seq<Act>, k: nat, id: string)
    requires IsRun(ws, acts) && Inv(ws[0]) && k <= |acts| && id in ws[0].registry.models
    requires forall j :: 0 <= j < k && acts[j] == UnregisterModel(id) ==>
      Next(ws[j], acts[j]).reply != Some(ModelResult(NoError, 0))
    ensures id in ws[k].registry.models
    ensures ws[k].registry.models[id].refCount == ws[0].registry.models[id].refCount + Balance(ws, acts, k, id)
  {
    hide Inv, Enabled, Next;
    if k > 0 {
      CountIsBalance(ws, acts, k - 1, id);
      RunKeepsInv(ws, acts, k - 1);
      RegistryIsWell(ws[k - 1]);
      ActCounts(ws[k - 1], acts[k - 1], id);
    }
  }

  // ------------------------------------------------------------ failed loads

  /** Compared with w0, nothing has changed but what other callers did, and what the load in
      progress has put on the device. */
  ghost predicate Untouched(w0: World, w: World) {
    && w.records == w0.records && w.nextLoaded == w0.nextLoaded && Gains(w0.registry, w.registry)
    && match w.phase
       case Loaded(model, _, _) =>
         w.resources.models == w0.resources.models && model.id !in w0.backend
         && w.backend == w0.backend[model.id := model.footprint]
       case Swapped(_, _, _) => true
       case Unloading(_) => false
       case _ => w.resources.models == w0.resources.models && w.backend == w0.backend
  }

  lemma GainsCompose(f: Registry, g: Registry, h: Registry)
    requires Gains(f, g) && Gains(g, h)
    ensures Gains(f, h)
  {
  }

  lemma RegistrationLeavesUntouched(w0: World, w: World, act: Act)
    requires Inv(w) && Untouched(w0, w) && (act.RegisterModel? || act.RegisterFileModel?)
    ensures Untouched(w0, Next(w, act).world) && Next(w, act).world.phase == w.phase
  {
    hide Admission.Inv, Stamped, Mirrored, Register, RegisterFile, Gains;
    match act
    case RegisterModel(id, footprint, metadata) =>
      RegistrationGains(w.registry, id, footprint, "", metadata, None);
      GainsCompose(w0.registry, w.registry, Register(w.registry, id, footprint, metadata).0);
    case RegisterFileModel(id, path, metadata, size) =>
      RegistrationGains(w.registry, id, 0, path, metadata, size);
      GainsCompose(w0.registry, w.registry, RegisterFile(w.registry, id, path, metadata, size).0);
  }

  lemma ReplaceLeavesUntouched(w0: World, w: World, now: Scheduler.Time)
    requires Inv(w) && w.phase.Loaded? && Untouched(w0, w)
    ensures Untouched(w0, DoReplace(w, now).world)
  {
    hide Admission.Inv, Stamped, Mirrored, Residents, Gains, Admission.Replace, Admission.Replaceable;
    ReplaceFrame(w.resources, w.phase.victims, w.phase.model.id, w.phase.model.footprint, now);
    assert w0.backend[w.phase.model.id := w.phase.model.footprint] - {w.phase.model.id} == w0.backend;
  }

  /** While a load is in progress every act leaves the stores untouched, up to finalization. */
  lemma LoadStepLeavesUntouched(w0: World, w: World, act: Act)
    requires Inv(w) && Enabled(w, act) && Untouched(w0, w) && !w.phase.Idle? && act != LoadFinalize
    ensures Untouched(w0, Next(w, act).world)
  {
    hide Admission.Inv, Stamped, Mirrored, Residents, Gains, Admission.Step, Admission.Replace, Register, RegisterFile;
    match act
    case Client(e) => ClientKeepsModels(w.resources, e);
    case RegisterModel(_, _, _) => RegistrationLeavesUntouched(w0, w, act);
    case RegisterFileModel(_, _, _, _) => RegistrationLeavesUntouched(w0, w, act);
    case LoadReplace(now) => ReplaceLeavesUntouched(w0, w, now);
    case _ =>
  }

  /** Such a run is one call of load, from its first step to its return, among other callers. */
  ghost predicate IsOneLoad(ws: seq<World>, acts: seq<Act>) {
    && IsRun(ws, acts) && |acts| > 0
    && ws[0].phase.Idle? && acts[0].LoadLookup? && ws[|acts|].phase.Idle?
    && forall k :: 0 < k < |acts| ==> !ws[k].phase.Idle?
  }

  lemma {:induction false} LoadInProgress(ws: seq<World>, acts: seq<Act>, k: nat)
    requires IsOneLoad(ws, acts) && Inv(ws[0]) && 0 < k <= |acts|
    requires k == |acts| ==> acts[k - 1] != LoadFinalize
    ensures Untouched(ws[0], ws[k])
  {
    hide Inv;
    RunKeepsInv(ws, acts, k - 1);
    if k == 1 {
      LookupChangesNothing(ws[0], acts[0].id);
    } else {
      LoadInProgress(ws, acts, k - 1);
      assert Next(ws[k - 1], acts[k - 1]).world == ws[k];
      assert ws[k].phase.Idle? || acts[k - 1] != LoadFinalize;
      LoadStepLeavesUntouched(ws[0], ws[k - 1], acts[k - 1]);
    }
  }

  lemma LookupChangesNothing(w: World, id: string)
    requires w.phase.Idle?
    ensures Untouched(w, DoLookup(w, id).world)
  {
  }

  /** The client traffic among some acts. */
  function ClientEvents(acts: seq<Act>): seq<Admission.Event> {
    if acts == [] then []
    else ClientEvents(acts[..|acts| - 1]) + if acts[|acts| - 1].Client? then [acts[|acts| - 1].event] else []
  }

  lemma EventsGrow(acts: seq<Act>, k: nat)
    requires k < |acts|
    ensures ClientEvents(acts[..k + 1]) == ClientEvents(acts[..k]) + if acts[k].Client? then [acts[k].event] else []
  {
    assert acts[..k + 1][..k] == acts[..k];
  }

  lemma AfterOneMore(s: Admission.State, run: seq<Admission.Event>, e: Admission.Event)
    ensures AdmissionRuns.After(s, run + [e]) == Admission.Step(AdmissionRuns.After(s, run), e).state
  {
    assert (run + [e])[..|run|] == run;
  }

  /** Once reservations are swapped, only finalization goes on from there. */
  lemma SwappedGoesOn(w: World, act: Act)
    requires Enabled(w, act) && w.phase.Swapped? && act != LoadFinalize
    ensures Next(w, act).world.phase.Swapped?
  {
    hide Candidates, Admission.Step, Register, RegisterFile;
  }

  /** A finalized load is no failed one. */
  lemma FinalizeSucceeds(w: World)
    requires w.phase.Swapped?
    ensures DoFinalize(w).reply == Some(ModelResult(NoError, w.phase.model.footprint))
  {
  }

  /** In a load that fails, reservations are never swapped. */
  lemma {:induction false} FailedLoadNeverSwaps(ws: seq<World>, acts: seq<Act>, k: nat)
    requires IsOneLoad(ws, acts) && k <= |acts|
    requires var reply := Next(ws[|acts| - 1], acts[|acts| - 1]).reply; reply.Some? && reply.value.error != NoError
    ensures !ws[k].phase.Swapped?
    decreases |acts| - k
  {
    hide Next, Enabled;
    if k < |acts| {
      FailedLoadNeverSwaps(ws, acts, k + 1);
      assert ws[k + 1] == Next(ws[k], acts[k]).world;
      if ws[k].phase.Swapped? {
        if acts[k] == LoadFinalize {
          FinalizeEnds(ws, acts, k);
        } else {
          SwappedGoesOn(ws[k], acts[k]);
        }
      }
    }
  }

  lemma FinalizeEnds(ws: seq<World>, acts: seq<Act>, k: nat)
    requires IsOneLoad(ws, acts) && k < |acts| && acts[k] == LoadFinalize && ws[k].phase.Swapped?
    ensures k == |acts| - 1 && Next(ws[k], acts[k]).reply.Some? && Next(ws[k], acts[k]).reply.value.error == NoError
  {
    assert ws[k + 1] == Next(ws[k], acts[k]).world;
  }

  /** Up to a swap, the resource manager is moved by client traffic only. */
  lemma OnlyClientsMoveResources(w: World, act: Act)
    requires Inv(w) && Enabled(w, act) && !w.phase.Swapped? && !w.phase.Unloading?
    requires !Next(w, act).world.phase.Swapped?
    ensures Next(w, act).world.resources ==
      if act.Client? then Admission.Step(w.resources, act.event).state else w.resources
  {
    hide Candidates, Admission.Step, Admission.Inv, Register, RegisterFile, Residents, Needed, Stamped, Mirrored,
      Admission.Replace;
    if act.LoadReplace? {
      ReplaceFrame(w.resources, w.phase.victims, w.phase.model.id, w.phase.model.footprint, act.now);
    }
  }

  lemma {:induction false} ClientsMoveResources(ws: seq<World>, acts: seq<Act>, k: nat)
    requires IsOneLoad(ws, acts) && Inv(ws[0]) && k <= |acts|
    requires var reply := Next(ws[|acts| - 1], acts[|acts| - 1]).reply; reply.Some? && reply.value.error != NoError
    ensures ws[k].resources == AdmissionRuns.After(ws[0].resources, ClientEvents(acts[..k]))
  {
    hide Inv, Next, Enabled;
    if k > 0 {
      ClientsMoveResources(ws, acts, k - 1);
      RunKeepsInv(ws, acts, k - 1);
      FailedLoadNeverSwaps(ws, acts, k - 1);
      FailedLoadNeverSwaps(ws, acts, k);
      LoadNeverUnloads(ws, acts, k - 1);
      OnlyClientsMoveResources(ws[k - 1], acts[k - 1]);
      EventsGrow(acts, k - 1);
      if acts[k - 1].Client? {
        AfterOneMore(ws[0].resources, ClientEvents(acts[..k - 1]), acts[k - 1].event);
      } else {
        assert ClientEvents(acts[..k - 1]) + [] == ClientEvents(acts[..k - 1]);
      }
    }
  }

  lemma LoadNeverUnloads(ws: seq<World>, acts: seq<Act>, k: nat)
    requires IsOneLoad(ws, acts) && Inv(ws[0]) && k < |acts|
    ensures !ws[k].phase.Unloading?
  {
    hide Inv, Next, Enabled;
    if k > 0 {
      LoadInProgress(ws, acts, k);
    }
  }

  /** A load that fails, at whatever phase and whatever other callers did meanwhile, leaves records,
      model reservations and accelerator as it found them; and the whole resource manager, clients
      and queue included, is what the client traffic alone makes of it. */
  lemma FailedLoadChangesNothing(ws: seq<World>, acts: seq<Act>)
    requires IsOneLoad(ws, acts) && Inv(ws[0])
    requires var reply := Next(ws[|acts| - 1], acts[|acts| - 1]).reply; reply.Some? && reply.value.error != NoError
    ensures var w0, w := ws[0], ws[|acts|];
      && w.records == w0.records && w.nextLoaded == w0.nextLoaded
      && w.resources.models == w0.resources.models && w.backend == w0.backend
      && w.resources == AdmissionRuns.After(w0.resources, ClientEvents(acts))
      && Gains(w0.registry, w.registry)
  {
    hide Inv;
    assert acts[|acts| - 1] != LoadFinalize;
    LoadInProgress(ws, acts, |acts|);
    ClientsMoveResources(ws, acts, |acts|);
    assert acts[..|acts|] == acts;
  }
}
