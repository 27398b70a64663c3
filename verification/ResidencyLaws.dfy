/** Every act of every caller, in every phase, keeps the four stores in agreement. */
module ResidencyLaws {
  import opened Common
  import Scheduler
  import Admission
  import AdmissionRuns
  import opened ModelStores
  import opened Residency

  lemma InitialInv(resources: Admission.State)
    requires Admission.Inv(resources) && resources.models == map[]
    ensures Inv(Residency.Initial(resources))
  {
    assert Residents(map[]) == map[];
  }

  // ------------------------------------------------- other callers' steps

  lemma ClientKeepsModels(s: Admission.State, e: Admission.Event)
    requires IsClientEvent(e)
    ensures Admission.Step(s, e).state.models == s.models
    ensures Admission.Step(s, e).state.capacity == s.capacity
  {
    hide Scheduler.Select, Scheduler.Live, Admission.Enter, Admission.ReplyTo;
  }

  lemma ClientKeepsInv(w: World, e: Admission.Event)
    requires Inv(w) && IsClientEvent(e)
    ensures Inv(Next(w, Client(e)).world)
  {
    hide Admission.Inv;
    ClientKeepsModels(w.resources, e);
    Admission.StepKeepsInv(w.resources, e);
  }

  /** The registry only gains an unreferenced model. */
  ghost predicate Gains(g: Registry, h: Registry) {
    && g.nextAccess == h.nextAccess
    && (forall id :: id in g.models ==> id in h.models && h.models[id] == g.models[id])
    && (forall id :: id in h.models && id !in g.models ==> h.models[id].refCount == 0)
  }

  lemma RegistrationGains(g: Registry, id: string, footprint: Bytes, path: string, metadata: string, size: Option<nat>)
    requires WellRegistered(g)
    ensures Gains(g, Register(g, id, footprint, metadata).0) && WellRegistered(Register(g, id, footprint, metadata).0)
    ensures Gains(g, RegisterFile(g, id, path, metadata, size).0)
    ensures WellRegistered(RegisterFile(g, id, path, metadata, size).0)
  {
    hide ValidName, ValidMetadata, ValidPath;
  }

  lemma GainKeepsInv(w: World, h: Registry)
    requires Inv(w) && Gains(w.registry, h) && WellRegistered(h)
    ensures Inv(w.(registry := h))
  {
    hide Admission.Inv;
  }

  // ------------------------------------------------------ reference counting

  lemma RecordUpdateKeepsResidents(records: map<string, Record>, id: string, record: Record)
    requires if id in records then record == records[id].(refCount := record.refCount) else !record.resident
    ensures Residents(records[id := record]) == Residents(records)
  {
    hide Admission.Inv;
  }

  /** The registry after a retain or release. */
  function Counted(g: Registry, id: string, count: nat): Registry
    requires id in g.models
  {
    Registry(g.models[id := g.models[id].(refCount := count, lastAccess := g.nextAccess + 1)], g.nextAccess + 1)
  }

  lemma RecountMirrors(w: World, id: string, count: nat)
    requires WellRegistered(w.registry) && Mirrored(w) && Stamped(w) && id in w.registry.models
    ensures var t := Recounted(w, id, Counted(w.registry, id, count), ModelResult(NoError, count)).world;
      && WellRegistered(t.registry) && Mirrored(t) && Residents(t.records) == Residents(w.records)
  {
    var record := if id in w.records then w.records[id].(refCount := count)
                  else Record(id, w.registry.models[id].footprint, count, false, 0, 0, 0);
    RecordUpdateKeepsResidents(w.records, id, record);
  }

  lemma RecountStamps(w: World, id: string, count: nat)
    requires Stamped(w) && id in w.registry.models
    ensures Stamped(Recounted(w, id, Counted(w.registry, id, count), ModelResult(NoError, count)).world)
  {
  }

  lemma RecountKeepsInv(w: World, id: string, count: nat)
    requires Inv(w) && w.phase.Idle? && id in w.registry.models
    ensures Inv(Recounted(w, id, Counted(w.registry, id, count), ModelResult(NoError, count)).world)
  {
    hide Admission.Inv, Stamped, Mirrored, WellRegistered, Residents;
    RecountMirrors(w, id, count);
    RecountStamps(w, id, count);
  }

  lemma RetainKeepsInv(w: World, id: string)
    requires Inv(w) && w.phase.Idle?
    ensures Inv(DoRetain(w, id).world)
  {
    hide Inv;
    if id in w.registry.models {
      var (g, r) := Retain(w.registry, id);
      if r.error == NoError {
        RecountKeepsInv(w, id, r.amount);
        assert g == Counted(w.registry, id, r.amount);
      } else {
        assert DoRetain(w, id).world == w;
      }
    }
  }

  lemma ReleaseKeepsInv(w: World, id: string)
    requires Inv(w) && w.phase.Idle?
    ensures Inv(DoRelease(w, id).world)
  {
    hide Inv;
    if id in w.registry.models {
      var (g, r) := Release(w.registry, id);
      if r.error == NoError {
        RecountKeepsInv(w, id, r.amount);
        assert g == Counted(w.registry, id, r.amount);
      } else {
        assert DoRelease(w, id).world == w;
      }
    }
  }

  lemma UnregisterForgets(w: World, id: string)
    requires WellRegistered(w.registry) && Mirrored(w) && Stamped(w)
    requires id in w.registry.models && w.registry.models[id].refCount == 0 && id !in Residents(w.records)
    ensures var t := w.(registry := w.registry.(models := w.registry.models - {id}), records := w.records - {id});
      WellRegistered(t.registry) && Mirrored(t) && Stamped(t) && Residents(t.records) == Residents(w.records)
  {
  }

  lemma UnregisterKeepsInv(w: World, id: string)
    requires Inv(w) && w.phase.Idle?
    ensures Inv(DoUnregister(w, id).world)
  {
    hide Admission.Inv, Stamped, Mirrored, WellRegistered;
    if id in Residents(w.records) || Unregister(w.registry, id).1.error != NoError {
      assert DoUnregister(w, id).world == w;
    } else {
      UnregisterForgets(w, id);
    }
  }

  // ----------------------------------------------------------------- loading

  lemma PlanKeepsInv(w: World, order: seq<string>)
    requires Inv(w) && w.phase.Looked? && Candidates(w.records, order)
    ensures Inv(DoPlan(w, order).world)
  {
    hide Admission.Inv, Mirrored, Stamped, Residents, Needed;
    PrefixIsDistinct(order);
    PhaseIsIrrelevant(w, DoPlan(w, order).world.phase);
  }

  lemma PrefixIsDistinct(order: seq<string>)
    requires !Admission.Repeats(order)
    ensures forall k :: 0 <= k <= |order| ==> !Admission.Repeats(order[..k])
  {
    forall k | 0 <= k <= |order| ensures !Admission.Repeats(order[..k]) {
      assert forall i :: 0 <= i < k ==> order[..k][i] == order[i];
    }
  }

  lemma BackendKeepsInv(w: World, file: FileOutcome, accepts: bool, cost: nat)
    requires Inv(w) && w.phase.Planned?
    ensures Inv(DoBackend(w, file, accepts, cost).world)
  {
    hide Admission.Inv, WellRegistered, Mirrored, Stamped;
    var t := DoBackend(w, file, accepts, cost).world;
    assert t == w.(backend := t.backend, phase := t.phase);
    assert Mirrored(t) && Stamped(t) by { StoresAreIrrelevant(w, t); }
  }

  lemma StoresAreIrrelevant(w: World, t: World)
    requires Mirrored(w) && Stamped(w)
    requires t == w.(backend := t.backend, phase := t.phase)
    ensures Mirrored(t) && Stamped(t)
  {
  }

  lemma ReplaceFrame(s: Admission.State, victims: seq<string>, id: string, bytes: Bytes, now: Scheduler.Time)
    requires Admission.Inv(s)
    ensures var o := Admission.Replace(s, victims, id, bytes, now);
      && Admission.Inv(o.state)
      && (o.reply == Some(Admission.OperationResult(Admission.NoError, bytes)) <==> Admission.Replaceable(s, victims, id, bytes))
      && (Admission.Replaceable(s, victims, id, bytes) ==>
            o.state.models == (s.models - Admission.Elements(victims))[id := bytes])
      && (!Admission.Replaceable(s, victims, id, bytes) ==> o.state == s)
  {
    Admission.ReplaceKeepsInv(s, victims, id, bytes, now);
    AdmissionRuns.ReplaceIsAllOrNothing(s, victims, id, bytes, now);
  }

  lemma ReplaceKeepsInv(w: World, now: Scheduler.Time)
    requires Inv(w) && w.phase.Loaded?
    ensures Inv(DoReplace(w, now).world)
  {
    hide Admission.Inv, Admission.Replace, Admission.Replaceable;
    var model := w.phase.model;
    ReplaceFrame(w.resources, w.phase.victims, model.id, model.footprint, now);
    assert Residents(w.records)[model.id := model.footprint] - {model.id} == Residents(w.records);
  }

  lemma EvictedResidents(records: map<string, Record>, victims: seq<string>, record: Record)
    requires record.resident
    ensures Residents(Evicted(records, victims)[record.id := record])
         == (Residents(records) - Admission.Elements(victims))[record.id := record.footprint]
  {
    assert forall id :: id in victims <==> id in Admission.Elements(victims);
  }

  /** What finalization leaves of each record. */
  lemma FinalRecords(w: World, id: string)
    requires w.phase.Swapped?
    ensures var records, final, model := w.records, DoFinalize(w).world.records, w.phase.model;
      && (id in final <==> id in records || id == model.id)
      && (id in records && id != model.id ==>
            final[id] == if id in w.phase.victims then records[id].(resident := false) else records[id])
      && final[model.id].id == model.id && final[model.id].footprint == model.footprint
      && final[model.id].refCount == model.refCount && final[model.id].lastLoaded == w.nextLoaded + 1
  {
  }

  lemma FinalizeMirrors(w: World)
    requires WellRegistered(w.registry) && Mirrored(w) && w.phase.Swapped?
    requires Loading(w, w.phase.model, w.phase.victims)
    ensures Mirrored(DoFinalize(w).world)
  {
    hide Listable, Residents, Evicted, Evictable;
    var t := DoFinalize(w).world;
    hide DoFinalize;
    forall id ensures id in t.records <==> id in w.records || id == w.phase.model.id {
      FinalRecords(w, id);
    }
    forall id | id in t.records
      ensures t.records[id].id == id && id in w.registry.models
      ensures t.records[id].footprint == w.registry.models[id].footprint
      ensures t.records[id].refCount == w.registry.models[id].refCount
    {
      FinalRecords(w, id);
    }
  }

  lemma FinalizeStamps(w: World)
    requires Stamped(w) && w.phase.Swapped?
    ensures Stamped(DoFinalize(w).world)
  {
    hide Evicted;
    var t := DoFinalize(w).world;
    hide DoFinalize;
    forall id | id in t.records ensures t.records[id].lastLoaded <= t.nextLoaded {
      FinalRecords(w, id);
    }
    forall a, b | a in t.records && b in t.records && a != b && t.records[a].resident && t.records[b].resident
      ensures t.records[a].lastLoaded != t.records[b].lastLoaded
    {
      FinalRecords(w, a);
      FinalRecords(w, b);
    }
  }

  lemma FinalizeStores(w: World)
    requires w.phase.Swapped? && Loading(w, w.phase.model, w.phase.victims)
    ensures var t := DoFinalize(w).world;
      && Residents(t.records) == Reserved(w)
      && OnDevice(w) - Admission.Elements(w.phase.victims) == Reserved(w)
  {
    var model, victims := w.phase.model, w.phase.victims;
    EvictedResidents(w.records, victims, DoFinalize(w).world.records[model.id]);
    assert model.id !in Admission.Elements(victims);
  }

  lemma FinalizeKeepsInv(w: World)
    requires Inv(w) && w.phase.Swapped?
    ensures Inv(DoFinalize(w).world)
  {
    hide Admission.Inv, Stamped, Mirrored, Residents;
    FinalizeMirrors(w);
    FinalizeStamps(w);
    FinalizeStores(w);
  }

  // --------------------------------------------------------------- unloading

  lemma UnloadStartKeepsInv(w: World, id: string)
    requires Inv(w) && w.phase.Idle?
    ensures Inv(DoUnloadStart(w, id).world)
  {
    hide Admission.Inv;
  }

  /** The second half of unload always succeeds: its rollback branch is unreachable. */
  lemma UnloadNeverRollsBack(w: World, now: Scheduler.Time)
    requires Inv(w) && w.phase.Unloading?
    ensures DoUnloadFinish(w, now).reply == Some(ModelResult(NoError, w.records[w.phase.id].footprint))
  {
    hide Admission.Inv;
    assert w.phase.id in Residents(w.records);
  }

  lemma NonresidentMirrors(w: World, id: string)
    requires Mirrored(w) && Stamped(w) && id in w.records
    ensures var t := w.(records := w.records[id := w.records[id].(resident := false)]); Mirrored(t) && Stamped(t)
  {
  }

  lemma NonresidentLeaves(records: map<string, Record>, id: string)
    requires id in records
    ensures Residents(records[id := records[id].(resident := false)]) == Residents(records) - {id}
  {
  }

  /** Mirroring and stamps do not depend on the phase. */
  lemma PhaseIsIrrelevant(w: World, phase: Phase)
    ensures Mirrored(w.(phase := phase)) == Mirrored(w) && Stamped(w.(phase := phase)) == Stamped(w)
  {
  }

  lemma UnloadFinishKeepsInv(w: World, now: Scheduler.Time)
    requires Inv(w) && w.phase.Unloading?
    ensures Inv(DoUnloadFinish(w, now).world)
  {
    hide Admission.Inv;
    var id := w.phase.id;
    UnloadNeverRollsBack(w, now);
    Admission.ReleaseModelKeepsInv(w.resources, id, now);
    NonresidentMirrors(w, id);
    NonresidentLeaves(w.records, id);
  }

  lemma LookupKeepsInv(w: World, id: string)
    requires Inv(w) && w.phase.Idle?
    ensures Inv(DoLookup(w, id).world)
  {
    hide Admission.Inv, Stamped, Mirrored;
    PhaseIsIrrelevant(w, DoLookup(w, id).world.phase);
  }

  lemma RegisterKeepsInv(w: World, id: string, footprint: Bytes, path: string, metadata: string, size: Option<nat>)
    requires Inv(w)
    ensures Inv(w.(registry := Register(w.registry, id, footprint, metadata).0))
    ensures Inv(w.(registry := RegisterFile(w.registry, id, path, metadata, size).0))
  {
    hide Admission.Inv, Register, RegisterFile;
    RegistrationGains(w.registry, id, footprint, path, metadata, size);
    GainKeepsInv(w, Register(w.registry, id, footprint, metadata).0);
    GainKeepsInv(w, RegisterFile(w.registry, id, path, metadata, size).0);
  }

  /** Every act of every caller, in every phase, keeps the four stores in agreement. */
  lemma NextKeepsInv(w: World, act: Act)
    requires Inv(w) && Enabled(w, act)
    ensures Inv(Next(w, act).world)
  {
    hide Admission.Inv, Inv, Register, RegisterFile, DoUnregister, DoRetain, DoRelease, DoPlan, DoBackend, DoReplace,
      DoFinalize, DoUnloadStart, DoUnloadFinish, DoLookup;
    match act
    case Client(e) => ClientKeepsInv(w, e);
    case RegisterModel(id, footprint, metadata) =>
      RegisterKeepsInv(w, id, footprint, "", metadata, None);
    case RegisterFileModel(id, path, metadata, size) =>
      RegisterKeepsInv(w, id, 0, path, metadata, size);
    case UnregisterModel(id) => UnregisterKeepsInv(w, id);
    case RetainModel(id) => RetainKeepsInv(w, id);
    case ReleaseModelRef(id) => ReleaseKeepsInv(w, id);
    case LoadLookup(id) => LookupKeepsInv(w, id);
    case LoadPlan(order) => PlanKeepsInv(w, order);
    case LoadBackend(file, accepts, cost) => BackendKeepsInv(w, file, accepts, cost);
    case LoadReplace(now) => ReplaceKeepsInv(w, now);
    case LoadFinalize => FinalizeKeepsInv(w);
    case UnloadStart(id) => UnloadStartKeepsInv(w, id);
    case UnloadFinish(now) => UnloadFinishKeepsInv(w, now);
  }
}
