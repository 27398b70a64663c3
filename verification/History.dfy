/** The counters and stamps of models over whole runs: load counts, load order, access order. */
module History {
  import opened Common
  import opened ModelStores
  import opened Residency
  import opened ResidencyRuns
  import Admission

  /** The act completes a load of this model. */
  predicate Loads(w: World, act: Act, id: string) {
    act.LoadFinalize? && w.phase.Swapped? && w.phase.model.id == id
  }

  ghost predicate Unregisters(w: World, act: Act, id: string)
    requires Enabled(w, act)
  {
    act == UnregisterModel(id) && Next(w, act).reply == Some(ModelResult(NoError, 0))
  }

  function LoadCount(w: World, id: string): nat { if id in w.records then w.records[id].loadCount else 0 }

  function Stamp(w: World, id: string): nat { if id in w.records then w.records[id].lastLoaded else 0 }

  /** One act moves load count and stamp of a model only by completing a load of it. */
  lemma ActLoads(w: World, act: Act, id: string)
    requires Enabled(w, act) && !Unregisters(w, act, id)
    ensures var v := Next(w, act).world;
      && LoadCount(v, id) == LoadCount(w, id) + (if Loads(w, act, id) then 1 else 0)
      && Stamp(v, id) == (if Loads(w, act, id) then w.nextLoaded + 1 else Stamp(w, id))
      && v.nextLoaded == w.nextLoaded + (if act.LoadFinalize? then 1 else 0)
  {
    hide Candidates, Residents, Needed, Admission.Step, Admission.Replace, Admission.ReleaseModel, Register, RegisterFile;
    if !TouchesRecords(act) {
      RecordsFrame(w, act);
    }
  }

  /** Completed loads of id among the first k acts. */
  ghost function LoadsOf(ws: seq<World>, acts: seq<Act>, k: nat, id: string): nat
    requires IsRun(ws, acts) && k <= |acts|
  {
    if k == 0 then 0 else LoadsOf(ws, acts, k - 1, id) + (if Loads(ws[k - 1], acts[k - 1], id) then 1 else 0)
  }

  /** As long as it is not unregistered, a model's load count is the number of its completed loads. */
  lemma {:induction false} LoadCountIsHistory(ws: seq<World>, acts: seq<Act>, k: nat, id: string)
    requires IsRun(ws, acts) && k <= |acts|
    requires forall j :: 0 <= j < k ==> !Unregisters(ws[j], acts[j], id)
    ensures LoadCount(ws[k], id) == LoadCount(ws[0], id) + LoadsOf(ws, acts, k, id)
  {
    hide Enabled, Next, Unregisters;
    if k > 0 {
      LoadCountIsHistory(ws, acts, k - 1, id);
      ActLoads(ws[k - 1], acts[k - 1], id);
    }
  }

  lemma {:induction false} StampStays(ws: seq<World>, acts: seq<Act>, i: nat, k: nat, id: string)
    requires IsRun(ws, acts) && i <= k <= |acts|
    requires forall j :: i <= j < k ==> !Unregisters(ws[j], acts[j], id) && !Loads(ws[j], acts[j], id)
    ensures Stamp(ws[k], id) == Stamp(ws[i], id) && ws[k].nextLoaded >= ws[i].nextLoaded
    decreases k
  {
    hide Enabled, Next, Unregisters;
    if i < k {
      StampStays(ws, acts, i, k - 1, id);
      ActLoads(ws[k - 1], acts[k - 1], id);
    }
  }

  /** Of two models, the one whose last load completed later carries the greater stamp, whatever
      happened in between. */
  lemma LaterLoadIsYounger(ws: seq<World>, acts: seq<Act>, i: nat, j: nat, k: nat, a: string, b: string)
    requires IsRun(ws, acts) && i < j < k <= |acts|
    requires Loads(ws[i], acts[i], a) && Loads(ws[j], acts[j], b)
    requires forall n :: i <= n < k ==> !Unregisters(ws[n], acts[n], a) && !Unregisters(ws[n], acts[n], b)
    requires forall n :: i < n < k ==> !Loads(ws[n], acts[n], a)
    requires forall n :: j < n < k ==> !Loads(ws[n], acts[n], b)
    ensures Stamp(ws[k], a) < Stamp(ws[k], b)
  {
    hide Enabled, Next, Unregisters, Loads;
    ActLoads(ws[i], acts[i], a);
    StampStays(ws, acts, i + 1, j, a);
    StampStays(ws, acts, i + 1, k, a);
    ActLoads(ws[j], acts[j], b);
    StampStays(ws, acts, j + 1, k, b);
    LoadIsCounted(ws[i], acts[i], a);
  }

  lemma LoadIsCounted(w: World, act: Act, id: string)
    requires Enabled(w, act) && Loads(w, act, id)
    ensures Next(w, act).world.nextLoaded == w.nextLoaded + 1
  {
  }

  // ---------------------------------------------------------------- accesses

  /** The act is a retain or release of this model that succeeds. */
  ghost predicate Accesses(w: World, act: Act, id: string)
    requires Enabled(w, act)
  {
    && (act == RetainModel(id) || act == ReleaseModelRef(id))
    && Next(w, act).reply.Some? && Next(w, act).reply.value.error == NoError
  }

  function AccessStamp(w: World, id: string): nat {
    if id in w.registry.models then w.registry.models[id].lastAccess else 0
  }

  predicate TouchesRegistry(act: Act) {
    || act.RegisterModel? || act.RegisterFileModel? || act.UnregisterModel? || act.RetainModel? || act.ReleaseModelRef?
  }

  lemma RegistryFrame(w: World, act: Act)
    requires Enabled(w, act) && !TouchesRegistry(act)
    ensures Next(w, act).world.registry == w.registry
  {
    hide Candidates, Residents, Needed, Admission.Step, Admission.Replace, Admission.ReleaseModel;
  }

  /** One act moves a model's access stamp only by a counted access to it. */
  lemma ActAccesses(w: World, act: Act, id: string)
    requires Enabled(w, act) && !Unregisters(w, act, id)
    ensures var v := Next(w, act).world;
      && AccessStamp(v, id) == (if Accesses(w, act, id) then w.registry.nextAccess + 1 else AccessStamp(w, id))
      && v.registry.nextAccess >= w.registry.nextAccess + (if Accesses(w, act, id) then 1 else 0)
  {
    hide Candidates, DoPlan, DoBackend, DoReplace, DoFinalize, DoUnloadStart, DoUnloadFinish, DoLookup, Admission.Step,
      ValidName, ValidMetadata, ValidPath;
    if !TouchesRegistry(act) {
      RegistryFrame(w, act);
    }
  }

  lemma {:induction false} AccessStampStays(ws: seq<World>, acts: seq<Act>, i: nat, k: nat, id: string)
    requires IsRun(ws, acts) && i <= k <= |acts|
    requires forall j :: i <= j < k ==> !Unregisters(ws[j], acts[j], id)
    ensures ws[k].registry.nextAccess >= ws[i].registry.nextAccess
    ensures (forall j :: i <= j < k ==> !Accesses(ws[j], acts[j], id)) ==> AccessStamp(ws[k], id) == AccessStamp(ws[i], id)
    decreases k
  {
    hide Enabled, Next, Unregisters, Accesses;
    if i < k {
      AccessStampStays(ws, acts, i, k - 1, id);
      ActAccesses(ws[k - 1], acts[k - 1], id);
    }
  }

  /** Of two models, the one accessed later carries the greater stamp, whatever happened in between. */
  lemma LaterAccessIsLater(ws: seq<World>, acts: seq<Act>, i: nat, j: nat, k: nat, a: string, b: string)
    requires IsRun(ws, acts) && i < j < k <= |acts|
    requires Accesses(ws[i], acts[i], a) && Accesses(ws[j], acts[j], b)
    requires forall n :: i <= n < k ==> !Unregisters(ws[n], acts[n], a) && !Unregisters(ws[n], acts[n], b)
    requires forall n :: i < n < k ==> !Accesses(ws[n], acts[n], a)
    requires forall n :: j < n < k ==> !Accesses(ws[n], acts[n], b)
    ensures AccessStamp(ws[k], a) < AccessStamp(ws[k], b)
  {
    hide Enabled, Next, Unregisters, Accesses;
    ActAccesses(ws[i], acts[i], a);
    AccessStampStays(ws, acts, i + 1, j, a);
    AccessStampStays(ws, acts, i + 1, k, a);
    ActAccesses(ws[j], acts[j], b);
    AccessStampStays(ws, acts, j + 1, k, b);
  }

  lemma ActKeepsAccessOrder(w: World, act: Act)
    requires Enabled(w, act) && AccessOrdered(w.registry)
    ensures AccessOrdered(Next(w, act).world.registry)
  {
    hide AccessOrdered, Register, RegisterFile, Unregister, Retain, Release;
    if !TouchesRegistry(act) {
      RegistryFrame(w, act);
    }
    match act
    case RegisterModel(id, footprint, metadata) =>
      RegistrationsKeepAccessOrder(w.registry, id, footprint, "", metadata, None);
    case RegisterFileModel(id, path, metadata, size) =>
      RegistrationsKeepAccessOrder(w.registry, id, 0, path, metadata, size);
    case UnregisterModel(id) =>
      RegistrationsKeepAccessOrder(w.registry, id, 0, "", "", None);
    case RetainModel(id) =>
      AccessIsLatest(w.registry, id, Retain(w.registry, id).0, Retain(w.registry, id).1);
    case ReleaseModelRef(id) =>
      AccessIsLatest(w.registry, id, Release(w.registry, id).0, Release(w.registry, id).1);
    case _ =>
  }

  /** Over any run, no two accessed models share a stamp and none is ahead of the counter. */
  lemma {:induction false} AccessOrderInRuns(ws: seq<World>, acts: seq<Act>, k: nat)
    requires IsRun(ws, acts) && AccessOrdered(ws[0].registry) && k <= |acts|
    ensures AccessOrdered(ws[k].registry)
  {
    hide Enabled, Next, AccessOrdered;
    if k > 0 {
      AccessOrderInRuns(ws, acts, k - 1);
      ActKeepsAccessOrder(ws[k - 1], acts[k - 1]);
    }
  }
}
