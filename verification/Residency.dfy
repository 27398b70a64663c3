/** Model residency as a state machine over four stores.  `load` and `unload` hold the residency
    mutex but enter the resource manager in separate critical sections, so they are split into
    phases between which other callers may step. */
module Residency {
  import opened Common
  import Scheduler
  import Admission
  import opened ModelStores

  datatype Record = Record(
    id: string, footprint: Bytes, refCount: nat, resident: bool, lastLoaded: nat, loadCount: nat, cost: nat)

  /** How far the call that holds the residency mutex has come, with its local variables. */
  datatype Phase =
    | Idle
    | Looked(model: Model)
    | Planned(model: Model, victims: seq<string>)
    | Loaded(model: Model, victims: seq<string>, cost: nat)
    | Swapped(model: Model, victims: seq<string>, cost: nat)
    | Unloading(id: string)

  datatype World = World(
    registry: Registry,
    resources: Admission.State,
    backend: map<string, Bytes>,
    records: map<string, Record>,
    nextLoaded: nat,
    phase: Phase)

  datatype FileOutcome = FileOk | FileGone | FileChanged | FileUnreadable

  datatype Act =
    | Client(event: Admission.Event)
    | RegisterModel(id: string, footprint: Bytes, metadata: string)
    | RegisterFileModel(id: string, path: string, metadata: string, size: Option<nat>)
    | UnregisterModel(id: string)
    | RetainModel(id: string)
    | ReleaseModelRef(id: string)
    | LoadLookup(id: string)
    | LoadPlan(order: seq<string>)              // the order the sort left the candidates in, whatever it is
    | LoadBackend(file: FileOutcome, accepts: bool, cost: nat)
    | LoadReplace(now: Scheduler.Time)
    | LoadFinalize
    | UnloadStart(id: string)
    | UnloadFinish(now: Scheduler.Time)

  datatype Step = Step(world: World, reply: Option<ModelResult>)

  function Fail(w: World, error: ModelError): Step { Step(w, Some(Failed(error))) }

  // ---------------------------------------------------------------- eviction

  /** What floating-point arithmetic makes of an exact value. */
  type Rounding = real -> real

  function Times(x: real, y: real): real { x * y }

  /** The divisor of a score is at least one, rounded. */
  function Quotient(x: real, y: real): real { if y == 0.0 then 0.0 else x / y }

  /** The eviction score lastLoaded * cost * (loadCount + 1) / footprint, every operand and every
      result rounded. */
  function Score(round: Rounding, r: Record): real {
    var last, cost := round(r.lastLoaded as real), round((if r.cost < 1 then 1 else r.cost) as real);
    var history, bytes := round((r.loadCount + 1) as real), round((if r.footprint < 1 then 1 else r.footprint) as real);
    round(Quotient(round(Times(round(Times(last, cost)), history)), bytes))
  }

  function ScoreLess(round: Rounding): (Record, Record) -> bool {
    (a: Record, b: Record) => Score(round, a) < Score(round, b)
  }

  predicate Evictable(records: map<string, Record>, id: string) {
    id in records && records[id].resident && records[id].refCount == 0
  }

  /** All evictable models, in some order. */
  ghost predicate Candidates(records: map<string, Record>, order: seq<string>) {
    && !Admission.Repeats(order)
    && (forall i :: 0 <= i < |order| ==> Evictable(records, order[i]))
    && (forall id :: Evictable(records, id) ==> id in order)
  }

  /** Nobody comes after somebody it is to precede. */
  ghost predicate RankedBy(less: (Record, Record) -> bool, records: map<string, Record>, order: seq<string>) {
    forall i, j :: 0 <= i < j < |order| && order[i] in records && order[j] in records ==>
      !less(records[order[j]], records[order[i]])
  }

  /** A ranking of all evictable models by score, ties in any order. */
  ghost predicate Ranking(round: Rounding, records: map<string, Record>, order: seq<string>) {
    Candidates(records, order) && RankedBy(ScoreLess(round), records, order)
  }

  /** The bytes of the resident models. */
  function Residents(records: map<string, Record>): map<string, Bytes> {
    map id | id in records && records[id].resident :: records[id].footprint
  }

  /** How many candidates the planning loop takes, having taken k. */
  function Needed(m: map<string, Bytes>, order: seq<string>, available: int, need: int, k: nat): (n: nat)
    requires k <= |order| && forall i :: 0 <= i < |order| ==> order[i] in m
    ensures k <= n <= |order|
    decreases |order| - k
  {
    if available >= need || k == |order| then k
    else Needed(m, order, available + m[order[k]], need, k + 1)
  }

  // -------------------------------------------------------------------- acts

  function DoUnregister(w: World, id: string): Step {
    if id in w.records && w.records[id].resident then Fail(w, ModelInUse)
    else
      var (g, r) := Unregister(w.registry, id);
      Step(w.(registry := g, records := if r.error == NoError then w.records - {id} else w.records), Some(r))
  }

  /** Both retain and release copy the registry's new count into the record, creating it. */
  function Recounted(w: World, id: string, g: Registry, r: ModelResult): Step
    requires id in w.registry.models
  {
    if r.error != NoError then Step(w.(registry := g), Some(r))
    else
      var record := if id in w.records then w.records[id].(refCount := r.amount)
                    else Record(id, w.registry.models[id].footprint, r.amount, false, 0, 0, 0);
      Step(w.(registry := g, records := w.records[id := record]), Some(r))
  }

  function DoRetain(w: World, id: string): Step {
    if id !in w.registry.models then Fail(w, UnknownModel)
    else var (g, r) := Retain(w.registry, id); Recounted(w, id, g, r)
  }

  function DoRelease(w: World, id: string): Step {
    if id !in w.registry.models then Fail(w, UnknownModel)
    else var (g, r) := Release(w.registry, id); Recounted(w, id, g, r)
  }

  function DoLookup(w: World, id: string): Step {
    if id !in w.registry.models then Fail(w, UnknownModel)
    else if id in w.records && w.records[id].resident then
      Step(w, Some(ModelResult(NoError, w.records[id].footprint)))
    else Step(w.(phase := Looked(w.registry.models[id])), None)
  }

  /** The outcome of planning against one status snapshot. */
  function DoPlan(w: World, order: seq<string>): Step
    requires w.phase.Looked?
    requires forall i :: 0 <= i < |order| ==> Evictable(w.records, order[i])
  {
    var model, free := w.phase.model, w.resources.Free();
    if model.footprint > w.resources.capacity then Fail(w.(phase := Idle), InsufficientMemory)
    else if free >= model.footprint then Step(w.(phase := Planned(model, [])), None)
    else
      var m := Residents(w.records);
      assert forall i :: 0 <= i < |order| ==> Evictable(w.records, order[i]) && order[i] in m;
      var k := Needed(m, order, free, model.footprint, 0);
      if free + Admission.SumOf(m, order[..k]) < model.footprint then Fail(w.(phase := Idle), InsufficientMemory)
      else Step(w.(phase := Planned(model, order[..k])), None)
  }

  /** A model without a source path is loaded by size; otherwise the file must read back with the
      registered size first.  A backend may also refuse for reasons of its own. */
  function DoBackend(w: World, file: FileOutcome, accepts: bool, cost: nat): Step
    requires w.phase.Planned?
  {
    var model := w.phase.model;
    if model.sourcePath != "" && file == FileGone then Fail(w.(phase := Idle), FileUnavailable)
    else if model.sourcePath != "" && file == FileChanged then Fail(w.(phase := Idle), SourceChanged)
    else if model.sourcePath != "" && file == FileUnreadable then Fail(w.(phase := Idle), ReadFailure)
    else
      var (b, error) := Load(w.backend, model.id, model.footprint);
      if error != BackendOk || !accepts then Fail(w.(phase := Idle), BackendFailure)
      else Step(w.(backend := b, phase := Loaded(model, w.phase.victims, if cost < 1 then 1 else cost)), None)
  }

  /** Reserve, or take the model out of the backend again. */
  function DoReplace(w: World, now: Scheduler.Time): Step
    requires w.phase.Loaded?
  {
    var model := w.phase.model;
    var o := Admission.Replace(w.resources, w.phase.victims, model.id, model.footprint, now);
    if o.reply == Some(Admission.OperationResult(Admission.NoError, model.footprint)) then
      Step(w.(resources := o.state, phase := Swapped(model, w.phase.victims, w.phase.cost)), None)
    else
      Fail(w.(resources := o.state, backend := Unload(w.backend, model.id).0, phase := Idle), InsufficientMemory)
  }

  function Evicted(records: map<string, Record>, victims: seq<string>): map<string, Record> {
    map id | id in records :: if id in victims then records[id].(resident := false) else records[id]
  }

  function DoFinalize(w: World): Step
    requires w.phase.Swapped?
  {
    var model, records := w.phase.model, Evicted(w.records, w.phase.victims);
    var loads := if model.id in records then records[model.id].loadCount else 0;
    var record := Record(model.id, model.footprint, model.refCount, true, w.nextLoaded + 1, loads + 1, w.phase.cost);
    Step(w.(backend := w.backend - Admission.Elements(w.phase.victims), records := records[model.id := record],
            nextLoaded := w.nextLoaded + 1, phase := Idle),
         Some(ModelResult(NoError, model.footprint)))
  }

  function DoUnloadStart(w: World, id: string): Step {
    if id !in w.registry.models then Fail(w, UnknownModel)
    else if id !in w.records || !w.records[id].resident then Fail(w, UnknownResidency)
    else if w.records[id].refCount != 0 then Fail(w, ModelInUse)
    else
      var (b, error) := Unload(w.backend, id);
      if error != BackendOk then Fail(w, BackendFailure)
      else Step(w.(backend := b, phase := Unloading(id)), None)
  }

  function DoUnloadFinish(w: World, now: Scheduler.Time): Step
    requires w.phase.Unloading? && w.phase.id in w.records
  {
    var id := w.phase.id;
    var record := w.records[id];
    var o := Admission.ReleaseModel(w.resources, id, now);
    if o.reply.Some? && o.reply.value.error == Admission.NoError then
      Step(w.(resources := o.state, records := w.records[id := record.(resident := false)], phase := Idle),
           Some(ModelResult(NoError, record.footprint)))
    else
      Fail(w.(resources := o.state, backend := Load(w.backend, id, record.footprint).0, phase := Idle), UnknownResidency)
  }

  // -------------------------------------------------------------------- steps

  /** Client traffic reaches the resource manager directly; model reservations are only touched
      through the residency manager. */
  predicate IsClientEvent(e: Admission.Event) { !e.DoAcquireModel? && !e.DoReleaseModel? && !e.DoReplace? }

  /** Residency calls wait for the mutex; client traffic and registrations do not. */
  ghost predicate Enabled(w: World, act: Act) {
    match act
    case Client(e) => IsClientEvent(e)
    case RegisterModel(_, _, _) => true
    case RegisterFileModel(_, _, _, _) => true
    case LoadPlan(order) => w.phase.Looked? && Candidates(w.records, order)
    case LoadBackend(_, _, _) => w.phase.Planned?
    case LoadReplace(_) => w.phase.Loaded?
    case LoadFinalize => w.phase.Swapped?
    case UnloadFinish(_) => w.phase.Unloading? && w.phase.id in w.records
    case _ => w.phase.Idle?
  }

  ghost function Next(w: World, act: Act): Step
    requires Enabled(w, act)
  {
    match act
    case Client(e) => Step(w.(resources := Admission.Step(w.resources, e).state), None)
    case RegisterModel(id, footprint, metadata) =>
      var (g, r) := Register(w.registry, id, footprint, metadata); Step(w.(registry := g), Some(r))
    case RegisterFileModel(id, path, metadata, size) =>
      var (g, r) := RegisterFile(w.registry, id, path, metadata, size); Step(w.(registry := g), Some(r))
    case UnregisterModel(id) => DoUnregister(w, id)
    case RetainModel(id) => DoRetain(w, id)
    case ReleaseModelRef(id) => DoRelease(w, id)
    case LoadLookup(id) => DoLookup(w, id)
    case LoadPlan(order) => DoPlan(w, order)
    case LoadBackend(file, accepts, cost) => DoBackend(w, file, accepts, cost)
    case LoadReplace(now) => DoReplace(w, now)
    case LoadFinalize => DoFinalize(w)
    case UnloadStart(id) => DoUnloadStart(w, id)
    case UnloadFinish(now) => DoUnloadFinish(w, now)
  }

  function Initial(resources: Admission.State): World {
    World(Registry(map[], 0), resources, map[], map[], 0, Idle)
  }

  // --------------------------------------------------------------- invariants

  ghost predicate WellRegistered(g: Registry) {
    forall id :: id in g.models ==> g.models[id].id == id && Listable(g.models[id]) && g.models[id].footprint > 0
  }

  /** Records mirror the registry; an unrecorded model has no references. */
  ghost predicate Mirrored(w: World) {
    && (forall id :: id in w.records ==>
          && id in w.registry.models && w.records[id].id == id
          && w.records[id].footprint == w.registry.models[id].footprint
          && w.records[id].refCount == w.registry.models[id].refCount)
    && (forall id :: id in w.registry.models && id !in w.records ==> w.registry.models[id].refCount == 0)
  }

  /** Load-order stamps are distinct among resident models and below the next one. */
  ghost predicate Stamped(w: World) {
    && (forall id :: id in w.records ==> w.records[id].lastLoaded <= w.nextLoaded)
    && (forall a, b :: a in w.records && b in w.records && a != b && w.records[a].resident && w.records[b].resident
          ==> w.records[a].lastLoaded != w.records[b].lastLoaded)
  }

  /** What the local variables of the call in progress still stand for. */
  ghost predicate InProgress(w: World) {
    match w.phase
    case Idle => true
    case Unloading(id) => Evictable(w.records, id)
    case Looked(model) => Loading(w, model, [])
    case Planned(model, victims) => Loading(w, model, victims)
    case Loaded(model, victims, _) => Loading(w, model, victims)
    case Swapped(model, victims, _) => Loading(w, model, victims)
  }

  ghost predicate Loading(w: World, model: Model, victims: seq<string>) {
    && model.id in w.registry.models && model == w.registry.models[model.id]
    && model.id !in Residents(w.records)
    && !Admission.Repeats(victims) && forall i :: 0 <= i < |victims| ==> Evictable(w.records, victims[i])
  }

  /** The model reservations the resource manager should hold in this phase. */
  ghost function Reserved(w: World): map<string, Bytes> {
    match w.phase
    case Swapped(model, victims, _) => (Residents(w.records) - Admission.Elements(victims))[model.id := model.footprint]
    case _ => Residents(w.records)
  }

  /** The allocations the accelerator should hold in this phase. */
  ghost function OnDevice(w: World): map<string, Bytes> {
    match w.phase
    case Loaded(model, _, _) => Residents(w.records)[model.id := model.footprint]
    case Swapped(model, _, _) => Residents(w.records)[model.id := model.footprint]
    case Unloading(id) => Residents(w.records) - {id}
    case _ => Residents(w.records)
  }

  /** The four stores agree, phase by phase. */
  ghost predicate Inv(w: World) {
    && Admission.Inv(w.resources)
    && WellRegistered(w.registry) && Mirrored(w) && Stamped(w) && InProgress(w)
    && w.resources.models == Reserved(w)
    && w.backend == OnDevice(w)
  }
}
