/** What each call of the residency manager comes to when nobody steps in between: the exact condition
    of every answer, and what all four stores hold afterwards. */
module ResidencyOutcomes {
  import opened Common
  import Scheduler
  import Admission
  import AdmissionOutcomes
  import opened ModelStores
  import opened Residency
  import opened ResidencyLaws
  import opened Eviction

  /** The call was refused and changed nothing. */
  predicate Refused(w: World, s: Residency.Step, error: ModelError) {
    s.reply == Some(ModelResult(error, 0)) && s.world == w
  }

  predicate IsResident(w: World, id: string) { id in w.records && w.records[id].resident }

  // ---------------------------------------------------------------- registry

  /** Which answer a registration gets, for each answer exactly when. */
  lemma RegisterOutcome(w: World, id: string, footprint: Bytes, metadata: string)
    ensures var s := Next(w, RegisterModel(id, footprint, metadata));
      var sized := ValidName(id) && footprint > 0;
      && (Refused(w, s, InvalidId) <==> !ValidName(id))
      && (Refused(w, s, InvalidSize) <==> ValidName(id) && footprint == 0)
      && (Refused(w, s, InvalidMetadata) <==> sized && !ValidMetadata(metadata))
      && (Refused(w, s, DuplicateModel) <==> sized && ValidMetadata(metadata) && id in w.registry.models)
      && (sized && ValidMetadata(metadata) && id !in w.registry.models ==>
            && s.reply == Some(ModelResult(NoError, footprint))
            && s.world == w.(registry := Registry(w.registry.models[id := Model(id, metadata, footprint, 0, 0, "")],
                                                  w.registry.nextAccess)))
  {
    hide ValidName, ValidMetadata;
  }

  /** Which answer the registration of a file gets, for each answer exactly when. */
  lemma RegisterFileOutcome(w: World, id: string, path: string, metadata: string, size: Option<nat>)
    ensures var s := Next(w, RegisterFileModel(id, path, metadata, size));
      var named := ValidName(id) && ValidPath(path) && ValidMetadata(metadata);
      var found := size.Some? && 0 < size.value <= 0xFFFF_FFFF_FFFF_FFFF;
      && (Refused(w, s, InvalidId) <==> !ValidName(id))
      && (Refused(w, s, InvalidPath) <==> ValidName(id) && !ValidPath(path))
      && (Refused(w, s, InvalidMetadata) <==> ValidName(id) && ValidPath(path) && !ValidMetadata(metadata))
      && (Refused(w, s, FileUnavailable) <==> named && !found)
      && (Refused(w, s, DuplicateModel) <==> named && found && id in w.registry.models)
      && (named && found && id !in w.registry.models ==>
            && s.reply == Some(ModelResult(NoError, size.value))
            && s.world == w.(registry := Registry(w.registry.models[id := Model(id, metadata, size.value, 0, 0, path)],
                                                  w.registry.nextAccess)))
  {
    hide ValidName, ValidMetadata, ValidPath;
  }

  /** Which answer an unregistration gets: a model stays while it is resident or referenced. */
  lemma UnregisterOutcome(w: World, id: string)
    requires Inv(w) && w.phase.Idle?
    ensures var s := Next(w, UnregisterModel(id));
      var known, used := id in w.registry.models, IsResident(w, id);
      && (Refused(w, s, InvalidId) <==> !ValidName(id))
      && (Refused(w, s, UnknownModel) <==> ValidName(id) && !known)
      && (Refused(w, s, ModelInUse) <==> known && (used || w.registry.models[id].refCount > 0))
      && (known && !used && w.registry.models[id].refCount == 0 ==>
            && s.reply == Some(ModelResult(NoError, 0))
            && s.world == w.(registry := Registry(w.registry.models - {id}, w.registry.nextAccess),
                             records := w.records - {id}))
  {
    hide Admission.Inv, Stamped, ValidMetadata, ValidPath, ValidName;
  }

  /** After a counted access: the model carries the new count and the newest access stamp, its record
      the new count, and everything else is as it was. */
  ghost predicate Counts(w: World, t: World, id: string, count: nat)
    requires id in w.registry.models
  {
    && t == w.(registry := t.registry, records := t.records)
    && t.registry.nextAccess == w.registry.nextAccess + 1
    && t.registry.models ==
         w.registry.models[id := w.registry.models[id].(refCount := count, lastAccess := w.registry.nextAccess + 1)]
    && t.records == w.records[id :=
         if id in w.records then w.records[id].(refCount := count)
         else Record(id, w.registry.models[id].footprint, count, false, 0, 0, 0)]
  }

  /** A retain succeeds exactly for a registered model. */
  lemma RetainOutcome(w: World, id: string)
    requires Inv(w) && w.phase.Idle?
    ensures var s := Next(w, RetainModel(id));
      && (Refused(w, s, UnknownModel) <==> id !in w.registry.models)
      && (id in w.registry.models ==>
            && s.reply == Some(ModelResult(NoError, w.registry.models[id].refCount + 1))
            && Counts(w, s.world, id, w.registry.models[id].refCount + 1))
  {
    hide Admission.Inv, Stamped, ValidMetadata, ValidPath, ValidName;
  }

  /** A release succeeds exactly for a registered model that is referenced. */
  lemma ReleaseOutcome(w: World, id: string)
    requires Inv(w) && w.phase.Idle?
    ensures var s := Next(w, ReleaseModelRef(id));
      && (Refused(w, s, UnknownModel) <==> id !in w.registry.models)
      && (Refused(w, s, RefcountUnderflow) <==> id in w.registry.models && w.registry.models[id].refCount == 0)
      && (id in w.registry.models && w.registry.models[id].refCount > 0 ==>
            && s.reply == Some(ModelResult(NoError, w.registry.models[id].refCount - 1))
            && Counts(w, s.world, id, w.registry.models[id].refCount - 1))
  {
    hide Admission.Inv, Stamped, ValidMetadata, ValidPath, ValidName;
  }

  // --------------------------------------------------------------- unloading

  /** One call of unload with no other caller stepping in between. */
  function UnloadAlone(w: World, id: string, now: Scheduler.Time): Residency.Step
    requires w.phase.Idle?
  {
    var started := DoUnloadStart(w, id);
    if started.reply.Some? then started else DoUnloadFinish(started.world, now)
  }

  /** The model has left device, reservations and residents, and nothing else has moved but waiters
      that the freed memory lets in. */
  ghost predicate GoneFrom(w: World, t: World, id: string)
    requires id in w.records
  {
    && t == w.(records := w.records[id := w.records[id].(resident := false)], backend := w.backend - {id},
               resources := t.resources)
    && t.resources.models == w.resources.models - {id}
    && AdmissionOutcomes.Kept(w.resources.reservations, t.resources.reservations)
  }

  /** An unload succeeds exactly for a registered, resident model that nobody references. */
  lemma UnloadOutcome(w: World, id: string, now: Scheduler.Time)
    requires Inv(w) && w.phase.Idle?
    ensures var s, known := UnloadAlone(w, id, now), id in w.registry.models;
      && (Refused(w, s, UnknownModel) <==> !known)
      && (Refused(w, s, UnknownResidency) <==> known && !IsResident(w, id))
      && (Refused(w, s, ModelInUse) <==> IsResident(w, id) && w.records[id].refCount > 0)
      && (IsResident(w, id) && w.records[id].refCount == 0 ==>
            && s.reply == Some(ModelResult(NoError, w.records[id].footprint))
            && GoneFrom(w, s.world, id) && Inv(s.world))
  {
    hide Admission.Inv, Stamped, Admission.ReleaseModel;
    if id in w.registry.models && IsResident(w, id) && w.records[id].refCount == 0 {
      UnloadStarts(w, id);
      UnloadEnds(w, id, now);
    } else {
      assert IsResident(w, id) ==> id in w.registry.models;
    }
  }

  lemma UnloadStarts(w: World, id: string)
    requires Inv(w) && w.phase.Idle? && IsResident(w, id) && w.records[id].refCount == 0
    ensures DoUnloadStart(w, id) == Step(w.(backend := w.backend - {id}, phase := Unloading(id)), None)
  {
    hide Admission.Inv, Stamped, ValidMetadata, ValidPath, ValidName;
    assert id in Residents(w.records);
    assert Listable(w.registry.models[id]);
  }

  lemma UnloadEnds(w: World, id: string, now: Scheduler.Time)
    requires Inv(w) && w.phase.Idle? && IsResident(w, id) && w.records[id].refCount == 0
    ensures var s := DoUnloadFinish(DoUnloadStart(w, id).world, now);
      && s.reply == Some(ModelResult(NoError, w.records[id].footprint))
      && GoneFrom(w, s.world, id) && Inv(s.world)
  {
    hide Admission.Inv, Stamped, Mirrored, Admission.ReleaseModel;
    UnloadStarts(w, id);
    var started := DoUnloadStart(w, id).world;
    UnloadStartKeepsInv(w, id);
    UnloadNeverRollsBack(started, now);
    UnloadFinishKeepsInv(started, now);
    AdmissionOutcomes.ReleaseModelOutcome(w.resources, id, now);
    assert id in Residents(w.records) && id in w.resources.models;
    assert ValidName(id) by { AdmittedNames(w.resources, id); }
  }

  lemma AdmittedNames(s: Admission.State, id: string)
    requires Admission.Inv(s) && id in s.models
    ensures ValidName(id)
  {
  }

  // ----------------------------------------------------------------- loading

  /** The model is resident in all four stores, the victims are in none but the registry and their
      records, and nothing else has moved but waiters that the freed memory lets in. */
  ghost predicate LoadedInto(w: World, t: World, id: string, victims: seq<string>, cost: nat)
    requires id in w.registry.models
  {
    var model := w.registry.models[id];
    && t == w.(records := t.records, backend := t.backend, resources := t.resources, nextLoaded := w.nextLoaded + 1)
    && t.records.Keys == w.records.Keys + {id}
    && (forall n :: n in w.records && n != id ==>
          t.records[n] == if n in victims then w.records[n].(resident := false) else w.records[n])
    && t.records[id] == Record(id, model.footprint, model.refCount, true, w.nextLoaded + 1,
                               (if id in w.records then w.records[id].loadCount else 0) + 1,
                               if cost == 0 then 1 else cost)
    && AdmissionOutcomes.Exchanged(w.backend, victims, id, model.footprint, t.backend)
    && AdmissionOutcomes.Exchanged(w.resources.models, victims, id, model.footprint, t.resources.models)
    && AdmissionOutcomes.Kept(w.resources.reservations, t.resources.reservations)
  }

  /** What the file behind a model can spoil. */
  function FileError(file: FileOutcome): ModelError
    requires !file.FileOk?
  {
    match file
    case FileGone => FileUnavailable
    case FileChanged => SourceChanged
    case FileUnreadable => ReadFailure
  }

  lemma DeviceAnswers(w: World, file: FileOutcome, accepts: bool, cost: nat)
    requires Inv(w) && w.phase.Planned?
    ensures var model := w.phase.model;
      DoBackend(w, file, accepts, cost) ==
        if model.sourcePath != "" && !file.FileOk? then Fail(w.(phase := Idle), FileError(file))
        else if !accepts then Fail(w.(phase := Idle), BackendFailure)
        else Step(w.(backend := w.backend[model.id := model.footprint],
                     phase := Loaded(model, w.phase.victims, if cost == 0 then 1 else cost)), None)
  {
    hide Admission.Inv, Stamped, Mirrored, ValidMetadata, ValidPath, ValidName, Candidates;
    assert w.phase.model.id !in w.backend;
    assert Listable(w.phase.model);
  }

  lemma SwapAnswers(w: World, now: Scheduler.Time)
    requires Inv(w) && w.phase.Loaded?
    requires forall i :: 0 <= i < |w.phase.victims| ==> w.phase.victims[i] in Residents(w.records)
    requires w.phase.model.footprint <= w.resources.Free() + Admission.SumOf(Residents(w.records), w.phase.victims)
    ensures var s, model := DoReplace(w, now), w.phase.model;
      && s == Step(w.(resources := s.world.resources, phase := Swapped(model, w.phase.victims, w.phase.cost)), None)
      && AdmissionOutcomes.Exchanged(w.resources.models, w.phase.victims, model.id, model.footprint,
                                     s.world.resources.models)
      && AdmissionOutcomes.Kept(w.resources.reservations, s.world.resources.reservations)
  {
    hide Admission.Inv, Stamped, Mirrored, Admission.Replace, AdmissionOutcomes.Exchanged, AdmissionOutcomes.Kept,
      AdmissionOutcomes.RoundFollows;
    ReplaceFits(w, now);
    AdmissionOutcomes.ReplaceOutcome(w.resources, w.phase.victims, w.phase.model.id, w.phase.model.footprint, now);
    ReplaceFrame(w.resources, w.phase.victims, w.phase.model.id, w.phase.model.footprint, now);
  }

  lemma FinalAnswers(w: World)
    requires w.phase.Swapped? && w.phase.model.id !in w.phase.victims
    ensures var s, model, victims := DoFinalize(w), w.phase.model, w.phase.victims;
      && s.reply == Some(ModelResult(NoError, model.footprint))
      && s.world == w.(records := s.world.records, backend := s.world.backend, nextLoaded := w.nextLoaded + 1, phase := Idle)
      && s.world.records.Keys == w.records.Keys + {model.id}
      && (forall n :: n in w.records && n != model.id ==>
            s.world.records[n] == if n in victims then w.records[n].(resident := false) else w.records[n])
      && s.world.records[model.id] == Record(model.id, model.footprint, model.refCount, true, w.nextLoaded + 1,
                                             (if model.id in w.records then w.records[model.id].loadCount else 0) + 1,
                                             w.phase.cost)
      && (forall n :: n in s.world.backend <==> n in w.backend && n !in victims)
      && (forall n :: n in s.world.backend ==> s.world.backend[n] == w.backend[n])
  {
    forall n ensures n in w.phase.victims <==> n in Admission.Elements(w.phase.victims) {
    }
  }

  /** From a plan that makes room, with a device that accepts. */
  lemma PlanIsCarriedOut(w: World, cost: nat, now: Scheduler.Time)
    requires Inv(w) && w.phase.Planned?
    requires forall i :: 0 <= i < |w.phase.victims| ==> w.phase.victims[i] in Residents(w.records)
    requires w.phase.model.footprint <= w.resources.Free() + Admission.SumOf(Residents(w.records), w.phase.victims)
    ensures var s, model := Completion(w, FileOk, true, cost, now), w.phase.model;
      && s.reply == Some(ModelResult(NoError, model.footprint))
      && model.id in w.registry.models && model == w.registry.models[model.id]
      && LoadedInto(w.(phase := Idle), s.world, model.id, w.phase.victims, cost)
  {
    hide Inv, DoBackend, DoReplace, DoFinalize, Residents, AdmissionOutcomes.Kept;
    DeviceAnswers(w, FileOk, true, cost);
    BackendKeepsInv(w, FileOk, true, cost);
    var loaded := DoBackend(w, FileOk, true, cost).world;
    SwapAnswers(loaded, now);
    var swapped := DoReplace(loaded, now).world;
    PlannedModel(w);
    FinalAnswers(swapped);
  }

  lemma PlannedModel(w: World)
    requires Inv(w) && w.phase.Planned?
    ensures var model := w.phase.model;
      model.id in w.registry.models && model == w.registry.models[model.id] && model.id !in w.phase.victims
      && model.id !in w.backend && w.resources.models == w.backend
  {
    hide Admission.Inv, Stamped, Mirrored;
    forall i | 0 <= i < |w.phase.victims| ensures w.phase.victims[i] != w.phase.model.id {
      assert Evictable(w.records, w.phase.victims[i]);
    }
  }

  lemma PlanAnswers(w: World, id: string, order: seq<string>) returns (victims: seq<string>)
    requires Inv(w) && w.phase.Idle? && Candidates(w.records, order)
    requires id in w.registry.models && !IsResident(w, id)
    ensures forall i :: 0 <= i < |order| ==> order[i] in Residents(w.records)
    ensures var model := w.registry.models[id];
      var looked := w.(phase := Looked(model));
      && DoLookup(w, id) == Step(looked, None) && looked.phase.Looked?
      && (if model.footprint <= w.resources.Free() + Total(EvictableBytes(w.records))
          then
            && DoPlan(looked, order) == Step(w.(phase := Planned(model, victims)), None)
            && Inv(w.(phase := Planned(model, victims))) && model.id == id
            && MakesRoom(Residents(w.records), order, w.resources.Free(), model.footprint, victims)
          else DoPlan(looked, order) == Fail(w, InsufficientMemory))
  {
    hide Inv, DoPlan, Residents, EvictableBytes, Candidates, Evictable, MakesRoom;
    RankedAreEvictable(w.records, order);
    assert w.registry.models[id].id == id by { RegisteredUnderId(w, id); }
    LooksUp(w, id);
    var looked := DoLookup(w, id).world;
    LookupKeepsInv(w, id);
    CandidatesCoverEvictable(w.records, order);
    PlanFailsIff(looked, order);
    PlanReplies(looked, order);
    victims := [];
    if DoPlan(looked, order).world.phase.Planned? {
      victims := DoPlan(looked, order).world.phase.victims;
      PlanKeepsInv(looked, order);
      PlanIsShortestPrefix(looked, order);
    } else {
      assert looked.(phase := Idle) == w;
    }
  }

  lemma RegisteredUnderId(w: World, id: string)
    requires Inv(w) && id in w.registry.models
    ensures w.registry.models[id].id == id
  {
  }

  lemma LooksUp(w: World, id: string)
    requires w.phase.Idle? && id in w.registry.models && !IsResident(w, id)
    ensures DoLookup(w, id) == Step(w.(phase := Looked(w.registry.models[id])), None)
  {
  }

  /** A registered model that is not resident and for which there is room, once the file and the device
      allow it. */
  lemma LoadWithRoom(w: World, planned: World, file: FileOutcome, accepts: bool, cost: nat, now: Scheduler.Time)
    requires Inv(planned) && planned.phase.Planned? && w == planned.(phase := Idle)
    requires forall i :: 0 <= i < |planned.phase.victims| ==> planned.phase.victims[i] in Residents(w.records)
    requires planned.phase.model.footprint <= w.resources.Free() + Admission.SumOf(Residents(w.records), planned.phase.victims)
    ensures var s, model := Completion(planned, file, accepts, cost, now), planned.phase.model;
      if model.sourcePath != "" && !file.FileOk? then Refused(w, s, FileError(file))
      else if !accepts then Refused(w, s, BackendFailure)
      else
        && s.reply == Some(ModelResult(NoError, model.footprint))
        && model.id in w.registry.models && LoadedInto(w, s.world, model.id, planned.phase.victims, cost)
  {
    hide Inv, DoBackend, DoReplace, DoFinalize, Residents, LoadedInto;
    DeviceAnswers(planned, file, accepts, cost);
    DeviceAnswers(planned, FileOk, true, cost);
    PlanIsCarriedOut(planned, cost, now);
  }

  /** One whole load with nobody in between, for every model, file, device and cost: which answer it
      gets, exactly when, and what it leaves behind.  An unsuccessful load leaves the world as it was. */
  lemma LoadOutcome(w: World, id: string, order: seq<string>, file: FileOutcome, accepts: bool, cost: nat,
                    now: Scheduler.Time) returns (victims: seq<string>)
    requires Inv(w) && w.phase.Idle? && Candidates(w.records, order)
    ensures forall i :: 0 <= i < |order| ==> order[i] in Residents(w.records) && Evictable(w.records, order[i])
    ensures var s := LoadAlone(w, id, order, file, accepts, cost, now);
      if id !in w.registry.models then Refused(w, s, UnknownModel)
      else
        var model := w.registry.models[id];
        if IsResident(w, id) then s == Step(w, Some(ModelResult(NoError, model.footprint)))
        else if model.footprint > w.resources.Free() + Total(EvictableBytes(w.records)) then Refused(w, s, InsufficientMemory)
        else if model.sourcePath != "" && !file.FileOk? then Refused(w, s, FileError(file))
        else if !accepts then Refused(w, s, BackendFailure)
        else
          && s.reply == Some(ModelResult(NoError, model.footprint))
          && MakesRoom(Residents(w.records), order, w.resources.Free(), model.footprint, victims)
          && LoadedInto(w, s.world, id, victims, cost)
  {
    hide Inv, DoPlan, Residents, EvictableBytes, Candidates, Evictable, Completion, LoadedInto;
    RankedAreEvictable(w.records, order);
    RankedAreResident(w.records, order);
    victims := [];
    if id in w.registry.models {
      if IsResident(w, id) {
        FootprintIsRegistered(w, id);
      } else {
        victims := PlanAnswers(w, id, order);
        if w.registry.models[id].footprint <= w.resources.Free() + Total(EvictableBytes(w.records)) {
          LoadWithRoom(w, w.(phase := Planned(w.registry.models[id], victims)), file, accepts, cost, now);
        }
      }
    }
  }

  lemma FootprintIsRegistered(w: World, id: string)
    requires Inv(w) && IsResident(w, id)
    ensures id in w.registry.models && w.records[id].footprint == w.registry.models[id].footprint
  {
  }
}
