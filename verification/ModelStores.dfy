/** The model registry and the accelerator store, each as a value and as the class that holds it. */
module ModelStores {
  import opened Common

  datatype ModelError =
    | NoError | InvalidId | InvalidMetadata | InvalidSize | DuplicateModel | UnknownModel | ModelInUse
    | RefcountUnderflow | UnknownResidency | InsufficientMemory | BackendFailure | InvalidPath
    | FileUnavailable | SourceChanged | ReadFailure

  /** The amount is a byte count or, for retain and release, the new reference count. */
  datatype ModelResult = ModelResult(error: ModelError, amount: nat)

  function Failed(error: ModelError): ModelResult { ModelResult(error, 0) }

  datatype Model = Model(
    id: string, metadata: string, footprint: Bytes, refCount: nat, lastAccess: nat, sourcePath: string)

  datatype Registry = Registry(models: map<string, Model>, nextAccess: nat)

  predicate ValidMetadata(metadata: string) {
    0 < |metadata| <= 128 && forall i :: 0 <= i < |metadata| ==> ' ' < metadata[i] <= '~'
  }

  /** Bytes above 127 are accepted, control characters are not. */
  predicate ValidPath(path: string) {
    0 < |path| <= 4096 && forall i :: 0 <= i < |path| ==> ' ' <= path[i] && path[i] != '\U{7F}'
  }

  /** The same in character codes: metadata is printable without blanks, a path free of control
      characters. */
  lemma ValidTextsIff(s: string)
    ensures ValidMetadata(s) <==> 1 <= |s| <= 128 && forall i :: 0 <= i < |s| ==> 33 <= s[i] as int <= 126
    ensures ValidPath(s) <==> 1 <= |s| <= 4096 && forall i :: 0 <= i < |s| ==> s[i] as int >= 32 && s[i] as int != 127
  {
  }

  /** What the validators leave of a model's texts. */
  predicate Listable(m: Model) {
    ValidName(m.id) && ValidMetadata(m.metadata) && (m.sourcePath == "" || ValidPath(m.sourcePath))
  }

  function Register(g: Registry, id: string, footprint: Bytes, metadata: string): (Registry, ModelResult) {
    if !ValidName(id) then (g, Failed(InvalidId))
    else if footprint == 0 then (g, Failed(InvalidSize))
    else if !ValidMetadata(metadata) then (g, Failed(InvalidMetadata))
    else if id in g.models then (g, Failed(DuplicateModel))
    else (g.(models := g.models[id := Model(id, metadata, footprint, 0, 0, "")]), ModelResult(NoError, footprint))
  }

  /** The file system answers with a size, or None when there is no readable regular file. */
  function RegisterFile(g: Registry, id: string, path: string, metadata: string, size: Option<nat>)
    : (Registry, ModelResult)
  {
    if !ValidName(id) then (g, Failed(InvalidId))
    else if !ValidPath(path) then (g, Failed(InvalidPath))
    else if !ValidMetadata(metadata) then (g, Failed(InvalidMetadata))
    else if size == None || size.value == 0 || size.value > MAX_BYTES then (g, Failed(FileUnavailable))
    else if id in g.models then (g, Failed(DuplicateModel))
    else (g.(models := g.models[id := Model(id, metadata, size.value, 0, 0, path)]), ModelResult(NoError, size.value))
  }

  function Unregister(g: Registry, id: string): (Registry, ModelResult) {
    if !ValidName(id) then (g, Failed(InvalidId))
    else if id !in g.models then (g, Failed(UnknownModel))
    else if g.models[id].refCount != 0 then (g, Failed(ModelInUse))
    else (g.(models := g.models - {id}), ModelResult(NoError, 0))
  }

  function Retain(g: Registry, id: string): (Registry, ModelResult) {
    if !ValidName(id) then (g, Failed(InvalidId))
    else if id !in g.models then (g, Failed(UnknownModel))
    else
      var count := g.models[id].refCount + 1;
      (Registry(g.models[id := g.models[id].(refCount := count, lastAccess := g.nextAccess + 1)], g.nextAccess + 1),
       ModelResult(NoError, count))
  }

  function Release(g: Registry, id: string): (Registry, ModelResult) {
    if !ValidName(id) then (g, Failed(InvalidId))
    else if id !in g.models then (g, Failed(UnknownModel))
    else if g.models[id].refCount == 0 then (g, Failed(RefcountUnderflow))
    else
      var count := g.models[id].refCount - 1;
      (Registry(g.models[id := g.models[id].(refCount := count, lastAccess := g.nextAccess + 1)], g.nextAccess + 1),
       ModelResult(NoError, count))
  }

  /** Access stamps are at most the last one given out, and shared only by models never accessed. */
  ghost predicate AccessOrdered(g: Registry) {
    && (forall id :: id in g.models ==> g.models[id].lastAccess <= g.nextAccess)
    && (forall a, b :: a in g.models && b in g.models && a != b && g.models[a].lastAccess > 0
          ==> g.models[a].lastAccess != g.models[b].lastAccess)
  }

  lemma RegistrationsKeepAccessOrder(
    g: Registry, id: string, footprint: Bytes, path: string, metadata: string, size: Option<nat>)
    requires AccessOrdered(g)
    ensures AccessOrdered(Register(g, id, footprint, metadata).0) && AccessOrdered(Unregister(g, id).0)
    ensures AccessOrdered(RegisterFile(g, id, path, metadata, size).0)
  {
    hide ValidName, ValidMetadata, ValidPath, AccessOrdered;
    UnaccessedKeepsOrder(g, id, Model(id, metadata, footprint, 0, 0, ""));
    if size.Some? && 0 < size.value <= MAX_BYTES {
      UnaccessedKeepsOrder(g, id, Model(id, metadata, size.value, 0, 0, path));
    }
    assert AccessOrdered(g.(models := g.models - {id})) by { FewerKeepOrder(g, id); }
  }

  lemma UnaccessedKeepsOrder(g: Registry, id: string, model: Model)
    requires AccessOrdered(g) && model.lastAccess == 0
    ensures id !in g.models ==> AccessOrdered(g.(models := g.models[id := model]))
  {
  }

  lemma FewerKeepOrder(g: Registry, id: string)
    requires AccessOrdered(g)
    ensures AccessOrdered(g.(models := g.models - {id}))
  {
  }

  /** Each counted access makes its model the latest accessed one, and keeps the order of the rest. */
  lemma AccessIsLatest(g: Registry, id: string, h: Registry, r: ModelResult)
    requires AccessOrdered(g) && ((h, r) == Retain(g, id) || (h, r) == Release(g, id))
    ensures AccessOrdered(h)
    ensures r.error == NoError ==> (
      id in h.models &&
      forall other :: other in g.models && other != id ==>
        other in h.models && h.models[other] == g.models[other] && h.models[other].lastAccess < h.models[id].lastAccess)
  {
    hide ValidName;
  }

  class ModelRegistry {
    var models: map<string, Model>
    var nextAccess: nat

    ghost function State(): Registry
      reads this
    {
      Registry(models, nextAccess)
    }

    constructor ()
      ensures State() == Registry(map[], 0)
    {
      models, nextAccess := map[], 0;
    }

    method RegisterModel(id: string, footprint: Bytes, metadata: string) returns (r: ModelResult)
      modifies this
      ensures (State(), r) == Register(old(State()), id, footprint, metadata)
    {
      if !ValidName(id) {
        return Failed(InvalidId);
      }
      if footprint == 0 {
        return Failed(InvalidSize);
      }
      if !ValidMetadata(metadata) {
        return Failed(InvalidMetadata);
      }
      if id in models {
        return Failed(DuplicateModel);
      }
      models := models[id := Model(id, metadata, footprint, 0, 0, "")];
      r := ModelResult(NoError, footprint);
    }

    method RegisterModelFile(id: string, path: string, metadata: string, size: Option<nat>) returns (r: ModelResult)
      modifies this
      ensures (State(), r) == RegisterFile(old(State()), id, path, metadata, size)
    {
      if !ValidName(id) {
        return Failed(InvalidId);
      }
      if !ValidPath(path) {
        return Failed(InvalidPath);
      }
      if !ValidMetadata(metadata) {
        return Failed(InvalidMetadata);
      }
      if size == None || size.value == 0 || size.value > MAX_BYTES {
        return Failed(FileUnavailable);
      }
      if id in models {
        return Failed(DuplicateModel);
      }
      models := models[id := Model(id, metadata, size.value, 0, 0, path)];
      r := ModelResult(NoError, size.value);
    }

    method UnregisterModel(id: string) returns (r: ModelResult)
      modifies this
      ensures (State(), r) == Unregister(old(State()), id)
    {
      if !ValidName(id) {
        return Failed(InvalidId);
      }
      if id !in models {
        return Failed(UnknownModel);
      }
      if models[id].refCount != 0 {
        return Failed(ModelInUse);
      }
      models := models - {id};
      r := ModelResult(NoError, 0);
    }

    method RetainModel(id: string) returns (r: ModelResult)
      modifies this
      ensures (State(), r) == Retain(old(State()), id)
    {
      if !ValidName(id) {
        return Failed(InvalidId);
      }
      if id !in models {
        return Failed(UnknownModel);
      }
      var model := models[id];
      nextAccess := nextAccess + 1;
      models := models[id := model.(refCount := model.refCount + 1, lastAccess := nextAccess)];
      r := ModelResult(NoError, model.refCount + 1);
    }

    method ReleaseModel(id: string) returns (r: ModelResult)
      modifies this
      ensures (State(), r) == Release(old(State()), id)
    {
      if !ValidName(id) {
        return Failed(InvalidId);
      }
      if id !in models {
        return Failed(UnknownModel);
      }
      var model := models[id];
      if model.refCount == 0 {
        return Failed(RefcountUnderflow);
      }
      nextAccess := nextAccess + 1;
      models := models[id := model.(refCount := model.refCount - 1, lastAccess := nextAccess)];
      r := ModelResult(NoError, model.refCount - 1);
    }
  }

  // ------------------------------------------------------------- accelerator

  datatype BackendError = BackendOk | InvalidModelId | InvalidBackendSize | AlreadyLoaded | NotLoaded

  function Load(b: map<string, Bytes>, id: string, bytes: Bytes): (map<string, Bytes>, BackendError) {
    if !ValidName(id) then (b, InvalidModelId)
    else if bytes == 0 then (b, InvalidBackendSize)
    else if id in b then (b, AlreadyLoaded)
    else (b[id := bytes], BackendOk)
  }

  function Unload(b: map<string, Bytes>, id: string): (map<string, Bytes>, BackendError) {
    if !ValidName(id) then (b, InvalidModelId)
    else if id !in b then (b, NotLoaded)
    else (b - {id}, BackendOk)
  }

  class MockBackend {
    var allocations: map<string, Bytes>

    constructor ()
      ensures allocations == map[]
    {
      allocations := map[];
    }

    method LoadModel(id: string, bytes: Bytes) returns (error: BackendError)
      modifies this
      ensures (allocations, error) == Load(old(allocations), id, bytes)
    {
      if !ValidName(id) {
        return InvalidModelId;
      }
      if bytes == 0 {
        return InvalidBackendSize;
      }
      if id in allocations {
        return AlreadyLoaded;
      }
      allocations := allocations[id := bytes];
      error := BackendOk;
    }

    method UnloadModel(id: string) returns (error: BackendError)
      modifies this
      ensures (allocations, error) == Unload(old(allocations), id)
    {
      if !ValidName(id) {
        return InvalidModelId;
      }
      if id !in allocations {
        return NotLoaded;
      }
      allocations := allocations - {id};
      error := BackendOk;
    }
  }
}
