/**
 * The service catalogue of ServicioService as values: the relational tables, the remote image
 * store, and one specification function per operation that gives the state after the call and
 * its outcome. The class in CatalogService runs the same operations step by step.
 *
 * Transactions: a failing operation leaves the relational tables as they were (its writes are
 * rolled back), but the calls it already made to the remote image store stay done.
 */
module Catalog {
  import opened Common
  import Uuids

  const CODE_PREFIX := "SERV-"
  /** Tag of the image created together with a service or by an update. */
  const PRIMARY_TAG := "SERVICIO"
  /** Tag of an image attached afterwards. */
  const ATTACHED_TAG := "servicio"
  /** Original file name meaning "keep the current image" on update. */
  const NO_IMAGE_SENTINEL := "blob"
  const SERVICE_NOT_FOUND := "Servicio no encontrado"
  const PROVIDER_NOT_FOUND := "Proveedor no encontrado"

  /** The cost is only ever copied. */
  type Cost = real

  /** A service state, kept by its symbolic name (what toString gives for an enum constant). */
  datatype ServiceState = ServiceState(symbol: string)

  /** Imagen; `service` is the id of the owning service (the back reference). */
  datatype Image = Image(url: string, name: string, publicId: string, tag: string, service: int)

  /** Servicio; `provider` is the name of its provider, `events` the ids of events that use it. */
  datatype Service = Service(
    id: int, code: string, name: string, kind: string, cost: Cost, state: ServiceState,
    description: string, provider: string, images: seq<Image>, events: seq<int>)

  /** Proveedor; its list of services is the inverse side, see ProviderServices. */
  datatype Provider = Provider(id: int, name: string)

  /** ServicioRequest. */
  datatype ServiceRequest = ServiceRequest(
    name: string, kind: string, cost: Cost, state: ServiceState, description: string, provider: string)

  /** An uploaded multipart file: the original file name may be null. */
  datatype File = File(originalName: Option<string>, contentType: string)

  /**
   * FileUploadUtil, whose code is not part of this model: `allowed` is assertAllowed against the
   * image pattern, `fileName` is getFileName on the original name (None when it refuses the name).
   */
  datatype FileUtil = FileUtil(allowed: File -> bool, fileName: Option<string> -> Option<string>)

  /** ServicioResponse: fields the builder is not given stay null (None). */
  datatype ServiceView = ServiceView(
    code: string, name: string, kind: string, cost: Cost, state: Option<string>,
    description: string, images: seq<Image>, events: Option<seq<int>>, provider: string)

  /**
   * The repositories: services by code, the code of each service id, providers by name, image rows
   * by public id, and the next id the service sequence hands out.
   */
  datatype Store = Store(
    services: map<string, Service>, codeOfId: map<int, string>, providers: map<string, Provider>,
    imageRows: map<string, Image>, nextId: int)

  /** What the remote image store answers to one upload. */
  datatype UploadReply = Stored(url: string, publicId: string) | Unavailable

  /** Calls to the collaborators, in the order they are made. */
  datatype Effect =
    | RowDeleted(publicId: string)       // imagenRepository.deleteByIdPublica
    | RemoteDeleted(publicId: string)    // cloudinaryService.deleteFile
    | UploadRequested(fileName: string)  // cloudinaryService.uploadFile
    | Saved(code: string)                // servicioRepository.save

  /** The relational store, the public ids live in the remote image store, and the call trace. */
  datatype World = World(db: Store, live: set<string>, trace: seq<Effect>)

  datatype Status = Done | Failed(error: Error)

  datatype Step = Step(after: World, status: Status)

  // ---------------------------------------------------------------- invariants

  /** The code index: each service is filed under its own code (codes are unique). */
  predicate CodesIndexed(db: Store) {
    forall c :: c in db.services ==> db.services[c].code == c
  }

  /** The id index agrees with the services, and every id is below the sequence. */
  predicate IdsIndexed(db: Store) {
    && (forall c :: c in db.services ==>
          db.services[c].id in db.codeOfId && db.codeOfId[db.services[c].id] == c)
    && (forall id :: id in db.codeOfId ==>
          db.codeOfId[id] in db.services && db.services[db.codeOfId[id]].id == id && id < db.nextId)
  }

  /** Every service names a provider that exists. */
  predicate ProvidersExist(db: Store) {
    forall c :: c in db.services ==> db.services[c].provider in db.providers
  }

  /** Every image points back at the service that holds it. */
  predicate BackReferenced(db: Store) {
    forall c, i :: c in db.services && 0 <= i < |db.services[c].images| ==>
      db.services[c].images[i].service == db.services[c].id
  }

  predicate Valid(db: Store) {
    CodesIndexed(db) && IdsIndexed(db) && ProvidersExist(db) && BackReferenced(db)
  }

  /** Storing a new service under a fresh code and the next id, with images that point back at it, keeps the invariant. */
  lemma InsertKeepsValid(db: Store, s: Service, publicId: string)
    requires Valid(db)
    requires s.code !in db.services && s.id == db.nextId && s.provider in db.providers
    requires |s.images| > 0 && forall i :: 0 <= i < |s.images| ==> s.images[i].service == s.id
    ensures Valid(db.(services := db.services[s.code := s], codeOfId := db.codeOfId[s.id := s.code],
                      imageRows := db.imageRows[publicId := s.images[0]], nextId := s.id + 1))
  {
    assert s.id !in db.codeOfId;
  }

  /** Overwriting a stored service with one of the same code and id, a known provider and images that point back at it keeps the invariant. */
  lemma ReplaceKeepsValid(db: Store, s: Service, imageRows: map<string, Image>)
    requires Valid(db)
    requires s.code in db.services && db.services[s.code].id == s.id && s.provider in db.providers
    requires forall i :: 0 <= i < |s.images| ==> s.images[i].service == s.id
    ensures Valid(db.(services := db.services[s.code := s], imageRows := imageRows))
  {
    var after := db.(services := db.services[s.code := s], imageRows := imageRows);
    assert IdsIndexed(after) by {
      forall id | id in after.codeOfId
        ensures after.codeOfId[id] in after.services && after.services[after.codeOfId[id]].id == id
      {
        assert db.services[db.codeOfId[id]].id == id;
      }
    }
  }

  // ---------------------------------------------------------------- derived values

  /** The code of a new service: the prefix and the first eight characters of the UUID's string form. */
  function ServiceCode(uuid: Uuids.Uuid): (code: string)
    ensures |code| == 13 && code[..5] == CODE_PREFIX
    ensures forall i :: 5 <= i < 13 ==> Uuids.IsHexDigit(code[i])
    ensures Uuids.ParseHex(code[5..]) == Uuids.TimeLow(uuid)
  {
    Uuids.TimeLowPrefix(uuid);
    var code := CODE_PREFIX + Uuids.ToString(uuid)[..8];
    assert code[5..] == Uuids.ToString(uuid)[..8];
    code
  }

  /** The services of a provider: those whose provider reference names it. */
  function ProviderServices(db: Store, provider: string): (codes: set<string>)
    ensures forall c :: c in codes <==> c in db.services && db.services[c].provider == provider
  {
    set c | c in db.services && db.services[c].provider == provider
  }

  /** ServicioService.getFileName: the media type is checked first, then a file name is derived. */
  function FileName(util: FileUtil, file: File): (r: Result<string>)
    ensures !util.allowed(file) ==> r == Err(InvalidMedia)
    ensures util.allowed(file) && util.fileName(file.originalName).None? ==> r == Err(InvalidName)
    ensures r.Ok? <==> util.allowed(file) && util.fileName(file.originalName).Some?
    ensures r.Ok? ==> Some(r.value) == util.fileName(file.originalName)
  {
    if !util.allowed(file) then Err(InvalidMedia)
    else match util.fileName(file.originalName)
      case None => Err(InvalidName)
      case Some(name) => Ok(name)
  }

  /** The scalar fields a request overwrites: name, type, cost, state, description, provider. */
  function WithRequest(s: Service, req: ServiceRequest): (t: Service)
    ensures t.id == s.id && t.code == s.code && t.images == s.images && t.events == s.events
    ensures HasRequestFields(t, req)
  {
    s.(name := req.name, kind := req.kind, cost := req.cost, state := req.state,
       description := req.description, provider := req.provider)
  }

  /** True when `t` carries exactly the request's scalar fields. */
  predicate HasRequestFields(t: Service, req: ServiceRequest) {
    t.name == req.name && t.kind == req.kind && t.cost == req.cost && t.state == req.state
    && t.description == req.description && t.provider == req.provider
  }

  // ---------------------------------------------------------------- remote image store

  /** One upload call: on success the new public id is live. */
  function Upload(w: World, fileName: string, reply: UploadReply): (v: World)
    ensures v.db == w.db && v.trace == w.trace + [UploadRequested(fileName)]
    ensures v.live == if reply.Stored? then w.live + {reply.publicId} else w.live
  {
    World(w.db, if reply.Stored? then w.live + {reply.publicId} else w.live,
          w.trace + [UploadRequested(fileName)])
  }

  /** One delete call: it succeeds whether or not the id is live. */
  function RemoteDelete(w: World, publicId: string): (v: World)
    ensures v.db == w.db && v.trace == w.trace + [RemoteDeleted(publicId)]
    ensures publicId !in v.live && v.live <= w.live && v.live + {publicId} >= w.live
  {
    World(w.db, w.live - {publicId}, w.trace + [RemoteDeleted(publicId)])
  }

  // ---------------------------------------------------------------- lookups

  /** obtenerServicioPorCodigo: null exactly when no service has the code. */
  function ServiceByCode(db: Store, code: string): (r: Option<ServiceView>)
    requires Valid(db)
    ensures r.None? <==> forall c :: c in db.services ==> db.services[c].code != code
    ensures r.Some? ==>
      var s := db.services[code];
      && r.value.code == s.code == code && r.value.name == s.name && r.value.kind == s.kind
      && r.value.cost == s.cost && r.value.state == Some(s.state.symbol)
      && r.value.description == s.description && r.value.images == s.images
      && r.value.provider == s.provider && r.value.events.None?
  {
    if code in db.services then
      var s := db.services[code];
      Some(ServiceView(s.code, s.name, s.kind, s.cost, Some(s.state.symbol), s.description,
                       s.images, None, s.provider))
    else None
  }

  /** obtenerServicioPorId: NotFound when no service has the id; the view has events and no state. */
  function ServiceById(db: Store, id: int): (r: Result<ServiceView>)
    requires Valid(db)
    ensures r.Err? <==> forall c :: c in db.services ==> db.services[c].id != id
    ensures r.Err? ==> r.error == NotFound(SERVICE_NOT_FOUND)
    ensures r.Ok? ==>
      exists c :: c in db.services && db.services[c].id == id &&
        var s := db.services[c];
        && r.value.code == s.code && r.value.name == s.name && r.value.kind == s.kind
        && r.value.cost == s.cost && r.value.state.None?
        && r.value.description == s.description && r.value.images == s.images
        && r.value.events == Some(s.events) && r.value.provider == s.provider
  {
    if id in db.codeOfId then
      var s := db.services[db.codeOfId[id]];
      Ok(ServiceView(s.code, s.name, s.kind, s.cost, None, s.description, s.images,
                     Some(s.events), s.provider))
    else Err(NotFound(SERVICE_NOT_FOUND))
  }

  /** obtenerServicios: every stored service, and nothing else. */
  function AllServices(db: Store): (r: set<Service>)
    requires Valid(db)
    ensures forall c :: c in db.services ==> db.services[c] in r
    ensures forall s :: s in r ==> s.code in db.services && db.services[s.code] == s
  {
    set c | c in db.services :: db.services[c]
  }

  // ---------------------------------------------------------------- state-changing operations

  /**
   * guardarServicio. The provider is resolved first, then the file is checked, then uploaded;
   * the service and its single image are saved last.
   */
  function CreateService(w: World, req: ServiceRequest, file: File, uuid: Uuids.Uuid,
                         util: FileUtil, reply: UploadReply): (r: Step)
    requires Valid(w.db)
    ensures Valid(r.after.db)
    ensures r.status.Failed? ==> r.after.db == w.db
    ensures req.provider !in w.db.providers ==> r == Step(w, Failed(NotFound(PROVIDER_NOT_FOUND)))
    ensures req.provider in w.db.providers && FileName(util, file).Err? ==>
      r == Step(w, Failed(FileName(util, file).error))
    ensures r.status.Done? <==>
      && req.provider in w.db.providers && FileName(util, file).Ok? && reply.Stored?
      && ServiceCode(uuid) !in w.db.services
    ensures r.status.Done? ==>
      && r.after.db.services.Keys == w.db.services.Keys + {ServiceCode(uuid)}
      && r.after.db.providers == w.db.providers
      && (forall c :: c in w.db.services ==> r.after.db.services[c] == w.db.services[c])
      && r.after.db.imageRows.Keys == w.db.imageRows.Keys + {reply.publicId}
      && (forall p :: p in w.db.imageRows && p != reply.publicId ==> r.after.db.imageRows[p] == w.db.imageRows[p])
      && r.after.trace == w.trace + [UploadRequested(FileName(util, file).value), Saved(ServiceCode(uuid))]
    ensures r.status == Failed(UpstreamUnavailable) ==>
      FileName(util, file).Ok? && r.after == Upload(w, FileName(util, file).value, reply)
  {
    var code := ServiceCode(uuid);
    if req.provider !in w.db.providers then Step(w, Failed(NotFound(PROVIDER_NOT_FOUND)))
    else match FileName(util, file)
      case Err(e) => Step(w, Failed(e))
      case Ok(fileName) =>
        var uploaded := Upload(w, fileName, reply);
        match reply
        case Unavailable => Step(uploaded, Failed(UpstreamUnavailable))
        case Stored(url, publicId) =>
          var saving := uploaded.(trace := uploaded.trace + [Saved(code)]);
          if code in w.db.services then Step(saving, Failed(Conflict))
          else
            var id := w.db.nextId;
            var image := Image(url, fileName, publicId, PRIMARY_TAG, id);
            var s := Service(id, code, req.name, req.kind, req.cost, req.state, req.description,
                             req.provider, [image], []);
            var db := w.db.(services := w.db.services[code := s],
                            codeOfId := w.db.codeOfId[id := code],
                            imageRows := w.db.imageRows[publicId := image],
                            nextId := id + 1);
            assert saving.trace == w.trace + [UploadRequested(fileName), Saved(code)];
            InsertKeepsValid(w.db, s, publicId);
            Step(saving.(db := db), Done)
  }

  /**
   * actualizarServicio. With the sentinel file name only the scalar fields change; otherwise the
   * first image is removed (row, then remote asset), the new file is uploaded, and the image list
   * becomes the single new image.
   */
  function UpdateService(w: World, code: string, req: ServiceRequest, file: File,
                         util: FileUtil, reply: UploadReply): (r: Step)
    requires Valid(w.db)
    ensures Valid(r.after.db)
    ensures r.status.Failed? ==> r.after.db == w.db
    ensures code !in w.db.services ==> r == Step(w, Failed(NotFound(SERVICE_NOT_FOUND)))
    ensures code in w.db.services && req.provider !in w.db.providers ==>
      r == Step(w, Failed(NotFound(PROVIDER_NOT_FOUND)))
    ensures code in w.db.services && req.provider in w.db.providers && file.originalName.None? ==>
      r == Step(w, Failed(NullPointer))
    ensures r.after.db.services.Keys == w.db.services.Keys
    ensures r.after.db.codeOfId == w.db.codeOfId && r.after.db.providers == w.db.providers
    ensures forall c :: c in w.db.services && c != code ==> r.after.db.services[c] == w.db.services[c]
    ensures r.status.Done? ==> HasRequestFields(r.after.db.services[code], req)
    ensures r.status.Done? ==>
      r.after.db.services[code].(images := []) == WithRequest(w.db.services[code], req).(images := [])
    ensures r.status == Failed(UpstreamUnavailable) ==>
      && code in w.db.services && |w.db.services[code].images| > 0 && FileName(util, file).Ok?
      && var previous := w.db.services[code].images[0].publicId;
         r.after == Upload(RemoteDelete(w.(trace := w.trace + [RowDeleted(previous)]), previous),
                           FileName(util, file).value, reply)
    ensures r.status.Done? && file.originalName != Some(NO_IMAGE_SENTINEL) ==>
      && |w.db.services[code].images| > 0 && |r.after.db.services[code].images| == 1 && reply.Stored?
      && r.after.db.imageRows ==
           (w.db.imageRows - {w.db.services[code].images[0].publicId})[reply.publicId := r.after.db.services[code].images[0]]
      && r.after.live == (w.live - {w.db.services[code].images[0].publicId}) + {reply.publicId}
  {
    if code !in w.db.services then Step(w, Failed(NotFound(SERVICE_NOT_FOUND)))
    else if req.provider !in w.db.providers then Step(w, Failed(NotFound(PROVIDER_NOT_FOUND)))
    else match file.originalName
      case None => Step(w, Failed(NullPointer))
      case Some(original) =>
        var s := w.db.services[code];
        if original == NO_IMAGE_SENTINEL then
          var db := w.db.(services := w.db.services[code := WithRequest(s, req)]);
          Step(World(db, w.live, w.trace + [Saved(code)]), Done)
        else match FileName(util, file)
          case Err(e) => Step(w, Failed(e))
          case Ok(fileName) =>
            if |s.images| == 0 then Step(w, Failed(IndexOutOfBounds))
            else
              var previous := s.images[0].publicId;
              var deleted := RemoteDelete(w.(trace := w.trace + [RowDeleted(previous)]), previous);
              var uploaded := Upload(deleted, fileName, reply);
              match reply
              case Unavailable => Step(uploaded, Failed(UpstreamUnavailable))
              case Stored(url, publicId) =>
                var image := Image(url, fileName, publicId, PRIMARY_TAG, s.id);
                var db := w.db.(services := w.db.services[code := WithRequest(s, req).(images := [image])],
                                imageRows := (w.db.imageRows - {previous})[publicId := image]);
                assert uploaded.live == (w.live - {previous}) + {publicId};
                ReplaceKeepsValid(w.db, WithRequest(s, req).(images := [image]), db.imageRows);
                Step(World(db, uploaded.live, uploaded.trace + [Saved(code)]), Done)
  }

  /** subirImagenParaServicio: one image, tagged in lower case, appended to the service's list. */
  function AttachImage(w: World, id: int, file: File, util: FileUtil, reply: UploadReply): (r: Step)
    requires Valid(w.db)
    ensures Valid(r.after.db)
    ensures r.status.Failed? ==> r.after.db == w.db
    ensures id !in w.db.codeOfId ==> r == Step(w, Failed(NotFound(SERVICE_NOT_FOUND)))
    ensures id in w.db.codeOfId && FileName(util, file).Err? ==>
      r == Step(w, Failed(FileName(util, file).error))
    ensures r.status.Done? <==> id in w.db.codeOfId && FileName(util, file).Ok? && reply.Stored?
    ensures r.after.db.services.Keys == w.db.services.Keys
    ensures r.after.db.codeOfId == w.db.codeOfId && r.after.db.providers == w.db.providers
    ensures id in w.db.codeOfId ==>
      forall c :: c in w.db.services && c != w.db.codeOfId[id] ==> r.after.db.services[c] == w.db.services[c]
    ensures r.status.Done? ==>
      var code := w.db.codeOfId[id];
      r.after.db.services[code].(images := []) == w.db.services[code].(images := [])
    ensures r.after.live == if r.status.Done? then w.live + {reply.publicId} else w.live
    ensures r.status == Failed(UpstreamUnavailable) ==>
      FileName(util, file).Ok? && r.after == Upload(w, FileName(util, file).value, reply)
    ensures r.status.Done? ==>
      var images := r.after.db.services[w.db.codeOfId[id]].images;
      |images| > 0 && r.after.db.imageRows == w.db.imageRows[reply.publicId := images[|images| - 1]]
  {
    if id !in w.db.codeOfId then Step(w, Failed(NotFound(SERVICE_NOT_FOUND)))
    else
      var code := w.db.codeOfId[id];
      var s := w.db.services[code];
      match FileName(util, file)
      case Err(e) => Step(w, Failed(e))
      case Ok(fileName) =>
        var uploaded := Upload(w, fileName, reply);
        match reply
        case Unavailable => Step(uploaded, Failed(UpstreamUnavailable))
        case Stored(url, publicId) =>
          var image := Image(url, fileName, publicId, ATTACHED_TAG, s.id);
          var db := w.db.(services := w.db.services[code := s.(images := s.images + [image])],
                          imageRows := w.db.imageRows[publicId := image]);
          Step(World(db, uploaded.live, uploaded.trace + [Saved(code)]), Done)
  }
}
