/**
 * ServicioService as a class over its repositories and the remote image store. Each
 * state-changing method works step by step in the source's order and is proved to end in the
 * state, and with the outcome, that the matching function of Catalog gives.
 */
module CatalogService {
  import opened Common
  import opened Catalog
  import Uuids

  class ServicioService {
    /** servicioRepository, by code and by id */
    var services: map<string, Service>
    var codeOfId: map<int, string>
    /** proveedorRepository, by name */
    var providers: map<string, Provider>
    /** imagenRepository, by public id */
    var imageRows: map<string, Image>
    /** the id sequence of the service table */
    var nextId: int
    /** public ids of the assets the remote image store holds */
    var live: set<string>
    /** calls made to the repositories and the image store, oldest first */
    var trace: seq<Effect>

    function State(): World
      reads this
    {
      World(Store(services, codeOfId, providers, imageRows, nextId), live, trace)
    }

    predicate Valid()
      reads this
    {
      Catalog.Valid(State().db)
    }

    /** A catalogue with the given providers, no services and an empty image store. */
    constructor (knownProviders: map<string, Provider>)
      ensures Valid()
      ensures State() == World(Store(map[], map[], knownProviders, map[], 0), {}, [])
    {
      services, codeOfId, providers, imageRows, nextId := map[], map[], knownProviders, map[], 0;
      live, trace := {}, [];
    }

    /** cloudinaryService.uploadFile: the reply is supplied by the caller. */
    method UploadFile(fileName: string, reply: UploadReply) returns (stored: bool)
      modifies this`live, this`trace
      ensures stored == reply.Stored?
      ensures State() == Upload(old(State()), fileName, reply)
    {
      trace := trace + [UploadRequested(fileName)];
      stored := reply.Stored?;
      if stored {
        live := live + {reply.publicId};
      }
    }

    /** cloudinaryService.deleteFile: succeeds whether or not the asset exists. */
    method DeleteFile(publicId: string)
      modifies this`live, this`trace
      ensures State() == RemoteDelete(old(State()), publicId)
    {
      trace := trace + [RemoteDeleted(publicId)];
      live := live - {publicId};
    }

    /** guardarServicio */
    method Create(req: ServiceRequest, file: File, uuid: Uuids.Uuid, util: FileUtil, reply: UploadReply)
      returns (status: Status)
      requires Valid()
      modifies this
      ensures Step(State(), status) == CreateService(old(State()), req, file, uuid, util, reply)
      ensures Valid()
    {
      ghost var w := State();
      var code := ServiceCode(uuid);
      if req.provider !in providers {
        return Failed(NotFound(PROVIDER_NOT_FOUND));
      }
      var fileName := FileName(util, file);
      if fileName.Err? {
        return Failed(fileName.error);
      }
      var stored := UploadFile(fileName.value, reply);
      ghost var uploaded := State();
      if !stored {
        return Failed(UpstreamUnavailable);
      }
      var image := Image(reply.url, fileName.value, reply.publicId, PRIMARY_TAG, 0);
      // The provider's list of services is the inverse side of `provider` and follows from it.
      trace := trace + [Saved(code)];
      if code in services {
        assert State() == uploaded.(trace := uploaded.trace + [Saved(code)]);
        return Failed(Conflict);
      }
      var id := nextId;
      image := image.(service := id);
      var s := Service(id, code, req.name, req.kind, req.cost, req.state, req.description,
                       req.provider, [image], []);
      services := services[code := s];
      codeOfId := codeOfId[id := code];
      imageRows := imageRows[image.publicId := image];
      nextId := id + 1;
      status := Done;
      assert State().db == w.db.(services := w.db.services[code := s],
                                 codeOfId := w.db.codeOfId[id := code],
                                 imageRows := w.db.imageRows[reply.publicId := image],
                                 nextId := id + 1);
    }

    /** actualizarServicio */
    method Update(code: string, req: ServiceRequest, file: File, util: FileUtil, reply: UploadReply)
      returns (status: Status)
      requires Valid()
      modifies this
      ensures Step(State(), status) == UpdateService(old(State()), code, req, file, util, reply)
      ensures Valid()
    {
      ghost var w := State();
      if code !in services {
        return Failed(NotFound(SERVICE_NOT_FOUND));
      }
      var s := services[code];
      if req.provider !in providers {
        return Failed(NotFound(PROVIDER_NOT_FOUND));
      }
      if file.originalName.None? {
        return Failed(NullPointer);
      }
      if file.originalName.value == NO_IMAGE_SENTINEL {
        s := WithRequest(s, req);
        services := services[code := s];
        trace := trace + [Saved(code)];
        assert State() == World(w.db.(services := w.db.services[code := s]), w.live, w.trace + [Saved(code)]);
        return Done;
      }
      var fileName := FileName(util, file);
      if fileName.Err? {
        return Failed(fileName.error);
      }
      if |s.images| == 0 {
        return Failed(IndexOutOfBounds);
      }
      var previous := s.images[0].publicId;
      var images: seq<Image> := [];
      // The row deletion is part of the transaction: it only takes effect when the save commits.
      var rows := imageRows - {previous};
      trace := trace + [RowDeleted(previous)];
      DeleteFile(previous);
      var stored := UploadFile(fileName.value, reply);
      ghost var uploaded := State();
      assert uploaded == Upload(RemoteDelete(w.(trace := w.trace + [RowDeleted(previous)]), previous),
                                fileName.value, reply);
      if !stored {
        return Failed(UpstreamUnavailable);
      }
      var image := Image(reply.url, fileName.value, reply.publicId, PRIMARY_TAG, s.id);
      s := WithRequest(s, req);
      images := images + [image];
      assert images == [image];
      s := s.(images := images);
      services := services[code := s];
      imageRows := rows[image.publicId := image];
      trace := trace + [Saved(code)];
      status := Done;
      assert State() == World(w.db.(services := w.db.services[code := s],
                                    imageRows := (w.db.imageRows - {previous})[reply.publicId := image]),
                              uploaded.live, uploaded.trace + [Saved(code)]);
    }

    /** subirImagenParaServicio */
    method AttachImage(id: int, file: File, util: FileUtil, reply: UploadReply) returns (status: Status)
      requires Valid()
      modifies this
      ensures Step(State(), status) == Catalog.AttachImage(old(State()), id, file, util, reply)
      ensures Valid()
    {
      if id !in codeOfId {
        return Failed(NotFound(SERVICE_NOT_FOUND));
      }
      var code := codeOfId[id];
      var s := services[code];
      var fileName := FileName(util, file);
      if fileName.Err? {
        return Failed(fileName.error);
      }
      var stored := UploadFile(fileName.value, reply);
      if !stored {
        return Failed(UpstreamUnavailable);
      }
      var image := Image(reply.url, fileName.value, reply.publicId, ATTACHED_TAG, s.id);
      s := s.(images := s.images + [image]);
      services := services[code := s];
      imageRows := imageRows[image.publicId := image];
      trace := trace + [Saved(code)];
      status := Done;
    }
  }
}
