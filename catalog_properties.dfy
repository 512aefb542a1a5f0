/**
 * What the catalogue operations promise across calls: what a lookup sees after each operation,
 * which calls the image store receives and in which order, and what a failure leaves behind.
 */
module CatalogProperties {
  import opened Common
  import opened Catalog
  import Uuids

  /** Two UUIDs give the same service code exactly when their time_low fields agree. */
  lemma ServiceCodeCollision(u: Uuids.Uuid, v: Uuids.Uuid)
    ensures ServiceCode(u) == ServiceCode(v) <==> Uuids.TimeLow(u) == Uuids.TimeLow(v)
  {
    Uuids.TimeLowPrefix(u);
    Uuids.TimeLowPrefix(v);
  }

  /** A successful lookup by id finds the same service as the lookup by its code. */
  lemma LookupsAgree(db: Store, id: int)
    requires Valid(db)
    requires ServiceById(db, id).Ok?
    ensures var byId := ServiceById(db, id).value;
      && ServiceByCode(db, byId.code).Some?
      && ServiceByCode(db, byId.code).value == byId.(state := ServiceByCode(db, byId.code).value.state, events := None)
  {
  }

  /** After a successful create, the new code is found with the request's fields and one image. */
  lemma CreateThenLookup(w: World, req: ServiceRequest, file: File, uuid: Uuids.Uuid,
                         util: FileUtil, reply: UploadReply)
    requires Valid(w.db)
    requires CreateService(w, req, file, uuid, util, reply).status.Done?
    ensures var after := CreateService(w, req, file, uuid, util, reply).after;
      var view := ServiceByCode(after.db, ServiceCode(uuid));
      && view.Some? && view.value.code == ServiceCode(uuid)
      && view.value.name == req.name && view.value.kind == req.kind && view.value.cost == req.cost
      && view.value.state == Some(req.state.symbol) && view.value.description == req.description
      && view.value.provider == req.provider
      && view.value.images == [Image(reply.url, FileName(util, file).value, reply.publicId, PRIMARY_TAG, w.db.nextId)]
      && ServiceById(after.db, w.db.nextId).Ok?
      && ServiceById(after.db, w.db.nextId).value.code == ServiceCode(uuid)
      && ServiceById(after.db, w.db.nextId).value.events == Some([])
      && reply.Stored? && reply.publicId in after.db.imageRows
      && after.db.imageRows[reply.publicId] == view.value.images[0]
  {
  }

  /** A successful create adds the new service to its provider's services, and to no other's. */
  lemma CreateGrowsProvider(w: World, req: ServiceRequest, file: File, uuid: Uuids.Uuid,
                            util: FileUtil, reply: UploadReply, p: string)
    requires Valid(w.db)
    requires CreateService(w, req, file, uuid, util, reply).status.Done?
    ensures var after := CreateService(w, req, file, uuid, util, reply).after;
      ProviderServices(after.db, p)
        == if p == req.provider then ProviderServices(w.db, p) + {ServiceCode(uuid)}
           else ProviderServices(w.db, p)
  {
    var after := CreateService(w, req, file, uuid, util, reply).after;
    var code := ServiceCode(uuid);
    assert after.db.services == w.db.services[code := after.db.services[code]];
  }

  /**
   * The image store sees exactly one upload on create once the provider and the file are
   * accepted, and none before; a failure after the upload leaves the asset live with no row.
   */
  lemma CreateImageStoreCalls(w: World, req: ServiceRequest, file: File, uuid: Uuids.Uuid,
                              util: FileUtil, reply: UploadReply)
    requires Valid(w.db)
    ensures var r := CreateService(w, req, file, uuid, util, reply);
      if req.provider !in w.db.providers || FileName(util, file).Err? then r.after == w
      else
        && r.after.trace[..|w.trace| + 1] == w.trace + [UploadRequested(FileName(util, file).value)]
        && (reply.Stored? ==> r.after.live == w.live + {reply.publicId})
        && (reply.Unavailable? ==> r.after.live == w.live)
  {
  }

  /** A code collision at save time orphans the uploaded asset: live remotely, referenced by no row. */
  lemma CreateConflictOrphansUpload(w: World, req: ServiceRequest, file: File, uuid: Uuids.Uuid,
                                    util: FileUtil, reply: UploadReply)
    requires Valid(w.db)
    requires CreateService(w, req, file, uuid, util, reply).status == Failed(Conflict)
    requires reply.Stored? && reply.publicId !in w.db.imageRows
    ensures var after := CreateService(w, req, file, uuid, util, reply).after;
      reply.publicId in after.live && reply.publicId !in after.db.imageRows && after.db == w.db
  {
  }

  /** Update with the sentinel name: scalar fields change, code and images stay, no image-store call. */
  lemma UpdateBlobKeepsImages(w: World, code: string, req: ServiceRequest, file: File,
                              util: FileUtil, reply: UploadReply)
    requires Valid(w.db)
    requires file.originalName == Some(NO_IMAGE_SENTINEL)
    requires UpdateService(w, code, req, file, util, reply).status.Done?
    ensures var after := UpdateService(w, code, req, file, util, reply).after;
      && code in w.db.services
      && after.db.services[code] == WithRequest(w.db.services[code], req)
      && after.db.services[code].images == w.db.services[code].images
      && after.db.imageRows == w.db.imageRows
      && after.live == w.live && after.trace == w.trace + [Saved(code)]
  {
  }

  /**
   * Update with a new image: the first image's row is dropped and its asset deleted, then the
   * upload is made, and the service ends with the single new image, whatever it held before.
   */
  lemma UpdateReplacesImages(w: World, code: string, req: ServiceRequest, file: File,
                             util: FileUtil, reply: UploadReply)
    requires Valid(w.db)
    requires file.originalName != Some(NO_IMAGE_SENTINEL)
    requires UpdateService(w, code, req, file, util, reply).status.Done?
    ensures code in w.db.services && |w.db.services[code].images| > 0 && reply.Stored?
    ensures var after := UpdateService(w, code, req, file, util, reply).after;
      var s := w.db.services[code];
      var previous := s.images[0].publicId;
      var fileName := FileName(util, file).value;
      && after.db.services[code].images == [Image(reply.url, fileName, reply.publicId, PRIMARY_TAG, s.id)]
      && after.db.services[code].code == code
      && after.trace == w.trace + [RowDeleted(previous), RemoteDeleted(previous),
                                   UploadRequested(fileName), Saved(code)]
      && after.live == w.live - {previous} + {reply.publicId}
      && reply.publicId in after.db.imageRows
      && (reply.publicId != previous ==> previous !in after.db.imageRows && previous !in after.live)
  {
  }

  /** Images beyond the first are dropped by an image update, not kept. */
  lemma UpdateDropsExtraImages(w: World, code: string, req: ServiceRequest, file: File,
                               util: FileUtil, reply: UploadReply)
    requires Valid(w.db)
    requires file.originalName != Some(NO_IMAGE_SENTINEL)
    requires UpdateService(w, code, req, file, util, reply).status.Done?
    ensures var after := UpdateService(w, code, req, file, util, reply).after;
      |after.db.services[code].images| == 1
      && (|w.db.services[code].images| > 1 ==>
            |after.db.services[code].images| < |w.db.services[code].images|)
  {
    UpdateReplacesImages(w, code, req, file, util, reply);
  }

  /** The file is checked, and the list's first image read, before anything is removed. */
  lemma UpdateChecksBeforeRemoving(w: World, code: string, req: ServiceRequest, file: File,
                                   util: FileUtil, reply: UploadReply)
    requires Valid(w.db)
    requires code in w.db.services && req.provider in w.db.providers
    requires file.originalName.Some? && file.originalName != Some(NO_IMAGE_SENTINEL)
    ensures FileName(util, file).Err? ==>
      UpdateService(w, code, req, file, util, reply) == Step(w, Failed(FileName(util, file).error))
    ensures FileName(util, file).Ok? && w.db.services[code].images == [] ==>
      UpdateService(w, code, req, file, util, reply) == Step(w, Failed(IndexOutOfBounds))
  {
  }

  /**
   * A failed upload during an image update: the relational writes roll back, so the service still
   * lists its old first image, but the old asset was already deleted from the image store.
   */
  lemma UpdateUploadFailureLeavesDanglingImage(w: World, code: string, req: ServiceRequest,
                                               file: File, util: FileUtil)
    requires Valid(w.db)
    requires code in w.db.services && req.provider in w.db.providers
    requires file.originalName.Some? && file.originalName != Some(NO_IMAGE_SENTINEL)
    requires FileName(util, file).Ok? && |w.db.services[code].images| > 0
    ensures var r := UpdateService(w, code, req, file, util, Unavailable);
      var previous := w.db.services[code].images[0].publicId;
      && r.status == Failed(UpstreamUnavailable)
      && r.after.db.services[code].images[0].publicId == previous
      && previous !in r.after.live
  {
  }

  /** Attach appends exactly one lower-case tagged image and keeps the existing ones in order. */
  lemma AttachAppends(w: World, id: int, file: File, util: FileUtil, reply: UploadReply)
    requires Valid(w.db)
    requires AttachImage(w, id, file, util, reply).status.Done?
    ensures var after := AttachImage(w, id, file, util, reply).after;
      var before := ServiceById(w.db, id);
      var now := ServiceById(after.db, id);
      && before.Ok? && now.Ok?
      && |now.value.images| == |before.value.images| + 1
      && now.value.images[..|before.value.images|] == before.value.images
      && now.value.images[|before.value.images|]
           == Image(reply.url, FileName(util, file).value, reply.publicId, ATTACHED_TAG, id)
      && now.value.code == before.value.code && now.value.name == before.value.name
      && after.trace == w.trace + [UploadRequested(FileName(util, file).value), Saved(before.value.code)]
  {
  }
}
