# Rent-event service catalogue, modelled in Dafny

This project models the core of the rent-event backend: the service catalogue run by
`ServicioService` and the customer principal `Cliente`.

**Service catalogue.** Services (`Servicio`) are stored by code and by id. Providers (`Proveedor`)
are stored by name, and image rows (`Imagen`) by the public id the remote image store assigned.
Each service holds an ordered list of images, and each image points back at its service.
The remote image store (Cloudinary) is a set of live public ids. Every call to a repository
write or to the image store is appended to a trace, in order.

- `Catalog` holds the data model, the store invariant (`Valid`) and one specification function per
  operation. Each function gives the new state and the outcome: `CreateService`, `UpdateService`,
  `AttachImage`, and the lookups `ServiceByCode`, `ServiceById` and `AllServices`.
- `CatalogService.ServicioService` is a class over the same tables. Its methods `Create`, `Update`
  and `AttachImage` follow the source step by step. Each is proved to end in exactly the state and
  outcome its specification function gives, and to keep `Valid`.
- `CatalogProperties` proves what the operations promise across calls. It covers what a lookup
  sees afterwards, which image-store calls are made and in what order, and what each failure leaves.
- `Uuids` models the canonical string form of `java.util.UUID` (section 3 of RFC 4122). A service
  code is `SERV-` followed by the first 8 characters of that form, which are the `time_low` digits.

Failure semantics: a failing operation leaves the relational tables as they were. The methods are
`@Transactional` and the exceptions are unchecked, so their writes roll back. Calls already made
to the image store are not undone. So a failed upload during an image update leaves the service
pointing at an image whose asset was already deleted (`UpdateUploadFailureLeavesDanglingImage`).
A save conflict after an upload on create leaves an orphaned asset (`CreateConflictOrphansUpload`).

Particular behaviours of the code that the model keeps:
- On update, a null original file name fails with a null dereference at the `"blob"` comparison
  (ServicioService.java:116).
- Both update branches take the description from `getDescripcion()` (lines 122, 152).
- After an image update the in-memory image list holds exactly the one new image (lines 133, 154),
  so a list that held several images shrinks (`UpdateDropsExtraImages`).
- A failed upload during an image update rolls back the relational part, so the service keeps its
  old image list (lines 106, 132-138).

**Customer.** `Customers` models `Cliente` as a record:
- `getAuthorities` gives one authority named after the role.
- The four account-status flags are always true.
- The role column stores the role's symbolic name, and reading it back gives the same role.
- The table's constraint keeps `username` non-null and unique.
- Deleting a customer cascades to its invoices, cards, events and security questions. Taking a
  dependent out of its customer's collection deletes it (orphan removal).

## Model

| member | source | states |
|---|---|---|
| Catalog.ServiceByCode | src/main/java/com/rentevent/service/ServicioService.java:35-52 | null exactly when no stored service has the code; otherwise the view copies code, name, type, cost, description, images and provider, gives the state as its symbolic name, and has no events |
| Catalog.ServiceById | src/main/java/com/rentevent/service/ServicioService.java:58-70 | NotFound("Servicio no encontrado") exactly when no service has the id; otherwise the view of the service with that id, carrying its events and no state |
| Catalog.AllServices | src/main/java/com/rentevent/service/ServicioService.java:54-56 | every stored service is returned and nothing else is |
| Catalog.FileName | src/main/java/com/rentevent/service/ServicioService.java:162-165 | the media type is checked first (InvalidMedia), then a name is derived (InvalidName when none); succeeds exactly when both accept |
| Catalog.ServiceCode | src/main/java/com/rentevent/service/ServicioService.java:90 | the code is 13 characters, starts with "SERV-", continues with 8 lower-case hex digits, and those digits read back as the UUID's time_low |
| Catalog.WithRequest | src/main/java/com/rentevent/service/ServicioService.java:118-123 | the name, type, cost, state, description and provider become the request's; the id, the code, the images and the events stay |
| Catalog.Upload | src/main/java/com/rentevent/service/ServicioService.java:80 | an upload call is traced; on success its public id becomes live, on failure nothing is live that was not |
| Catalog.RemoteDelete | src/main/java/com/rentevent/service/ServicioService.java:136 | a delete call is traced, and afterwards the id is not live whether or not it was before, and no other live id changes |
| Catalog.CreateService | src/main/java/com/rentevent/service/ServicioService.java:72-104 | an unknown provider fails with NotFound before anything else, and a rejected file fails before any upload; both leave everything unchanged; success exactly when the provider is known, the file accepted, the upload stored and the code new; on success the new code is the only new service, existing services are unchanged, the only new image row is the uploaded id, and the calls are exactly one upload then the save; an unavailable upload ends the operation with only the upload call made, and no save; any failure leaves the tables unchanged; the store invariant is kept |
| Catalog.UpdateService | src/main/java/com/rentevent/service/ServicioService.java:106-160 | unknown code, then unknown provider, then a null file name fail in that order and change nothing; failures leave the tables unchanged; codes, ids, providers and other services never change; on success the service carries the request's fields and keeps its id, code and events; on an image update the old first image's row is the one row removed, the uploaded image is the one row added and the list's only element, and the old asset leaves the live ids while the new one joins; an unavailable upload ends the operation after the row delete, the remote delete and the upload call, with no save; the store invariant is kept |
| Catalog.AttachImage | src/main/java/com/rentevent/service/ServicioService.java:167-189 | unknown id fails with NotFound, a rejected file fails before any upload, both changing nothing; success exactly when the id is known, the file accepted and the upload stored; other services never change, and the target keeps every field but its image list; on success the appended image is the one new image row and its public id the one new live id, and on failure the live ids stay; an unavailable upload ends the operation with only the upload call made, and no save; the store invariant is kept |
| CatalogService.ServicioService.constructor | src/main/java/com/rentevent/service/ServicioService.java:25-33 | a catalogue with the given providers, no services, an empty image store and the invariant |
| CatalogService.ServicioService.UploadFile | src/main/java/com/rentevent/service/ServicioService.java:138 | the upload call changes the live ids and trace as Catalog.Upload says and reports whether it stored |
| CatalogService.ServicioService.DeleteFile | src/main/java/com/rentevent/service/ServicioService.java:136 | the delete call changes the live ids and trace as Catalog.RemoteDelete says |
| CatalogService.ServicioService.Create | src/main/java/com/rentevent/service/ServicioService.java:72-104 | run step by step, ends in the state and outcome CreateService gives, keeping the invariant |
| CatalogService.ServicioService.Update | src/main/java/com/rentevent/service/ServicioService.java:106-160 | run step by step, ends in the state and outcome UpdateService gives, keeping the invariant |
| CatalogService.ServicioService.AttachImage | src/main/java/com/rentevent/service/ServicioService.java:167-189 | run step by step, ends in the state and outcome Catalog.AttachImage gives, keeping the invariant |
| CatalogProperties.ServiceCodeCollision | src/main/java/com/rentevent/service/ServicioService.java:74-90 | two UUIDs give the same service code exactly when their time_low fields are equal |
| CatalogProperties.LookupsAgree | src/main/java/com/rentevent/service/ServicioService.java:35-70 | a service found by id is found by its code with the same fields |
| CatalogProperties.CreateThenLookup | src/main/java/com/rentevent/service/ServicioService.java:82-103 | after a create, the new code and the new id are found, with the request's fields and exactly one image with the uploaded url and public id, the derived name, tag "SERVICIO" and the new service's id; the new service has no events |
| CatalogProperties.CreateGrowsProvider | src/main/java/com/rentevent/service/ServicioService.java:101 | a create adds the new code to its provider's services and changes no other provider's |
| CatalogProperties.CreateImageStoreCalls | src/main/java/com/rentevent/service/ServicioService.java:77-80 | no image-store call before the provider and the file are accepted; then exactly one upload comes next in the trace |
| CatalogProperties.CreateConflictOrphansUpload | src/main/java/com/rentevent/service/ServicioService.java:80-103 | a save that fails after the upload leaves the asset live and referenced by no row |
| CatalogProperties.UpdateBlobKeepsImages | src/main/java/com/rentevent/service/ServicioService.java:116-128 | with file name "blob" only the scalar fields change; images, image rows and live ids are unchanged and the only traced call is the save |
| CatalogProperties.UpdateReplacesImages | src/main/java/com/rentevent/service/ServicioService.java:129-158 | the calls are row delete, remote delete of the first image's id, upload and save, in that order; the list becomes exactly the new "SERVICIO" image; the new id is stored and the old id is gone from rows and from the image store |
| CatalogProperties.UpdateDropsExtraImages | src/main/java/com/rentevent/service/ServicioService.java:132-154 | after an image update the in-memory list has one image, so a longer list shrinks |
| CatalogProperties.UpdateChecksBeforeRemoving | src/main/java/com/rentevent/service/ServicioService.java:129-132 | a rejected file, or an empty image list, fails with nothing changed and no image-store call |
| CatalogProperties.UpdateUploadFailureLeavesDanglingImage | src/main/java/com/rentevent/service/ServicioService.java:132-138 | a failed upload after the delete leaves the service's first image pointing at an asset that is no longer live |
| CatalogProperties.AttachAppends | src/main/java/com/rentevent/service/ServicioService.java:174-188 | the list grows by exactly one image, tagged "servicio" and pointing back at the service, after the existing images kept in order |
| Uuids.Hex | src/main/java/com/rentevent/service/ServicioService.java:90 | a field is written as exactly `width` lower-case hex digits |
| Uuids.HexRoundTrip | src/main/java/com/rentevent/service/ServicioService.java:90 | reading the digits back gives the value, for every value that fits the width |
| Uuids.TimeLowPrefix | src/main/java/com/rentevent/service/ServicioService.java:90 | the first 8 characters of the UUID string are the digits of time_low and read back as it |
| Customers.Authorities | src/main/java/com/rentevent/model/cliente/Cliente.java:71-74 | exactly one authority, named after the role's symbolic name; a null role is a null dereference |
| Customers.ParseRole | src/main/java/com/rentevent/model/cliente/Cliente.java:58-60 | reading a stored name gives the role with that name, and the name of every role reads back as that role |
| Customers.ReloadedRoleAuthorities | src/main/java/com/rentevent/model/cliente/Cliente.java:58-74 | a role stored by name reloads as the same role, with its name as the one authority |
| Customers.AccountNonExpired | src/main/java/com/rentevent/model/cliente/Cliente.java:76-79 | always true |
| Customers.AccountNonLocked | src/main/java/com/rentevent/model/cliente/Cliente.java:81-84 | always true |
| Customers.CredentialsNonExpired | src/main/java/com/rentevent/model/cliente/Cliente.java:86-89 | always true |
| Customers.Enabled | src/main/java/com/rentevent/model/cliente/Cliente.java:91-94 | always true |
| Customers.SaveCustomer | src/main/java/com/rentevent/model/cliente/Cliente.java:26-35 | a null username is refused, a username held by another customer is a conflict, and otherwise the save succeeds; a successful save adds or replaces exactly that row, keeps usernames non-null and unique and changes no other row |
| Customers.RemoveCustomer | src/main/java/com/rentevent/model/cliente/Cliente.java:62-69 | deleting a customer deletes exactly that customer and every dependent it owns, adds no customer or dependent row, and keeps collections and owner columns in agreement |
| Customers.Detach | src/main/java/com/rentevent/model/cliente/Cliente.java:62-69 | a dependent taken out of its customer's collection has its row deleted; the collection loses exactly that id; other dependents, other customers, the customer's own fields and its other collections stay the same, and the relation stays consistent |

## Left out

- CloudinaryService is network I/O. The answer to each upload is a parameter (`UploadReply`): a url and public id, or unavailability. A delete always succeeds.
- FileUploadUtil's code is not part of this model. `assertAllowed` and `getFileName` are the two functions of a `FileUtil` parameter.
- `UUID.randomUUID()` is randomness, so the UUID is a parameter.
- Image rows are keyed by public id, so public ids are assumed distinct across rows. Two rows with the same public id would merge into one here, where the database would hold both.
- The `System.out.println` logging (lines 75, 109, 111, 115, 147) is not modelled.
- Lombok builders and accessors, Spring Security's `UserDetails` machinery and password hashing are not modelled.
- Role.java and Genero.java are not part of this model. The constants `USER` and `ADMIN` stand in for the role enumeration. The gender column (Cliente.java:55-56, no `@Enumerated`) holds the enum's ordinal; nothing here reads it, so the gender is carried as an opaque value.
- EstadoServicio is not part of this model either. A state is kept by its symbolic name, which is what `toString()` gives for an enum constant.
- The numeric semantics of `costo` are not modelled: the cost is only copied.
- The request's fields and a stored service's state are assumed non-null. The null dereference that `getEstado().toString()` (ServicioService.java:44) would raise for a service saved with a null state (line 94 copies it unchecked) is not modelled.
- Whether `List.of(imagen)` (line 97) would refuse a later in-place `clear()` is not modelled.
- Servicio.java is not part of this model. The code column is assumed to carry a unique constraint, so a duplicate code fails the save with `Conflict`.
- A service's image list is the in-memory list the code manipulates. How Servicio.java maps it is not part of this model, so reloading it from the image rows is not modelled. The rows of extra images that an image update drops from the list stay in the image table, still pointing back at the service; only `deleteByIdPublica` removes a row. Under a `mappedBy` mapping a reload would show them again, and under orphan removal they would be deleted; the model takes neither reading.
- A cascade save of already persisted images changes nothing, so each operation writes only its new image's row.
- The provider's in-memory `servicios` list (line 101) is modelled as what it mirrors: the set of services that reference the provider (`ProviderServices`).
- Image ids and provider fields other than id and name are not used by these operations and are not modelled. Events appear only as the ids a service holds.
- The null check at lines 170-172 can never fire, because `findById` never yields null; it has no counterpart.
- Concurrency and isolation between simultaneous requests are not modelled. Each operation runs alone.
- Atomicity across the relational store and the image store is not modelled, because the source does not provide it.
