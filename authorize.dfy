/**
 * The authorization service: picks the storage backend named in its
 * configuration and hands out resolvers.
 */
module AuthorizeService {
  import opened Wrappers
  import opened Store
  import opened Resolver

  /** The storage backends the service can run on. */
  datatype Backend = Mongoose

  datatype ServiceError =
    | UnsupportedStorage  // the configured backend name is not supported
    | NotImplemented      // group resolvers do not exist

  /** `config.storageService || 'memory'`: a missing or empty name falls back to "memory". */
  function StorageName(storageService: Option<string>): (name: string)
    ensures name != ""
    ensures Truthy(storageService) ==> name == storageService.value
  {
    if Truthy(storageService) then storageService.value else "memory"
  }

  /**
   * The backend switch: "mongoose" is the only name accepted; any other name,
   * including the "memory" fallback, is an error.
   */
  function SelectBackend(storageService: Option<string>): (r: Result<Backend, ServiceError>)
    ensures r.Ok? <==> storageService == Some("mongoose")
    ensures r.Err? ==> r.error == UnsupportedStorage
  {
    match StorageName(storageService)
    case "mongoose" => Ok(Mongoose)
    case _ => Err(UnsupportedStorage)
  }

  class Authorize {
    /** The store the selected backend reads and writes. */
    const store: PermissionStore

    constructor (store: PermissionStore)
      ensures this.store == store
    {
      this.store := store;
    }

    /** A fresh resolver for `userId`, on this service's store, with an empty log. */
    method User(userId: string) returns (tx: UserPermission)
      ensures fresh(tx)
      ensures tx.userId == userId && tx.store == store && tx.changes == []
    {
      tx := new UserPermission(userId, store);
    }

    /** Group resolvers are not implemented: always an error, and no resolver. */
    method Group(groupId: string) returns (outcome: Outcome<ServiceError>)
      ensures outcome == Fail(NotImplemented)
    {
      outcome := Fail(NotImplemented);
    }
  }

  /**
   * `new Authorize(svcs)`: a service on the `mongoose` store when the
   * configured storage name is "mongoose", an error for any other name.
   */
  method NewAuthorize(storageService: Option<string>, mongoose: PermissionStore)
    returns (r: Result<Authorize, ServiceError>)
    ensures r.Ok? <==> storageService == Some("mongoose")
    ensures r.Ok? ==> fresh(r.value) && r.value.store == mongoose
    ensures r.Err? ==> r.error == UnsupportedStorage
  {
    match SelectBackend(storageService)
    case Ok(Mongoose) =>
      var service := new Authorize(mongoose);
      r := Ok(service);
    case Err(e) =>
      r := Err(e);
  }
}
