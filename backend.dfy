/**
 * The storage contract shared by the configuration stores
 * (internal/pkg/backend/backend.go): the error a store reports for a missing
 * path, the per-path metadata record, the write options, the read side of the
 * Backend interface and the factory that picks an implementation.
 */
module Backend {
  import opened Wrappers

  /** Errors a store reports. */
  datatype Error =
    | NotFound(path: string)              // NotFoundErr
    | StorageFailure(cause: string)       // an error of the database driver, passed on
    | NotImplemented(backendType: string) // NewBackend with an unknown type

  /** The text of an error, as its Error() method renders it. */
  function ErrorMessage(e: Error): string
  {
    match e
    case NotFound(p) => "path " + p + " not found"
    case StorageFailure(cause) => cause
    case NotImplemented(t) => "backend " + t + " not implemented"
  }

  /** The message of a NotFoundErr names its path, and the path can be read back from it. */
  lemma NotFoundMessage(p: string, q: string)
    ensures |ErrorMessage(NotFound(p))| == |p| + 15
    ensures ErrorMessage(NotFound(p))[5..|p| + 5] == p
    ensures ErrorMessage(NotFound(p)) == ErrorMessage(NotFound(q)) ==> p == q
  {
    var m, n := ErrorMessage(NotFound(p)), ErrorMessage(NotFound(q));
    assert m == "path " + p + " not found";
    assert m[5..|p| + 5] == p;
    if m == n {
      assert n[5..|q| + 5] == q;
    }
  }

  /** The per-path version record; the timestamps are not modelled. */
  datatype Metadata = Metadata(path: string, latestVersion: int, currentVersion: int)

  datatype SetOptions = SetOptions(keepCurrent: bool)

  /**
   * The two operations of the Backend interface that the query service calls,
   * as total functions of a store's state at the time of the query.
   */
  datatype Reader = Reader(
    getManyCurrent: string -> Result<seq<string>, Error>,
    getMany: (string, int) -> Result<seq<string>, Error>)

  /** The backend section of the configuration file. */
  datatype Config = Config(backendType: string)

  /** The implementations NewBackend can hand out. */
  datatype BackendKind = PostgresKind

  /**
   * NewBackend: "postgres" delegates to the Postgres constructor, whose only
   * outcome that matters here is whether opening the connection pool failed
   * (`connect`); every other type, the in-memory store included, is refused.
   */
  function NewBackend(config: Config, connect: Option<string>): (r: Result<BackendKind, Error>)
    ensures r.Ok? <==> config.backendType == "postgres" && connect.None?
    ensures config.backendType != "postgres" ==>
      r.Err? && ErrorMessage(r.error) == "backend " + config.backendType + " not implemented"
    ensures config.backendType == "postgres" && connect.Some? ==> r == Err(StorageFailure(connect.value))
  {
    if config.backendType == "postgres" then
      match connect
      case None => Ok(PostgresKind)
      case Some(cause) => Err(StorageFailure(cause))
    else
      Err(NotImplemented(config.backendType))
  }
}
