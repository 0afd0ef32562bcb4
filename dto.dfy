/**
 * The values passed between the query service's steps
 * (internal/pkg/dendrite/dto/dendrite.go) and the errors the service reports.
 */
module Dto {
  import Backend

  /** One lookup the planner asks for: a path and a version, -1 meaning "current". */
  datatype Selection = Selection(path: string, version: int)

  const CurrentVersion: int := -1

  /** The service's errors; a panic of the Go code becomes PathConflict. */
  datatype ServiceError =
    | ParseFailed                      // the GraphQL parser rejected the query text
    | InvalidVersion                   // a `version` argument that is not an int
    | InvalidPath                      // a selection path without the leading "/"
    | FetchFailed(cause: Backend.Error) // the backend call failed
    | PathConflict(path: string)       // descending through a segment that holds a value

  /** The message of an error, for the errors the Go code builds itself. */
  function ServiceMessage(e: ServiceError): (m: string)
    ensures e.FetchFailed? ==> m == "failed to get values from db: " + Backend.ErrorMessage(e.cause)
    ensures e == InvalidVersion ==> m == "invalid version provided"
    ensures e == InvalidPath ==> m == "invalid path"
  {
    match e
    case ParseFailed => "parse error"
    case InvalidVersion => "invalid version provided"
    case InvalidPath => "invalid path"
    case FetchFailed(cause) => "failed to get values from db: " + Backend.ErrorMessage(cause)
    case PathConflict(p) => "interface conversion at " + p
  }
}
