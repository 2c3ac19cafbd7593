/** The error values the service package returns. */
module Errors {

  /**
   * Invalid, NotFound, Conflict and FeedFetch are the package's sentinel errors;
   * Wrapped stands for an error built with fmt.Errorf around a collaborator's
   * failure, tagged with the words the code puts in front of it;
   * HttpStatus is the "HTTP <code>" error of a non-200 response;
   * Storage is a repository error passed through unchanged.
   */
  datatype ServiceError =
    | Invalid
    | NotFound
    | Conflict
    | FeedFetch
    | Wrapped(context: string)
    | HttpStatus(code: int)
    | Storage
}
