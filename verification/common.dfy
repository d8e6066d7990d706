/** Shared result types: the answers the route handlers send, collapsed from HTTP
    status codes to a small error datatype. */
module Common {

  datatype Option<+T> = None | Some(value: T)

  /** What a handler answers instead of a document.
      NotFound: 404. AlreadyLiked and InvalidUpdates: the two 400 answers of the post
      router. ServerError: 500, which the handlers also send when a save fails
      the schema validation. */
  datatype Error = NotFound | AlreadyLiked | InvalidUpdates | ServerError

  datatype Result<+T> = Ok(value: T) | Err(error: Error)
}
