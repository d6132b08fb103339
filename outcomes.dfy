/** Results and the exceptions the client library raises, as values. */
module Outcomes {

  datatype Option<+T> = None | Some(value: T)

  datatype Result<+T> = Ok(value: T) | Err(error: Error)

  /** One constructor per exception a caller of the library can observe. */
  datatype Error =
    | NotFound                      // LookupError: no resource satisfies the query
    | Ambiguous(resource: string)   // LookupError: several resources satisfy the query
    | UnknownObject(name: string)   // KeyError: page_objects indexed with a missing object name
    | NotAString                    // AttributeError: .lower() called on None or an int
    | UnsetRequestUrl               // AttributeError: requestUrl read before it is assigned
    | NotReadable(resource: string) // KeyError: the read reply has no content.value
    | NotAnObject                   // TypeError: the read reply indexed with a key but not a JSON object
    | HttpError(status: int)        // requests' raise_for_status on a 4xx or 5xx status
    | NoResponse(reason: string)    // the transport raised before any status (timeout, refused)
}
