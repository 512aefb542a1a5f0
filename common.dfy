/** Failure-carrying values shared by the catalogue and the customer model. */
module Common {

  datatype Option<+T> = None | Some(value: T)

  /** The exceptions the modelled code raises, one constructor per kind. */
  datatype Error =
    | NotFound(message: string)   // NotFoundException with its message
    | InvalidMedia                // the file validator rejects the media type
    | InvalidName                 // no file name can be derived from the original name
    | UpstreamUnavailable         // the remote image store failed an upload
    | Conflict                    // a unique constraint of the relational store is violated
    | NotNullViolation            // a NOT NULL column is given null
    | NullPointer                 // a method is called on a null reference
    | IndexOutOfBounds            // List.get on an index the list does not have

  datatype Result<+T> = Ok(value: T) | Err(error: Error)
}
