/** Values the conversation screen works with: records, messages and the
    outcomes of the backend calls whose completions feed the screen. */
module ChatTypes {

  datatype Option<+T> = None | Some(value: T)

  /** A backend record identifier: a record type and a record name. */
  datatype RecordID = RecordID(recordType: string, name: string)

  /** A fetched user record; only its optional "name" attribute is read. */
  datatype Record = Record(id: RecordID, displayName: Option<string>)

  /** A chat message. `id` is the record name of the message's record ID,
      `creator` the creator's user record name, `created` the creation date. */
  datatype Message = Message(id: string, creator: string, body: Option<string>, created: int)

  /** The kind of a real-time message change delivered on the user channel. */
  datatype ChangeEvent = Create | Update | Delete

  /** What a backend completion block receives: an error, a nil (or
      ill-typed) result, or a result. */
  datatype Response<+T> = Failed(error: string) | Missing | Fetched(value: T)

  /** Errors handed to the caller's completion block: the backend's own
      error passed through, or the screen's "bad response" error. */
  datatype FetchError = Backend(detail: string) | BadResponse

  datatype Result<+T> = Ok(value: T) | Err(error: FetchError)
}
