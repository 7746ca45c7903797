/** Value wrappers shared by the backend and the client models. */
module Common {

  /** A value that may be missing: an absent request field, a cookie that was
      not sent, a `null` user. */
  datatype Option<+T> = None | Some(value: T)

  /** The outcome of one awaited `axios` call: it resolved with a body, or it
      threw and the component's `catch` ran. */
  datatype Fetch<+T> = Fetched(body: T) | FetchFailed
}
