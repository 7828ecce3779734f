/** Small shared vocabulary: optional values, record ids and identity-token claims. */
module Base {

  /** A value that may be absent (JavaScript's `undefined`/`null`). */
  datatype Option<T> = None | Some(value: T) {

    /** The wrapped value, or `default` when absent. */
    function GetOr(default: T): T {
      match this
      case Some(v) => v
      case None => default
    }
  }

  /** Document ids (MongoDB ObjectIds in their string form). */
  type Id = string

  /** The claims an identity token carries under its `user` key: `{id, username, role}`.
      `role` is absent when the stored record has none (the schema gives it no default). */
  datatype Identity = Identity(id: Id, username: string, role: Option<string>)

  function Min(a: nat, b: nat): nat {
    if a <= b then a else b
  }
}
