/** Values shared by the cart and order models: optional request fields,
    JavaScript truthiness of strings, identifiers, and the outcome of a request. */
module Common {

  /** An optional field of a JSON body or document; `None` is a field left out. */
  datatype Option<+T> = None | Some(value: T)

  /** Mongo identifiers and user ids, compared through their string form. */
  type ObjectId = string
  type UserId = string

  /** Truthiness of a string field (`!!s`): a missing field and "" are both falsy.
      Mongoose's `required` check on a String path accepts exactly the same values. */
  predicate Present(s: Option<string>)
  {
    s.Some? && s.value != ""
  }

  /** The failure answer of a route, one variant per HTTP status it can send. */
  datatype HttpError =
    | Validation(message: string)   // 400
    | Forbidden(message: string)    // 403
    | NotFound(message: string)     // 404
    | ServerError(message: string)  // 500, an exception caught by the route

  /** Either the value a route or a validator produces, or why it failed. */
  datatype Result<+T, +E> = Ok(value: T) | Err(error: E)
}
