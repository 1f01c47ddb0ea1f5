/** Small shared vocabulary: optional values (a field that is `undefined`,
    a query that found nothing) and account identifiers. */
module Common {

  /** A value that may be absent: Mongoose's `undefined` field or a `null` query result. */
  datatype Option<+T> = None | Some(value: T)

  /** The `_id` of an account. The model hands ids out in increasing order
      and lets `findOne` return the matching account with the least id; the
      database promises no order for an unsorted `findOne`, so the properties
      that depend on which account is found assume a unique match. */
  type UserId = nat
}
