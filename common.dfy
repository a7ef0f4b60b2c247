/** Small pieces shared by every part of the ledger model. */
module Common {

  /** A value that may be absent: a nullable column, an empty form field, a `find` that matched nothing. */
  datatype Option<T> = None | Some(value: T)

  /** JavaScript truthiness of a numeric id kept in component state (`editing`):
      `null` and `0` are both falsy. */
  predicate IsSet(id: Option<int>) {
    id.Some? && id.value != 0
  }
}
