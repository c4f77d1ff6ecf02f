/** Python's `None` as an explicit absence marker. */
module Options {

  /** A value, or Python's `None`. */
  datatype Option<+T> = None | Some(value: T)

  /** Python truthiness of a `str` or `None`: `None` and `""` are false. */
  predicate Truthy(o: Option<string>)
  {
    o.Some? && o.value != ""
  }
}
