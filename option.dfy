/** Optional values, standing for the JavaScript `null`-or-value arguments of the
    board, and the truthiness test the source applies to an optional file name. */
module Optional {

  datatype Option<+T> = None | Some(value: T)

  /** JavaScript truthiness of a string-or-null: `null` and `""` are falsy,
      every other string is truthy. */
  predicate IsTruthy(s: Option<string>)
  {
    s.Some? && s.value != ""
  }
}
