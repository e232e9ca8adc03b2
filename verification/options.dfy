/** Optional values, results with an error, and JavaScript truthiness of optional strings. */
module Options {

  /** A value that may be absent (`undefined` / `null` in the modelled code). */
  datatype Option<+T> = None | Some(value: T)

  /** Either a value or the error the modelled code throws. */
  datatype Result<+T, +E> = Ok(value: T) | Err(error: E)

  /** JavaScript truthiness of a `string | null | undefined`: present and non-empty. */
  predicate Truthy(o: Option<string>)
  {
    o.Some? && o.value != ""
  }

  /** The expression `o || ''`. */
  function OrEmpty(o: Option<string>): string
  {
    if Truthy(o) then o.value else ""
  }
}
