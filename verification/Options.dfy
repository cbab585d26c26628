/** The optional value used for nullable columns and for `None` returns. */
module Options {
  datatype Option<+T> = None | Some(value: T)

  /** Python's `a or b` on two optional strings: the empty string counts as absent. */
  function OrElse(a: Option<string>, b: Option<string>): Option<string> {
    if Truthy(a) then a else b
  }

  /** Whether an optional string is neither absent nor empty. */
  predicate Truthy(s: Option<string>) {
    s.Some? && s.value != ""
  }
}
