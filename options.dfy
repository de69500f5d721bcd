/** Nullable values of the TypeScript records (`string | null`, an absent column). */
module Options {

  datatype Option<+T> = None | Some(value: T)

  /** JavaScript truthiness of a `string | null`: neither null nor the empty string. */
  predicate Present(v: Option<string>) {
    v.Some? && v.value != ""
  }
}
