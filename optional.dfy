/** Java's nullable boxed values (`@Nullable Double`, `@Nullable Integer`) as an option type. */
module Optional {

  datatype Option<+T> = None | Some(value: T)
}
