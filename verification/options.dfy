/** A value that may be absent: the TypeScript `T | null` and optional fields. */
module Options {

  datatype Option<+T> = None | Some(value: T)
}
