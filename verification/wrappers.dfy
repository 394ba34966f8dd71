module Wrappers {
  /** A value that may be absent (`undefined` / `null` in the TypeScript code). */
  datatype Option<+T> = None | Some(value: T)
}
