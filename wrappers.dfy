/** Kotlin's nullable values (`String?`) as an explicit option. */
module Wrappers {
  datatype Option<+T> = None | Some(value: T)
}
