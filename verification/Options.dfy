/** Absence and presence: what the program writes as null, undefined or -1. */
module Options {
  datatype Option<+T> = None | Some(value: T)
}
