/** Nullable values: TypeScript's `T | null` as an option type. */
module Nullable {

  datatype Option<+T> = None | Some(value: T)
}
