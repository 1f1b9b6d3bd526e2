/** C pointers that may be NULL, by the value they point to. */
module Pointers {
  datatype Nullable<T> = Null | Some(value: T)
}
