/** Small helper types shared by the modules of this model. */
module Wrappers {
  /** A value that may be missing; `None` stands for a C `NULL` pointer or a
      JavaScript `null`. */
  datatype Option<T> = None | Some(value: T)
  {
    predicate IsSome() { Some? }
  }
}
