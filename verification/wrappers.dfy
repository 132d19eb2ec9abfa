/** Small value wrappers shared by the other modules. */
module Wrappers {
  /** `Option<T>`: the result of an operation that may refuse its input. */
  datatype Option<T> = None | Some(value: T)

  /**
   * A shared reference `&T` to an immutable value. Nothing in the model can mutate
   * through it, so reading it (`Deref`) yields the value it was taken of.
   */
  datatype Ref<T> = Borrow(deref: T)
}
