/** The values a stack holds and the ways a push can fail. */
module LifoValues {

  /** An optional value; `None` plays the part of Java's `null`. */
  datatype Option<+T> = None | Some(value: T)

  /** The outcome of an operation that either yields a value or fails. */
  datatype Result<+R, +E> = Success(value: R) | Failure(error: E)

  /** A runtime class. Two tags are equal exactly when the classes are the
      same class, which is what `Class.equals` decides. */
  datatype ClassTag = ClassTag(name: string)

  /** A non-null object reference: its exact runtime class and an identity
      that tells apart distinct objects of one class. */
  datatype Value = Object(cls: ClassTag, ref: nat)

  /** Why a push failed. `TypeMismatch` is the stack's own error, raised when a
      typed stack is offered an object of another class; `IndexOutOfBounds` is
      the array store that fails when growth could not add a slot. */
  datatype PushError =
    | TypeMismatch(actual: ClassTag, declared: ClassTag)
    | IndexOutOfBounds(index: nat, length: nat)
}
