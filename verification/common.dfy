/** Values shared by every component: JavaScript's `T | null` / `T | undefined`. */
module Common {

  /** A value that may be absent (`null` or `undefined` in the source). */
  datatype Option<+T> = None | Some(value: T)
}
