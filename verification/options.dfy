/** The nullable values of the calculator (`number | null`, `string | null`). */
module Options {

  /** `None` plays the part of `null`. */
  datatype Option<T> = None | Some(value: T)

}
