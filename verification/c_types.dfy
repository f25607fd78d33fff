/** C-level value types shared by the models: fixed-width integers and
    pointers that may be NULL. */
module CTypes {

  /** An unsigned 8-bit value (uint8_t). */
  type Byte = x: int | 0 <= x < 0x100

  /** An unsigned 16-bit value (uint16_t). */
  type Uint16 = x: int | 0 <= x < 0x1_0000

  /** A pointer argument: either NULL or a reference to a value of type T. */
  datatype Ptr<T> = Null | Ref(target: T)

  /** A value that an operation may or may not have produced, such as the
      value stored through an optional out-pointer. */
  datatype Option<T> = None | Some(value: T)
}
