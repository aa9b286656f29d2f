/** Small definitions shared by every module. */
module Common {

  datatype Option<+T> = None | Some(value: T)

  /** One octet, as `unsigned char` and `uint8_t`. */
  type Byte = b: int | 0 <= b < 256
}
