/** Vocabulary shared by every module. */
module Common {

  /** A value of the source's `std::uint8_t`. */
  type Byte = x: int | 0 <= x < 256

  /** A value of the source's `std::uint32_t`. */
  type Word = x: int | 0 <= x < 0x1_0000_0000

  /** An unsigned 32-bit number converted to a signed one. */
  function ToInt32(w: Word): int { if w < 0x8000_0000 then w else w - 0x1_0000_0000 }

  /** `max_payload_size` */
  const MAX_PAYLOAD := 0x1df

  datatype Option<+T> = None | Some(value: T)
}
