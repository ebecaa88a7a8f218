/** Names shared by the kernel modules. */
module Common {

  datatype Option<T> = None | Some(value: T)

  /** One more than the largest 64-bit value. */
  const U64: nat := 0x1_0000_0000_0000_0000

  const PAGE_SIZE: nat := 4096
}
