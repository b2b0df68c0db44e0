/**
 * Kernel-side vocabulary shared by both drivers: bytes, the errno values the
 * drivers return, the C `int` limit of the read index, and the interrupt
 * handler's return code.
 */
module Kernel {

  /** An unsigned char as moved across the bus and between user and kernel buffers. */
  newtype byte = b: int | 0 <= b < 256

  /** ASCII line feed: the byte that ends a read early. */
  const NEWLINE: byte := 10

  /** Linux errno values; the drivers return their negations. */
  const ENOMEM: int := 12
  const EFAULT: int := 14
  const ENODEV: int := 19

  /** Largest value of the C `int` that holds the read index. */
  const INT_MAX: int := 0x7fff_ffff

  datatype Option<T> = None | Some(value: T)

  /** `irqreturn_t`: whether a handler dealt with the interrupt. */
  datatype IrqReturn = IrqNone | IrqHandled
}
