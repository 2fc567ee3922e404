/** Linux error numbers returned by the modules (asm-generic/errno-base.h). */
module Kernel {
  const EIO := 5
  const EBUSY := 16
  const ENODEV := 19

  /** A negative errno, as carried by an ERR_PTR or a failing kernel call. */
  type Errno = x: int | x < 0 witness -1
}
