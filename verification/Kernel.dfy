/**
 * Integer widths, error codes and the outcomes of a kernel call.
 */
module Kernel {
  datatype Option<+T> = None | Some(value: T)

  const U64_LIMIT: int := 0x1_0000_0000_0000_0000
  const U32_LIMIT: int := 0x1_0000_0000

  type U64 = x: int | 0 <= x < U64_LIMIT
  type U32 = x: int | 0 <= x < U32_LIMIT
  type Byte = x: int | 0 <= x < 256

  const ENOENT := -2
  const ENOMEM := -12
  const EFAULT := -14
  const EBUSY := -16
  const ENODEV := -19
  const EINVAL := -22

  /** The BUG_ON checks a recipe call can run into. */
  datatype Bug = ExistingEndOverflows | NewEndOverflows | EmptyListPublished

  /** A call either returns a code or stops at a BUG_ON. */
  datatype Outcome = Ret(code: int) | BugOn(bug: Bug)

  /** check_add_overflow on u64: whether the sum wrapped, and the wrapped sum. */
  function CheckAdd(a: U64, b: U64): (r: (bool, U64)) {
    (a + b >= U64_LIMIT, if a + b >= U64_LIMIT then a + b - U64_LIMIT else a + b)
  }
}
