/** What several parts of the kernel model share. */
module Common {

  /** The size of a page, which is also the size of a frame. */
  const PGSIZE: int := 4096

  /** Words of the machine have 32 bits. */
  const TWO32: int := 0x1_0000_0000

  /** The number of buffers in the cache. */
  const NBUF: int := 30

  datatype Option<T> = None | Some(value: T)

  function Least(x: int, y: int): int
  {
    if x < y then x else y
  }
}
