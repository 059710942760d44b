/** Constants and types that several modules use. */
module Common {

  /** Processes the system can hold. */
  const PROCESS_MAX_PROCS := 32

  /** The character that ends a string. */
  const NUL := '\0'

  datatype Option<T> = None | Some(value: T)

  predicate IsInt(x: int) { -0x8000_0000 <= x < 0x8000_0000 }

  /** The 32-bit int that an operation with mathematical result `x` leaves. */
  function Wrap(x: int): (r: int)
    ensures IsInt(r) && (IsInt(x) ==> r == x)
  {
    (x + 0x8000_0000) % 0x1_0000_0000 - 0x8000_0000
  }
}
