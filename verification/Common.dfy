/** Vocabulary shared by the other modules. */
module Common {

  datatype Option<+T> = None | Some(value: T)

  datatype Result<+T, +E> = Ok(value: T) | Err(error: E)

  /** An id of a session; ids are only ever compared. */
  type Id = nat

  type Byte = b: int | 0 <= b < 256

  type Bytes = seq<Byte>

  function Max(a: int, b: int): int {
    if a >= b then a else b
  }

  function Min(a: int, b: int): int {
    if a <= b then a else b
  }

  /** 1 when `b` holds, 0 otherwise: lets counts and set membership share one equation. */
  function Bit(b: bool): nat {
    if b then 1 else 0
  }
}
