/** Types and helpers shared by all models. */
module Basics {
  datatype Option<T> = None | Some(value: T)

  type byte = b: int | 0 <= b < 256
  type u16 = n: int | 0 <= n < 0x1_0000
  type u32 = n: int | 0 <= n < 0x1_0000_0000

  function Min(a: nat, b: nat): nat {
    if a <= b then a else b
  }
}
