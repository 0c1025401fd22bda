/** Small definitions shared by every component. */
module Prelude {

  datatype Option<+T> = None | Some(value: T)

  /** C integer types, kept as ranges of the mathematical integers. */
  type byte = x: int | 0 <= x < 0x100
  type uint16 = x: int | 0 <= x < 0x1_0000
  type uint32 = x: int | 0 <= x < 0x1_0000_0000
  type int32 = x: int | -0x8000_0000 <= x < 0x8000_0000

  /** Conversion int -> uint32_t: modulo 2^32. */
  function ToUint32(x: int32): uint32 {
    if x < 0 then x + 0x1_0000_0000 else x
  }

  /** Conversion uint32_t -> int, two's complement. */
  function ToInt32(x: uint32): (r: int32)
    ensures ToUint32(r) == x
  {
    if x < 0x8000_0000 then x else x - 0x1_0000_0000
  }

  function Min(a: int, b: int): int {
    if a < b then a else b
  }

  ghost predicate NoDuplicates<T>(s: seq<T>) {
    forall i, j :: 0 <= i < j < |s| ==> s[i] != s[j]
  }

  /** memmove within one array: n elements from index src to index dst, as if through a copy. */
  method MemMove<T>(a: array<T>, dst: nat, src: nat, n: nat)
    requires src + n <= a.Length && dst + n <= a.Length
    modifies a
    ensures a[..] == old(a[..dst]) + old(a[src..src + n]) + old(a[dst + n..])
  {
    forall i | dst <= i < dst + n {
      a[i] := a[i - dst + src];
    }
  }
}
