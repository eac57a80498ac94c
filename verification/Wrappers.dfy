/** The optional value that stands for a C pointer or index that may be NULL, the C integer types, and small helpers. */
module Wrappers {
  datatype Option<+T> = None | Some(value: T)

  /** One byte of a C buffer. */
  type Byte = b: int | 0 <= b < 256

  const UINT32 := 0x1_0000_0000

  /** uint32_t */
  type Uint32 = w: int | 0 <= w < UINT32

  function Last<T>(s: seq<T>): T
    requires s != []
  {
    s[|s| - 1]
  }

  ghost predicate Distinct<T>(s: seq<T>) {
    forall i, j :: 0 <= i < j < |s| ==> s[i] != s[j]
  }

  function Pow2(k: nat): (p: nat)
    ensures p >= 1
  {
    if k == 0 then 1 else 2 * Pow2(k - 1)
  }

  function Min(a: nat, b: nat): nat {
    if a <= b then a else b
  }

  lemma AddModulo(a: nat, b: nat)
    ensures (a % UINT32 + b) % UINT32 == (a + b) % UINT32
  {
    assert a == UINT32 * (a / UINT32) + a % UINT32;
  }
}
