/** The 8- and 16-bit words of dart_calculate_crc as their bits, with the shifts that code uses. */
module Bits {
  import opened Wrappers

  /** A uint8_t as its bits. */
  datatype Octet = Octet(b7: bool, b6: bool, b5: bool, b4: bool, b3: bool, b2: bool, b1: bool, b0: bool)

  /** A uint16_t as its bits. */
  datatype Word = Word(b15: bool, b14: bool, b13: bool, b12: bool, b11: bool, b10: bool, b9: bool, b8: bool,
                       b7: bool, b6: bool, b5: bool, b4: bool, b3: bool, b2: bool, b1: bool, b0: bool)

  const ONES8 := Octet(true, true, true, true, true, true, true, true)
  const ONES16 := Word(true, true, true, true, true, true, true, true,
                       true, true, true, true, true, true, true, true)

  function Xor8(v: Octet, w: Octet): Octet {
    Octet(v.b7 != w.b7, v.b6 != w.b6, v.b5 != w.b5, v.b4 != w.b4,
          v.b3 != w.b3, v.b2 != w.b2, v.b1 != w.b1, v.b0 != w.b0)
  }

  function Xor(v: Word, w: Word): Word {
    Word(v.b15 != w.b15, v.b14 != w.b14, v.b13 != w.b13, v.b12 != w.b12,
         v.b11 != w.b11, v.b10 != w.b10, v.b9 != w.b9, v.b8 != w.b8,
         v.b7 != w.b7, v.b6 != w.b6, v.b5 != w.b5, v.b4 != w.b4,
         v.b3 != w.b3, v.b2 != w.b2, v.b1 != w.b1, v.b0 != w.b0)
  }

  /** w << 5 */
  function Shl5(w: Word): Word {
    Word(w.b10, w.b9, w.b8, w.b7, w.b6, w.b5, w.b4, w.b3, w.b2, w.b1, w.b0, false, false, false, false, false)
  }

  /** w << 8 */
  function Shl8(w: Word): Word {
    Word(w.b7, w.b6, w.b5, w.b4, w.b3, w.b2, w.b1, w.b0, false, false, false, false, false, false, false, false)
  }

  /** w << 12 */
  function Shl12(w: Word): Word {
    Word(w.b3, w.b2, w.b1, w.b0, false, false, false, false, false, false, false, false, false, false, false, false)
  }

  /** w >> 4 */
  function Shr4(w: Word): Word {
    Word(false, false, false, false, w.b15, w.b14, w.b13, w.b12, w.b11, w.b10, w.b9, w.b8, w.b7, w.b6, w.b5, w.b4)
  }

  /** w >> 8 */
  function Shr8(w: Word): Word {
    Word(false, false, false, false, false, false, false, false, w.b15, w.b14, w.b13, w.b12, w.b11, w.b10, w.b9, w.b8)
  }

  /** A uint8_t widened to uint16_t */
  function Widen(o: Octet): Word {
    Word(false, false, false, false, false, false, false, false, o.b7, o.b6, o.b5, o.b4, o.b3, o.b2, o.b1, o.b0)
  }

  function High(w: Word): Octet {
    Octet(w.b15, w.b14, w.b13, w.b12, w.b11, w.b10, w.b9, w.b8)
  }

  function Low(w: Word): Octet {
    Octet(w.b7, w.b6, w.b5, w.b4, w.b3, w.b2, w.b1, w.b0)
  }

  function ToOctet(b: Byte): Octet {
    var n7: int := b;
    var n6 := if n7 >= 128 then n7 - 128 else n7;
    var n5 := if n6 >= 64 then n6 - 64 else n6;
    var n4 := if n5 >= 32 then n5 - 32 else n5;
    var n3 := if n4 >= 16 then n4 - 16 else n4;
    var n2 := if n3 >= 8 then n3 - 8 else n3;
    var n1 := if n2 >= 4 then n2 - 4 else n2;
    var n0 := if n1 >= 2 then n1 - 2 else n1;
    Octet(n7 >= 128, n6 >= 64, n5 >= 32, n4 >= 16, n3 >= 8, n2 >= 4, n1 >= 2, n0 >= 1)
  }

  /** The number with these binary digits, highest first. */
  function Value(bits: seq<bool>): (n: nat)
    ensures n < Pow2(|bits|)
  {
    if bits == [] then 0 else 2 * Value(bits[..|bits| - 1]) + if bits[|bits| - 1] then 1 else 0
  }

  function ToByte(o: Octet): Byte {
    assert Pow2(8) == 256;
    Value([o.b7, o.b6, o.b5, o.b4, o.b3, o.b2, o.b1, o.b0])
  }

  lemma {:induction false} ValueInjective(a: seq<bool>, b: seq<bool>)
    requires |a| == |b| && Value(a) == Value(b)
    ensures a == b
    decreases |a|
  {
    if a != [] {
      var m, n := a[..|a| - 1], b[..|b| - 1];
      assert a == m + [a[|a| - 1]] && b == n + [b[|b| - 1]];
      ValueInjective(m, n);
    }
  }

  lemma ToByteInjective(o1: Octet, o2: Octet)
    requires ToByte(o1) == ToByte(o2)
    ensures o1 == o2
  {
    var a := [o1.b7, o1.b6, o1.b5, o1.b4, o1.b3, o1.b2, o1.b1, o1.b0];
    var b := [o2.b7, o2.b6, o2.b5, o2.b4, o2.b3, o2.b2, o2.b1, o2.b0];
    ValueInjective(a, b);
    hide Value;
    assert a[0] == b[0] && a[1] == b[1] && a[2] == b[2] && a[3] == b[3];
    assert a[4] == b[4] && a[5] == b[5] && a[6] == b[6] && a[7] == b[7];
  }

  lemma ValueLonger(bits: seq<bool>, b: bool)
    ensures Value(bits + [b]) == 2 * Value(bits) + if b then 1 else 0
  {
    assert (bits + [b])[..|bits|] == bits;
  }

  function Nibble(b3: bool, b2: bool, b1: bool, b0: bool): nat {
    (if b3 then 8 else 0) + (if b2 then 4 else 0) + (if b1 then 2 else 0) + (if b0 then 1 else 0)
  }

  lemma ValueFour(bits: seq<bool>, b3: bool, b2: bool, b1: bool, b0: bool)
    ensures Value(bits + [b3, b2, b1, b0]) == 16 * Value(bits) + Nibble(b3, b2, b1, b0)
  {
    hide Value;
    ValueLonger(bits, b3);
    ValueLonger(bits + [b3], b2);
    ValueLonger(bits + [b3] + [b2], b1);
    ValueLonger(bits + [b3] + [b2] + [b1], b0);
    assert bits + [b3, b2, b1, b0] == bits + [b3] + [b2] + [b1] + [b0];
  }

  lemma ToByteSum(o: Octet)
    ensures ToByte(o) == 16 * Nibble(o.b7, o.b6, o.b5, o.b4) + Nibble(o.b3, o.b2, o.b1, o.b0)
  {
    var high := [o.b7, o.b6, o.b5, o.b4];
    hide Value, ToByte, Nibble;
    Joined(high, o);
    NoValue();
    ValueFour([], o.b7, o.b6, o.b5, o.b4);
    ValueFour(high, o.b3, o.b2, o.b1, o.b0);
    assert [] + high == high;
  }

  lemma NoValue()
    ensures Value([]) == 0
  {
  }

  lemma Joined(high: seq<bool>, o: Octet)
    requires high == [o.b7, o.b6, o.b5, o.b4]
    ensures ToByte(o) == Value(high + [o.b3, o.b2, o.b1, o.b0])
  {
    hide Value;
    assert high + [o.b3, o.b2, o.b1, o.b0] == [o.b7, o.b6, o.b5, o.b4, o.b3, o.b2, o.b1, o.b0];
  }

  lemma ToOctetInverse(b: Byte)
    ensures ToByte(ToOctet(b)) == b
  {
    hide ToByte;
    ToByteSum(ToOctet(b));
  }
}
