/**
 dart_calculate_crc of source/core/dart.c: the 1-byte exclusive-or and the 2-byte shift-and-xor loop.
 The 2-byte loop is shown to be polynomial long division by x^16 + x^12 + x^5 + 1 (the generator of
 section 2 of ITU-T Recommendation V.41) of the message followed by 16 zero bits, with the first 16
 bits inverted.
 */
module Crc {
  import opened Wrappers
  import opened Bits

  // ---------------------------------------------------------------- the loops

  function Crc8(crc: Octet, data: seq<Byte>): Octet
    decreases |data|
  {
    if data == [] then crc else Crc8(Xor8(crc, ToOctet(data[0])), data[1..])
  }

  /** x ^ x >> 4 of one round, which fits 8 bits. */
  function Folded(w: Word, o: Octet): Octet {
    var x7, x6, x5, x4 := w.b15 != o.b7, w.b14 != o.b6, w.b13 != o.b5, w.b12 != o.b4;
    Octet(x7, x6, x5, x4, (w.b11 != o.b3) != x7, (w.b10 != o.b2) != x6, (w.b9 != o.b1) != x5, (w.b8 != o.b0) != x4)
  }

  /** The register after one round, from its low byte and the folded byte. */
  function Mix(w: Word, y: Octet): Word {
    Word(w.b7 != y.b3, w.b6 != y.b2, w.b5 != y.b1, (w.b4 != y.b0) != y.b7,
         w.b3 != y.b6, w.b2 != y.b5, w.b1 != y.b4, w.b0 != y.b3,
         y.b2 != y.b7, y.b1 != y.b6, y.b0 != y.b5, y.b4,
         y.b3, y.b2, y.b1, y.b0)
  }

  /** One round of the 2-byte loop, bit by bit; RoundIsStep16 says that it is what the shifts compute. */
  function Step16(crc: Word, b: Octet): Word {
    Mix(crc, Folded(crc, b))
  }

  function Crc16(crc: Word, data: seq<Byte>): Word
    decreases |data|
  {
    if data == [] then crc else Crc16(Step16(crc, ToOctet(data[0])), data[1..])
  }

  lemma {:induction false} Crc8Append(crc: Octet, a: seq<Byte>, b: seq<Byte>)
    ensures Crc8(crc, a + b) == Crc8(Crc8(crc, a), b)
    decreases |a|
  {
    hide Xor8, ToOctet;
    if a == [] {
      assert a + b == b;
    } else {
      assert (a + b)[1..] == a[1..] + b;
      Crc8Append(Xor8(crc, ToOctet(a[0])), a[1..], b);
    }
  }

  lemma {:induction false} Crc16Append(crc: Word, a: seq<Byte>, b: seq<Byte>)
    ensures Crc16(crc, a + b) == Crc16(Crc16(crc, a), b)
    decreases |a|
  {
    hide Step16, ToOctet;
    if a == [] {
      assert a + b == b;
    } else {
      assert (a + b)[1..] == a[1..] + b;
      Crc16Append(Step16(crc, ToOctet(a[0])), a[1..], b);
    }
  }

  /** dart_calculate_crc with DART_CRC_SIZE 1 */
  method CalculateCrc8(buffer: array<Byte>, start: nat, length: nat) returns (crc: Octet)
    requires start + length <= buffer.Length
    ensures crc == Crc8(ONES8, buffer[start..start + length])
  {
    hide Xor8, ToOctet;
    crc := ONES8;
    for i := 0 to length
      invariant crc == Crc8(ONES8, buffer[start..start + i])
    {
      Crc8Append(ONES8, buffer[start..start + i], [buffer[start + i]]);
      assert buffer[start..start + i + 1] == buffer[start..start + i] + [buffer[start + i]];
      crc := Xor8(crc, ToOctet(buffer[start + i]));
    }
  }

  /** dart_calculate_crc with DART_CRC_SIZE 2 */
  method CalculateCrc16(buffer: array<Byte>, start: nat, length: nat) returns (crc: Word)
    requires start + length <= buffer.Length
    ensures crc == Crc16(ONES16, buffer[start..start + length])
  {
    hide Xor, ToOctet, Widen, Shr4, Shr8, Shl5, Shl8, Shl12, Step16;
    crc := ONES16;
    for i := 0 to length
      invariant crc == Crc16(ONES16, buffer[start..start + i])
    {
      Crc16Append(ONES16, buffer[start..start + i], [buffer[start + i]]);
      assert buffer[start..start + i + 1] == buffer[start..start + i] + [buffer[start + i]];
      RoundIsStep16(crc, ToOctet(buffer[start + i]));
      var x := Xor(Shr8(crc), Widen(ToOctet(buffer[start + i])));
      x := Xor(x, Shr4(x));
      crc := Xor(Xor(Xor(Shl8(crc), Shl12(x)), Shl5(x)), x);
    }
  }

  // ---------------------------------------------------------------- one round, bit by bit

  lemma FoldedIsXor(w: Word, o: Octet)
    ensures var x := Xor(Shr8(w), Widen(o)); Xor(x, Shr4(x)) == Widen(Folded(w, o))
  {
  }

  lemma MixIsXor(w: Word, y: Octet)
    ensures Xor(Xor(Xor(Shl8(w), Shl12(Widen(y))), Shl5(Widen(y))), Widen(y)) == Mix(w, y)
  {
  }

  /** The statements of one round. */
  lemma RoundIsStep16(w: Word, o: Octet)
    ensures var x := Xor(Shr8(w), Widen(o));
            var y := Xor(x, Shr4(x));
            Xor(Xor(Xor(Shl8(w), Shl12(y)), Shl5(y)), y) == Step16(w, o)
  {
    hide Xor, Widen, Shr4, Shr8, Shl5, Shl8, Shl12, Mix, Folded;
    FoldedIsXor(w, o);
    MixIsXor(w, Folded(w, o));
  }

  /** One shift of the register; when f is set the generator is subtracted. */
  function Shift(w: Word, f: bool): Word {
    Word(w.b14, w.b13, w.b12, w.b11 != f, w.b10, w.b9, w.b8, w.b7, w.b6, w.b5, w.b4 != f, w.b3, w.b2, w.b1, w.b0, f)
  }

  /** The shift register with one message bit coming in at the top. */
  function ShiftBit(w: Word, bit: bool): Word {
    Shift(w, w.b15 != bit)
  }

  /** Shifting in eight bits, most significant first. */
  function ShiftOctet(w: Word, o: Octet): Word {
    ShiftBit(ShiftBit(ShiftBit(ShiftBit(ShiftBit(ShiftBit(ShiftBit(ShiftBit(
      w, o.b7), o.b6), o.b5), o.b4), o.b3), o.b2), o.b1), o.b0)
  }

  lemma MixIsShifts(w: Word, y: Octet)
    ensures Mix(w, y) ==
            Shift(Shift(Shift(Shift(Shift(Shift(Shift(Shift(w, y.b7), y.b6), y.b5), y.b4), y.b3), y.b2), y.b1), y.b0)
  {
  }

  /** The bits the folded byte feeds in are the ones the shift register would feed in: the first four ... */
  lemma FirstShifts(w: Word, o: Octet)
    ensures var y := Folded(w, o);
            && y.b7 == (w.b15 != o.b7)
            && y.b6 == (Shift(w, y.b7).b15 != o.b6)
            && y.b5 == (Shift(Shift(w, y.b7), y.b6).b15 != o.b5)
            && y.b4 == (Shift(Shift(Shift(w, y.b7), y.b6), y.b5).b15 != o.b4)
  {
  }

  /** The top half-byte of the register after four shifts. */
  lemma TopAfterFour(w: Word, y: Octet)
    ensures var v := Shift(Shift(Shift(Shift(w, y.b7), y.b6), y.b5), y.b4);
            v.b15 == (w.b11 != y.b7) && v.b14 == (w.b10 != y.b6) && v.b13 == (w.b9 != y.b5) && v.b12 == (w.b8 != y.b4)
  {
  }

  /** The top bits met by the next four shifts are that half-byte. */
  lemma TopDuringFour(v: Word, y: Octet)
    ensures Shift(v, y.b3).b15 == v.b14 && Shift(Shift(v, y.b3), y.b2).b15 == v.b13
    ensures Shift(Shift(Shift(v, y.b3), y.b2), y.b1).b15 == v.b12
  {
  }

  /** ... and the last four. */
  lemma LastShifts(w: Word, o: Octet)
    ensures var y := Folded(w, o);
            var v := Shift(Shift(Shift(Shift(w, y.b7), y.b6), y.b5), y.b4);
            && y.b3 == (v.b15 != o.b3)
            && y.b2 == (Shift(v, y.b3).b15 != o.b2)
            && y.b1 == (Shift(Shift(v, y.b3), y.b2).b15 != o.b1)
            && y.b0 == (Shift(Shift(Shift(v, y.b3), y.b2), y.b1).b15 != o.b0)
  {
    hide Shift;
    var y := Folded(w, o);
    TopAfterFour(w, y);
    TopDuringFour(Shift(Shift(Shift(Shift(w, y.b7), y.b6), y.b5), y.b4), y);
  }

  /** One round of the byte-wise loop is eight rounds of the bit-wise one. */
  lemma Step16IsEightBits(w: Word, o: Octet)
    ensures Step16(w, o) == ShiftOctet(w, o)
  {
    hide Mix, Shift, Folded;
    MixIsShifts(w, Folded(w, o));
    FirstShifts(w, o);
    LastShifts(w, o);
  }

  // ---------------------------------------------------------------- polynomial division

  /** The coefficients of a polynomial over GF(2), highest power first. */
  type Poly = seq<bool>

  /** x^16 + x^12 + x^5 + 1 */
  function Generator(): (p: Poly)
    ensures |p| == 17
  {
    seq(17, i => i == 16 - 16 || i == 16 - 12 || i == 16 - 5 || i == 16 - 0)
  }

  /** Multiplies by x^16. */
  function TimesX16(p: Poly): (r: Poly)
    ensures |r| == |p| + 16
  {
    p + seq(16, i => false)
  }

  /** Adds q to the leading coefficients of p. */
  function AddFront(p: Poly, q: Poly): (r: Poly)
    requires |q| <= |p|
    ensures |r| == |p|
  {
    seq(|p|, i requires 0 <= i < |p| => if i < |q| then p[i] != q[i] else p[i])
  }

  /** The remainder of long division by the generator, with leading zeros up to 16 coefficients. */
  function Remainder(p: Poly): Poly
    decreases |p|
  {
    if |p| <= 16 then p
    else if p[0] then Remainder(AddFront(p, Generator())[1..])
    else Remainder(p[1..])
  }

  function OctetBits(o: Octet): (p: Poly)
    ensures |p| == 8
  {
    [o.b7, o.b6, o.b5, o.b4, o.b3, o.b2, o.b1, o.b0]
  }

  /** The coefficient of x^(15 - i). */
  function WordBit(w: Word, i: nat): bool {
    if i < 8 then
      if i < 4 then if i == 0 then w.b15 else if i == 1 then w.b14 else if i == 2 then w.b13 else w.b12
      else if i == 4 then w.b11 else if i == 5 then w.b10 else if i == 6 then w.b9 else w.b8
    else
      if i < 12 then if i == 8 then w.b7 else if i == 9 then w.b6 else if i == 10 then w.b5 else w.b4
      else if i == 12 then w.b3 else if i == 13 then w.b2 else if i == 14 then w.b1 else i == 15 && w.b0
  }

  function WordBits(w: Word): (p: Poly)
    ensures |p| == 16
  {
    seq(16, i requires 0 <= i < 16 => WordBit(w, i))
  }

  function MessageBits(data: seq<Byte>): Poly {
    if data == [] then [] else OctetBits(ToOctet(data[0])) + MessageBits(data[1..])
  }

  /** The dividend: the message times x^16, the register added to its front. */
  function Dividend(w: Word, bits: Poly): Poly {
    AddFront(TimesX16(bits), WordBits(w))
  }

  /** One step of long division is one shift of the register. */
  lemma DivideBit(w: Word, bits: Poly)
    requires bits != []
    ensures Remainder(Dividend(w, bits)) == Remainder(Dividend(ShiftBit(w, bits[0]), bits[1..]))
  {
    var p, r := Dividend(w, bits), Dividend(ShiftBit(w, bits[0]), bits[1..]);
    var next := if p[0] then AddFront(p, Generator())[1..] else p[1..];
    assert |next| == |r|;
    forall i | 0 <= i < |r| ensures next[i] == r[i] {
      assert TimesX16(bits)[i + 1] == TimesX16(bits[1..])[i];
      if i < 16 {
        ShiftedBits(w, w.b15 != bits[0], i);
      }
    }
    assert next == r;
  }

  /** Coefficient i of the shifted register. */
  lemma ShiftedBits(w: Word, f: bool, i: nat)
    requires i < 16
    ensures WordBit(Shift(w, f), i) == (WordBit(w, i + 1) != (f && (i == 3 || i == 10 || i == 15)))
  {
    hide Shift, WordBit;
    if i < 8 {
      ShiftedHigh(w, f, i);
    } else {
      ShiftedLow(w, f, i);
    }
  }

  lemma ShiftedHigh(w: Word, f: bool, i: nat)
    requires i < 8
    ensures WordBit(Shift(w, f), i) == (WordBit(w, i + 1) != (f && i == 3))
  {
  }

  lemma ShiftedLow(w: Word, f: bool, i: nat)
    requires 8 <= i < 16
    ensures WordBit(Shift(w, f), i) == (WordBit(w, i + 1) != (f && (i == 10 || i == 15)))
  {
  }

  lemma DivideOctet(w: Word, o: Octet, bits: Poly)
    ensures Remainder(Dividend(w, OctetBits(o) + bits)) == Remainder(Dividend(ShiftOctet(w, o), bits))
  {
    hide Remainder, Dividend, Shift;
    var p := OctetBits(o) + bits;
    var w1 := ShiftBit(w, o.b7);
    var w2 := ShiftBit(w1, o.b6);
    var w3 := ShiftBit(w2, o.b5);
    var w4 := ShiftBit(w3, o.b4);
    var w5 := ShiftBit(w4, o.b3);
    var w6 := ShiftBit(w5, o.b2);
    var w7 := ShiftBit(w6, o.b1);
    DivideBit(w, p);
    assert p[1..][1..] == p[2..] && p[2..][1..] == p[3..] && p[3..][1..] == p[4..];
    DivideBit(w1, p[1..]);
    DivideBit(w2, p[2..]);
    DivideBit(w3, p[3..]);
    assert p[4..][1..] == p[5..] && p[5..][1..] == p[6..] && p[6..][1..] == p[7..] && p[7..][1..] == bits;
    DivideBit(w4, p[4..]);
    DivideBit(w5, p[5..]);
    DivideBit(w6, p[6..]);
    DivideBit(w7, p[7..]);
  }

  /** From any register the loop computes the remainder of the message times x^16, the register added in front. */
  lemma {:induction false} Crc16IsRemainder(w: Word, data: seq<Byte>)
    ensures WordBits(Crc16(w, data)) == Remainder(Dividend(w, MessageBits(data)))
    decreases |data|
  {
    hide ToOctet, Step16, ShiftOctet;
    if data == [] {
      assert Dividend(w, []) == WordBits(w);
    } else {
      var o := ToOctet(data[0]);
      DivideOctet(w, o, MessageBits(data[1..]));
      Step16IsEightBits(w, o);
      Crc16IsRemainder(Step16(w, o), data[1..]);
    }
  }

  // ---------------------------------------------------------------- nothing is lost in a round

  /** With the same register, different bytes give different results; with the same byte, different registers do. */
  lemma Step16Injective(w1: Word, w2: Word, o1: Octet, o2: Octet)
    requires Step16(w1, o1) == Step16(w2, o2)
    ensures w1 == w2 ==> o1 == o2
    ensures o1 == o2 ==> w1 == w2
  {
    hide Mix, Folded;
    MixInjective(w1, w2, Folded(w1, o1), Folded(w2, o2));
    if w1 == w2 {
      FoldedInjective(w1, o1, o2);
    }
    if o1 == o2 {
      FoldedSame(w1, w2, o1);
    }
  }

  /** The low byte of the result determines the folded byte; then the high byte determines the old low byte. */
  lemma MixInjective(w1: Word, w2: Word, y1: Octet, y2: Octet)
    ensures Low(Mix(w1, y1)) == Low(Mix(w2, y2)) ==> y1 == y2
    ensures Mix(w1, y1) == Mix(w2, y2) ==> y1 == y2 && Low(w1) == Low(w2)
  {
  }

  lemma FoldedInjective(w: Word, o1: Octet, o2: Octet)
    ensures Folded(w, o1) == Folded(w, o2) ==> o1 == o2
  {
  }

  lemma FoldedSame(w1: Word, w2: Word, o: Octet)
    ensures Folded(w1, o) == Folded(w2, o) && Low(w1) == Low(w2) ==> w1 == w2
  {
  }
}
