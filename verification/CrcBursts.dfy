/**
 Error detection. Both checks of dart_calculate_crc are shift registers that divide by a polynomial: the 2-byte one by
 x^16 + x^12 + x^5 + 1, the 1-byte exclusive-or by x^8 + 1. Any such register tells apart any two bit strings that
 differ only within as many consecutive bits as it has.
 */
module CrcBursts {
  import opened Wrappers
  import opened Bits
  import opened Crc

  // ---------------------------------------------------------------- any register

  function Zeros(n: nat): (p: Poly)
    ensures |p| == n
  {
    seq(n, i => false)
  }

  /** One bit comes in; g has one coefficient more than the register, the first being 1. */
  function Shifted(g: Poly, w: Poly, bit: bool): (r: Poly)
    requires |g| == |w| + 1 && w != []
    ensures |r| == |w|
  {
    seq(|w|, i requires 0 <= i < |w| => (i + 1 < |w| && w[i + 1]) != (w[0] != bit && g[i + 1]))
  }

  function AllShifted(g: Poly, w: Poly, bits: Poly): (r: Poly)
    requires |g| == |w| + 1 && w != []
    ensures |r| == |w|
    decreases |bits|
  {
    if bits == [] then w else AllShifted(g, Shifted(g, w, bits[0]), bits[1..])
  }

  lemma {:induction false} ShiftedAppend(g: Poly, w: Poly, a: Poly, b: Poly)
    requires |g| == |w| + 1 && w != []
    ensures AllShifted(g, w, a + b) == AllShifted(g, AllShifted(g, w, a), b)
    decreases |a|
  {
    hide Shifted;
    if a == [] {
      assert a + b == b;
    } else {
      assert (a + b)[1..] == a[1..] + b;
      ShiftedAppend(g, Shifted(g, w, a[0]), a[1..], b);
    }
  }

  /** The registers differ in one of their last n bits. */
  predicate DifferLow(v: Poly, w: Poly, n: nat)
    requires |v| == |w| && n <= |w|
  {
    exists i :: |w| - n <= i < |w| && v[i] != w[i]
  }

  /** A difference in the last n bits is one in the last n + 1 bits one shift later, whatever bits come in. */
  lemma DifferenceMoves(g: Poly, v: Poly, w: Poly, a: bool, b: bool, n: nat)
    requires |g| == |w| + 1 && |v| == |w| && n < |w| && g[|w|] && DifferLow(v, w, n)
    ensures DifferLow(Shifted(g, v, a), Shifted(g, w, b), n + 1)
  {
    var i :| |w| - n <= i < |w| && v[i] != w[i];
    var v', w' := Shifted(g, v, a), Shifted(g, w, b);
    if (v[0] != a) == (w[0] != b) {
      assert v'[i - 1] != w'[i - 1];
    } else {
      assert v'[|w| - 1] != w'[|w| - 1];
    }
  }

  lemma {:induction false} DifferenceStays(g: Poly, v: Poly, w: Poly, a: Poly, b: Poly, n: nat)
    requires |g| == |w| + 1 && |v| == |w| && w != [] && g[|w|] && |a| == |b| && n + |a| <= |w| && DifferLow(v, w, n)
    ensures DifferLow(AllShifted(g, v, a), AllShifted(g, w, b), n + |a|)
    decreases |a|
  {
    hide Shifted, DifferLow;
    if a != [] {
      DifferenceMoves(g, v, w, a[0], b[0], n);
      DifferenceStays(g, Shifted(g, v, a[0]), Shifted(g, w, b[0]), a[1..], b[1..], n + 1);
    }
  }

  /** As many bits as the register has tell all their values apart. */
  lemma {:induction false} ShortTold(g: Poly, w: Poly, a: Poly, b: Poly)
    requires |g| == |w| + 1 && w != [] && g[|w|] && |a| == |b| <= |w| && a != b
    ensures AllShifted(g, w, a) != AllShifted(g, w, b)
    decreases |a|
  {
    assert a == [a[0]] + a[1..] && b == [b[0]] + b[1..];
    if a[0] == b[0] {
      ShortTold(g, Shifted(g, w, a[0]), a[1..], b[1..]);
    } else {
      var v, v' := Shifted(g, w, a[0]), Shifted(g, w, b[0]);
      assert v[|w| - 1] != v'[|w| - 1];
      DifferenceStays(g, v, v', a[1..], b[1..], 1);
    }
  }

  lemma ShiftedInjective(g: Poly, v: Poly, w: Poly, bit: bool)
    requires |g| == |w| + 1 && |v| == |w| && w != [] && g[|w|] && Shifted(g, v, bit) == Shifted(g, w, bit)
    ensures v == w
  {
    var v', w' := Shifted(g, v, bit), Shifted(g, w, bit);
    assert v'[|w| - 1] == (v[0] != bit) && w'[|w| - 1] == (w[0] != bit);
    forall i | 0 <= i < |w| ensures v[i] == w[i] {
      if i > 0 {
        assert v'[i - 1] == w'[i - 1];
      }
    }
  }

  /** A difference in the register survives any further bits. */
  lemma {:induction false} AllShiftedInjective(g: Poly, v: Poly, w: Poly, bits: Poly)
    requires |g| == |w| + 1 && |v| == |w| && w != [] && g[|w|] && AllShifted(g, v, bits) == AllShifted(g, w, bits)
    ensures v == w
    decreases |bits|
  {
    hide Shifted;
    if bits != [] {
      AllShiftedInjective(g, Shifted(g, v, bits[0]), Shifted(g, w, bits[0]), bits[1..]);
      ShiftedInjective(g, v, w, bits[0]);
    }
  }

  /** Different bit strings of the same length, equal outside the `width` bits from `at` on. */
  predicate Burst(a: Poly, b: Poly, at: nat, width: nat) {
    |a| == |b| && a != b && forall i :: 0 <= i < |a| && !(at <= i < at + width) ==> a[i] == b[i]
  }

  lemma BurstTold(g: Poly, w: Poly, a: Poly, b: Poly, at: nat)
    requires |g| == |w| + 1 && w != [] && g[|w|] && Burst(a, b, at, |w|)
    ensures AllShifted(g, w, a) != AllShifted(g, w, b)
  {
    hide AllShifted, Shifted, Burst;
    var pre, mid, mid', post := BurstParts(a, b, at, |w|);
    ShiftedAppend(g, w, pre, mid + post);
    ShiftedAppend(g, w, pre, mid' + post);
    var v := AllShifted(g, w, pre);
    ShiftedAppend(g, v, mid, post);
    ShiftedAppend(g, v, mid', post);
    ShortTold(g, v, mid, mid');
    if AllShifted(g, w, a) == AllShifted(g, w, b) {
      AllShiftedInjective(g, AllShifted(g, v, mid), AllShifted(g, v, mid'), post);
      assert false;
    }
  }

  lemma BurstParts(a: Poly, b: Poly, at: nat, width: nat) returns (pre: Poly, mid: Poly, mid': Poly, post: Poly)
    requires Burst(a, b, at, width)
    ensures a == pre + (mid + post) && b == pre + (mid' + post) && |mid| == |mid'| <= width && mid != mid'
  {
    var m := if at < |a| then at else |a|;
    var n := if at + width < |a| then at + width else |a|;
    pre, mid, mid', post := a[..m], a[m..n], b[m..n], a[n..];
    assert b[..m] == pre && b[n..] == post;
    assert a == a[..m] + (a[m..n] + a[n..]) && b == b[..m] + (b[m..n] + b[n..]);
  }

  /** A register fed its own bits is zero. */
  lemma {:induction false} OwnBitsCancel(g: Poly, v: Poly, n: nat)
    requires |g| == |v| + n + 1 && |v| + n > 0
    ensures AllShifted(g, v + Zeros(n), v) == Zeros(|v| + n)
    decreases |v|
  {
    if v == [] {
      assert v + Zeros(n) == Zeros(n);
    } else {
      assert Shifted(g, v + Zeros(n), v[0]) == v[1..] + Zeros(n + 1);
      OwnBitsCancel(g, v[1..], n + 1);
    }
  }

  // ---------------------------------------------------------------- the two checks

  lemma {:induction false} MessageBitsAppend(a: seq<Byte>, b: seq<Byte>)
    ensures MessageBits(a + b) == MessageBits(a) + MessageBits(b)
  {
    hide ToOctet;
    if a == [] {
      assert a + b == b;
    } else {
      assert (a + b)[1..] == a[1..] + b;
      MessageBitsAppend(a[1..], b);
    }
  }

  lemma WordShifted(w: Word, bit: bool)
    ensures WordBits(ShiftBit(w, bit)) == Shifted(Generator(), WordBits(w), bit)
  {
    hide WordBit, Shift, Generator;
    forall i | 0 <= i < 16 ensures WordBits(ShiftBit(w, bit))[i] == Shifted(Generator(), WordBits(w), bit)[i] {
      ShiftedBits(w, w.b15 != bit, i);
      TopBit(w);
      GeneratorAt(i + 1);
    }
  }

  lemma TopBit(w: Word)
    ensures WordBit(w, 16) == false && WordBit(w, 0) == w.b15
  {
  }

  lemma GeneratorAt(i: nat)
    requires i <= 16
    ensures Generator()[i] == (i == 0 || i == 4 || i == 11 || i == 16)
  {
  }

  /** x^8 + 1 */
  function Generator8(): (p: Poly)
    ensures |p| == 9
  {
    [true, false, false, false, false, false, false, false, true]
  }

  lemma EightShifts(g: Poly, w: Poly, o: Octet)
    requires |g| == |w| + 1 && w != []
    ensures AllShifted(g, w, OctetBits(o)) ==
            Shifted(g, Shifted(g, Shifted(g, Shifted(g, Shifted(g, Shifted(g, Shifted(g, Shifted(g,
              w, o.b7), o.b6), o.b5), o.b4), o.b3), o.b2), o.b1), o.b0)
  {
    hide Shifted, AllShifted;
    var w1 := Shifted(g, w, o.b7);
    var w2 := Shifted(g, w1, o.b6);
    var w3 := Shifted(g, w2, o.b5);
    var w4 := Shifted(g, w3, o.b4);
    var w5 := Shifted(g, w4, o.b3);
    var w6 := Shifted(g, w5, o.b2);
    var w7 := Shifted(g, w6, o.b1);
    OneShift(g, w, OctetBits(o), [o.b6, o.b5, o.b4, o.b3, o.b2, o.b1, o.b0]);
    OneShift(g, w1, [o.b6, o.b5, o.b4, o.b3, o.b2, o.b1, o.b0], [o.b5, o.b4, o.b3, o.b2, o.b1, o.b0]);
    OneShift(g, w2, [o.b5, o.b4, o.b3, o.b2, o.b1, o.b0], [o.b4, o.b3, o.b2, o.b1, o.b0]);
    OneShift(g, w3, [o.b4, o.b3, o.b2, o.b1, o.b0], [o.b3, o.b2, o.b1, o.b0]);
    OneShift(g, w4, [o.b3, o.b2, o.b1, o.b0], [o.b2, o.b1, o.b0]);
    OneShift(g, w5, [o.b2, o.b1, o.b0], [o.b1, o.b0]);
    OneShift(g, w6, [o.b1, o.b0], [o.b0]);
    OneShift(g, w7, [o.b0], []);
  }

  lemma OneShift(g: Poly, w: Poly, bits: Poly, rest: Poly)
    requires |g| == |w| + 1 && w != [] && bits != [] && bits[1..] == rest
    ensures AllShifted(g, w, bits) == AllShifted(g, Shifted(g, w, bits[0]), rest)
    ensures rest == [] ==> AllShifted(g, w, bits) == Shifted(g, w, bits[0])
  {
    hide Shifted;
  }

  /** One round of either loop is eight shifts. */
  lemma WordOctet(w: Word, o: Octet)
    ensures WordBits(Step16(w, o)) == AllShifted(Generator(), WordBits(w), OctetBits(o))
  {
    hide Shifted, AllShifted, Shift, Step16, WordBits;
    Step16IsEightBits(w, o);
    EightShifts(Generator(), WordBits(w), o);
    var w1 := ShiftBit(w, o.b7);
    var w2 := ShiftBit(w1, o.b6);
    var w3 := ShiftBit(w2, o.b5);
    var w4 := ShiftBit(w3, o.b4);
    var w5 := ShiftBit(w4, o.b3);
    var w6 := ShiftBit(w5, o.b2);
    var w7 := ShiftBit(w6, o.b1);
    WordShifted(w, o.b7);
    WordShifted(w1, o.b6);
    WordShifted(w2, o.b5);
    WordShifted(w3, o.b4);
    WordShifted(w4, o.b3);
    WordShifted(w5, o.b2);
    WordShifted(w6, o.b1);
    WordShifted(w7, o.b0);
  }

  lemma Rotated(w: Poly, bit: bool)
    requires |w| == 8
    ensures Shifted(Generator8(), w, bit) == w[1..] + [w[0] != bit]
  {
  }

  /** The register of the 1-byte check turns round, the bits that come in being added on the way. */
  lemma {:induction false} AllRotated(w: Poly, bits: Poly, i: nat)
    requires |w| == 8 && |bits| <= 8 && i < 8
    ensures var (r, k) := (AllShifted(Generator8(), w, bits), i + |bits|);
            r[i] == if k < 8 then w[k] else w[k - 8] != bits[k - 8]
    decreases |bits|
  {
    hide Shifted, Generator8;
    if bits != [] {
      Rotated(w, bits[0]);
      AllRotated(w[1..] + [w[0] != bits[0]], bits[1..], i);
    }
  }

  /** The coefficient of x^(7 - i). */
  function OctetBit(o: Octet, i: nat): bool {
    if i < 4 then if i == 0 then o.b7 else if i == 1 then o.b6 else if i == 2 then o.b5 else o.b4
    else if i == 4 then o.b3 else if i == 5 then o.b2 else if i == 6 then o.b1 else o.b0
  }

  lemma OctetBitAt(o: Octet, i: nat)
    requires i < 8
    ensures OctetBits(o)[i] == OctetBit(o, i)
  {
  }

  lemma XorHigh(w: Octet, o: Octet, i: nat)
    requires i < 4
    ensures OctetBit(Xor8(w, o), i) == (OctetBit(w, i) != OctetBit(o, i))
  {
  }

  lemma XorLow(w: Octet, o: Octet, i: nat)
    requires 4 <= i < 8
    ensures OctetBit(Xor8(w, o), i) == (OctetBit(w, i) != OctetBit(o, i))
  {
  }

  lemma XorBit(w: Octet, o: Octet, i: nat)
    requires i < 8
    ensures OctetBits(Xor8(w, o))[i] == (OctetBits(w)[i] != OctetBits(o)[i])
  {
    hide OctetBits, Xor8, OctetBit;
    if i < 4 {
      XorHigh(w, o, i);
    } else {
      XorLow(w, o, i);
    }
    OctetBitAt(w, i);
    OctetBitAt(o, i);
    OctetBitAt(Xor8(w, o), i);
  }

  lemma RoundBit(w: Octet, o: Octet, i: nat)
    requires i < 8
    ensures OctetBits(Xor8(w, o))[i] == AllShifted(Generator8(), OctetBits(w), OctetBits(o))[i]
  {
    hide *;
    XorBit(w, o, i);
    AllRotated(OctetBits(w), OctetBits(o), i);
  }

  lemma XorOctet(w: Octet, o: Octet)
    ensures OctetBits(Xor8(w, o)) == AllShifted(Generator8(), OctetBits(w), OctetBits(o))
  {
    hide *;
    forall i | 0 <= i < 8 ensures OctetBits(Xor8(w, o))[i] == AllShifted(Generator8(), OctetBits(w), OctetBits(o))[i] {
      RoundBit(w, o, i);
    }
  }

  lemma {:induction false} Crc16IsShifted(w: Word, data: seq<Byte>)
    ensures WordBits(Crc16(w, data)) == AllShifted(Generator(), WordBits(w), MessageBits(data))
    decreases |data|
  {
    hide ToOctet, Step16, Shifted, WordBits;
    if data != [] {
      var o := ToOctet(data[0]);
      WordOctet(w, o);
      ShiftedAppend(Generator(), WordBits(w), OctetBits(o), MessageBits(data[1..]));
      Crc16IsShifted(Step16(w, o), data[1..]);
    }
  }

  lemma {:induction false} Crc8IsShifted(w: Octet, data: seq<Byte>)
    ensures OctetBits(Crc8(w, data)) == AllShifted(Generator8(), OctetBits(w), MessageBits(data))
    decreases |data|
  {
    hide ToOctet, Xor8, Shifted, OctetBits;
    if data != [] {
      var o := ToOctet(data[0]);
      XorOctet(w, o);
      ShiftedAppend(Generator8(), OctetBits(w), OctetBits(o), MessageBits(data[1..]));
      Crc8IsShifted(Xor8(w, o), data[1..]);
    }
  }

  // ---------------------------------------------------------------- messages with their check bytes

  /** A byte string followed by its 2-byte check, high byte first. */
  function Coded16(data: seq<Byte>): seq<Byte> {
    var w := Crc16(ONES16, data);
    data + [ToByte(High(w)), ToByte(Low(w))]
  }

  function Coded8(data: seq<Byte>): seq<Byte> {
    data + [ToByte(Crc8(ONES8, data))]
  }

  lemma ByteBits(o: Octet)
    ensures MessageBits([ToByte(o)]) == OctetBits(o)
  {
    ToOctetInverse(ToByte(o));
    ToByteInjective(ToOctet(ToByte(o)), o);
  }

  lemma WordBytes(w: Word)
    ensures MessageBits([ToByte(High(w)), ToByte(Low(w))]) == WordBits(w)
  {
    var h, l := ToByte(High(w)), ToByte(Low(w));
    ByteBits(High(w));
    ByteBits(Low(w));
    assert [h, l] == [h] + [l];
    MessageBitsAppend([h], [l]);
    HalvesAre(w);
  }

  lemma HalvesAre(w: Word)
    ensures OctetBits(High(w)) + OctetBits(Low(w)) == WordBits(w)
  {
    hide OctetBits, OctetBit, WordBit, High, Low;
    forall i | 0 <= i < 16 ensures (OctetBits(High(w)) + OctetBits(Low(w)))[i] == WordBits(w)[i] {
      if i < 8 {
        OctetBitAt(High(w), i);
        HighBit(w, i);
      } else {
        OctetBitAt(Low(w), i - 8);
        LowBit(w, i - 8);
      }
    }
  }

  lemma HighBit(w: Word, i: nat)
    requires i < 8
    ensures OctetBit(High(w), i) == WordBit(w, i)
  {
  }

  lemma LowBit(w: Word, i: nat)
    requires i < 8
    ensures OctetBit(Low(w), i) == WordBit(w, i + 8)
  {
  }

  /** The register is zero after a message and its check. */
  lemma Coded16Cancels(data: seq<Byte>)
    ensures AllShifted(Generator(), WordBits(ONES16), MessageBits(Coded16(data))) == Zeros(16)
  {
    hide AllShifted, MessageBits, WordBits, Generator, Zeros, ToByte, Crc16;
    var w := Crc16(ONES16, data);
    MessageBitsAppend(data, [ToByte(High(w)), ToByte(Low(w))]);
    WordBytes(w);
    Crc16IsShifted(ONES16, data);
    ShiftedAppend(Generator(), WordBits(ONES16), MessageBits(data), WordBits(w));
    OwnBitsCancel(Generator(), WordBits(w), 0);
    NoZeros(WordBits(w));
  }

  lemma Coded8Cancels(data: seq<Byte>)
    ensures AllShifted(Generator8(), OctetBits(ONES8), MessageBits(Coded8(data))) == Zeros(8)
  {
    hide AllShifted, MessageBits, OctetBits, Generator8, Zeros, ToByte, Crc8;
    var w := Crc8(ONES8, data);
    MessageBitsAppend(data, [ToByte(w)]);
    ByteBits(w);
    Crc8IsShifted(ONES8, data);
    ShiftedAppend(Generator8(), OctetBits(ONES8), MessageBits(data), OctetBits(w));
    OwnBitsCancel(Generator8(), OctetBits(w), 0);
    NoZeros(OctetBits(w));
  }

  lemma NoZeros(p: Poly)
    ensures p + Zeros(0) == p
  {
  }

  /** Two messages with their 2-byte checks never differ by a burst of 16 bits, wherever it falls: inside one byte,
      across three, or across data and check. */
  lemma Crc16DetectsBurst(data: seq<Byte>, data': seq<Byte>, at: nat)
    ensures !Burst(MessageBits(Coded16(data)), MessageBits(Coded16(data')), at, 16)
  {
    hide AllShifted, MessageBits, WordBits, Generator, Burst, Coded16;
    Coded16Cancels(data);
    Coded16Cancels(data');
    GeneratorAt(16);
    if Burst(MessageBits(Coded16(data)), MessageBits(Coded16(data')), at, 16) {
      BurstTold(Generator(), WordBits(ONES16), MessageBits(Coded16(data)), MessageBits(Coded16(data')), at);
      assert false;
    }
  }

  /** The 1-byte check does the same for bursts of 8 bits. */
  lemma Crc8DetectsBurst(data: seq<Byte>, data': seq<Byte>, at: nat)
    ensures !Burst(MessageBits(Coded8(data)), MessageBits(Coded8(data')), at, 8)
  {
    hide AllShifted, MessageBits, OctetBits, Burst, Coded8;
    Coded8Cancels(data);
    Coded8Cancels(data');
    if Burst(MessageBits(Coded8(data)), MessageBits(Coded8(data')), at, 8) {
      BurstTold(Generator8(), OctetBits(ONES8), MessageBits(Coded8(data)), MessageBits(Coded8(data')), at);
      assert false;
    }
  }
}
