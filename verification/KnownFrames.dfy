/**
 Frames written out, byte by byte: the order of length and check bytes, the presets of the registers and the generator
 are those of the C code. The 2-byte check of the digits 1 to 9 is 0x29B1, as catalogued for the CRC with generator
 0x1021 and preset 0xFFFF.
 */
module KnownFrames {
  import opened Wrappers
  import opened Bits
  import opened Crc
  import opened DartFrame

  /** 0x5BCE */
  function W3(): Word {
    Word(false, true, false, true, true, false, true, true,
         true, true, false, false, true, true, true, false)
  }

  /** 0x2EF4 */
  function W6(): Word {
    Word(false, false, true, false, true, true, true, false,
         true, true, true, true, false, true, false, false)
  }

  /** 0x29B1 */
  function W9(): Word {
    Word(false, false, true, false, true, false, false, true,
         true, false, true, true, false, false, false, true)
  }

  lemma OneRound(w: Word, b: Byte, rest: seq<Byte>)
    ensures Crc16(w, [b] + rest) == Crc16(Step16(w, ToOctet(b)), rest)
  {
    assert ([b] + rest)[1..] == rest;
  }

  lemma Digits123()
    ensures Step16(Step16(Step16(ONES16, ToOctet(49)), ToOctet(50)), ToOctet(51)) == W3()
  {
  }

  lemma Digits456()
    ensures Step16(Step16(Step16(W3(), ToOctet(52)), ToOctet(53)), ToOctet(54)) == W6()
  {
  }

  lemma Digits789()
    ensures Step16(Step16(Step16(W6(), ToOctet(55)), ToOctet(56)), ToOctet(57)) == W9()
  {
  }

  lemma CrcOfDigits()
    ensures Crc16(ONES16, [49, 50, 51, 52, 53, 54, 55, 56, 57]) == W9()
  {
    hide Step16, ToOctet, Crc16, W3, W6, W9;
    var d9: seq<Byte> := [57] + [];
    var d8 := [56] + d9;
    var d7 := [55] + d8;
    var d6 := [54] + d7;
    var d5 := [53] + d6;
    var d4 := [52] + d5;
    var d3 := [51] + d4;
    var d2 := [50] + d3;
    assert [49, 50, 51, 52, 53, 54, 55, 56, 57] == [49] + d2;
    var w1 := Step16(ONES16, ToOctet(49));
    var w2 := Step16(w1, ToOctet(50));
    var w4 := Step16(W3(), ToOctet(52));
    var w5 := Step16(w4, ToOctet(53));
    var w7 := Step16(W6(), ToOctet(55));
    var w8 := Step16(w7, ToOctet(56));
    Digits123();
    Digits456();
    Digits789();
    OneRound(ONES16, 49, d2);
    OneRound(w1, 50, d3);
    OneRound(w2, 51, d4);
    OneRound(W3(), 52, d5);
    OneRound(w4, 53, d6);
    OneRound(w5, 54, d7);
    OneRound(W6(), 55, d8);
    OneRound(w7, 56, d9);
    OneRound(w8, 57, []);
    NoneLeft(W9());
  }

  lemma NoneLeft(w: Word)
    ensures Crc16(w, []) == w
  {
  }

  /** With two length bytes and two check bytes. */
  lemma LongFrame(c: Config)
    requires c.lenSize == 2 && c.crcSize == 2
    ensures Frame(c, [49, 50, 51, 52, 53, 54, 55, 56, 57]) ==
            [0x55, 0, 9, 49, 50, 51, 52, 53, 54, 55, 56, 57, 0x29, 0xB1]
  {
    CrcOfDigits();
    ToByteSum(High(W9()));
    ToByteSum(Low(W9()));
    hide Crc16, ToByte;
  }

  /** With one of each: 0xFF and the two bytes, exclusive-ored. */
  lemma ShortFrame(c: Config)
    requires c.lenSize == 1 && c.crcSize == 1
    ensures Frame(c, [0x41, 0x0F]) == [0x55, 2, 0x41, 0x0F, 0xB1]
  {
    var w := Xor8(Xor8(ONES8, ToOctet(0x41)), ToOctet(0x0F));
    ToByteSum(w);
    assert ToByte(w) == 0xB1 by { hide ToByte; }
    hide ToByte;
    assert [0x41, 0x0F][1..] == [0x0F] && [0x0F][1..] == [];
    assert Crc8(ONES8, [0x41, 0x0F]) == w;
  }

  /** A length above 255 goes high byte first. */
  lemma LongLength(c: Config, data: seq<Byte>)
    requires c.lenSize == 2 && Supported(c) && |data| < 0x1_0000
    ensures var hi: int, lo: int := Frame(c, data)[1], Frame(c, data)[2]; 0x100 * hi + lo == |data|
  {
    hide CheckBytes;
  }
}
