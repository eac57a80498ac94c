/** The wire format of source/core/dart.c: sync byte, length, data, check bytes. */
module DartFrame {
  import opened Wrappers
  import Bits
  import Crc
  import B = CrcBursts

  const SYNC: Byte := 0x55
  const ACK: Byte := 0xAA
  const BAD: Byte := 0xBB
  const CAN: Byte := 0xCC

  /** DART_LEN_SIZE, DART_CRC_SIZE and the size of the receive buffer. */
  datatype Config = Config(lenSize: nat, crcSize: nat, rxSize: nat)

  predicate Supported(c: Config) {
    1 <= c.lenSize <= 2 && 1 <= c.crcSize <= 2
  }

  /** DART_LEN_BYTES */
  function HeaderBytes(c: Config): nat {
    1 + c.lenSize
  }

  /** DART_FRAME_BYTES */
  function FrameBytes(c: Config, dataLen: nat): nat {
    HeaderBytes(c) + dataLen + c.crcSize
  }

  /** One more than the largest dart_len_t. */
  function LenLimit(c: Config): nat {
    if c.lenSize == 1 then 0x100 else 0x1_0000
  }

  /** dart_set_data_len */
  function LenField(c: Config, n: nat): (bs: seq<Byte>)
    requires n < LenLimit(c)
    ensures |bs| == if c.lenSize == 1 then 1 else 2
  {
    if c.lenSize == 1 then [n] else [n / 0x100, n % 0x100]
  }

  /** dart_get_data_len */
  function GetLen(c: Config, buffer: seq<Byte>): nat
    requires HeaderBytes(c) <= |buffer| && 1 <= c.lenSize <= 2
  {
    if c.lenSize == 1 then buffer[1]
    else var hi: int, lo: int := buffer[1], buffer[2]; 0x100 * hi + lo
  }

  /** dart_calculate_crc as the check bytes dart_set_crc_value writes. */
  function CheckBytes(c: Config, data: seq<Byte>): (bs: seq<Byte>)
    ensures |bs| == if c.crcSize == 1 then 1 else 2
  {
    if c.crcSize == 1 then [Bits.ToByte(Crc.Crc8(Bits.ONES8, data))]
    else
      var w := Crc.Crc16(Bits.ONES16, data);
      [Bits.ToByte(Bits.High(w)), Bits.ToByte(Bits.Low(w))]
  }

  /** The check of no data is what the registers are preset to. */
  lemma EmptyCheck(c: Config)
    requires Supported(c)
    ensures CheckBytes(c, [])[0] == 255
  {
    Bits.ToByteSum(Bits.ONES8);
    hide Bits.ToByte;
    assert Crc.Crc8(Bits.ONES8, []) == Bits.ONES8 && Crc.Crc16(Bits.ONES16, []) == Bits.ONES16;
    assert Bits.High(Bits.ONES16) == Bits.ONES8;
  }

  /** The frame dart_push_frame sends. */
  function Frame(c: Config, data: seq<Byte>): (f: seq<Byte>)
    requires Supported(c) && |data| < LenLimit(c)
    ensures |f| == FrameBytes(c, |data|)
  {
    [SYNC] + LenField(c, |data|) + data + CheckBytes(c, data)
  }

  /** The data of a complete frame in the receive buffer. */
  function GetData(c: Config, buffer: seq<Byte>, n: nat): seq<Byte>
    requires FrameBytes(c, n) <= |buffer|
  {
    buffer[HeaderBytes(c)..HeaderBytes(c) + n]
  }

  function GetCheck(c: Config, buffer: seq<Byte>, n: nat): seq<Byte>
    requires FrameBytes(c, n) <= |buffer|
  {
    buffer[HeaderBytes(c) + n..FrameBytes(c, n)]
  }

  /** The receiver reads back what the sender framed. */
  lemma FrameFields(c: Config, data: seq<Byte>)
    requires Supported(c) && |data| < LenLimit(c)
    ensures var f := Frame(c, data);
            && f[0] == SYNC && GetLen(c, f) == |data|
            && GetData(c, f, |data|) == data && GetCheck(c, f, |data|) == CheckBytes(c, data)
  {
    hide CheckBytes;
    var f := Frame(c, data);
    var n := |data|;
    assert f[1..HeaderBytes(c)] == LenField(c, n);
    assert f[1] == LenField(c, n)[0];
    assert c.lenSize == 2 ==> f[2] == LenField(c, n)[1];
    assert GetData(c, f, n) == data;
    assert GetCheck(c, f, n) == CheckBytes(c, data);
  }

  /** Data and check bytes that are not those of `data`, but differ from them only within as many consecutive bits,
      from bit `at` on, as there are check bits. */
  predicate SmallDamage(c: Config, data: seq<Byte>, data': seq<Byte>, check: seq<Byte>, at: nat) {
    B.Burst(Crc.MessageBits(data + CheckBytes(c, data)), Crc.MessageBits(data' + check), at, 8 * c.crcSize)
  }

  /** Such damage is always noticed, wherever it falls: inside one byte, across three, or across data and check. */
  lemma SmallDamageDetected(c: Config, data: seq<Byte>, data': seq<Byte>, check: seq<Byte>, at: nat)
    requires Supported(c) && SmallDamage(c, data, data', check, at)
    ensures check != CheckBytes(c, data')
  {
    hide Crc.MessageBits, Crc.Crc16, Crc.Crc8, Bits.ToByte, B.Burst;
    if c.crcSize == 1 {
      B.Crc8DetectsBurst(data, data', at);
    } else {
      B.Crc16DetectsBurst(data, data', at);
    }
  }
}
