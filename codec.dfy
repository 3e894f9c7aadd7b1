/** Register-level encoding and decoding used by the ADXL345 driver: the SPI
    command byte, the DATA_FORMAT range code, the count-to-g multiplier and
    the decoding of an axis from its two data registers. */
module Codec {
  import opened Registers

  datatype Option<T> = None | Some(value: T)

  /** The fields of an SPI command byte. */
  datatype Command = Command(read: bool, multiByte: bool, address: bv8)

  /** Splits a command byte into its read bit (D7), multi-byte bit (D6) and
      six-bit register address (D5..D0); nothing is lost. */
  function ParseCommand(b: bv8): (c: Command)
    ensures c.address < 0x40
    ensures (if c.read then SPI_READ else 0) | (if c.multiByte then MULTI_BYTE else 0) | c.address == b
  {
    Command(b & SPI_READ != 0, b & MULTI_BYTE != 0, b & 0x3F)
  }

  /** The command byte of a read of `length` bytes starting at `register`:
      the read bit is set, and the multi-byte bit is added when more than one
      byte is read. */
  function ReadCommand(register: bv8, length: int): (tx: bv8)
    ensures tx & SPI_READ == SPI_READ
    ensures tx & MULTI_BYTE == MULTI_BYTE <==> length > 1 || register & MULTI_BYTE == MULTI_BYTE
    ensures tx & 0x3F == register & 0x3F
  {
    var tx := register | SPI_READ;
    if length > 1 then tx | MULTI_BYTE else tx
  }

  /** For an address of the register map (six bits), the read command byte
      carries exactly the read intent, the multi-byte flag and the address. */
  lemma ReadCommandParses(register: bv8, length: int)
    requires register < 0x40
    ensures ParseCommand(ReadCommand(register, length)) == Command(true, length > 1, register)
  {
    var tx := ReadCommand(register, length);
    assert tx & SPI_READ != 0;
    assert (tx & MULTI_BYTE != 0) == (length > 1);
    assert tx & 0x3F == register;
  }

  /** A write sends the register address itself as its command byte: the
      write bit SPI_WRITE is 0, so adding it changes nothing, and for an
      address of the register map the byte reads as a single-byte write of
      that register. */
  lemma WriteCommandParses(register: bv8)
    requires register < 0x40
    ensures register | SPI_WRITE == register
    ensures ParseCommand(register) == Command(false, false, register)
  {
  }

  /** The two concrete command bytes the driver sends: the 6-byte burst read
      from DATAX0 and the 1-byte read of DEVID. */
  lemma DriverCommandBytes()
    ensures ReadCommand(DATAX0, 6) == 0xF2
    ensures ReadCommand(DEVID, 1) == 0x80
  {
  }

  /** The DATA_FORMAT range code of a requested g-range; only 2, 4, 8 and 16
      are supported. */
  function RangeCode(range: int): (code: Option<bv8>)
    ensures code.Some? <==> range == 2 || range == 4 || range == 8 || range == 16
    ensures code.Some? ==> code.value <= 0x03 && RangeOfCode(code.value) == range
  {
    match range
    case 2 => Some(RANGE_2G)
    case 4 => Some(RANGE_4G)
    case 8 => Some(RANGE_8G)
    case 16 => Some(RANGE_16G)
    case _ => None
  }

  /** The g-range a DATA_FORMAT value selects through its range bits D1..D0. */
  function RangeOfCode(format: bv8): (range: int)
    ensures range == 2 || range == 4 || range == 8 || range == 16
  {
    var bits := format & 0x03;
    if bits == RANGE_2G then 2
    else if bits == RANGE_4G then 4
    else if bits == RANGE_8G then 8
    else 16
  }

  /** Encoding a range bit pattern and decoding it again gives it back. */
  lemma RangeCodeRoundTrip(format: bv8)
    ensures RangeCode(RangeOfCode(format)) == Some(format & 0x03)
  {
  }

  /** Converts a raw count to g: the span of 2 * range g is divided over the
      1024 counts of the 10-bit output, so a count of 512 is the full range. */
  function Multiplier(range: int): (m: real)
    ensures m * 512.0 == range as real
  {
    range as real * 2.0 / 1024.0
  }

  /** The multiplier the driver starts with. */
  const DEFAULT_MULTIPLIER: real := 2.0 * 2.0 / 1024.0

  /** The initial multiplier is the one of the +-2 g range, which is also the
      range selected by DATA_FORMAT's reset value. */
  lemma DefaultMultiplierIsTwoG()
    ensures DEFAULT_MULTIPLIER == Multiplier(2) == Multiplier(RangeOfCode(DEFAULT_RESET_VALUE))
  {
  }

  /** The value of a byte read as a signed two's-complement number. */
  function Sext(b: bv8): (v: int)
    ensures -128 <= v <= 127
    ensures v % 256 == b as int
  {
    if b < 0x80 then b as int else b as int - 256
  }

  /** A 32-bit Java `int` as its four bytes, most significant first. Shifting
      left by 8 moves every byte one place up and `|` works byte by byte, so
      this form computes the driver's expression bit for bit. */
  datatype Word = Word(b3: bv8, b2: bv8, b1: bv8, b0: bv8)

  /** The word a byte becomes when widened to a signed 32-bit integer: bit 7
      is copied into bits 31..8. */
  function Widen(b: bv8): (w: Word)
  {
    var s: bv8 := if b < 0x80 then 0x00 else 0xFF;
    Word(s, s, s, b)
  }

  function ShiftLeft8(w: Word): Word
  {
    Word(w.b2, w.b1, w.b0, 0x00)
  }

  function Or(w: Word, v: Word): Word
  {
    Word(w.b3 | v.b3, w.b2 | v.b2, w.b1 | v.b1, w.b0 | v.b0)
  }

  /** The value of a word read as a signed two's-complement number. */
  function Signed32(w: Word): (v: int)
    ensures -0x8000_0000 <= v < 0x8000_0000
    ensures v % 0x1_0000_0000 ==
      w.b3 as int * 0x100_0000 + w.b2 as int * 0x1_0000 + w.b1 as int * 0x100 + w.b0 as int
  {
    Sext(w.b3) * 0x100_0000 + w.b2 as int * 0x1_0000 + w.b1 as int * 0x100 + w.b0 as int
  }

  /** The word the driver builds for one axis from its data registers DATAn0
      (lo) and DATAn1 (hi): both bytes are widened to signed 32-bit integers,
      the high one is shifted left by 8 and the two are OR-ed together. */
  function AxisWord(lo: bv8, hi: bv8): Word
  {
    Or(ShiftLeft8(Widen(hi)), Widen(lo))
  }

  /** One axis as the driver computes it: the value of AxisWord as a Java
      `int`. For a low byte below 0x80 it is the little-endian value with a
      signed high byte; for a low byte of 0x80 or more the high byte is lost
      under the sign extension of the low byte. */
  function AxisAsWritten(lo: bv8, hi: bv8): (v: int)
    ensures -32768 <= v <= 32767
    ensures lo < 0x80 ==> v == Sext(hi) * 256 + lo as int
    ensures lo >= 0x80 ==> v == lo as int - 256
  {
    if lo >= 0x80 then
      NegativeLowByte(lo, hi);
      Signed32(AxisWord(lo, hi))
    else
      NonNegativeLowByte(lo, hi);
      Signed32(AxisWord(lo, hi))
  }

  lemma NegativeLowByte(lo: bv8, hi: bv8)
    requires lo >= 0x80
    ensures Signed32(AxisWord(lo, hi)) == lo as int - 256
  {
    var w := AxisWord(lo, hi);
    assert w.b3 == 0xFF && w.b2 == 0xFF && w.b1 == 0xFF && w.b0 == lo;
  }

  lemma NonNegativeLowByte(lo: bv8, hi: bv8)
    requires lo < 0x80
    ensures Signed32(AxisWord(lo, hi)) == Sext(hi) * 256 + lo as int
  {
    var w := AxisWord(lo, hi);
    if hi < 0x80 {
      assert w == Word(0x00, 0x00, hi, lo);
      assert Signed32(w) == hi as int * 0x100 + lo as int;
    } else {
      assert w == Word(0xFF, 0xFF, hi, lo);
      assert Sext(0xFF) == -1 && (0xFF as bv8) as int == 0xFF;
      assert Signed32(w) == -0x100_0000 + 0xFF_0000 + hi as int * 0x100 + lo as int;
    }
  }

  /** One axis as a little-endian signed 16-bit number: low byte DATAn0, high
      byte DATAn1. */
  function Axis(lo: bv8, hi: bv8): (v: int)
    ensures -32768 <= v <= 32767
  {
    Sext(hi) * 256 + lo as int
  }

  /** The low and high bytes of a 16-bit two's-complement value. */
  function LowByte(v: int): bv8
  {
    (v % 256) as bv8
  }

  function HighByte(v: int): bv8
  {
    ((v / 256) % 256) as bv8
  }

  /** Converting a number below 256 to a byte keeps its value. */
  lemma ByteValue(n: int)
    requires 0 <= n < 256
    ensures (n as bv8) as int == n
  {
    var b: bv8 := n as bv8;
    assert b == (n as bv16) as bv8;
  }

  /** Every signed 16-bit value is decoded from its own two bytes. */
  lemma AxisRoundTrip(v: int)
    requires -32768 <= v <= 32767
    ensures Axis(LowByte(v), HighByte(v)) == v
  {
    var q, r := v / 256, v % 256;
    ByteValue(r);
    ByteValue(q % 256);
    assert Sext(HighByte(v)) == q by {
      if q < 0 { assert q % 256 == q + 256; }
    }
  }

  /** Decoding is one-to-one: the value determines both bytes. */
  lemma AxisBytesRoundTrip(lo: bv8, hi: bv8)
    ensures LowByte(Axis(lo, hi)) == lo && HighByte(Axis(lo, hi)) == hi
  {
    var v := Axis(lo, hi);
    assert v % 256 == lo as int;
    assert v / 256 == Sext(hi);
    assert Sext(hi) % 256 == hi as int;
  }

  /** The driver's decode agrees with the little-endian decode exactly when
      the low byte is below 0x80 or the high byte is 0xFF. */
  lemma AxisAsWrittenAgrees(lo: bv8, hi: bv8)
    ensures AxisAsWritten(lo, hi) == Axis(lo, hi) <==> lo < 0x80 || hi == 0xFF
  {
  }

  /** A reading of +128 counts (DATAn0 = 0x80, DATAn1 = 0x00) comes out as
      -128, and +200 counts (0xC8, 0x00) as -56. */
  lemma AxisAsWrittenLowByteQuirk()
    ensures Axis(0x80, 0x00) == 128 && AxisAsWritten(0x80, 0x00) == -128
    ensures Axis(0xC8, 0x00) == 200 && AxisAsWritten(0xC8, 0x00) == -56
  {
  }

  /** The burst [0x10, 0x00, 0xFF, 0xFF, 0x00, 0x80] decodes to 16, -1 and
      -32768 under both decodes. */
  lemma AxisExamples()
    ensures AxisAsWritten(0x10, 0x00) == Axis(0x10, 0x00) == 16
    ensures AxisAsWritten(0xFF, 0xFF) == Axis(0xFF, 0xFF) == -1
    ensures AxisAsWritten(0x00, 0x80) == Axis(0x00, 0x80) == -32768
  {
  }
}
