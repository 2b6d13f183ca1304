/** Unsigned machine integers and the little-endian byte encoding that KGAPI
    uses for every multi-byte field of a reply payload and of a command's
    parameters.

    The C source writes byte k of a value as `(x >> 8k) & 0xFF`. On an
    unsigned value that is exactly `(x / 256^k) % 256`, which is how the
    byte projections below are written; `ShiftMask16` and `ShiftMask32`
    prove the two forms equal. */
module LittleEndian {

  type u8 = x: int | 0 <= x < 0x100
  type u16 = x: int | 0 <= x < 0x1_0000
  type u32 = x: int | 0 <= x < 0x1_0000_0000

  /** 256 to the power k: one more byte of range per step. */
  function Pow256(k: nat): (p: nat)
    ensures p >= 1
  {
    if k == 0 then 1 else 256 * Pow256(k - 1)
  }

  /** Reference encoder: the n low-order bytes of x, least significant first. */
  function EncodeLE(x: nat, n: nat): (bs: seq<u8>)
    ensures |bs| == n
  {
    if n == 0 then [] else [x % 256] + EncodeLE(x / 256, n - 1)
  }

  /** Reference decoder: reassembles bytes given least significant first. */
  function DecodeLE(bs: seq<u8>): (x: nat)
  {
    if bs == [] then 0 else bs[0] + 256 * DecodeLE(bs[1..])
  }

  /** Decoding n bytes always yields a value that fits in n bytes. */
  lemma {:induction false} DecodeLEBound(bs: seq<u8>)
    ensures DecodeLE(bs) < Pow256(|bs|)
  {
    if bs != [] {
      DecodeLEBound(bs[1..]);
    }
  }

  /** Encoding then decoding n bytes gives back every value that fits in n bytes. */
  lemma {:induction false} DecodeEncode(x: nat, n: nat)
    requires x < Pow256(n)
    ensures DecodeLE(EncodeLE(x, n)) == x
  {
    if n > 0 {
      var bs := EncodeLE(x, n);
      assert bs[1..] == EncodeLE(x / 256, n - 1);
      DecodeEncode(x / 256, n - 1);
    }
  }

  /** Decoding then re-encoding as many bytes as were decoded gives back the bytes. */
  lemma {:induction false} EncodeDecode(bs: seq<u8>)
    ensures EncodeLE(DecodeLE(bs), |bs|) == bs
  {
    if bs != [] {
      var x := DecodeLE(bs);
      assert x % 256 == bs[0] && x / 256 == DecodeLE(bs[1..]);
      EncodeDecode(bs[1..]);
    }
  }

  /** Two values of the same width have the same encoding only if they are equal. */
  lemma EncodeLEInjective(x: nat, y: nat, n: nat)
    requires x < Pow256(n) && y < Pow256(n)
    requires EncodeLE(x, n) == EncodeLE(y, n)
    ensures x == y
  {
    DecodeEncode(x, n);
    DecodeEncode(y, n);
  }

  /** The payload bytes of a uint16 field as the source builds them,
      `{ x & 0xFF, (x >> 8) & 0xFF }`: its little-endian encoding, from
      which reassembling gives the value back. */
  function U16Bytes(x: u16): (bs: seq<u8>)
    ensures bs == EncodeLE(x, 2)
    ensures DecodeLE(bs) == x
  {
    ByteSplit16(x);
    DecodeEncode(x, 2);
    [x % 0x100, (x / 0x100) % 0x100]
  }

  /** The payload bytes of a uint32 field as the source builds them,
      `{ x & 0xFF, (x >> 8) & 0xFF, (x >> 16) & 0xFF, (x >> 24) & 0xFF }`:
      its little-endian encoding, least significant byte first, from which
      reassembling gives back every uint32, 0 and 0xFFFFFFFF included. */
  function U32Bytes(x: u32): (bs: seq<u8>)
    ensures bs == EncodeLE(x, 4)
    ensures DecodeLE(bs) == x
  {
    ByteSplit32(x);
    DecodeEncode(x, 4);
    [x % 0x100, (x / 0x100) % 0x100, (x / 0x1_0000) % 0x100, (x / 0x100_0000) % 0x100]
  }

  /** `U16Bytes`'s quotient-and-remainder bytes are `EncodeLE(x, 2)`, unfolded step by step. */
  lemma ByteSplit16(x: u16)
    ensures [x % 0x100, (x / 0x100) % 0x100] == EncodeLE(x, 2)
  {
    calc {
      EncodeLE(x, 2);
      [x % 256] + EncodeLE(x / 256, 1);
      [x % 256] + ([(x / 256) % 256] + EncodeLE(x / 256 / 256, 0));
    }
  }

  /** `U32Bytes`'s quotient-and-remainder bytes are `EncodeLE(x, 4)`, unfolded step by step. */
  lemma ByteSplit32(x: u32)
    ensures [x % 0x100, (x / 0x100) % 0x100, (x / 0x1_0000) % 0x100, (x / 0x100_0000) % 0x100]
         == EncodeLE(x, 4)
  {
    assert x / 256 / 256 == x / 0x1_0000;
    assert x / 256 / 256 / 256 == x / 0x100_0000;
    var y := x / 256;
    calc {
      EncodeLE(x, 4);
      [x % 256] + EncodeLE(y, 3);
      [x % 256] + ([y % 256] + EncodeLE(y / 256, 2));
      [x % 256] + ([y % 256] + ([(y / 256) % 256] + EncodeLE(y / 256 / 256, 1)));
      [x % 256] + ([y % 256] + ([(y / 256) % 256] + ([(y / 256 / 256) % 256] + EncodeLE(y / 256 / 256 / 256, 0))));
    }
  }

  /** On the 32-bit word v that holds a uint32, the source's shift-and-mask
      bytes `(v >> 8k) & 0xFF` are exactly `(x / 256^k) % 256` of its value x,
      the form `U32Bytes` is written in. */
  lemma ShiftMask32(v: bv32)
    ensures U32Bytes(v as int)
         == [(v & 0xFF) as int, ((v >> 8) & 0xFF) as int, ((v >> 16) & 0xFF) as int, ((v >> 24) & 0xFF) as int]
  {
    var x, c0, c1, c2, c3 := v as int, (v & 0xFF) as int, ((v >> 8) & 0xFF) as int, ((v >> 16) & 0xFF) as int, ((v >> 24) & 0xFF) as int;
    WordValue32(v);
    assert x == c0 + 0x100 * c1 + 0x1_0000 * c2 + 0x100_0000 * c3;
    BytesOfValue32(c0, c1, c2, c3);
  }

  /** The value of a 32-bit word, in terms of its four bytes. */
  lemma WordValue32(v: bv32)
    ensures v as int == (v & 0xFF) as int + 0x100 * ((v >> 8) & 0xFF) as int
                      + 0x1_0000 * ((v >> 16) & 0xFF) as int + 0x100_0000 * ((v >> 24) & 0xFF) as int
  {
    Bytes32(v);
    Joined32((v & 0xFF) as bv8, ((v >> 8) & 0xFF) as bv8, ((v >> 16) & 0xFF) as bv8, ((v >> 24) & 0xFF) as bv8);
    MaskedByte32(v);
  }

  /** The value assembled from four bytes splits back into those bytes. */
  lemma BytesOfValue32(b0: u8, b1: u8, b2: u8, b3: u8)
    ensures b0 + 0x100 * b1 + 0x1_0000 * b2 + 0x100_0000 * b3 < 0x1_0000_0000
    ensures U32Bytes(b0 + 0x100 * b1 + 0x1_0000 * b2 + 0x100_0000 * b3) == [b0, b1, b2, b3]
  {
    DecodeFour(b0, b1, b2, b3);
    EncodeDecode([b0, b1, b2, b3]);
  }

  /** The same for the 16-bit word that holds a uint16. */
  lemma ShiftMask16(v: bv16)
    ensures U16Bytes(v as int) == [(v & 0xFF) as int, ((v >> 8) & 0xFF) as int]
  {
    var x, c0, c1 := v as int, (v & 0xFF) as int, ((v >> 8) & 0xFF) as int;
    WordValue16(v);
    assert x == c0 + 0x100 * c1;
    BytesOfValue16(c0, c1);
  }

  /** The value of a 16-bit word, in terms of its two bytes. */
  lemma WordValue16(v: bv16)
    ensures v as int == (v & 0xFF) as int + 0x100 * ((v >> 8) & 0xFF) as int
  {
    Bytes16(v);
    Joined16((v & 0xFF) as bv8, ((v >> 8) & 0xFF) as bv8);
    MaskedByte16(v);
  }

  /** The value assembled from two bytes splits back into those bytes. */
  lemma BytesOfValue16(b0: u8, b1: u8)
    ensures b0 + 0x100 * b1 < 0x1_0000
    ensures U16Bytes(b0 + 0x100 * b1) == [b0, b1]
  {
    DecodeTwo(b0, b1);
    EncodeDecode([b0, b1]);
  }

  /** Step 1 of `WordValue32`: a 32-bit word is the OR of its four bytes, each shifted into place. */
  lemma Bytes32(v: bv32)
    ensures v == (((v & 0xFF) as bv8) as bv32)
               | ((((v >> 8) & 0xFF) as bv8) as bv32 << 8)
               | ((((v >> 16) & 0xFF) as bv8) as bv32 << 16)
               | ((((v >> 24) & 0xFF) as bv8) as bv32 << 24)
  {
  }

  /** Step 2 of `WordValue32`: the OR of four shifted bytes is their weighted sum as an int. */
  lemma Joined32(b0: bv8, b1: bv8, b2: bv8, b3: bv8)
    ensures ((b0 as bv32) | ((b1 as bv32) << 8) | ((b2 as bv32) << 16) | ((b3 as bv32) << 24)) as int
         == b0 as int + 0x100 * b1 as int + 0x1_0000 * b2 as int + 0x100_0000 * b3 as int
  {
  }

  /** Step 3 of `WordValue32`: narrowing each masked byte to bv8 keeps its value. */
  lemma MaskedByte32(v: bv32)
    ensures (v & 0xFF) as int == ((v & 0xFF) as bv8) as int
    ensures ((v >> 8) & 0xFF) as int == (((v >> 8) & 0xFF) as bv8) as int
    ensures ((v >> 16) & 0xFF) as int == (((v >> 16) & 0xFF) as bv8) as int
    ensures ((v >> 24) & 0xFF) as int == (((v >> 24) & 0xFF) as bv8) as int
  {
  }

  /** Step 1 of `WordValue16`: a 16-bit word is the OR of its two bytes, each shifted into place. */
  lemma Bytes16(v: bv16)
    ensures v == (((v & 0xFF) as bv8) as bv16) | ((((v >> 8) & 0xFF) as bv8) as bv16 << 8)
  {
  }

  /** Step 2 of `WordValue16`: the OR of two shifted bytes is their weighted sum as an int. */
  lemma Joined16(b0: bv8, b1: bv8)
    ensures ((b0 as bv16) | ((b1 as bv16) << 8)) as int == b0 as int + 0x100 * b1 as int
  {
  }

  /** Step 3 of `WordValue16`: narrowing each masked byte to bv8 keeps its value. */
  lemma MaskedByte16(v: bv16)
    ensures (v & 0xFF) as int == ((v & 0xFF) as bv8) as int
    ensures ((v >> 8) & 0xFF) as int == (((v >> 8) & 0xFF) as bv8) as int
  {
  }

  /** The source assembles a uint16 parameter as `lo | (hi << 8)`. The two
      operands share no set bit, so the OR is the sum lo + 256 * hi. */
  function OrShift8(lo: u8, hi: u8): (v: u16)
    ensures v == DecodeLE([lo, hi])
  {
    OrShift8IsSum(lo, hi);
    DecodeTwo(lo, hi);
    ((lo as bv16) | ((hi as bv16) << 8)) as int
  }

  /** `DecodeLE` of a two-byte literal, unfolded: the int value the OR proofs compare against. */
  lemma DecodeTwo(lo: u8, hi: u8)
    ensures DecodeLE([lo, hi]) == lo + 256 * hi
  {
    var bs: seq<u8> := [lo, hi];
    assert bs[1..] == [hi];
    assert DecodeLE([hi]) == hi + 256 * DecodeLE([]);
  }

  /** `DecodeLE` of a four-byte literal, unfolded: the int value `BytesOfValue32` compares against. */
  lemma DecodeFour(b0: u8, b1: u8, b2: u8, b3: u8)
    ensures DecodeLE([b0, b1, b2, b3]) == b0 + 0x100 * b1 + 0x1_0000 * b2 + 0x100_0000 * b3
  {
    var bs: seq<u8> := [b0, b1, b2, b3];
    assert bs[1..] == [b1, b2, b3];
    assert bs[1..][1..] == [b2, b3];
    DecodeTwo(b2, b3);
  }

  lemma OrShift8IsSum(lo: u8, hi: u8)
    ensures ((lo as bv16) | ((hi as bv16) << 8)) as int == lo + 256 * hi
  {
    ByteAsBits(lo);
    ByteAsBits(hi);
    DisjointOrIsSum(lo as bv16, hi as bv16);
    SumAsInt(lo as bv16, hi as bv16);
  }

  /** Step 1 of `OrShift8IsSum`: a byte widened to 16 bits keeps its value and its high byte is clear. */
  lemma ByteAsBits(b: u8)
    ensures (b as bv16) as int == b
    ensures (b as bv16) < 0x100
  {
  }

  /** Step 2 of `OrShift8IsSum`: with no shared set bit, the OR equals the bv16 sum. */
  lemma DisjointOrIsSum(l: bv16, h: bv16)
    requires l < 0x100 && h < 0x100
    ensures l | (h << 8) == l + h * 0x100
  {
  }

  /** Step 3 of `OrShift8IsSum`: that bv16 sum does not wrap, so it is also the int sum. */
  lemma SumAsInt(l: bv16, h: bv16)
    requires l < 0x100 && h < 0x100
    ensures (l + h * 0x100) as int == l as int + (h as int) * 0x100
  {
  }
}
