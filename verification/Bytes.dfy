/** Bytes and the little-endian integers that headers, hints and ELF words are made of. */
module Bytes {

  type byte = b: int | 0 <= b < 256

  const U32 := 0x1_0000_0000
  const U64 := 0x1_0000_0000_0000_0000

  datatype Option<+T> = None | Some(value: T)

  function ByteAt(b: seq<byte>, i: nat): byte { if i < |b| then b[i] else 0 }

  function Power2(n: nat): (p: nat)
    ensures p > 0
  {
    if n == 0 then 1 else 2 * Power2(n - 1)
  }

  function Quotient(n: nat, d: nat): nat
    requires d > 0
  {
    n / d
  }

  function Power256(width: nat): (p: nat)
    ensures p >= 1
  {
    if width == 0 then 1 else 256 * Power256(width - 1)
  }

  /** The low `width` bytes of n, least significant first; higher bytes are cut off. */
  function LittleEndian(n: nat, width: nat): (b: seq<byte>)
    ensures |b| == width
  {
    if width == 0 then [] else [n % 256] + LittleEndian(n / 256, width - 1)
  }

  function Number(b: seq<byte>): nat {
    if b == [] then 0 else b[0] + 256 * Number(b[1..])
  }

  lemma {:induction false} NumberOfLittleEndian(n: nat, width: nat)
    requires n < Power256(width)
    ensures Number(LittleEndian(n, width)) == n
  {
    if width > 0 {
      NumberOfLittleEndian(n / 256, width - 1);
    }
  }

  lemma {:induction false} LittleEndianOfNumber(b: seq<byte>)
    ensures Number(b) < Power256(|b|)
    ensures LittleEndian(Number(b), |b|) == b
  {
    if b != [] {
      LittleEndianOfNumber(b[1..]);
    }
  }

  lemma Widths()
    ensures Power256(4) == U32
    ensures Power256(8) == U64
  {
    assert Power256(2) == 0x1_0000;
    assert Power256(4) == 0x1_0000 * Power256(2);
    assert Power256(6) == 0x1_0000 * Power256(4);
  }

  lemma Word32(n: nat)
    requires n < U32
    ensures Number(LittleEndian(n, 4)) == n
  {
    Widths();
    NumberOfLittleEndian(n, 4);
  }

  lemma Word64(n: nat)
    requires n < U64
    ensures Number(LittleEndian(n, 8)) == n
  {
    Widths();
    NumberOfLittleEndian(n, 8);
  }
}
