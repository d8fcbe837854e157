/** The blocks a SHA-256 computation is fed. The compression itself is a black box. */
module Sha256 {
  import opened Bytes

  const BLOCK := 64

  function Zeros(n: nat): seq<byte> { seq(n, _ => 0) }

  /** Most significant byte first. */
  function BigEndian(n: nat, width: nat): (b: seq<byte>)
    ensures |b| == width
    decreases width
  {
    if width == 0 then [] else BigEndian(n / 256, width - 1) + [n % 256]
  }

  lemma BigEndianStep(n: nat, width: nat)
    requires width > 0
    ensures BigEndian(n, width) == BigEndian(n / 256, width - 1) + [n % 256]
  {
  }

  function With(data: seq<byte>, k: nat): seq<byte> { data + [0x80] + Zeros(k) + BigEndian(|data| * 8 % U64, 8) }

  /** The padded message of section 5.1.1 of FIPS 180-4: a 1 bit, the fewest 0 bits that fill a block together with
      the length of the message in bits as a 64-bit number. */
  predicate IsPadded(data: seq<byte>, padded: seq<byte>) {
    exists k :: 0 <= k < BLOCK && padded == With(data, k) && |padded| % BLOCK == 0
  }

  lemma WithSize(data: seq<byte>, k: nat)
    ensures |With(data, k)| == |data| + 9 + k
  {
  }

  lemma OneFill(n: nat, j: nat, k: nat)
    requires j < BLOCK && k < BLOCK && (n + j) % BLOCK == 0 && (n + k) % BLOCK == 0
    ensures j == k
  {
    var p, q := (n + j) / BLOCK, (n + k) / BLOCK;
    assert n + j == p * BLOCK && n + k == q * BLOCK;
  }

  /** There is only one. */
  lemma PaddedIsUnique(data: seq<byte>, a: seq<byte>, b: seq<byte>)
    requires IsPadded(data, a) && IsPadded(data, b)
    ensures a == b
  {
    hide With;
    var j :| 0 <= j < BLOCK && a == With(data, j) && |a| % BLOCK == 0;
    var k :| 0 <= k < BLOCK && b == With(data, k) && |b| % BLOCK == 0;
    WithSize(data, j);
    WithSize(data, k);
    OneFill(|data| + 9, j, k);
  }

  /** Collects what Compress is called with. */
  class Compressor {
    var fed: seq<byte>

    constructor ()
      ensures fed == []
    {
      fed := [];
    }

    method Compress(block: seq<byte>)
      requires |block| == BLOCK
      modifies this
      ensures fed == old(fed) + block
    {
      fed := fed + block;
    }
  }

  /** The last bytes of the message and the padding, in one or two blocks. */
  method Tail(rest: seq<byte>, size: nat) returns (tail: array<byte>, len: nat)
    requires |rest| < BLOCK
    ensures fresh(tail) && tail.Length == 2 * BLOCK
    ensures len == if |rest| + 9 <= BLOCK then BLOCK else 2 * BLOCK
    ensures tail[..len] == rest + [0x80] + Zeros(len - |rest| - 9) + BigEndian(size * 8 % U64, 8)
  {
    hide BigEndian;
    tail := new byte[2 * BLOCK](_ => 0);
    for i := 0 to |rest|
      invariant forall j :: 0 <= j < 2 * BLOCK ==> tail[j] == if j < i then rest[j] else 0
    {
      tail[i] := rest[i];
    }
    tail[|rest|] := 0x80;
    len := if |rest| + 1 + 8 <= BLOCK then BLOCK else 2 * BLOCK;
    ghost var before := tail[..len - 8];
    assert before == rest + [0x80] + Zeros(len - |rest| - 9);
    var bits: nat := size * 8 % U64;
    ghost var end := BigEndian(bits, 8);
    for i := 0 to 8
      invariant tail[..len - 8] == before
      invariant BigEndian(bits, 8 - i) + tail[len - i..len] == end
    {
      ghost var after := tail[len - i..len];
      tail[len - 1 - i] := bits % 256;
      assert tail[len - 1 - i..len] == [bits % 256] + after;
      BigEndianStep(bits, 8 - i);
      assert BigEndian(bits / 256, 7 - i) + ([bits % 256] + after)
             == BigEndian(bits / 256, 7 - i) + [bits % 256] + after;
      bits := bits / 256;
    }
    assert tail[len - 8..len] == end;
    assert tail[..len] == tail[..len - 8] + tail[len - 8..len];
  }

  lemma TailFills(data: seq<byte>, off: nat, len: nat, tail: seq<byte>)
    requires off <= |data| < off + BLOCK && off % BLOCK == 0
    requires len == if |data| - off + 9 <= BLOCK then BLOCK else 2 * BLOCK
    requires tail == data[off..] + [0x80] + Zeros(len - (|data| - off) - 9) + BigEndian(|data| * 8 % U64, 8)
    ensures IsPadded(data, data[..off] + tail)
  {
    hide BigEndian;
    var k := len - (|data| - off) - 9;
    JoinsUp(data, off, k, BigEndian(|data| * 8 % U64, 8));
    hide With;
    WithSize(data, k);
    WholeBlocks(off, len);
  }

  lemma WholeBlocks(off: nat, len: nat)
    requires off % BLOCK == 0 && (len == BLOCK || len == 2 * BLOCK)
    ensures (off + len) % BLOCK == 0
  {
  }

  lemma JoinsUp(data: seq<byte>, off: nat, k: nat, end: seq<byte>)
    requires off <= |data|
    ensures data[..off] + (data[off..] + [0x80] + Zeros(k) + end) == data + [0x80] + Zeros(k) + end
  {
  }

  /** The whole blocks of the message. */
  method FeedBlocks(state: Compressor, data: seq<byte>) returns (off: nat)
    requires state.fed == []
    modifies state
    ensures off <= |data| < off + BLOCK && off % BLOCK == 0 && state.fed == data[..off]
  {
    off := 0;
    while |data| - off >= BLOCK
      invariant off <= |data| && off % BLOCK == 0 && state.fed == data[..off]
    {
      state.Compress(data[off..off + BLOCK]);
      assert data[..off + BLOCK] == data[..off] + data[off..off + BLOCK];
      WholeBlocks(off, BLOCK);
      off := off + BLOCK;
    }
  }

  method FeedTail(state: Compressor, tail: seq<byte>)
    requires |tail| == BLOCK || |tail| == 2 * BLOCK
    modifies state
    ensures state.fed == old(state.fed) + tail
  {
    var blk := 0;
    assert tail[..0] == [];
    while blk < |tail|
      invariant 0 <= blk <= |tail| && (blk == 0 || blk == BLOCK || blk == 2 * BLOCK)
      invariant state.fed == old(state.fed) + tail[..blk]
    {
      assert tail[..blk + BLOCK] == tail[..blk] + tail[blk..blk + BLOCK];
      state.Compress(tail[blk..blk + BLOCK]);
      blk := blk + BLOCK;
    }
    assert tail[..|tail|] == tail;
  }

  /** Whatever the length, exactly the padded message is compressed, block by block. */
  method Digest(data: seq<byte>) returns (state: Compressor)
    ensures fresh(state) && IsPadded(data, state.fed)
  {
    hide IsPadded, BigEndian;
    state := new Compressor();
    var off := FeedBlocks(state, data);
    var tail, len := Tail(data[off..], |data|);
    TailFills(data, off, len, tail[..len]);
    FeedTail(state, tail[..len]);
  }
}
