/** The load commands of a Mach-O file respelled inside the header's padding, and its pages signed again. */
module MachO {
  import opened Bytes
  import opened BinaryImage

  const HEADER := 32
  const SIZEOFCMDS := 20

  /** A load command: its kind, all its bytes, and where in them its path begins, 0 if it has none. */
  datatype Command = Command(cmd: nat, bytes: seq<byte>, pathOff: nat)

  /** LC_LOAD_DYLIB, LC_ID_DYLIB and the weak, re-exported, upward and rpath kinds. */
  predicate IsPath(cmd: nat) { cmd in {0xc, 0xd, 0x8000_0018, 0x8000_001c, 0x8000_001f, 0x8000_0023} }

  function Word(b: seq<byte>, at: nat, width: nat): nat {
    if Room(b, at, width) then Number(b[at..at + width]) else 0
  }

  function PathOf(c: Command): string { if c.pathOff == 0 then "" else CStringAt(c.bytes, c.pathOff) }

  // ---------------------------------------------------------------- one command

  /** What the bytes say of themselves; a path command has room for its path's offset. */
  predicate Proper(c: Command) {
    && 8 <= |c.bytes| < U32 && Word(c.bytes, 0, 4) == c.cmd && Word(c.bytes, 4, 4) == |c.bytes|
    && c.pathOff == PathOff(c.cmd, c.bytes)
    && (IsPath(c.cmd) ==> |c.bytes| >= 12)
  }

  function PathOff(cmd: nat, bytes: seq<byte>): nat {
    if IsPath(cmd) && Word(bytes, 8, 4) < |bytes| then Word(bytes, 8, 4) else 0
  }

  /** Rounded up to a multiple of 8, with one NUL at least. */
  function Padded(n: nat): (r: nat)
    ensures n < r <= n + 8 && r % 8 == 0
  {
    (n + 8) / 8 * 8
  }

  function Respelled(c: Command, path: string): Command
    requires Narrow(path) && 12 <= c.pathOff <= |c.bytes|
  {
    var text := c.bytes[..c.pathOff] + Octets(path);
    var size := Padded(|text|);
    c.(bytes := Patched(text + Zeros(size - |text|), 4, LittleEndian(size, 4)))
  }

  class Record {
    var bytes: seq<byte>

    constructor (b: seq<byte>)
      ensures bytes == b
    {
      bytes := b;
    }

    /** The path cut off, the new one put there, padding, and the size. */
    method SetPath(c: Command, path: string)
      requires Narrow(path) && bytes == c.bytes && 12 <= c.pathOff <= |c.bytes|
      modifies this
      ensures bytes == Respelled(c, path).bytes
    {
      bytes := bytes[..c.pathOff];
      bytes := bytes + Octets(path);
      var size := (|bytes| + 8) / 8 * 8;
      bytes := bytes + Zeros(size - |bytes|);
      var image := new Image(bytes);
      var ok := image.Write(4, 4, |image.bytes|);
      bytes := image.bytes;
    }
  }

  lemma WordKept(b: seq<byte>, offset: nat, new_: seq<byte>, at: nat, width: nat)
    requires Room(b, offset, |new_|) && Apart(offset, |new_|, at, width)
    ensures Word(Patched(b, offset, new_), at, width) == Word(b, at, width)
  {
    if Room(b, at, width) { SliceKept(b, offset, new_, at, width); }
  }

  lemma SameFrontWord(a: seq<byte>, b: seq<byte>, n: nat, at: nat, width: nat)
    requires n <= |a| && n <= |b| && a[..n] == b[..n] && at + width <= n
    ensures Word(a, at, width) == Word(b, at, width)
  {
    assert a[at..at + width] == a[..n][at..at + width];
    assert b[at..at + width] == b[..n][at..at + width];
  }

  /** The command is well formed again, its size a multiple of 8, its path the new one; the rest stays. */
  lemma RespelledIsProper(c: Command, path: string)
    requires Proper(c) && c.pathOff >= 12 && Narrow(path) && '\0' !in path && c.pathOff + |path| + 8 < U32
    ensures var d := Respelled(c, path);
            && Proper(d) && |d.bytes| % 8 == 0 && PathOf(d) == path && d.cmd == c.cmd && d.pathOff == c.pathOff
            && forall i :: 0 <= i < c.pathOff && !(4 <= i < 8) ==> d.bytes[i] == c.bytes[i]
  {
    var text := c.bytes[..c.pathOff] + Octets(path);
    var size := Padded(|text|);
    var b := text + Zeros(size - |text|);
    var word := LittleEndian(size, 4);
    var d := Respelled(c, path);
    assert d.bytes == Patched(b, 4, word);
    SameFrontWord(b, c.bytes, c.pathOff, 0, 4);
    SameFrontWord(b, c.bytes, c.pathOff, 8, 4);
    WordKept(b, 4, word, 0, 4);
    WordKept(b, 4, word, 8, 4);
    Word32(size);
    assert Word(d.bytes, 4, 4) == size;
    assert d.bytes[c.pathOff..c.pathOff + |path|] == Octets(path);
    CStringIs(d.bytes, c.pathOff, path);
  }

  // ---------------------------------------------------------------- all commands

  predicate Ends(b: seq<byte>, offset: nat) {
    !Room(b, offset, 8) || Word(b, offset + 4, 4) < 8 || offset + Word(b, offset + 4, 4) > |b|
  }

  function CommandAt(b: seq<byte>, offset: nat): Command
    requires !Ends(b, offset)
  {
    var cmd, size := Word(b, offset, 4), Word(b, offset + 4, 4);
    var off := Word(b, offset + 8, 4);
    Command(cmd, b[offset..offset + size], if IsPath(cmd) && off < size then off else 0)
  }

  /** The commands as read; a bad one ends the reading. */
  function Commands(b: seq<byte>, offset: nat, n: nat): seq<Command>
    decreases n
  {
    if n == 0 || Ends(b, offset) then []
    else [CommandAt(b, offset)] + Commands(b, offset + Word(b, offset + 4, 4), n - 1)
  }

  function Flat(cs: seq<Command>): seq<byte> {
    if cs == [] then [] else cs[0].bytes + Flat(cs[1..])
  }

  lemma WordShift(b: seq<byte>, offset: nat, c: seq<byte>, at: nat, width: nat)
    requires Room(b, offset, |c|) && b[offset..offset + |c|] == c && at + width <= |c|
    ensures Word(b, offset + at, width) == Word(c, at, width)
  {
    hide Number;
    var s, t := c[at..at + width], b[offset + at..offset + at + width];
    forall i | 0 <= i < width
      ensures s[i] == t[i]
    {
      assert t[i] == b[offset + at + i] == b[offset..offset + |c|][at + i];
    }
    assert s == t;
  }

  lemma CommandThere(b: seq<byte>, offset: nat, c: Command)
    requires Proper(c) && Room(b, offset, |c.bytes|) && b[offset..offset + |c.bytes|] == c.bytes
    ensures !Ends(b, offset) && CommandAt(b, offset) == c && Word(b, offset + 4, 4) == |c.bytes|
  {
    WordShift(b, offset, c.bytes, 0, 4);
    WordShift(b, offset, c.bytes, 4, 4);
    if IsPath(c.cmd) { WordShift(b, offset, c.bytes, 8, 4); }
  }

  /** Well-formed commands laid one behind the other are read again as they are. */
  lemma {:induction false} ReadBack(b: seq<byte>, offset: nat, cs: seq<Command>)
    requires forall i :: 0 <= i < |cs| ==> Proper(cs[i])
    requires Room(b, offset, |Flat(cs)|) && b[offset..offset + |Flat(cs)|] == Flat(cs)
    ensures Commands(b, offset, |cs|) == cs
    decreases |cs|
  {
    hide Proper, CommandAt, Ends, Word;
    if cs != [] {
      var c, rest := cs[0], Flat(cs[1..]);
      var n := |c.bytes|;
      var flat := c.bytes + rest;
      assert b[offset..offset + n] == b[offset..offset + |flat|][..n] == c.bytes;
      assert b[offset + n..offset + n + |rest|] == b[offset..offset + |flat|][n..] == rest;
      CommandThere(b, offset, c);
      ReadBack(b, offset + n, cs[1..]);
    }
  }

  // ---------------------------------------------------------------- the room there is

  function Least(a: nat, b: nat): nat { if b < a then b else a }

  /** Offsets below the header's size wrap around to numbers no file reaches. */
  function Behind(offset: nat): nat { if offset >= HEADER then offset - HEADER else offset + U64 - HEADER }

  /** __TEXT maps the header: its sections bound the room. */
  function SectionRoom(b: seq<byte>, offset: nat, n: nat, room: nat): nat {
    if n == 0 then room else
      var rest := SectionRoom(b, offset, n - 1, room);
      var at := Word(b, offset + 72 + (n - 1) * 80 + 48, 4);
      if at == 0 then rest else Least(rest, Behind(at))
  }

  function SegmentRoom(b: seq<byte>, offset: nat, room: nat): nat {
    var fileoff, filesize := Word(b, offset + 40, 8), Word(b, offset + 48, 8);
    if Word(b, offset, 4) != 0x19 || filesize == 0 then room
    else if fileoff == 0 then SectionRoom(b, offset, Word(b, offset + 64, 4), room)
    else Least(room, Behind(fileoff))
  }

  function RoomFor(b: seq<byte>, offset: nat, n: nat, room: nat): nat
    decreases n
  {
    if n == 0 || Ends(b, offset) then room
    else RoomFor(b, offset + Word(b, offset + 4, 4), n - 1, SegmentRoom(b, offset, room))
  }

  lemma {:induction false} SectionRoomShrinks(b: seq<byte>, offset: nat, n: nat, room: nat)
    ensures SectionRoom(b, offset, n, room) <= room
    decreases n
  {
    hide Word;
    if n > 0 { SectionRoomShrinks(b, offset, n - 1, room); }
  }

  lemma {:induction false} RoomShrinks(b: seq<byte>, offset: nat, n: nat, room: nat)
    ensures RoomFor(b, offset, n, room) <= room
    decreases n
  {
    hide Word, Ends;
    if n > 0 && !Ends(b, offset) {
      if Word(b, offset, 4) == 0x19 && Word(b, offset + 48, 8) != 0 && Word(b, offset + 40, 8) == 0 {
        SectionRoomShrinks(b, offset, Word(b, offset + 64, 4), room);
      }
      RoomShrinks(b, offset + Word(b, offset + 4, 4), n - 1, SegmentRoom(b, offset, room));
    }
  }

  method ReadRoom(b: seq<byte>, offset: nat, room: nat) returns (r: nat)
    ensures r == SegmentRoom(b, offset, room)
  {
    hide Word;
    r := room;
    if Word(b, offset, 4) == 0x19 {
      var fileoff, filesize := Word(b, offset + 40, 8), Word(b, offset + 48, 8);
      if filesize != 0 && fileoff == 0 {
        for sect := 0 to Word(b, offset + 64, 4)
          invariant r == SectionRoom(b, offset, sect, room)
        {
          var at := Word(b, offset + 72 + sect * 80 + 48, 4);
          if at != 0 {
            r := Least(r, Behind(at));
          }
        }
      } else if filesize != 0 {
        r := Least(r, Behind(fileoff));
      }
    }
  }

  method ReadLoadCommands(image: Image, ncmds: nat) returns (commands: seq<Command>, room: nat)
    requires |image.bytes| >= HEADER
    ensures commands == Commands(image.bytes, HEADER, ncmds)
    ensures room == RoomFor(image.bytes, HEADER, ncmds, |image.bytes| - HEADER)
  {
    hide Word, Ends, CommandAt, SegmentRoom;
    var b := image.bytes;
    commands, room := [], |b| - HEADER;
    var offset := HEADER;
    var i := 0;
    while i < ncmds && !Ends(b, offset)
      invariant 0 <= i <= ncmds && offset >= 0
      invariant commands + Commands(b, offset, ncmds - i) == Commands(b, HEADER, ncmds)
      invariant RoomFor(b, offset, ncmds - i, room) == RoomFor(b, HEADER, ncmds, |b| - HEADER)
    {
      var c := CommandAt(b, offset);
      ghost var rest := Commands(b, offset + Word(b, offset + 4, 4), ncmds - i - 1);
      assert commands + ([c] + rest) == commands + [c] + rest;
      room := ReadRoom(b, offset, room);
      commands := commands + [c];
      offset := offset + Word(b, offset + 4, 4);
      i := i + 1;
    }
    assert commands + [] == commands;
  }

  // ---------------------------------------------------------------- the signature

  type Hash = seq<byte> -> seq<byte>

  ghost predicate Hashes(h: Hash) { forall b :: |h(b)| == 32 }

  /** A code directory: where its slots begin, how many, how much of the file they cover, page by page. */
  datatype Directory = Directory(at: nat, slots: nat, limit: nat, page: nat)

  function PageBegin(d: Directory, k: nat): nat { k * d.page }
  function PageEnd(d: Directory, k: nat): nat { Least((k + 1) * d.page, d.limit) }
  function SlotAt(d: Directory, k: nat): nat { d.at + k * 32 }

  /** Every slot has a page, within the file. */
  predicate Covers(d: Directory, size: nat) {
    d.limit <= size && (d.slots > 0 ==> (d.slots - 1) * d.page < d.limit)
  }

  function Slice(b: seq<byte>, from: nat, to: nat): seq<byte> { if from <= to <= |b| then b[from..to] else [] }

  /** The first n slots hold the hashes of their pages. */
  ghost predicate Signed(b: seq<byte>, d: Directory, n: nat, h: Hash) {
    forall k :: 0 <= k < n ==> Slice(b, SlotAt(d, k), SlotAt(d, k) + 32) == h(Slice(b, PageBegin(d, k), PageEnd(d, k)))
  }

  lemma SliceStays(b: seq<byte>, at: nat, new_: seq<byte>, from: nat, to: nat)
    requires Room(b, at, |new_|) && (to <= at || at + |new_| <= from)
    ensures Slice(Patched(b, at, new_), from, to) == Slice(b, from, to)
  {
  }

  lemma SignedMore(b: seq<byte>, d: Directory, k: nat, h: Hash)
    requires Hashes(h) && d.limit <= d.at && Room(b, SlotAt(d, k), 32) && Signed(b, d, k, h)
    ensures var digest := h(Slice(b, PageBegin(d, k), PageEnd(d, k)));
            |digest| == 32 && Signed(Patched(b, SlotAt(d, k), digest), d, k + 1, h)
  {
    var digest := h(Slice(b, PageBegin(d, k), PageEnd(d, k)));
    var c := Patched(b, SlotAt(d, k), digest);
    hide Patched, PageBegin;
    forall j | 0 <= j < k + 1
      ensures Slice(c, SlotAt(d, j), SlotAt(d, j) + 32) == h(Slice(c, PageBegin(d, j), PageEnd(d, j)))
    {
      SliceStays(b, SlotAt(d, k), digest, PageBegin(d, j), PageEnd(d, j));
      if j < k { SliceStays(b, SlotAt(d, k), digest, SlotAt(d, j), SlotAt(d, j) + 32); }
    }
  }

  predicate SlotsInside(d: Directory, size: nat) { d.slots == 0 || SlotAt(d, d.slots) <= size }

  /** One directory. A slot outside the file is an error. */
  method ResignDirectory(image: Image, d: Directory, h: Hash) returns (ok: bool)
    requires Hashes(h) && Covers(d, |image.bytes|) && d.limit <= d.at
    modifies image
    ensures |image.bytes| == |old(image.bytes)|
    ensures ok == SlotsInside(d, |image.bytes|)
    ensures ok ==> Signed(image.bytes, d, d.slots, h)
    ensures forall x :: 0 <= x < |image.bytes| && !(d.at <= x < SlotAt(d, d.slots)) ==>
          image.bytes[x] == old(image.bytes)[x]
  {
    hide Signed, PageBegin, PageEnd;
    ok := true;
    assert Signed(image.bytes, d, 0, h) by { NoneSigned(image.bytes, d, h); }
    for k := 0 to d.slots
      invariant |image.bytes| == |old(image.bytes)| && Signed(image.bytes, d, k, h)
      invariant k > 0 ==> SlotAt(d, k) <= |image.bytes|
      invariant forall x :: 0 <= x < |image.bytes| && !(d.at <= x < SlotAt(d, k)) ==>
            image.bytes[x] == old(image.bytes)[x]
    {
      var digest := h(Slice(image.bytes, PageBegin(d, k), PageEnd(d, k)));
      if Room(image.bytes, SlotAt(d, k), 32) { SignedMore(image.bytes, d, k, h); }
      ok := image.Overwrite(SlotAt(d, k), digest);
      if !ok {
        return;
      }
    }
  }

  lemma NoneSigned(b: seq<byte>, d: Directory, h: Hash)
    ensures Signed(b, d, 0, h)
  {
  }

  /** Slots beyond every limit and off each other's. */
  ghost predicate Placed(ds: seq<Directory>, size: nat, floor: nat) {
    && (forall i :: 0 <= i < |ds| ==> Covers(ds[i], size) && floor <= ds[i].at)
    && (forall i, j :: 0 <= i < |ds| && 0 <= j < |ds| ==> ds[i].limit <= ds[j].at)
    && (forall i, j :: 0 <= i < |ds| && 0 <= j < |ds| && i != j ==>
          SlotAt(ds[i], ds[i].slots) <= ds[j].at || SlotAt(ds[j], ds[j].slots) <= ds[i].at)
  }

  lemma SignedStays(b: seq<byte>, c: seq<byte>, d: Directory, e: Directory, h: Hash)
    requires |b| == |c| && Signed(b, d, d.slots, h) && d.limit <= e.at
    requires SlotAt(d, d.slots) <= e.at || SlotAt(e, e.slots) <= d.at
    requires forall x :: 0 <= x < |b| && !(e.at <= x < SlotAt(e, e.slots)) ==> c[x] == b[x]
    ensures Signed(c, d, d.slots, h)
  {
    hide PageBegin;
    forall k | 0 <= k < d.slots
      ensures Slice(c, SlotAt(d, k), SlotAt(d, k) + 32) == h(Slice(c, PageBegin(d, k), PageEnd(d, k)))
    {
      assert Slice(c, SlotAt(d, k), SlotAt(d, k) + 32) == Slice(b, SlotAt(d, k), SlotAt(d, k) + 32);
      assert Slice(c, PageBegin(d, k), PageEnd(d, k)) == Slice(b, PageBegin(d, k), PageEnd(d, k));
    }
  }

  /** x is in no slot. */
  ghost predicate OffSlots(ds: seq<Directory>, x: int) {
    forall i :: 0 <= i < |ds| ==> !(ds[i].at <= x < SlotAt(ds[i], ds[i].slots))
  }

  // ---------------------------------------------------------------- where the directories are

  const CODE_SIGNATURE := 0x1d
  const EMBEDDED_SIGNATURE := 0xfade_0cc0
  const CODE_DIRECTORY := 0xfade_0c02

  /** The dataoff of the last LC_CODE_SIGNATURE. */
  function SignatureFrom(b: seq<byte>, offset: nat, n: nat, found: Option<nat>): Option<nat>
    decreases n
  {
    if n == 0 || !Room(b, offset, 8) || Word(b, offset + 4, 4) < 8 then found
    else
      SignatureFrom(b, offset + Word(b, offset + 4, 4), n - 1,
                    if Word(b, offset, 4) != CODE_SIGNATURE then found
                    else if Room(b, offset + 8, 4) then Some(Word(b, offset + 8, 4)) else None)
  }

  function Signature(b: seq<byte>): Option<nat> {
    if |b| < HEADER then None else SignatureFrom(b, HEADER, Word(b, 16, 4), None)
  }

  /** Signatures are big-endian. */
  function Big(b: seq<byte>, at: nat): nat {
    if Room(b, at, 4) then Number([b[at + 3], b[at + 2], b[at + 1], b[at]]) else 0
  }

  function Octet(b: seq<byte>, at: nat): nat { if at < |b| then b[at] else 0 }

  function Blobs(b: seq<byte>, sig: nat): nat { Big(b, sig + 8) }

  function BlobAt(b: seq<byte>, sig: nat, i: nat): nat { sig + Big(b, sig + 12 + i * 8 + 4) }

  function DirectoryAt(b: seq<byte>, at: nat): Directory {
    Directory(at + Big(b, at + 16), Big(b, at + 28), Big(b, at + 32), Power2(Octet(b, at + 39)))
  }

  predicate IsSha256(b: seq<byte>, at: nat) { Octet(b, at + 36) == 32 && Octet(b, at + 37) == 2 }

  /** Where the code directories among the first n blobs begin. */
  function Offsets(b: seq<byte>, sig: nat, n: nat): seq<nat> {
    if n == 0 then [] else
      Offsets(b, sig, n - 1) + (if Big(b, BlobAt(b, sig, n - 1)) == CODE_DIRECTORY then [BlobAt(b, sig, n - 1)] else [])
  }

  function Directories(b: seq<byte>, offs: seq<nat>): (r: seq<Directory>)
    ensures |r| == |offs|
  {
    seq(|offs|, i requires 0 <= i < |offs| => DirectoryAt(b, offs[i]))
  }

  /** The code directories of the file: none without an embedded signature. */
  function AllOffsets(b: seq<byte>): seq<nat> {
    match Signature(b)
    case None => []
    case Some(sig) => if Big(b, sig) == EMBEDDED_SIGNATURE then Offsets(b, sig, Blobs(b, sig)) else []
  }

  function AllDirectories(b: seq<byte>): seq<Directory> { Directories(b, AllOffsets(b)) }

  /** No signature, or an embedded one whose directories are of SHA-256 with every slot in the file. */
  predicate Signable(b: seq<byte>) {
    match Signature(b)
    case None => true
    case Some(sig) =>
      && Big(b, sig) == EMBEDDED_SIGNATURE
      && forall i :: 0 <= i < |AllOffsets(b)| ==>
           IsSha256(b, AllOffsets(b)[i]) && SlotsInside(DirectoryAt(b, AllOffsets(b)[i]), |b|)
  }

  /** The index of the signature and the heads of its blobs are in no slot. */
  ghost predicate HeadsOff(b: seq<byte>, sig: nat, ds: seq<Directory>) {
    && (forall x :: sig <= x < sig + 12 + 8 * Blobs(b, sig) ==> OffSlots(ds, x))
    && (forall i, x :: 0 <= i < Blobs(b, sig) && BlobAt(b, sig, i) <= x < BlobAt(b, sig, i) + 40 ==> OffSlots(ds, x))
  }

  /** Two files that agree on the index and the heads. */
  ghost predicate SameHeads(b: seq<byte>, c: seq<byte>, sig: nat) {
    && |b| == |c| && (forall x :: sig <= x < sig + 12 + 8 * Blobs(b, sig) && x < |b| ==> c[x] == b[x])
    && (forall i, x :: 0 <= i < Blobs(b, sig) && BlobAt(b, sig, i) <= x < BlobAt(b, sig, i) + 40 && x < |b| ==>
        c[x] == b[x])
  }

  lemma BigSame(b: seq<byte>, c: seq<byte>, at: nat)
    requires |b| == |c| && forall x :: at <= x < at + 4 && x < |b| ==> c[x] == b[x]
    ensures Big(c, at) == Big(b, at)
  {
  }

  lemma SameBlob(b: seq<byte>, c: seq<byte>, sig: nat, i: nat)
    requires SameHeads(b, c, sig) && i < Blobs(b, sig)
    ensures BlobAt(c, sig, i) == BlobAt(b, sig, i)
    ensures var at := BlobAt(b, sig, i);
            && Big(c, at) == Big(b, at) && DirectoryAt(c, at) == DirectoryAt(b, at)
            && (IsSha256(c, at) <==> IsSha256(b, at))
  {
    hide Big;
    BigSame(b, c, sig + 12 + i * 8 + 4);
    var at := BlobAt(b, sig, i);
    assert forall x :: at <= x < at + 40 && x < |b| ==> c[x] == b[x];
    BigSame(b, c, at);
    BigSame(b, c, at + 16);
    BigSame(b, c, at + 28);
    BigSame(b, c, at + 32);
  }

  lemma {:induction false} SameOffsets(b: seq<byte>, c: seq<byte>, sig: nat, n: nat)
    requires SameHeads(b, c, sig) && n <= Blobs(b, sig)
    ensures Offsets(c, sig, n) == Offsets(b, sig, n)
    ensures Directories(c, Offsets(b, sig, n)) == Directories(b, Offsets(b, sig, n))
    ensures forall i :: 0 <= i < |Offsets(b, sig, n)| ==>
          (IsSha256(c, Offsets(b, sig, n)[i]) <==> IsSha256(b, Offsets(b, sig, n)[i]))
    decreases n
  {
    hide Big, SameHeads, BlobAt, DirectoryAt, IsSha256;
    if n > 0 {
      SameOffsets(b, c, sig, n - 1);
      SameBlob(b, c, sig, n - 1);
      var offs, front := Offsets(b, sig, n), Offsets(b, sig, n - 1);
      forall i | 0 <= i < |offs|
        ensures DirectoryAt(c, offs[i]) == DirectoryAt(b, offs[i]) && (IsSha256(c, offs[i]) <==> IsSha256(b, offs[i]))
      {
        if i < |front| {
          assert Directories(c, front)[i] == Directories(b, front)[i];
        }
      }
    }
  }

  lemma {:induction false} OffsetsPrefix(b: seq<byte>, sig: nat, m: nat, n: nat)
    requires m <= n
    ensures Offsets(b, sig, m) <= Offsets(b, sig, n)
    decreases n
  {
    hide Big, BlobAt;
    if m < n { OffsetsPrefix(b, sig, m, n - 1); }
  }
  lemma HeadsStay(b: seq<byte>, c: seq<byte>, sig: nat, ds: seq<Directory>)
    requires |b| == |c| && HeadsOff(b, sig, ds) && forall x :: 0 <= x < |b| && OffSlots(ds, x) ==> c[x] == b[x]
    ensures SameHeads(b, c, sig)
  {
    hide OffSlots, Big;
  }

  /** What a linker guarantees of the signature: it is behind `floor`, its slots beyond the code and off each other, its
      heads off the slots. */
  ghost predicate SignatureOk(b: seq<byte>, floor: nat) {
    Signature(b).Some? ==>
      && floor <= Signature(b).value && Placed(AllDirectories(b), |b|, floor)
      && HeadsOff(b, Signature(b).value, AllDirectories(b))
  }

  method FindSignature(image: Image) returns (found: Option<nat>)
    ensures found == Signature(image.bytes)
  {
    hide Word;
    found := None;
    if |image.bytes| < HEADER {
      return;
    }
    var b := image.bytes;
    var n, offset, i := Word(b, 16, 4), HEADER, 0;
    while i < n && Room(b, offset, 8) && Word(b, offset + 4, 4) >= 8
      invariant 0 <= i <= n && offset >= 0
      invariant SignatureFrom(b, offset, n - i, found) == Signature(b)
    {
      if Word(b, offset, 4) == CODE_SIGNATURE {
        found := if Room(b, offset + 8, 4) then Some(Word(b, offset + 8, 4)) else None;
      }
      offset := offset + Word(b, offset + 4, 4);
      i := i + 1;
    }
  }

  /** The first n directories have been seen, found good and signed. */
  ghost predicate SignedSoFar(b: seq<byte>, c: seq<byte>, offs: seq<nat>, h: Hash) {
    forall j :: 0 <= j < |offs| ==>
      && IsSha256(b, offs[j]) && SlotsInside(DirectoryAt(b, offs[j]), |b|)
      && Signed(c, DirectoryAt(b, offs[j]), DirectoryAt(b, offs[j]).slots, h)
  }

  lemma NextOffset(b: seq<byte>, sig: nat, i: nat)
    requires i < Blobs(b, sig)
    ensures Offsets(b, sig, i) <= Offsets(b, sig, i + 1) <= Offsets(b, sig, Blobs(b, sig))
    ensures Big(b, BlobAt(b, sig, i)) == CODE_DIRECTORY ==>
              var k, all := |Offsets(b, sig, i)|, Offsets(b, sig, Blobs(b, sig));
              k < |all| && all[k] == BlobAt(b, sig, i)
              && Offsets(b, sig, i + 1) == Offsets(b, sig, i) + [BlobAt(b, sig, i)]
  {
    hide Big, BlobAt;
    OffsetsPrefix(b, sig, i, i + 1);
    OffsetsPrefix(b, sig, i + 1, Blobs(b, sig));
  }

  lemma SignedSoFarMore(b: seq<byte>, c: seq<byte>, d: seq<byte>, all: seq<nat>, k: nat, h: Hash, floor: nat)
    requires |b| == |c| == |d| && k < |all| && Placed(Directories(b, all), |b|, floor)
    requires SignedSoFar(b, c, all[..k], h)
    requires var e := DirectoryAt(b, all[k]);
             && IsSha256(b, all[k]) && SlotsInside(e, |b|) && Signed(d, e, e.slots, h)
             && forall x :: 0 <= x < |c| && !(e.at <= x < SlotAt(e, e.slots)) ==> d[x] == c[x]
    ensures SignedSoFar(b, d, all[..k + 1], h)
  {
    hide Signed, Covers, DirectoryAt, IsSha256, SlotsInside;
    var ds := Directories(b, all);
    forall j | 0 <= j < k
      ensures Signed(d, DirectoryAt(b, all[j]), DirectoryAt(b, all[j]).slots, h)
    {
      assert ds[j] == DirectoryAt(b, all[j]) && ds[k] == DirectoryAt(b, all[k]) && all[..k][j] == all[j];
      SignedStays(c, d, ds[j], ds[k], h);
    }
    assert forall j :: 0 <= j < k ==> all[..k][j] == all[j];
  }

  /** Every slot of every directory is the hash of its page as it finally is. */
  method Resign(image: Image, h: Hash, ghost floor: nat) returns (ok: bool)
    requires Hashes(h) && SignatureOk(image.bytes, floor)
    modifies image
    ensures |image.bytes| == |old(image.bytes)|
    ensures ok == Signable(old(image.bytes))
    ensures ok ==> var ds := AllDirectories(old(image.bytes));
                   forall i :: 0 <= i < |ds| ==> Signed(image.bytes, ds[i], ds[i].slots, h)
    ensures forall x :: 0 <= x < |image.bytes| && OffSlots(AllDirectories(old(image.bytes)), x) ==>
              image.bytes[x] == old(image.bytes)[x]
  {
    hide Signed, Covers, Signature, Big, DirectoryAt, IsSha256, SlotsInside, BlobAt, OffSlots, HeadsOff, SameHeads;
    hide Offsets;
    ghost var b := image.bytes;
    var found := FindSignature(image);
    if found.None? {
      return true;
    }
    var sig := found.value;
    if Big(image.bytes, sig) != EMBEDDED_SIGNATURE {
      return false;
    }
    var blobs := Blobs(image.bytes, sig);
    ghost var all, ds := AllOffsets(b), AllDirectories(b);
    HeadsStay(b, b, sig, ds);
    assert SignedSoFar(b, b, Offsets(b, sig, 0), h) by { NoOffsets(b, sig); }
    for i := 0 to blobs
      invariant |image.bytes| == |b| && SameHeads(b, image.bytes, sig)
      invariant SignedSoFar(b, image.bytes, Offsets(b, sig, i), h)
      invariant forall x :: 0 <= x < |image.bytes| && OffSlots(ds, x) ==> image.bytes[x] == b[x]
    {
      NextOffset(b, sig, i);
      SameBlob(b, image.bytes, sig, i);
      ghost var c, k := image.bytes, |Offsets(b, sig, i)|;
      var at := BlobAt(image.bytes, sig, i);
      if Big(image.bytes, at) == CODE_DIRECTORY {
        if !IsSha256(image.bytes, at) {
          return false;
        }
        assert ds[k] == DirectoryAt(b, at);
        var d := DirectoryAt(image.bytes, at);
        var inside := ResignDirectory(image, d, h);
        if !inside {
          OffOne(ds, k, b, c, image.bytes);
          return false;
        }
        OffOne(ds, k, b, c, image.bytes);
        HeadsStay(b, image.bytes, sig, ds);
        assert all[..k] == Offsets(b, sig, i) && all[..k + 1] == Offsets(b, sig, i + 1);
        SignedSoFarMore(b, c, image.bytes, all, k, h, floor);
      } else {
        SameOffsetsOn(b, sig, i);
      }
    }
    ok := true;
  }

  lemma NoOffsets(b: seq<byte>, sig: nat)
    ensures Offsets(b, sig, 0) == []
  {
  }

  lemma SameOffsetsOn(b: seq<byte>, sig: nat, i: nat)
    requires Big(b, BlobAt(b, sig, i)) != CODE_DIRECTORY
    ensures Offsets(b, sig, i + 1) == Offsets(b, sig, i)
  {
    assert Offsets(b, sig, i) + [] == Offsets(b, sig, i);
  }

  lemma OffOne(ds: seq<Directory>, k: nat, b: seq<byte>, c: seq<byte>, d: seq<byte>)
    requires k < |ds| && |b| == |c| == |d|
    requires forall x :: 0 <= x < |b| && OffSlots(ds, x) ==> c[x] == b[x]
    requires forall x :: 0 <= x < |b| && !(ds[k].at <= x < SlotAt(ds[k], ds[k].slots)) ==> d[x] == c[x]
    ensures forall x :: 0 <= x < |b| && OffSlots(ds, x) ==> d[x] == b[x]
  {
  }

  // ---------------------------------------------------------------- the whole rewrite

  /** What a command should say, if something else than it does. */
  type Speller = Command -> Option<string>

  predicate Changes(c: Command, spell: Speller) {
    c.pathOff != 0 && spell(c).Some? && spell(c).value != PathOf(c)
  }

  predicate Spellable(c: Command, spell: Speller) {
    Changes(c, spell) ==>
      c.pathOff >= 12 && Narrow(spell(c).value) && '\0' !in spell(c).value && c.pathOff + |spell(c).value| + 8 < U32
  }

  /** The command with the path it should have. */
  function Edit(c: Command, spell: Speller): Command
    requires Proper(c) && Spellable(c, spell)
  {
    if Changes(c, spell) then Respelled(c, spell(c).value) else c
  }

  ghost predicate WellFormed(cs: seq<Command>, spell: Speller) {
    forall i :: 0 <= i < |cs| ==> Proper(cs[i]) && Spellable(cs[i], spell)
  }

  ghost function Edited(cs: seq<Command>, spell: Speller): seq<Command>
    requires WellFormed(cs, spell)
  {
    seq(|cs|, i requires 0 <= i < |cs| => Edit(cs[i], spell))
  }

  lemma EditIsProper(c: Command, spell: Speller)
    requires Proper(c) && Spellable(c, spell)
    ensures Proper(Edit(c, spell)) && Edit(c, spell).cmd == c.cmd
    ensures Changes(c, spell) ==> PathOf(Edit(c, spell)) == spell(c).value && |Edit(c, spell).bytes| % 8 == 0
  {
    if Changes(c, spell) { RespelledIsProper(c, spell(c).value); }
  }

  lemma {:induction false} FlatMore(cs: seq<Command>, c: Command)
    ensures Flat(cs + [c]) == Flat(cs) + c.bytes
    decreases |cs|
  {
    if cs == [] {
      assert cs + [c] == [c] && Flat([c]) == c.bytes + Flat([]);
    } else {
      FlatMore(cs[1..], c);
      assert (cs + [c])[1..] == cs[1..] + [c];
      assert cs[0].bytes + (Flat(cs[1..]) + c.bytes) == cs[0].bytes + Flat(cs[1..]) + c.bytes;
    }
  }

  /** The loop over the commands. */
  method Respell(cs: seq<Command>, spell: Speller) returns (flat: seq<byte>, changed: bool)
    requires WellFormed(cs, spell)
    ensures flat == Flat(Edited(cs, spell))
    ensures changed == exists i :: 0 <= i < |cs| && Changes(cs[i], spell)
  {
    hide Proper;
    flat, changed := [], false;
    ghost var done: seq<Command> := [];
    for i := 0 to |cs|
      invariant done == Edited(cs, spell)[..i] && flat == Flat(done)
      invariant changed == exists j :: 0 <= j < i && Changes(cs[j], spell)
    {
      var record := new Record(cs[i].bytes);
      if Changes(cs[i], spell) {
        PathIsInside(cs[i]);
        record.SetPath(cs[i], spell(cs[i]).value);
        changed := true;
      }
      FlatMore(done, Edit(cs[i], spell));
      flat := flat + record.bytes;
      done := done + [Edit(cs[i], spell)];
    }
    assert Edited(cs, spell)[..|cs|] == Edited(cs, spell);
  }

  lemma PathIsInside(c: Command)
    requires Proper(c)
    ensures c.pathOff <= |c.bytes|
  {
  }

  /** The file after: the new commands, zeros to the end of the room, the size in the header. */
  function Rewritten(b: seq<byte>, flat: seq<byte>, room: nat): seq<byte>
    requires |flat| <= room && HEADER + room <= |b|
  {
    Patched(Patched(b, SIZEOFCMDS, LittleEndian(|flat|, 4)), HEADER, flat + Zeros(room - |flat|))
  }

  lemma RewrittenReads(b: seq<byte>, c: seq<byte>, cs: seq<Command>, room: nat)
    requires forall i :: 0 <= i < |cs| ==> Proper(cs[i])
    requires |Flat(cs)| <= room && HEADER + room <= |b| && |c| == |b|
    requires forall x :: 0 <= x < HEADER + room ==> c[x] == Rewritten(b, Flat(cs), room)[x]
    ensures Commands(c, HEADER, |cs|) == cs
  {
    var r, flat := Rewritten(b, Flat(cs), room), Flat(cs);
    assert r[HEADER..HEADER + room] == flat + Zeros(room - |flat|);
    forall i | 0 <= i < |flat|
      ensures c[HEADER + i] == flat[i]
    {
      assert c[HEADER + i] == r[HEADER..HEADER + room][i];
    }
    assert c[HEADER..HEADER + |flat|] == flat;
    hide Rewritten;
    ReadBack(c, HEADER, cs);
  }

  predicate IsMachO(b: seq<byte>) { HEADER <= |b| && Word(b, 0, 4) == 0xfeed_facf }

  function HeaderCommands(b: seq<byte>): seq<Command> { Commands(b, HEADER, Word(b, 16, 4)) }

  function HeaderRoom(b: seq<byte>): nat {
    if |b| < HEADER then 0 else RoomFor(b, HEADER, Word(b, 16, 4), |b| - HEADER)
  }

  /** What a linker guarantees: as many well-formed commands as the header says, and a signature behind the room for
      them. */
  ghost predicate Linked(b: seq<byte>, spell: Speller) {
    && |HeaderCommands(b)| == Word(b, 16, 4) && WellFormed(HeaderCommands(b), spell) && SignatureRead(HeaderCommands(b))
    && SignatureOk(b, HEADER + HeaderRoom(b))
  }

  /** LC_CODE_SIGNATURE has the word it is read for. */
  ghost predicate SignatureRead(cs: seq<Command>) {
    forall i :: 0 <= i < |cs| && cs[i].cmd == CODE_SIGNATURE ==> |cs[i].bytes| >= 12
  }

  /** There is something to change and room for it. */
  ghost predicate Fixable(b: seq<byte>, spell: Speller)
    requires WellFormed(HeaderCommands(b), spell)
  {
    && |Flat(Edited(HeaderCommands(b), spell))| <= HeaderRoom(b)
    && exists i :: 0 <= i < |HeaderCommands(b)| && Changes(HeaderCommands(b)[i], spell)
  }

  /** The file afterwards: read again it has the edited commands, every code slot is the hash of its page, and
      nothing but the commands, their size and the slots has changed. */
  ghost predicate Fixed(b: seq<byte>, c: seq<byte>, spell: Speller, h: Hash)
    requires WellFormed(HeaderCommands(b), spell)
  {
    var ds := AllDirectories(b);
    && |c| == |b| && HeaderCommands(c) == Edited(HeaderCommands(b), spell)
    && (forall i :: 0 <= i < |ds| ==> Signed(c, ds[i], ds[i].slots, h))
    && (forall x :: 0 <= x < |b| && OffSlots(ds, x) ==>
          SIZEOFCMDS <= x < SIZEOFCMDS + 4 || HEADER <= x < HEADER + HeaderRoom(b) || c[x] == b[x])
  }

  lemma RoomIsInside(b: seq<byte>)
    requires HEADER <= |b|
    ensures HEADER + HeaderRoom(b) <= |b|
  {
    RoomShrinks(b, HEADER, Word(b, 16, 4), |b| - HEADER);
  }

  lemma RewrittenIsFixed(b: seq<byte>, c: seq<byte>, spell: Speller, h: Hash)
    requires HEADER <= |b| && Linked(b, spell) && Fixable(b, spell)
    requires HEADER + HeaderRoom(b) <= |b| && |c| == |b|
    requires var ds := AllDirectories(b); forall i :: 0 <= i < |ds| ==> Signed(c, ds[i], ds[i].slots, h)
    requires forall x :: 0 <= x < |b| && OffSlots(AllDirectories(b), x) ==>
               c[x] == Rewritten(b, Flat(Edited(HeaderCommands(b), spell)), HeaderRoom(b))[x]
    ensures Fixed(b, c, spell, h)
  {
    var cs, room, ds := Edited(HeaderCommands(b), spell), HeaderRoom(b), AllDirectories(b);
    hide HeaderCommands, HeaderRoom, WellFormed, Signed, Edited, LittleEndian, Flat, Word, AllDirectories, Signature;
    hide OffSlots;
    hide SignatureRead, HeadsOff;
    EditedIsProper(HeaderCommands(b), spell);
    FrontIsOff(b, HEADER + room);
    RewrittenReads(b, c, cs, room);
    assert HeaderCommands(c) == cs by { SameCount(b, c, Flat(cs), room); CommandsOf(c); }
  }

  /** The slots are behind the floor. */
  lemma FrontIsOff(b: seq<byte>, floor: nat)
    requires SignatureOk(b, floor)
    ensures forall x :: 0 <= x < floor ==> OffSlots(AllDirectories(b), x)
  {
    hide Covers, HeadsOff, Signature;
    if Signature(b).None? { NoDirectories(b); }
  }

  lemma NoDirectories(b: seq<byte>)
    requires Signature(b).None?
    ensures AllDirectories(b) == []
  {
  }

  // ---------------------------------------------------------------- the signature is where it was

  function SignatureOf(cs: seq<Command>, found: Option<nat>): Option<nat> {
    if cs == [] then found
    else SignatureOf(cs[1..], if cs[0].cmd == CODE_SIGNATURE then Some(Word(cs[0].bytes, 8, 4)) else found)
  }

  lemma {:induction false} SignatureReads(b: seq<byte>, offset: nat, n: nat, found: Option<nat>)
    requires |Commands(b, offset, n)| == n && SignatureRead(Commands(b, offset, n))
    ensures SignatureFrom(b, offset, n, found) == SignatureOf(Commands(b, offset, n), found)
    decreases n
  {
    hide Word;
    if n > 0 {
      var cs, size := Commands(b, offset, n), Word(b, offset + 4, 4);
      var c, rest := CommandAt(b, offset), Commands(b, offset + size, n - 1);
      assert cs == [c] + rest && cs[1..] == rest && cs[0] == c;
      assert forall i :: 0 <= i < |rest| ==> rest[i] == cs[i + 1];
      if c.cmd == CODE_SIGNATURE { WordShift(b, offset, c.bytes, 8, 4); }
      SignatureReads(b, offset + size, n - 1, if c.cmd == CODE_SIGNATURE then Some(Word(c.bytes, 8, 4)) else found);
    }
  }

  lemma EditKeepsSignature(c: Command, spell: Speller)
    requires Proper(c) && Spellable(c, spell)
    ensures Edit(c, spell).cmd == c.cmd && (c.cmd == CODE_SIGNATURE ==> Edit(c, spell) == c)
  {
    hide Word;
  }

  lemma {:induction false} EditedSignature(cs: seq<Command>, spell: Speller, found: Option<nat>)
    requires WellFormed(cs, spell)
    ensures SignatureOf(Edited(cs, spell), found) == SignatureOf(cs, found)
    ensures SignatureRead(cs) ==> SignatureRead(Edited(cs, spell))
    decreases |cs|
  {
    hide Word, Proper, Spellable, Edit;
    forall i | 0 <= i < |cs|
      ensures Edited(cs, spell)[i].cmd == cs[i].cmd && (cs[i].cmd == CODE_SIGNATURE ==> Edited(cs, spell)[i] == cs[i])
    {
      EditKeepsSignature(cs[i], spell);
    }
    if cs != [] {
      assert WellFormed(cs[1..], spell);
      assert Edited(cs, spell)[1..] == Edited(cs[1..], spell);
      EditedSignature(cs[1..], spell, if cs[0].cmd == CODE_SIGNATURE then Some(Word(cs[0].bytes, 8, 4)) else found);
    }
  }

  /** Behind the room nothing is touched, so the directories found in the rewritten image are the old ones. */
  lemma RewrittenSignature(b: seq<byte>, spell: Speller, r: seq<byte>)
    requires HEADER <= |b| && Linked(b, spell) && Fixable(b, spell) && HEADER + HeaderRoom(b) <= |b|
    requires r == Rewritten(b, Flat(Edited(HeaderCommands(b), spell)), HeaderRoom(b))
    ensures Signature(r) == Signature(b) && AllDirectories(r) == AllDirectories(b)
    ensures SignatureOk(r, HEADER + HeaderRoom(b)) && (Signable(r) <==> Signable(b))
  {
    RewrittenKeepsSignature(b, spell, r);
    RewrittenBehind(b, Flat(Edited(HeaderCommands(b), spell)), HeaderRoom(b));
    hide HeaderCommands, HeaderRoom, WellFormed, Edited, Flat, Signature, Rewritten, Fixable, SignatureRead;
    hide SignatureOk;
    hide AllDirectories, Signable;
    SameSignature(b, r, HEADER + HeaderRoom(b));
  }

  lemma RewrittenBehind(b: seq<byte>, flat: seq<byte>, room: nat)
    requires |flat| <= room && HEADER + room <= |b|
    ensures var r := Rewritten(b, flat, room); |r| == |b| && forall x :: HEADER + room <= x < |b| ==> r[x] == b[x]
  {
    hide LittleEndian;
  }

  lemma SameSignature(b: seq<byte>, r: seq<byte>, floor: nat)
    requires |b| == |r| && Signature(r) == Signature(b) && SignatureOk(b, floor)
    requires forall x :: floor <= x < |b| ==> r[x] == b[x]
    ensures AllDirectories(r) == AllDirectories(b) && SignatureOk(r, floor) && (Signable(r) <==> Signable(b))
  {
    hide Signature, Big, BlobAt, Offsets, DirectoryAt, IsSha256, SlotsInside, Placed, HeadsOff, SameHeads;
    if Signature(b).Some? {
      var sig := Signature(b).value;
      BehindIsSame(b, r, sig);
      SameBig(b, r, sig);
      SameOffsets(b, r, sig, Blobs(b, sig));
      var offs := AllOffsets(b);
      assert AllOffsets(r) == offs;
      forall i | 0 <= i < |offs|
        ensures DirectoryAt(r, offs[i]) == DirectoryAt(b, offs[i])
      {
        assert Directories(r, offs)[i] == Directories(b, offs)[i];
      }
      assert AllDirectories(r) == AllDirectories(b);
      HeadsOffSame(b, r, sig, AllDirectories(b));
    }
  }

  lemma RewrittenKeepsSignature(b: seq<byte>, spell: Speller, r: seq<byte>)
    requires HEADER <= |b| && Linked(b, spell) && Fixable(b, spell) && HEADER + HeaderRoom(b) <= |b|
    requires r == Rewritten(b, Flat(Edited(HeaderCommands(b), spell)), HeaderRoom(b))
    ensures Signature(r) == Signature(b)
  {
    var cs, n := HeaderCommands(b), Word(b, 16, 4);
    hide HeaderRoom, WellFormed, Edited, LittleEndian, Flat, Word, Commands, SignatureFrom, SignatureRead, Changes;
    hide SignatureOk;
    var new_ := Edited(cs, spell);
    EditedIsProper(cs, spell);
    RewrittenReads(b, r, new_, HeaderRoom(b));
    SameCount(b, r, Flat(new_), HeaderRoom(b));
    EditedSignature(cs, spell, None);
    SignatureReads(b, HEADER, n, None);
    SignatureReads(r, HEADER, n, None);
  }

  lemma BehindIsSame(b: seq<byte>, c: seq<byte>, from: nat)
    requires |b| == |c| && forall x :: from <= x < |b| ==> c[x] == b[x]
    ensures SameHeads(b, c, from)
  {
    hide Big;
  }

  lemma SameBig(b: seq<byte>, c: seq<byte>, sig: nat)
    requires SameHeads(b, c, sig)
    ensures Big(c, sig) == Big(b, sig) && Blobs(c, sig) == Blobs(b, sig)
  {
    hide Big;
    BigSame(b, c, sig);
    BigSame(b, c, sig + 8);
  }

  lemma HeadsOffSame(b: seq<byte>, c: seq<byte>, sig: nat, ds: seq<Directory>)
    requires SameHeads(b, c, sig) && HeadsOff(b, sig, ds)
    ensures HeadsOff(c, sig, ds)
  {
    hide Big, OffSlots;
    SameBig(b, c, sig);
    forall i | 0 <= i < Blobs(c, sig)
      ensures BlobAt(c, sig, i) == BlobAt(b, sig, i)
    {
      SameBlob(b, c, sig, i);
    }
    hide BlobAt, Blobs;
  }

  lemma CommandsOf(c: seq<byte>)
    ensures HeaderCommands(c) == Commands(c, HEADER, Word(c, 16, 4))
  {
  }

  /** The number of commands is not touched. */
  lemma SameCount(b: seq<byte>, c: seq<byte>, flat: seq<byte>, room: nat)
    requires |flat| <= room && HEADER + room <= |b| && |c| == |b|
    requires forall x :: 0 <= x < HEADER + room ==> c[x] == Rewritten(b, flat, room)[x]
    ensures Word(c, 16, 4) == Word(b, 16, 4)
  {
    hide Number, LittleEndian;
    var r := Rewritten(b, flat, room);
    assert forall x :: 16 <= x < 20 ==> r[x] == b[x];
    assert c[16..20] == b[16..20];
  }

  /** `spell` is what each command should say in the finished tree. The file is written back only if `written`. */
  method FixMachO(image: Image, spell: Speller, h: Hash) returns (written: bool)
    requires Hashes(h) && (IsMachO(image.bytes) ==> Linked(image.bytes, spell))
    modifies image
    ensures written == (IsMachO(old(image.bytes)) && Fixable(old(image.bytes), spell) && Signable(old(image.bytes)))
    ensures written ==> Fixed(old(image.bytes), image.bytes, spell, h)
    ensures !IsMachO(old(image.bytes)) || !Fixable(old(image.bytes), spell) ==> image.bytes == old(image.bytes)
  {
    hide Word, Commands, RoomFor, WellFormed, Signed, Edited, LittleEndian, Placed, Fixed, Changes, OffSlots, Signable;
    hide SignatureOk, AllDirectories, SignatureRead, Signature;
    ghost var b := image.bytes;
    if !IsMachO(image.bytes) {
      return false;
    }
    RoomIsInside(b);
    var cs, room := ReadLoadCommands(image, Word(image.bytes, 16, 4));
    var flat, changed := Respell(cs, spell);
    if !changed || |flat| > room {
      return false;
    }
    var ok := image.Write(SIZEOFCMDS, 4, |flat|);
    ok := image.Overwrite(HEADER, flat + Zeros(room - |flat|));
    RewrittenSignature(b, spell, image.bytes);
    written := Resign(image, h, HEADER + room);
    if written { RewrittenIsFixed(b, image.bytes, spell, h); }
  }

  lemma EditedIsProper(cs: seq<Command>, spell: Speller)
    requires WellFormed(cs, spell)
    ensures |Edited(cs, spell)| == |cs| && forall i :: 0 <= i < |cs| ==> Proper(Edited(cs, spell)[i])
  {
    hide Proper, Spellable;
    forall i | 0 <= i < |cs|
      ensures Proper(Edited(cs, spell)[i])
    {
      EditIsProper(cs[i], spell);
    }
  }
}
