/** The dynamic linker mapped into memory page by page, the way the kernel would have done it. */
module Loader {
  import opened Bytes

  /** A program header; only PT_LOADs are mapped. */
  datatype Phdr = Phdr(load: bool, vaddr: nat, offset: nat, filesz: nat, memsz: nat, write: bool)

  type Memory = map<int, byte>

  /** The page an address is on begins here. */
  function Down(x: int, page: nat): (r: int)
    requires page > 0
    ensures r <= x < r + page && x - r == x % page
  {
    x / page * page
  }

  function Up(x: int, page: nat): (r: int)
    requires page > 0
    ensures x <= r < x + page
  {
    Down(x + page - 1, page)
  }

  function FileEnd(p: Phdr): nat { p.vaddr + p.filesz }
  function MemEnd(p: Phdr): nat { p.vaddr + p.memsz }

  /** A header a linker writes: file and memory agree modulo the page, the file is long enough. */
  predicate Proper(p: Phdr, file: seq<byte>, page: nat)
    requires page > 0
  {
    p.vaddr % page == p.offset % page && p.filesz <= p.memsz && p.offset + p.filesz <= |file|
  }

  /** The pages of two segments do not overlap. */
  predicate PageApart(p: Phdr, q: Phdr, page: nat)
    requires page > 0
  {
    Up(MemEnd(p), page) <= Down(q.vaddr, page) || Up(MemEnd(q), page) <= Down(p.vaddr, page)
  }

  ghost predicate Loadable(ps: seq<Phdr>, file: seq<byte>, page: nat)
    requires page > 0
  {
    && (forall i :: 0 <= i < |ps| && ps[i].load ==> Proper(ps[i], file, page))
    && (forall i, j :: 0 <= i < j < |ps| && ps[i].load && ps[j].load ==> PageApart(ps[i], ps[j], page))
  }

  // ---------------------------------------------------------------- what memory should look like

  /** Every byte of the file where its header says. */
  ghost predicate FileThere(mem: Memory, p: Phdr, file: seq<byte>, bias: int) {
    p.offset + p.filesz <= |file| &&
    forall a :: bias + p.vaddr <= a < bias + FileEnd(p) ==> a in mem && mem[a] == file[a - bias - p.vaddr + p.offset]
  }

  ghost predicate ZeroFrom(mem: Memory, bias: int, from: int, to: int) {
    forall a :: bias + from <= a < bias + to ==> a in mem && mem[a] == 0
  }

  /** A segment that is larger in memory than in the file ends in zeros: when it can be written, from the last byte
      of the file to the end of its last page; else at least from the page after. */
  ghost predicate RestZero(mem: Memory, p: Phdr, bias: int, page: nat)
    requires page > 0
  {
    p.memsz > p.filesz ==>
      ZeroFrom(mem, bias, if p.write then FileEnd(p) else Up(FileEnd(p), page), Up(MemEnd(p), page))
  }

  function FileByte(file: seq<byte>, i: int): byte { if 0 <= i < |file| then file[i] else 0 }

  /** What the pages of the file show behind a segment that cannot be written: the file. */
  ghost predicate TailThere(mem: Memory, p: Phdr, file: seq<byte>, bias: int, page: nat)
    requires page > 0
  {
    !p.write || p.memsz == p.filesz ==>
      forall a :: bias + FileEnd(p) <= a < bias + Up(FileEnd(p), page) ==>
        a in mem && mem[a] == FileByte(file, a - bias - p.vaddr + p.offset)
  }

  ghost predicate Inside(mem: Memory, from: int, to: int) { forall a :: a in mem ==> from <= a < to }

  // ---------------------------------------------------------------- mmap

  predicate Covers(addr: int, len: nat, a: int) { addr <= a < addr + len }

  /** Pages of the file; behind its end there are zeros. */
  function Mapped(mem: Memory, addr: int, len: nat, file: seq<byte>, off: nat): Memory {
    mem + (map a | addr <= a < addr + len && Covers(addr, len, a) ::
             FileByte(file, a - addr + off))
  }

  function Blank(mem: Memory, addr: int, len: nat): Memory {
    mem + (map a | addr <= a < addr + len && Covers(addr, len, a) :: 0)
  }

  /** What one turn of the mapping loop leaves. */
  ghost predicate Turned(mem: Memory, next: Memory, p: Phdr, file: seq<byte>, bias: int, page: nat)
    requires page > 0
  {
    && FileThere(next, p, file, bias) && RestZero(next, p, bias, page) && TailThere(next, p, file, bias, page)
    && (forall a :: !(bias + Down(p.vaddr, page) <= a < bias + Up(MemEnd(p), page)) ==>
          (a in next <==> a in mem) && (a in mem ==> next[a] == mem[a]))
  }

  /** The memory after one turn. */
  function Turn(mem: Memory, p: Phdr, file: seq<byte>, bias: int, page: nat): Memory
    requires page > 0 && Proper(p, file, page)
  {
    PagesAgree(p, page);
    UpMonotone(FileEnd(p), MemEnd(p), page);
    var start, e, end := Down(p.vaddr, page), Up(FileEnd(p), page), Up(MemEnd(p), page);
    var pages := Mapped(mem, bias + start, e - start, file, Down(p.offset, page));
    if p.memsz == p.filesz then pages
    else Blank(if p.write then Blank(pages, bias + FileEnd(p), e - FileEnd(p)) else pages, bias + e, end - e)
  }

  lemma MappedAt(mem: Memory, addr: int, len: nat, file: seq<byte>, off: nat, a: int)
    ensures var m := Mapped(mem, addr, len, file, off);
            if addr <= a < addr + len then a in m && m[a] == FileByte(file, a - addr + off)
            else (a in m <==> a in mem) && (a in m ==> m[a] == mem[a])
  {
    assert Covers(addr, len, a) <==> addr <= a < addr + len;
  }

  lemma BlankAt(mem: Memory, addr: int, len: nat, a: int)
    ensures var m := Blank(mem, addr, len);
            if addr <= a < addr + len then a in m && m[a] == 0
            else (a in m <==> a in mem) && (a in m ==> m[a] == mem[a])
  {
    assert Covers(addr, len, a) <==> addr <= a < addr + len;
  }

  /** Byte by byte what one turn leaves. */
  lemma TurnAt(mem: Memory, p: Phdr, file: seq<byte>, bias: int, page: nat, a: int)
    requires page > 0 && Proper(p, file, page)
    ensures var m := Turn(mem, p, file, bias, page);
            var grows := p.memsz > p.filesz;
            if bias + Down(p.vaddr, page) <= a < bias + FileEnd(p) then
              a in m && m[a] == FileByte(file, a - bias - p.vaddr + p.offset)
            else if bias + FileEnd(p) <= a < bias + Up(FileEnd(p), page) then
              a in m && m[a] == if grows && p.write then 0 else FileByte(file, a - bias - p.vaddr + p.offset)
            else if grows && bias + Up(FileEnd(p), page) <= a < bias + Up(MemEnd(p), page) then
              a in m && m[a] == 0
            else (a in m <==> a in mem) && (a in m ==> m[a] == mem[a])
  {
    hide Down, Up, Mapped, Blank, FileByte;
    PagesAgree(p, page);
    UpMonotone(FileEnd(p), MemEnd(p), page);
    var start, e, end, off := Down(p.vaddr, page), Up(FileEnd(p), page), Up(MemEnd(p), page), Down(p.offset, page);
    MappedAt(mem, bias + start, e - start, file, off, a);
    var pages := Mapped(mem, bias + start, e - start, file, off);
    BlankAt(pages, bias + FileEnd(p), e - FileEnd(p), a);
    var cleared := if p.write then Blank(pages, bias + FileEnd(p), e - FileEnd(p)) else pages;
    BlankAt(cleared, bias + e, end - e, a);
    assert a - (bias + start) + off == a - bias - p.vaddr + p.offset;
  }

  lemma TurnHasFile(mem: Memory, p: Phdr, file: seq<byte>, bias: int, page: nat)
    requires page > 0 && Proper(p, file, page)
    ensures FileThere(Turn(mem, p, file, bias, page), p, file, bias)
  {
    hide Down, Up, Turn;
    var m := Turn(mem, p, file, bias, page);
    forall a | bias + p.vaddr <= a < bias + FileEnd(p)
      ensures a in m && m[a] == file[a - bias - p.vaddr + p.offset]
    {
      TurnAt(mem, p, file, bias, page, a);
    }
  }

  lemma TurnHasZeros(mem: Memory, p: Phdr, file: seq<byte>, bias: int, page: nat)
    requires page > 0 && Proper(p, file, page)
    ensures RestZero(Turn(mem, p, file, bias, page), p, bias, page)
  {
    hide Down, Up, Turn, FileByte;
    UpMonotone(FileEnd(p), MemEnd(p), page);
    var m, from := Turn(mem, p, file, bias, page), if p.write then FileEnd(p) else Up(FileEnd(p), page);
    if p.memsz > p.filesz {
      forall a | bias + from <= a < bias + Up(MemEnd(p), page)
        ensures a in m && m[a] == 0
      {
        TurnAt(mem, p, file, bias, page, a);
      }
    }
  }

  lemma TurnHasTail(mem: Memory, p: Phdr, file: seq<byte>, bias: int, page: nat)
    requires page > 0 && Proper(p, file, page)
    ensures TailThere(Turn(mem, p, file, bias, page), p, file, bias, page)
  {
    hide Down, Up, Turn, FileByte;
    var m := Turn(mem, p, file, bias, page);
    if !p.write || p.memsz == p.filesz {
      forall a | bias + FileEnd(p) <= a < bias + Up(FileEnd(p), page)
        ensures a in m && m[a] == FileByte(file, a - bias - p.vaddr + p.offset)
      {
        TurnAt(mem, p, file, bias, page, a);
      }
    }
  }

  lemma TurnTurns(mem: Memory, p: Phdr, file: seq<byte>, bias: int, page: nat)
    requires page > 0 && Proper(p, file, page)
    ensures Turned(mem, Turn(mem, p, file, bias, page), p, file, bias, page)
  {
    hide Down, Up, Turn, FileByte, FileThere, RestZero, TailThere;
    TurnHasFile(mem, p, file, bias, page);
    TurnHasZeros(mem, p, file, bias, page);
    TurnHasTail(mem, p, file, bias, page);
    UpMonotone(FileEnd(p), MemEnd(p), page);
    var m := Turn(mem, p, file, bias, page);
    forall a | !(bias + Down(p.vaddr, page) <= a < bias + Up(MemEnd(p), page))
      ensures (a in m <==> a in mem) && (a in mem ==> m[a] == mem[a])
    {
      TurnAt(mem, p, file, bias, page, a);
    }
  }

  lemma NothingMapped(mem: Memory, addr: int, file: seq<byte>, off: nat)
    ensures Mapped(mem, addr, 0, file, off) == mem && Blank(mem, addr, 0) == mem
  {
  }

  lemma PagesThere(mem: Memory, p: Phdr, file: seq<byte>, bias: int, page: nat)
    requires page > 0 && Proper(p, file, page) && Down(p.vaddr, page) <= Up(FileEnd(p), page)
             && Down(p.offset, page) >= 0
    ensures var start, e := Down(p.vaddr, page), Up(FileEnd(p), page);
            var pages := Mapped(mem, bias + start, e - start, file, Down(p.offset, page));
            forall a :: bias + FileEnd(p) <= a < bias + e ==> a in pages
  {
    hide Down, Up, Mapped;
    var start, e := Down(p.vaddr, page), Up(FileEnd(p), page);
    var pages := Mapped(mem, bias + start, e - start, file, Down(p.offset, page));
    forall a | bias + FileEnd(p) <= a < bias + e
      ensures a in pages
    {
      MappedAt(mem, bias + start, e - start, file, Down(p.offset, page), a);
    }
  }

  class AddressSpace {
    var mem: Memory

    constructor ()
      ensures mem == map[]
    {
      mem := map[];
    }

    /** Byte by byte to the end of the page. */
    method Clear(from: int, to: int)
      requires from <= to && forall a :: from <= a < to ==> a in mem
      modifies this
      ensures mem == Blank(old(mem), from, to - from)
    {
      var z := from;
      while z < to
        invariant from <= z <= to
        invariant mem.Keys == old(mem).Keys
        invariant forall a :: a in mem ==> mem[a] == if from <= a < z then 0 else old(mem)[a]
      {
        mem := mem[z := 0];
        z := z + 1;
      }
      ghost var all := Blank(old(mem), from, to - from);
      hide Blank;
      forall a
        ensures a in all <==> a in mem
        ensures a in mem ==> all[a] == mem[a]
      {
        BlankAt(old(mem), from, to - from, a);
      }
    }

    method MapSegment(p: Phdr, file: seq<byte>, bias: int, page: nat)
      requires page > 0 && Proper(p, file, page)
      modifies this
      ensures Turned(old(mem), mem, p, file, bias, page)
    {
      hide Down, Up, Turned, Mapped, Blank;
      var start, off := Down(p.vaddr, page), Down(p.offset, page);
      var fileEnd, memEnd := FileEnd(p), MemEnd(p);
      var e := Up(fileEnd, page);
      PagesAgree(p, page);
      UpMonotone(fileEnd, memEnd, page);
      TurnTurns(mem, p, file, bias, page);
      NothingMapped(mem, bias + start, file, off);
      PagesThere(mem, p, file, bias, page);
      if e - start > 0 {
        mem := Mapped(mem, bias + start, e - start, file, off);
      }
      if memEnd > fileEnd {
        if p.write {
          Clear(bias + fileEnd, bias + e);
        }
        var anonEnd := Up(memEnd, page);
        NothingMapped(mem, bias + e, file, off);
        if anonEnd > e {
          mem := Blank(mem, bias + e, anonEnd - e);
        }
      }
    }
  }

  /** What was mapped for one segment stays when another is mapped. */
  lemma TurnKeeps(mem: Memory, next: Memory, p: Phdr, q: Phdr, file: seq<byte>, bias: int, page: nat)
    requires page > 0 && Turned(mem, next, q, file, bias, page) && PageApart(p, q, page) && p.filesz <= p.memsz
    requires FileThere(mem, p, file, bias) && RestZero(mem, p, bias, page) && TailThere(mem, p, file, bias, page)
    ensures FileThere(next, p, file, bias) && RestZero(next, p, bias, page) && TailThere(next, p, file, bias, page)
  {
    hide Down, Up;
    UpMonotone(FileEnd(p), MemEnd(p), page);
  }

  lemma TurnInside(mem: Memory, next: Memory, q: Phdr, file: seq<byte>, bias: int, page: nat, from: int, to: int)
    requires page > 0 && Turned(mem, next, q, file, bias, page) && Inside(mem, from, to)
    requires from <= bias + Down(q.vaddr, page) && bias + Up(MemEnd(q), page) <= to
    ensures Inside(next, from, to)
  {
    hide Down, Up;
    forall a | a in next
      ensures from <= a < to
    {
      if !(bias + Down(q.vaddr, page) <= a < bias + Up(MemEnd(q), page)) { assert a in mem; }
    }
  }

  // ---------------------------------------------------------------- all segments

  function Lowest(ps: seq<Phdr>): nat {
    if ps == [] then U64 - 1 else
      var p, rest := ps[|ps| - 1], Lowest(ps[..|ps| - 1]);
      if p.load && p.vaddr < rest then p.vaddr else rest
  }

  function Highest(ps: seq<Phdr>): nat {
    if ps == [] then 0 else
      var p, rest := ps[|ps| - 1], Highest(ps[..|ps| - 1]);
      if p.load && MemEnd(p) > rest then MemEnd(p) else rest
  }

  lemma {:induction false} Bounds(ps: seq<Phdr>, i: nat)
    requires i < |ps| && ps[i].load
    ensures Lowest(ps) <= ps[i].vaddr && MemEnd(ps[i]) <= Highest(ps)
    decreases |ps|
  {
    if i < |ps| - 1 { Bounds(ps[..|ps| - 1], i); }
  }

  lemma DownMonotone(x: int, y: int, page: nat)
    requires page > 0 && x <= y
    ensures Down(x, page) <= Down(y, page)
  {
    var m, n := x / page, y / page;
    if m > n { Times(n + 1, m, page); }
    Times(m, n, page);
  }

  /** The first i segments are as the headers say, and nothing is outside the reserved range. */
  ghost predicate Loaded(mem: Memory, ps: seq<Phdr>, n: nat, file: seq<byte>, bias: int, page: nat)
    requires page > 0 && n <= |ps|
  {
    && (forall i :: 0 <= i < n && ps[i].load ==>
          FileThere(mem, ps[i], file, bias) && RestZero(mem, ps[i], bias, page)
          && TailThere(mem, ps[i], file, bias, page))
    && Inside(mem, bias + Down(Lowest(ps), page), bias + Up(Highest(ps), page))
  }

  lemma LoadedMore(mem: Memory, next: Memory, ps: seq<Phdr>, n: nat, file: seq<byte>, bias: int, page: nat)
    requires page > 0 && n < |ps| && ps[n].load && Loadable(ps, file, page) && Loaded(mem, ps, n, file, bias, page)
    requires Turned(mem, next, ps[n], file, bias, page)
    ensures Loaded(next, ps, n + 1, file, bias, page)
  {
    forall i | 0 <= i < n && ps[i].load
      ensures FileThere(next, ps[i], file, bias) && RestZero(next, ps[i], bias, page)
              && TailThere(next, ps[i], file, bias, page)
    {
      assert PageApart(ps[i], ps[n], page) && Proper(ps[i], file, page);
      TurnKeeps(mem, next, ps[i], ps[n], file, bias, page);
    }
    Bounds(ps, n);
    DownMonotone(Lowest(ps), ps[n].vaddr, page);
    UpMonotone(MemEnd(ps[n]), Highest(ps), page);
    TurnInside(mem, next, ps[n], file, bias, page, bias + Down(Lowest(ps), page), bias + Up(Highest(ps), page));
  }

  /** The file holds zeros from the end of the segment to the end of the page, as far as the segment reaches. */
  predicate TailBlank(p: Phdr, file: seq<byte>, page: nat)
    requires page > 0
  {
    forall i | p.offset + p.filesz <= i < |file| && i < p.offset + p.memsz
               && i - p.offset < Up(FileEnd(p), page) - p.vaddr :: file[i] == 0
  }

  /** Memory behind the file's part of a segment is zero, as the headers ask, exactly when the segment can be written
      or the rest of the page holds zeros in the file too. */
  lemma TailIsZeroIff(mem: Memory, ps: seq<Phdr>, i: nat, file: seq<byte>, bias: int, page: nat)
    requires page > 0 && i < |ps| && ps[i].load && Loaded(mem, ps, |ps|, file, bias, page)
    requires ps[i].filesz < ps[i].memsz
    ensures ZeroFrom(mem, bias, FileEnd(ps[i]), MemEnd(ps[i])) <==> ps[i].write || TailBlank(ps[i], file, page)
  {
    hide Down, Up;
    var p := ps[i];
    assert FileThere(mem, p, file, bias) && RestZero(mem, p, bias, page) && TailThere(mem, p, file, bias, page);
    if ZeroFrom(mem, bias, FileEnd(p), MemEnd(p)) && !p.write {
      forall k | p.offset + p.filesz <= k < |file| && k < p.offset + p.memsz
               && k - p.offset < Up(FileEnd(p), page) - p.vaddr
        ensures file[k] == 0
      {
        assert bias + p.vaddr + (k - p.offset) in mem;
      }
    }
  }

  /** A segment that cannot be written, one byte in the file and two in memory: its second byte is the file's. */
  lemma ReadOnlyTailShows()
    ensures var ps, file, page := [Phdr(true, 0, 0, 1, 2, false)], [7, 9], 4;
            var mem := Turn(map[], ps[0], file, 0, page);
            && Loadable(ps, file, page) && Loaded(mem, ps, 1, file, 0, page)
            && 1 in mem && mem[1] == 9 && !ZeroFrom(mem, 0, FileEnd(ps[0]), MemEnd(ps[0]))
  {
    var p, file, page: nat := Phdr(true, 0, 0, 1, 2, false), [7, 9], 4;
    var ps := [p];
    assert Proper(p, file, page) && Loadable(ps, file, page);
    assert Loaded(map[], ps, 0, file, 0, page);
    TurnTurns(map[], p, file, 0, page);
    LoadedMore(map[], Turn(map[], p, file, 0, page), ps, 0, file, 0, page);
    TurnAt(map[], p, file, 0, page, 1);
  }

  /** The length asked for, in 64-bit arithmetic. */
  function Length(ps: seq<Phdr>, page: nat): nat
    requires page > 0
  {
    (Up(Highest(ps), page) - Down(Lowest(ps), page)) % U64
  }

  /** Without a segment to load the length wraps around to one page, which is reserved and stays empty. */
  lemma NothingToLoad(ps: seq<Phdr>, page: nat)
    requires page > 0 && U64 % page == 0 && page < U64 && forall i :: 0 <= i < |ps| ==> !ps[i].load
    ensures Length(ps, page) == page
  {
    hide Down;
    NoSegments(ps);
    WholePages(U64, page);
    OnePage(U64 / page, page);
    OnePage(1, page);
    assert Up(0, page) == Down(1 * page - 1, page);
  }

  lemma WholePages(n: nat, page: nat)
    requires page > 0 && n % page == 0
    ensures n / page * page == n && (n > 0 ==> n / page > 0)
  {
  }

  lemma {:induction false} NoSegments(ps: seq<Phdr>)
    requires forall i :: 0 <= i < |ps| ==> !ps[i].load
    ensures Lowest(ps) == U64 - 1 && Highest(ps) == 0
    decreases |ps|
  {
    if ps != [] { NoSegments(ps[..|ps| - 1]); }
  }

  lemma OnePage(n: nat, page: nat)
    requires page > 0 && n > 0
    ensures Down(n * page - 1, page) == n * page - page
  {
    var q := (n * page - 1) / page;
    assert n * page - 1 == (n - 1) * page + (page - 1);
    if q > n - 1 { Times(n, q, page); }
    if q < n - 1 { Times(q, n - 2, page); }
  }

  /** `base` is where the kernel reserved the range; an empty range it does not reserve. */
  method Load(ps: seq<Phdr>, file: seq<byte>, page: nat, base: nat) returns (space: AddressSpace, bias: int, ok: bool)
    requires page > 0 && Loadable(ps, file, page)
    ensures fresh(space)
    ensures ok == (Length(ps, page) != 0)
    ensures ok ==> bias + Down(Lowest(ps), page) == base && Loaded(space.mem, ps, |ps|, file, bias, page)
  {
    hide Down, Up;
    space := new AddressSpace();
    bias := 0;
    var lo, hi := U64 - 1, 0;
    for i := 0 to |ps|
      invariant lo == Lowest(ps[..i]) && hi == Highest(ps[..i])
    {
      assert ps[..i + 1][..i] == ps[..i];
      if ps[i].load {
        if ps[i].vaddr < lo {
          lo := ps[i].vaddr;
        }
        if MemEnd(ps[i]) > hi {
          hi := MemEnd(ps[i]);
        }
      }
    }
    assert ps[..|ps|] == ps;
    lo, hi := Down(lo, page), Up(hi, page);
    ok := (hi - lo) % U64 != 0;
    if !ok {
      return;
    }
    bias := base - lo;
    for i := 0 to |ps|
      invariant fresh(space) && Loaded(space.mem, ps, i, file, bias, page)
    {
      if ps[i].load {
        ghost var mem := space.mem;
        space.MapSegment(ps[i], file, bias, page);
        LoadedMore(mem, space.mem, ps, i, file, bias, page);
      }
    }
  }

  lemma UpMonotone(x: int, y: int, page: nat)
    requires page > 0 && x <= y
    ensures Up(x, page) <= Up(y, page)
  {
    var m, n := (x + page - 1) / page, (y + page - 1) / page;
    if m > n { Times(n + 1, m, page); }
    Times(m, n, page);
  }

  lemma Times(m: int, n: int, page: nat)
    ensures m <= n ==> m * page <= n * page
  {
  }

  /** Rounding address and offset down moves both by the same. */
  lemma PagesAgree(p: Phdr, page: nat)
    requires page > 0 && p.vaddr % page == p.offset % page
    ensures p.vaddr - Down(p.vaddr, page) == p.offset - Down(p.offset, page)
    ensures Down(p.offset, page) >= 0 && Down(p.vaddr, page) >= 0
    ensures Up(FileEnd(p), page) >= Down(p.vaddr, page)
  {
  }
}
