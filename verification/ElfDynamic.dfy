/** What the dynamic section and the version needs of an ELF file name. */
module ElfDynamic {
  import opened Bytes
  import opened BinaryImage
  import opened ElfFixup

  const DT_NEEDED := 1
  const DT_RPATH := 15
  const DT_RUNPATH := 29

  const SHT_DYNAMIC := 6
  const SHT_NOBITS := 8
  const SHT_DYNSYM := 11
  const SHT_GNU_VERNEED := 0x6fff_fffe

  const SYMBOL_SIZE: nat := 24

  /** A section header. */
  datatype Section = Section(kind: nat, offset: nat, size: nat, link: nat, entsize: nat)

  /** The first section of this kind, or |sections|. */
  function FirstOf(sections: seq<Section>, kind: nat): (r: nat)
    ensures r <= |sections| && (r < |sections| ==> sections[r].kind == kind)
    ensures forall j :: 0 <= j < r ==> sections[j].kind != kind
    decreases |sections|
  {
    if sections == [] then 0 else if sections[0].kind == kind then 0
    else
      assert forall j :: 1 <= j < |sections| ==> sections[j] == sections[1..][j - 1];
      1 + FirstOf(sections[1..], kind)
  }

  method FindSection(sections: seq<Section>, kind: nat) returns (i: nat)
    ensures i == FirstOf(sections, kind)
  {
    i := 0;
    while i < |sections| && sections[i].kind != kind
      invariant i <= |sections| && forall j :: 0 <= j < i ==> sections[j].kind != kind
    {
      i := i + 1;
    }
  }

  /** The dynamic section, the string table's offset, and that of the version needs, 0 without any. */
  datatype Layout = Layout(dynamic: Section, dynstr: nat, verneed: nat)

  /** None for a file without a dynamic section or whose strings are not in it. */
  function LayoutOf(sections: seq<Section>): Option<Layout> {
    var d, v := FirstOf(sections, SHT_DYNAMIC), FirstOf(sections, SHT_GNU_VERNEED);
    if d == |sections| || sections[d].link >= |sections| || sections[sections[d].link].kind == SHT_NOBITS then None
    else Some(Layout(sections[d], sections[sections[d].link].offset, if v == |sections| then 0 else sections[v].offset))
  }

  /** Its end, cut to the file. */
  function SectionEnd(b: seq<byte>, s: Section): (r: nat)
    ensures r <= |b| && r <= s.offset + s.size
  {
    if s.offset >= |b| then 0 else s.offset + (if s.size < |b| - s.offset then s.size else |b| - s.offset)
  }

  function Tag(b: seq<byte>, off: nat): nat { Number(WordAt(b, off, 8)) }

  function Val(b: seq<byte>, off: nat): nat { Number(WordAt(b, off + 8, 8)) }

  /** The string an offset in the string table stands for: 64-bit addition wraps. */
  function Named(b: seq<byte>, dynstr: nat, val: nat): string { CStringAt(b, (dynstr + val) % U64) }

  /** The entries up to the section's end, the file's end or DT_NULL. */
  function EntriesFrom(b: seq<byte>, off: nat, end: nat): seq<nat>
    decreases |b| - off
  {
    if off >= end || !Room(b, off, 16) || Tag(b, off) == 0 then [] else [off] + EntriesFrom(b, off + 16, end)
  }

  /** Those with this tag. */
  function Tagged(b: seq<byte>, entries: seq<nat>, tag: nat): seq<nat> {
    if entries == [] then [] else
      var n := |entries| - 1;
      Tagged(b, entries[..n], tag) + (if Tag(b, entries[n]) == tag then [entries[n]] else [])
  }

  /** The last RUNPATH or RPATH. */
  function LastPath(b: seq<byte>, entries: seq<nat>): Option<nat> {
    if entries == [] then None else
      var n := |entries| - 1;
      if Tag(b, entries[n]) == DT_RUNPATH || Tag(b, entries[n]) == DT_RPATH then Some(entries[n])
      else LastPath(b, entries[..n])
  }

  function PathAt(b: seq<byte>, dynstr: nat, entries: seq<nat>): Option<nat> {
    match LastPath(b, entries) case Some(p) => Some((dynstr + Val(b, p)) % U64) case None => None
  }

  /** The version needs, each with the distance to the next, 0 for the last. */
  function Chain(b: seq<byte>, off: nat): seq<nat>
    decreases |b| - off
  {
    if off == 0 || !Room(b, off, 16) then []
    else
      var next := Number(WordAt(b, off + 12, 4));
      [off] + (if next == 0 then [] else Chain(b, off + next))
  }

  function VnFile(b: seq<byte>, off: nat): nat { Number(WordAt(b, off + 4, 4)) }

  /** The vn_file words of a chain that name a library. */
  function Naming(b: seq<byte>, dynstr: nat, chain: seq<nat>, name: string): seq<nat> {
    if chain == [] then [] else
      var n := |chain| - 1;
      Naming(b, dynstr, chain[..n], name)
      + (if Named(b, dynstr, VnFile(b, chain[n])) == name then [chain[n] + 4] else [])
  }

  /** The libraries as the file has them. */
  function Libraries(b: seq<byte>, dynstr: nat, offs: seq<nat>, chain: seq<nat>): seq<Needed> {
    seq(|offs|, i requires 0 <= i < |offs| =>
          var name := Named(b, dynstr, Val(b, offs[i]));
          Needed(name, offs[i] + 8, Naming(b, dynstr, chain, name)))
  }

  function ReadAll(b: seq<byte>, sections: seq<Section>): Dynamic {
    match LayoutOf(sections)
    case None => Dynamic([], 0, None)
    case Some(l) => ReadFrom(b, l.dynamic, l.dynstr, l.verneed)
  }

  function ReadFrom(b: seq<byte>, section: Section, dynstr: nat, verneed: nat): Dynamic {
    var entries := EntriesFrom(b, section.offset, SectionEnd(b, section));
    Dynamic(Libraries(b, dynstr, Tagged(b, entries, DT_NEEDED), Chain(b, verneed)), dynstr, PathAt(b, dynstr, entries))
  }

  // ---------------------------------------------------------------- the loops

  lemma LibrariesMore(b: seq<byte>, dynstr: nat, offs: seq<nat>, off: nat)
    ensures Libraries(b, dynstr, offs + [off], [])
            == Libraries(b, dynstr, offs, []) + [Needed(Named(b, dynstr, Val(b, off)), off + 8, [])]
  {
    hide Named, Val;
  }

  predicate More(b: seq<byte>, off: nat, end: nat) { off < end && Room(b, off, 16) && Tag(b, off) != 0 }

  lemma EntriesStep(b: seq<byte>, off: nat, end: nat)
    ensures EntriesFrom(b, off, end) == if More(b, off, end) then [off] + EntriesFrom(b, off + 16, end) else []
  {
  }

  lemma OneEntryMore(b: seq<byte>, dynstr: nat, seen: seq<nat>, off: nat)
    ensures Tagged(b, seen + [off], DT_NEEDED)
            == Tagged(b, seen, DT_NEEDED) + (if Tag(b, off) == DT_NEEDED then [off] else [])
    ensures PathAt(b, dynstr, seen + [off])
            == if Tag(b, off) == DT_RUNPATH || Tag(b, off) == DT_RPATH then Some((dynstr + Val(b, off)) % U64)
               else PathAt(b, dynstr, seen)
  {
    hide Tag, Val;
    assert (seen + [off])[..|seen|] == seen;
  }

  /** Entries of the dynamic section. */
  method ReadEntries(image: Image, section: Section, dynstr: nat) returns (needed: seq<Needed>, runpath: Option<nat>)
    ensures var entries := EntriesFrom(image.bytes, section.offset, SectionEnd(image.bytes, section));
            && needed == Libraries(image.bytes, dynstr, Tagged(image.bytes, entries, DT_NEEDED), [])
            && runpath == PathAt(image.bytes, dynstr, entries)
  {
    hide Named, Tag, Val, Libraries, EntriesFrom, Tagged, PathAt;
    var b := image.bytes;
    var end := SectionEnd(b, section);
    needed, runpath := [], None;
    var off := section.offset;
    ghost var seen: seq<nat> := [];
    NoLibraries(b, dynstr);
    while off < end && Room(b, off, 16) && Tag(b, off) != 0
      invariant seen + EntriesFrom(b, off, end) == EntriesFrom(b, section.offset, end)
      invariant needed == Libraries(b, dynstr, Tagged(b, seen, DT_NEEDED), [])
      invariant runpath == PathAt(b, dynstr, seen)
      decreases |b| - off
    {
      EntriesStep(b, off, end);
      OneEntryMore(b, dynstr, seen, off);
      assert seen + ([off] + EntriesFrom(b, off + 16, end)) == seen + [off] + EntriesFrom(b, off + 16, end);
      if Tag(b, off) == DT_NEEDED {
        LibrariesMore(b, dynstr, Tagged(b, seen, DT_NEEDED), off);
        needed := needed + [Needed(Named(b, dynstr, Val(b, off)), off + 8, [])];
      }
      if Tag(b, off) == DT_RUNPATH || Tag(b, off) == DT_RPATH {
        runpath := Some((dynstr + Val(b, off)) % U64);
      }
      assert Tag(b, off) != DT_NEEDED ==> Tagged(b, seen, DT_NEEDED) + [] == Tagged(b, seen, DT_NEEDED);
      seen := seen + [off];
      off := off + 16;
    }
    EntriesStep(b, off, end);
    assert seen + [] == seen;
  }

  lemma NoLibraries(b: seq<byte>, dynstr: nat)
    ensures Libraries(b, dynstr, [], []) == [] && Tagged(b, [], DT_NEEDED) == [] && PathAt(b, dynstr, []) == None
  {
  }

  /** One version need joins every library of its name. */
  method AddVersionNeed(b: seq<byte>, dynstr: nat, ghost offs: seq<nat>, ghost chain: seq<nat>, libs: seq<Needed>,
                        off: nat)
    returns (more: seq<Needed>)
    requires libs == Libraries(b, dynstr, offs, chain)
    ensures more == Libraries(b, dynstr, offs, chain + [off])
  {
    hide Named, Val, VnFile;
    var file := Named(b, dynstr, VnFile(b, off));
    more := libs;
    assert (chain + [off])[..|chain|] == chain;
    for i := 0 to |libs|
      invariant |more| == |libs|
      invariant forall j :: 0 <= j < i ==> more[j] == Libraries(b, dynstr, offs, chain + [off])[j]
      invariant forall j :: i <= j < |libs| ==> more[j] == libs[j]
    {
      if more[i].name == file {
        more := more[i := more[i].(vnFiles := more[i].vnFiles + [off + 4])];
      }
    }
  }

  lemma ChainStep(b: seq<byte>, off: nat)
    ensures Chain(b, off) == if off == 0 || !Room(b, off, 16) then [] else [off] + Chain(b, After(b, off))
  {
  }

  /** Where the next version need is, 0 if nowhere. */
  function After(b: seq<byte>, off: nat): nat {
    var next := Number(WordAt(b, off + 12, 4));
    if next == 0 then 0 else off + next
  }

  method ReadDynamic(image: Image, sections: seq<Section>) returns (dyn: Dynamic)
    ensures dyn == ReadAll(image.bytes, sections)
  {
    hide ReadFrom;
    var d := FindSection(sections, SHT_DYNAMIC);
    if d == |sections| || sections[d].link >= |sections| || sections[sections[d].link].kind == SHT_NOBITS {
      return Dynamic([], 0, None);
    }
    var v := FindSection(sections, SHT_GNU_VERNEED);
    dyn := ReadTables(image, sections[d], sections[sections[d].link].offset,
                      if v == |sections| then 0 else sections[v].offset);
  }

  method ReadTables(image: Image, section: Section, dynstr: nat, verneed: nat) returns (dyn: Dynamic)
    ensures dyn == ReadFrom(image.bytes, section, dynstr, verneed)
  {
    hide Libraries, EntriesFrom, Tagged, PathAt, Number, WordAt, Chain;
    var b := image.bytes;
    var needed, runpath := ReadEntries(image, section, dynstr);
    ghost var offs := Tagged(b, EntriesFrom(b, section.offset, SectionEnd(b, section)), DT_NEEDED);
    ghost var seen: seq<nat> := [];
    var off := verneed;
    while off != 0 && Room(b, off, 16)
      invariant seen + Chain(b, off) == Chain(b, verneed)
      invariant needed == Libraries(b, dynstr, offs, seen)
      decreases if off == 0 then 0 else if off <= |b| then |b| + 1 - off else 0
    {
      needed := AddVersionNeed(b, dynstr, offs, seen, needed, off);
      ChainStep(b, off);
      assert seen + ([off] + Chain(b, After(b, off))) == seen + [off] + Chain(b, After(b, off));
      seen := seen + [off];
      off := After(b, off);
    }
    ChainStep(b, off);
    assert seen + [] == seen;
    dyn := Dynamic(needed, dynstr, runpath);
  }

  // ---------------------------------------------------------------- the dynamic symbols

  /** Where the names of the symbols from `off` on are. */
  function NamesFrom(b: seq<byte>, strtab: nat, off: nat, end: nat, entsize: nat): seq<nat>
    requires entsize > 0
    decreases end - off
  {
    if off >= end then []
    else
      (if Room(b, off, SYMBOL_SIZE) then [(strtab + Number(WordAt(b, off, 4))) % U64] else [])
      + NamesFrom(b, strtab, off + entsize, end, entsize)
  }

  function Symbols(b: seq<byte>, sections: seq<Section>): seq<nat> {
    var s := FirstOf(sections, SHT_DYNSYM);
    if s == |sections| || sections[s].entsize < SYMBOL_SIZE || sections[s].link >= |sections| then []
    else
      NamesFrom(b, sections[sections[s].link].offset, sections[s].offset, SectionEnd(b, sections[s]),
                sections[s].entsize)
  }

  /** The name of a symbol begins between begin and end. */
  predicate Inside(names: seq<nat>, begin: nat, end: nat) {
    exists i :: 0 <= i < |names| && begin < names[i] < end
  }

  lemma InsideEither(a: seq<nat>, b: seq<nat>, begin: nat, end: nat)
    ensures Inside(a + b, begin, end) <==> Inside(a, begin, end) || Inside(b, begin, end)
  {
    if Inside(a, begin, end) {
      var i :| 0 <= i < |a| && begin < a[i] < end;
      assert (a + b)[i] == a[i];
    }
    if Inside(b, begin, end) {
      var i :| 0 <= i < |b| && begin < b[i] < end;
      assert (a + b)[|a| + i] == b[i];
    }
  }

  method SymbolInside(image: Image, sections: seq<Section>, begin: nat, end: nat) returns (found: bool)
    ensures found == Inside(Symbols(image.bytes, sections), begin, end)
  {
    hide WordAt, Number;
    var b := image.bytes;
    var s := FindSection(sections, SHT_DYNSYM);
    if s == |sections| || sections[s].entsize < SYMBOL_SIZE || sections[s].link >= |sections| {
      return false;
    }
    var strtab, last, entsize := sections[sections[s].link].offset, SectionEnd(b, sections[s]), sections[s].entsize;
    var off := sections[s].offset;
    while off < last
      invariant Inside(Symbols(b, sections), begin, end) == Inside(NamesFrom(b, strtab, off, last, entsize), begin, end)
      decreases if off < last then last - off else 0
    {
      if Room(b, off, SYMBOL_SIZE) {
        var name := (strtab + Number(WordAt(b, off, 4))) % U64;
        InsideEither([name], NamesFrom(b, strtab, off + entsize, last, entsize), begin, end);
        if begin < name < end {
          assert Inside([name], begin, end) by { assert [name][0] == name; }
          return true;
        }
      } else {
        assert [] + NamesFrom(b, strtab, off + entsize, last, entsize)
               == NamesFrom(b, strtab, off + entsize, last, entsize);
      }
      off := off + entsize;
    }
    found := false;
  }

  // ---------------------------------------------------------------- what has been read can be rewritten

  lemma {:induction false} EntriesInside(b: seq<byte>, off: nat, end: nat)
    ensures forall i :: 0 <= i < |EntriesFrom(b, off, end)| ==>
              off <= EntriesFrom(b, off, end)[i] < end && EntriesFrom(b, off, end)[i] + 16 <= |b|
    ensures forall i, j :: 0 <= i < j < |EntriesFrom(b, off, end)| ==>
              EntriesFrom(b, off, end)[i] + 16 <= EntriesFrom(b, off, end)[j]
    decreases |b| - off
  {
    hide Tag;
    if off < end && Room(b, off, 16) && Tag(b, off) != 0 { EntriesInside(b, off + 16, end); }
  }

  lemma {:induction false} TaggedOnes(b: seq<byte>, entries: seq<nat>, tag: nat)
    requires forall i, j :: 0 <= i < j < |entries| ==> entries[i] + 16 <= entries[j]
    ensures forall k :: 0 <= k < |Tagged(b, entries, tag)| ==> Tagged(b, entries, tag)[k] in entries
    ensures forall k, l :: 0 <= k < l < |Tagged(b, entries, tag)| ==>
              Tagged(b, entries, tag)[k] + 16 <= Tagged(b, entries, tag)[l]
    decreases |entries|
  {
    hide Tag;
    if entries != [] {
      var n := |entries| - 1;
      TaggedOnes(b, entries[..n], tag);
      assert forall k :: 0 <= k < |Tagged(b, entries[..n], tag)| ==> Tagged(b, entries[..n], tag)[k] in entries[..n];
    }
  }

  lemma {:induction false} NamingOnes(b: seq<byte>, dynstr: nat, chain: seq<nat>, name: string)
    ensures forall v :: v in Naming(b, dynstr, chain, name) <==>
              v >= 4 && v - 4 in chain && Named(b, dynstr, VnFile(b, v - 4)) == name
    decreases |chain|
  {
    hide Named, VnFile;
    if chain != [] {
      var n := |chain| - 1;
      NamingOnes(b, dynstr, chain[..n], name);
      assert forall x :: x in chain <==> x in chain[..n] || x == chain[n];
      forall v
        ensures v in Naming(b, dynstr, chain, name) <==>
                  v >= 4 && v - 4 in chain && Named(b, dynstr, VnFile(b, v - 4)) == name
      {
        assert v in Naming(b, dynstr, chain, name) <==>
                 v in Naming(b, dynstr, chain[..n], name)
                 || (Named(b, dynstr, VnFile(b, chain[n])) == name && v == chain[n] + 4);
      }
    }
  }

  /** The version needs of a linker: inside the file, 16 bytes each, off the slot and the dynamic section. */
  ghost predicate ChainOk(b: seq<byte>, section: Section, verneed: nat, slot: nat, room: nat) {
    var chain := Chain(b, verneed);
    && (forall x :: x in chain ==>
          x + 16 <= |b| && Apart(slot, room + 1, x, 16) && Apart(section.offset, section.size, x, 16))
    && (forall x, y :: x in chain && y in chain ==> x == y || Apart(x, 16, y, 16))
  }

  /** An entry ends within a section of whole entries. */
  lemma {:induction false} EntriesOnGrid(b: seq<byte>, off: nat, end: nat, e: nat)
    requires e in EntriesFrom(b, off, end)
    ensures (e - off) % 16 == 0
    decreases |b| - off
  {
    hide Tag;
    if e != off { EntriesOnGrid(b, off + 16, end, e); }
  }

  lemma EntryEnds(b: seq<byte>, section: Section, e: nat)
    requires section.size % 16 == 0 && e in EntriesFrom(b, section.offset, SectionEnd(b, section))
    ensures section.offset <= e && e + 16 <= section.offset + section.size && e + 16 <= |b|
  {
    hide EntriesFrom;
    EntriesInside(b, section.offset, SectionEnd(b, section));
    EntriesOnGrid(b, section.offset, SectionEnd(b, section), e);
  }

  /** What a library that was read is known to be. */
  lemma LibraryFacts(b: seq<byte>, section: Section, dynstr: nat, verneed: nat, k: nat)
    requires section.size % 16 == 0 && k < |ReadFrom(b, section, dynstr, verneed).needed|
    ensures var lib := ReadFrom(b, section, dynstr, verneed).needed[k];
            && section.offset + 8 <= lib.valOffset && lib.valOffset + 8 <= section.offset + section.size
            && lib.valOffset + 8 <= |b|
            && forall v :: v in lib.vnFiles ==>
                 v >= 4 && v - 4 in Chain(b, verneed) && Named(b, dynstr, VnFile(b, v - 4)) == lib.name
  {
    hide EntriesFrom, Tagged, Named, VnFile, Naming, Val;
    var entries := EntriesFrom(b, section.offset, SectionEnd(b, section));
    var lib := ReadFrom(b, section, dynstr, verneed).needed[k];
    EntriesInside(b, section.offset, SectionEnd(b, section));
    TaggedOnes(b, entries, DT_NEEDED);
    NamingOnes(b, dynstr, Chain(b, verneed), lib.name);
    EntryEnds(b, section, Tagged(b, entries, DT_NEEDED)[k]);
  }

  lemma LibrariesInOrder(b: seq<byte>, section: Section, dynstr: nat, verneed: nat, k: nat, l: nat)
    requires k < l < |ReadFrom(b, section, dynstr, verneed).needed|
    ensures var libs := ReadFrom(b, section, dynstr, verneed).needed; libs[k].valOffset + 16 <= libs[l].valOffset
  {
    hide EntriesFrom, Tagged, Named, Naming, Val;
    EntriesInside(b, section.offset, SectionEnd(b, section));
    TaggedOnes(b, EntriesFrom(b, section.offset, SectionEnd(b, section)), DT_NEEDED);
  }

  lemma LibraryIsAlone(b: seq<byte>, section: Section, dynstr: nat, verneed: nat, slot: nat, room: nat, k: nat)
    requires ChainOk(b, section, verneed, slot, room) && Apart(slot, room + 1, section.offset, section.size)
    requires section.size % 16 == 0 && k < |ReadFrom(b, section, dynstr, verneed).needed|
    ensures Alone(|b|, ReadFrom(b, section, dynstr, verneed).needed[k], slot, room)
  {
    hide ReadFrom, Chain, Named, VnFile;
    LibraryFacts(b, section, dynstr, verneed, k);
    var lib := ReadFrom(b, section, dynstr, verneed).needed[k];
    WordsApart(b, section, verneed, slot, room, lib.vnFiles, lib.vnFiles);
    assert forall i :: 0 <= i < |lib.vnFiles| ==> lib.vnFiles[i] in lib.vnFiles;
  }

  lemma WordsApart(b: seq<byte>, section: Section, verneed: nat, slot: nat, room: nat, us: seq<nat>, vs: seq<nat>)
    requires ChainOk(b, section, verneed, slot, room)
    requires (forall u :: u in us ==> u >= 4 && u - 4 in Chain(b, verneed))
    requires (forall v :: v in vs ==> v >= 4 && v - 4 in Chain(b, verneed))
    ensures forall u, v :: u in us && v in vs ==> u == v || Apart(u, 4, v, 4)
  {
    hide Chain;
    forall u, v | u in us && v in vs
      ensures u == v || Apart(u, 4, v, 4)
    {
      var x, y := u - 4, v - 4;
      assert x in Chain(b, verneed) && y in Chain(b, verneed);
      assert x == y || Apart(x, 16, y, 16);
    }
  }

  lemma LibrariesAreFriends(b: seq<byte>, section: Section, dynstr: nat, verneed: nat, slot: nat, room: nat, k: nat,
                            l: nat)
    requires ChainOk(b, section, verneed, slot, room) && section.size % 16 == 0
    requires var libs := ReadFrom(b, section, dynstr, verneed).needed; k < |libs| && l < |libs| && k != l
    ensures var libs := ReadFrom(b, section, dynstr, verneed).needed; Friends(libs[k], libs[l])
  {
    hide ReadFrom, Chain, Named, VnFile;
    var libs := ReadFrom(b, section, dynstr, verneed).needed;
    LibraryFacts(b, section, dynstr, verneed, k);
    LibraryFacts(b, section, dynstr, verneed, l);
    LibrariesInOrder(b, section, dynstr, verneed, if k < l then k else l, if k < l then l else k);
    WordsApart(b, section, verneed, slot, room, libs[k].vnFiles, libs[l].vnFiles);
  }

  /** Whichever libraries are chosen of those that were read, the words to rewrite do not get in each other's way. */
  lemma ReadIsLaidOut(b: seq<byte>, section: Section, dynstr: nat, verneed: nat, slot: nat, room: nat, picks: seq<nat>)
    requires ChainOk(b, section, verneed, slot, room) && Apart(slot, room + 1, section.offset, section.size)
    requires section.size % 16 == 0
    requires forall i :: 0 <= i < |picks| ==> picks[i] < |ReadFrom(b, section, dynstr, verneed).needed|
    requires forall i, j :: 0 <= i < j < |picks| ==> picks[i] != picks[j]
    ensures var libs := ReadFrom(b, section, dynstr, verneed).needed;
            LaidOut(|b|, seq(|picks|, i requires 0 <= i < |picks| => libs[picks[i]]), slot, room)
  {
    hide ReadFrom, Alone, Friends, ChainOk;
    var libs := ReadFrom(b, section, dynstr, verneed).needed;
    var chosen := seq(|picks|, i requires 0 <= i < |picks| => libs[picks[i]]);
    forall k | 0 <= k < |chosen|
      ensures Alone(|b|, chosen[k], slot, room)
    {
      LibraryIsAlone(b, section, dynstr, verneed, slot, room, picks[k]);
    }
    forall k, l | 0 <= k < |chosen| && 0 <= l < |chosen| && k != l
      ensures Friends(chosen[k], chosen[l])
    {
      LibrariesAreFriends(b, section, dynstr, verneed, slot, room, picks[k], picks[l]);
    }
  }
}
