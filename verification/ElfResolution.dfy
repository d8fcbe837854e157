/** The file that rewriting RUNPATH leaves: what is read from it again, and where its libraries then load from. */
module ElfResolution {
  import opened Bytes
  import opened Text
  import opened Paths
  import opened Lookup
  import opened Relocation
  import opened Runpath
  import opened BinaryImage
  import opened ElfFixup
  import opened ElfDynamic

  // ---------------------------------------------------------------- strings in and around the slot

  /** The text stands at s, up to a NUL or the end. */
  ghost predicate Spelled(b: seq<byte>, s: nat, text: string) {
    && s + |text| <= |b| && (s + |text| < |b| ==> b[s + |text|] == 0)
    && forall x :: s <= x < s + |text| ==> b[x] == text[x - s] as int
  }

  lemma CStringIsSpelled(b: seq<byte>, s: nat)
    requires s < |b|
    ensures var t := CStringAt(b, s);
            && Spelled(b, s, t) && Clear(t) && forall x :: s <= x < s + |t| ==> b[x] != 0
  {
    CStringHasNoNul(b, s);
  }

  lemma SpelledIsCString(b: seq<byte>, s: nat, text: string)
    requires s < |b| && Clear(text) && Spelled(b, s, text)
    ensures CStringAt(b, s) == text
  {
    var t, n := CStringAt(b, s), Nul(b, s);
    forall x | s <= x < s + |text|
      ensures b[x] != 0
    {
      assert text[x - s] in text;
    }
    assert n == s + |text|;
  }

  /** A string at s is the same after the slot was overwritten: it ends before the slot, begins behind it, or is a tail
      of the RUNPATH that was that the new texts, which then fill the slot, end in too. */
  predicate Survives(b: seq<byte>, slot: nat, packed: string, s: nat) {
    var was := CStringAt(b, slot);
    || s + |CStringAt(b, s)| < slot || slot + |was| <= s
    || (slot <= s && |packed| == |was| && packed[s - slot..] == was[s - slot..])
  }

  /** The bytes of the string at s and behind it changed only within the slot. */
  ghost predicate ChangedInSlot(b: seq<byte>, c: seq<byte>, slot: nat, room: nat, s: nat) {
    |b| == |c| && forall x :: s <= x <= s + |CStringAt(b, s)| && x < |b| && !(slot <= x < slot + room + 1) ==>
        c[x] == b[x]
  }

  lemma HeldBytes(c: seq<byte>, slot: nat, room: nat, packed: string)
    requires Narrow(packed) && Holds(c, slot, room, packed)
    ensures |packed| <= room && slot + room < |c|
    ensures forall x :: slot <= x < slot + room + 1 ==>
          c[x] == if x - slot < |packed| then packed[x - slot] as int else 0
  {
    var held := Octets(packed) + Zeros(room + 1 - |packed|);
    forall x | slot <= x < slot + room + 1
      ensures c[x] == held[x - slot]
    {
      assert c[slot..slot + room + 1][x - slot] == c[x];
    }
  }

  lemma OutsideSurvives(b: seq<byte>, c: seq<byte>, slot: nat, packed: string, s: nat)
    requires var room := |CStringAt(b, slot)|;
             Narrow(packed) && Holds(c, slot, room, packed) && ChangedInSlot(b, c, slot, room, s)
    requires s + |CStringAt(b, s)| < slot || slot + |CStringAt(b, slot)| <= s
    ensures CStringAt(c, s) == CStringAt(b, s)
  {
    var room, t := |CStringAt(b, slot)|, CStringAt(b, s);
    HeldBytes(c, slot, room, packed);
    CStringIsSpelled(b, slot);
    if s < |b| {
      CStringIsSpelled(b, s);
      assert s == slot + room ==> t == "";
      hide CStringAt, Holds;
      assert Spelled(c, s, t);
      SpelledIsCString(c, s, t);
    }
  }

  lemma TailIs(b: seq<byte>, slot: nat, s: nat)
    requires slot <= s < slot + |CStringAt(b, slot)| < |b|
    ensures CStringAt(b, s) == CStringAt(b, slot)[s - slot..]
  {
    var was := CStringAt(b, slot);
    CStringIsSpelled(b, slot);
    hide CStringAt;
    SpelledIsCString(b, s, was[s - slot..]);
  }

  lemma TailSurvivesIff(b: seq<byte>, c: seq<byte>, slot: nat, packed: string, s: nat)
    requires var room := |CStringAt(b, slot)|; |b| == |c| && Narrow(packed) && Holds(c, slot, room, packed)
    requires slot <= s < slot + |CStringAt(b, slot)|
    ensures var was := CStringAt(b, slot);
            CStringAt(c, s) == CStringAt(b, s) <==> |packed| == |was| && packed[s - slot..] == was[s - slot..]
  {
    var was, d := CStringAt(b, slot), s - slot;
    hide CStringAt, Holds;
    HeldBytes(c, slot, |was|, packed);
    TailIs(b, slot, s);
    CStringIsSpelled(b, s);
    CStringIsSpelled(c, s);
    var tail := was[d..];
    var last := slot + |was| - 1;
    if CStringAt(c, s) == tail {
      assert c[last] == tail[last - s] as int != 0;
      assert |packed| == |was|;
      forall i | 0 <= i < |tail|
        ensures packed[d..][i] == tail[i]
      {
        assert c[s + i] == tail[s + i - s] as int;
        assert c[s + i] == packed[s + i - slot] as int;
      }
    } else if |packed| == |was| && packed[d..] == tail {
      forall x | s <= x < s + |tail|
        ensures c[x] == tail[x - s] as int
      {
        assert tail[x - s] == packed[d..][x - s];
      }
      SpelledIsCString(c, s, tail);
    }
  }

  /** A string that runs into the slot ends in what is there. */
  lemma HeadTells(b: seq<byte>, c: seq<byte>, slot: nat, packed: string, s: nat)
    requires var room := |CStringAt(b, slot)|; room > 0 && |b| == |c| && Narrow(packed) && Holds(c, slot, room, packed)
    requires s < slot <= s + |CStringAt(b, s)| && CStringAt(c, s) == CStringAt(b, s)
    ensures packed == CStringAt(b, slot)
  {
    var was, t := CStringAt(b, slot), CStringAt(b, s);
    hide CStringAt, Holds;
    HeldBytes(c, slot, |was|, packed);
    CStringIsSpelled(b, slot);
    CStringIsSpelled(b, s);
    CStringIsSpelled(c, s);
    SameEnd(b, slot, |was|, s, |t|);
    var last := slot + |was| - 1;
    assert c[last] == t[last - s] as int == b[last] != 0;
    assert |packed| == |was|;
    forall i | 0 <= i < |was|
      ensures packed[i] == was[i]
    {
      var x := slot + i;
      assert c[x] == t[x - s] as int == b[x] && b[x] == was[x - slot] as int;
    }
  }

  lemma SameEnd(b: seq<byte>, slot: nat, m: nat, s: nat, n: nat)
    requires s < slot <= s + n <= |b| && slot + m < |b| && 0 < m
    requires (forall x :: slot <= x < slot + m ==> b[x] != 0) && b[slot + m] == 0
    requires (forall x :: s <= x < s + n ==> b[x] != 0) && (s + n < |b| ==> b[s + n] == 0)
    ensures s + n == slot + m
  {
  }

  lemma EmptyHolds(c: seq<byte>, slot: nat, packed: string, was: string)
    requires Narrow(packed) && Holds(c, slot, |was|, packed) && packed != was
    ensures was != ""
  {
  }

  /** So exactly these strings are the same. */
  lemma StringSurvivesIff(b: seq<byte>, c: seq<byte>, slot: nat, packed: string, s: nat)
    requires var room := |CStringAt(b, slot)|;
             Narrow(packed) && Holds(c, slot, room, packed) && ChangedInSlot(b, c, slot, room, s)
    requires packed != CStringAt(b, slot)
    ensures CStringAt(c, s) == CStringAt(b, s) <==> Survives(b, slot, packed, s)
  {
    hide CStringAt, Holds;
    var was := CStringAt(b, slot);
    if s + |CStringAt(b, s)| < slot || slot + |was| <= s {
      OutsideSurvives(b, c, slot, packed, s);
    } else if slot <= s {
      TailSurvivesIff(b, c, slot, packed, s);
    } else if CStringAt(c, s) == CStringAt(b, s) {
      EmptyHolds(c, slot, packed, was);
      HeadTells(b, c, slot, packed, s);
    }
  }

  // ---------------------------------------------------------------- what is read again

  function Read(b: seq<byte>, l: Layout): Dynamic { ReadFrom(b, l.dynamic, l.dynstr, l.verneed) }

  /** Where the string of the i-th library is. */
  function StringOf(b: seq<byte>, dyn: Dynamic, i: nat): nat
    requires i < |dyn.needed|
  {
    (dyn.dynstr + Number(WordAt(b, dyn.needed[i].valOffset, 8))) % U64
  }

  /** What a linker guarantees: whole entries, and RUNPATH, the strings of the libraries, the dynamic section and the
      version needs apart from each other, but for strings that share their bytes. */
  ghost predicate Linked(b: seq<byte>, l: Layout) {
    var dyn := Read(b, l);
    && |b| < U64 && l.dynamic.size % 16 == 0
    && (dyn.runpath.Some? ==> SlotOk(b, l, dyn.runpath.value, |CStringAt(b, dyn.runpath.value)|))
    && forall i :: 0 <= i < |dyn.needed| ==> StringOk(b, l, StringOf(b, dyn, i))
  }

  ghost predicate SlotOk(b: seq<byte>, l: Layout, slot: nat, room: nat) {
    ChainOk(b, l.dynamic, l.verneed, slot, room) && Apart(slot, room + 1, l.dynamic.offset, l.dynamic.size)
  }

  ghost predicate StringOk(b: seq<byte>, l: Layout, s: nat) {
    var n := |CStringAt(b, s)| + 1;
    && Apart(s, n, l.dynamic.offset, l.dynamic.size)
    && forall x :: x in Chain(b, l.verneed) ==> Apart(s, n, x, 16)
  }

  /** The words of the libraries that were read are in the dynamic section and the version needs. */
  lemma WordsAreOff(b: seq<byte>, l: Layout, i: nat, x: int)
    requires l.dynamic.size % 16 == 0 && i < |ReadFrom(b, l.dynamic, l.dynstr, l.verneed).needed|
    requires !(l.dynamic.offset <= x < l.dynamic.offset + l.dynamic.size)
    requires forall y :: y in Chain(b, l.verneed) ==> !(y <= x < y + 16)
    ensures OffLib(ReadFrom(b, l.dynamic, l.dynstr, l.verneed).needed[i], x)
  {
    hide ReadFrom, Chain, VnFile;
    var lib := ReadFrom(b, l.dynamic, l.dynstr, l.verneed).needed[i];
    LibraryFacts(b, l.dynamic, l.dynstr, l.verneed, i);
    forall k | 0 <= k < |lib.vnFiles|
      ensures !Touches(lib.vnFiles[k], 4, x)
    {
      assert lib.vnFiles[k] in lib.vnFiles;
      assert lib.vnFiles[k] - 4 in Chain(b, l.verneed);
    }
  }

  lemma {:induction false} DirectIncreases(has: Has, dirs: seq<Dir>, needed: seq<string>)
    ensures forall i, j :: 0 <= i < j < |Direct(has, dirs, needed)| ==>
              Direct(has, dirs, needed)[i] < Direct(has, dirs, needed)[j]
    decreases |needed|
  {
    hide IsDirect;
    if needed != [] { DirectIncreases(has, dirs, needed[..|needed| - 1]); }
  }

  /** The libraries chosen from those that were read do not get in each other's way. */
  lemma ChosenIsLaidOut(b: seq<byte>, l: Layout, slot: nat, room: nat, has: Has, dirs: seq<Dir>)
    requires l.dynamic.size % 16 == 0 && SlotOk(b, l, slot, room)
    ensures LaidOut(|b|, Chosen(has, dirs, ReadFrom(b, l.dynamic, l.dynstr, l.verneed).needed, room), slot, room)
  {
    hide ReadFrom, ChainOk, Direct, Fits, Alone, Friends;
    var libs := ReadFrom(b, l.dynamic, l.dynstr, l.verneed).needed;
    DirectIncreases(has, dirs, Names(libs));
    ReadIsLaidOut(b, l.dynamic, l.dynstr, l.verneed, slot, room, Direct(has, dirs, Names(libs)));
  }

  lemma {:induction false} SameEntries(b: seq<byte>, c: seq<byte>, off: nat, end: nat)
    requires |b| == |c|
    requires forall e :: off <= e < end && (e - off) % 16 == 0 && Room(b, e, 16) ==> Tag(c, e) == Tag(b, e)
    ensures EntriesFrom(c, off, end) == EntriesFrom(b, off, end)
    decreases |b| - off
  {
    hide Tag;
    assert (off - off) % 16 == 0;
    if off < end && Room(b, off, 16) && Tag(b, off) != 0 {
      forall e | off + 16 <= e < end && (e - (off + 16)) % 16 == 0 && Room(b, e, 16)
        ensures Tag(c, e) == Tag(b, e)
      {
        assert (e - off) % 16 == 0;
      }
      SameEntries(b, c, off + 16, end);
    }
  }

  lemma {:induction false} SameTagged(b: seq<byte>, c: seq<byte>, entries: seq<nat>, tag: nat)
    requires forall e :: e in entries ==> Tag(c, e) == Tag(b, e)
    ensures Tagged(c, entries, tag) == Tagged(b, entries, tag) && LastPath(c, entries) == LastPath(b, entries)
    decreases |entries|
  {
    hide Tag;
    if entries != [] { SameTagged(b, c, entries[..|entries| - 1], tag); }
  }

  lemma {:induction false} LastPathIs(b: seq<byte>, entries: seq<nat>)
    ensures LastPath(b, entries).Some? ==>
              var e := LastPath(b, entries).value; e in entries && Tag(b, e) in [DT_RUNPATH, DT_RPATH]
    decreases |entries|
  {
    hide Tag;
    if entries != [] { LastPathIs(b, entries[..|entries| - 1]); }
  }

  /** c is what rewriting RUNPATH made of b. */
  ghost predicate Step(b: seq<byte>, c: seq<byte>, l: Layout, has: Has, dirs: seq<Dir>) {
    && Linked(b, l) && Read(b, l).runpath.Some?
    && Rewritten(b, c, Read(b, l), Read(b, l).runpath.value, has, dirs)
  }

  function SlotSize(b: seq<byte>, l: Layout): nat
    requires Read(b, l).runpath.Some?
  {
    |CStringAt(b, Read(b, l).runpath.value)|
  }

  lemma ChosenOne(has: Has, dirs: seq<Dir>, libs: seq<Needed>, room: nat, k: nat)
    requires k < |Chosen(has, dirs, libs, room)|
    ensures var direct := Direct(has, dirs, Names(libs));
            && Fits(has, dirs, Names(libs), room) && k < |direct| && direct[k] < |libs|
            && Chosen(has, dirs, libs, room)[k] == libs[direct[k]]
  {
  }

  lemma LibraryOnGrid(b: seq<byte>, l: Layout, i: nat)
    requires i < |Read(b, l).needed|
    ensures var e := Read(b, l).needed[i].valOffset - 8;
            && e in EntriesFrom(b, l.dynamic.offset, SectionEnd(b, l.dynamic)) && Tag(b, e) == DT_NEEDED
            && (e - l.dynamic.offset) % 16 == 0
  {
    var entries := EntriesFrom(b, l.dynamic.offset, SectionEnd(b, l.dynamic));
    hide EntriesFrom, Tag, Val, ElfDynamic.Named, Naming;
    TaggedAre(b, entries, DT_NEEDED);
    EntriesOnGrid(b, l.dynamic.offset, SectionEnd(b, l.dynamic), Tagged(b, entries, DT_NEEDED)[i]);
  }

  lemma {:induction false} TaggedAre(b: seq<byte>, entries: seq<nat>, tag: nat)
    ensures forall e :: e in Tagged(b, entries, tag) ==> e in entries && Tag(b, e) == tag
    decreases |entries|
  {
    hide Tag;
    if entries != [] { TaggedAre(b, entries[..|entries| - 1], tag); }
  }

  /** Off the slot, the dynamic section and the version needs nothing changes. */
  lemma FarIsKept(b: seq<byte>, c: seq<byte>, l: Layout, has: Has, dirs: seq<Dir>, x: int)
    requires Step(b, c, l, has, dirs) && 0 <= x < |b|
    requires var slot := Read(b, l).runpath.value; !(slot <= x < slot + SlotSize(b, l) + 1)
    requires !(l.dynamic.offset <= x < l.dynamic.offset + l.dynamic.size)
    requires forall y :: y in Chain(b, l.verneed) ==> !(y <= x < y + 16)
    ensures c[x] == b[x]
  {
    hide ReadFrom, OffLib, Chain, LeadsTo, NewSlot, NewRunpath, NewTexts, Holds, StringOk, SlotOk;
    var libs, room := Read(b, l).needed, SlotSize(b, l);
    forall k | 0 <= k < |Chosen(has, dirs, libs, room)|
      ensures OffLib(Chosen(has, dirs, libs, room)[k], x)
    {
      ChosenOne(has, dirs, libs, room, k);
      WordsAreOff(b, l, Direct(has, dirs, Names(libs))[k], x);
    }
  }

  /** In the dynamic section only the values of chosen libraries change. */
  lemma SectionIsKept(b: seq<byte>, c: seq<byte>, l: Layout, has: Has, dirs: seq<Dir>, x: int)
    requires Step(b, c, l, has, dirs) && 0 <= x < |b|
    requires l.dynamic.offset <= x < l.dynamic.offset + l.dynamic.size
    requires var libs := Chosen(has, dirs, Read(b, l).needed, SlotSize(b, l));
             forall k :: 0 <= k < |libs| ==> !Touches(libs[k].valOffset, 8, x)
    ensures c[x] == b[x]
  {
    hide ReadFrom, Chain, LeadsTo, NewSlot, NewRunpath, NewTexts, Holds, StringOk;
    var libs, room := Read(b, l).needed, SlotSize(b, l);
    var chosen := Chosen(has, dirs, libs, room);
    forall k | 0 <= k < |chosen|
      ensures OffLib(chosen[k], x)
    {
      ChosenOne(has, dirs, libs, room, k);
      LibraryFacts(b, l.dynamic, l.dynstr, l.verneed, Direct(has, dirs, Names(libs))[k]);
      forall j | 0 <= j < |chosen[k].vnFiles|
        ensures !Touches(chosen[k].vnFiles[j], 4, x)
      {
        assert chosen[k].vnFiles[j] in chosen[k].vnFiles;
        assert chosen[k].vnFiles[j] - 4 in Chain(b, l.verneed);
      }
    }
    hide Chosen;
    assert OffAll(chosen, x);
  }

  /** Two entries of one section are the same or do not overlap. */
  lemma GridApart(o: nat, d: nat, e: nat)
    requires o <= d && o <= e && (d - o) % 16 == 0 && (e - o) % 16 == 0 && d != e
    ensures d + 16 <= e || e + 16 <= d
  {
  }

  /** No value of a chosen library is in a tag, nor in the value of an entry that is not a NEEDED. */
  lemma ValuesAreOff(b: seq<byte>, l: Layout, has: Has, dirs: seq<Dir>, room: nat, e: nat, x: nat)
    requires l.dynamic.offset <= e && (e - l.dynamic.offset) % 16 == 0
    requires e <= x < e + 8 || (e + 8 <= x < e + 16 && Tag(b, e) != DT_NEEDED)
    ensures var libs := Chosen(has, dirs, Read(b, l).needed, room);
            forall k :: 0 <= k < |libs| ==> !Touches(libs[k].valOffset, 8, x)
  {
    hide Tag, EntriesFrom, Read, Chosen, Direct;
    var libs := Read(b, l).needed;
    forall k | 0 <= k < |Chosen(has, dirs, libs, room)|
      ensures !Touches(Chosen(has, dirs, libs, room)[k].valOffset, 8, x)
    {
      ChosenOne(has, dirs, libs, room, k);
      var i := Direct(has, dirs, Names(libs))[k];
      LibraryOnGrid(b, l, i);
      ValIsInside(b, l, i);
      if libs[i].valOffset - 8 != e { GridApart(l.dynamic.offset, libs[i].valOffset - 8, e); }
    }
  }

  lemma StepFacts(b: seq<byte>, c: seq<byte>, l: Layout, has: Has, dirs: seq<Dir>)
    requires Step(b, c, l, has, dirs)
    ensures |c| == |b| && l.dynamic.size % 16 == 0 && Read(b, l).runpath.Some?
  {
  }

  lemma TagIsKept(b: seq<byte>, c: seq<byte>, l: Layout, has: Has, dirs: seq<Dir>, e: nat)
    requires Step(b, c, l, has, dirs) && Room(b, e, 16)
    requires l.dynamic.offset <= e < l.dynamic.offset + l.dynamic.size && (e - l.dynamic.offset) % 16 == 0
    ensures Tag(c, e) == Tag(b, e)
    ensures Tag(b, e) != DT_NEEDED ==> Val(c, e) == Val(b, e)
  {
    hide Step, Read, Chosen, WordAt, Number, Touches;
    StepFacts(b, c, l, has, dirs);
    GridEnds(l.dynamic.offset, l.dynamic.size, e);
    forall x | e <= x < e + 8 || (e + 8 <= x < e + 16 && Tag(b, e) != DT_NEEDED)
      ensures b[x] == c[x]
    {
      ValuesAreOff(b, l, has, dirs, SlotSize(b, l), e, x);
      SectionIsKept(b, c, l, has, dirs, x);
    }
    WordSame(b, c, e, 8);
    if Tag(b, e) != DT_NEEDED { WordSame(b, c, e + 8, 8); }
  }

  lemma WordSame(b: seq<byte>, c: seq<byte>, at: nat, width: nat)
    requires |b| == |c| && forall x :: at <= x < at + width && x < |b| ==> b[x] == c[x]
    ensures WordAt(b, at, width) == WordAt(c, at, width)
  {
    WordKept(b, c, at, width);
  }

  lemma ValIsInside(b: seq<byte>, l: Layout, i: nat)
    requires i < |Read(b, l).needed|
    ensures Read(b, l).needed[i].valOffset >= l.dynamic.offset + 8
  {
    LibraryOnGrid(b, l, i);
    EntriesInside(b, l.dynamic.offset, SectionEnd(b, l.dynamic));
  }

  lemma GridEnds(o: nat, size: nat, e: nat)
    requires size % 16 == 0 && o <= e < o + size && (e - o) % 16 == 0
    ensures e + 16 <= o + size
  {
  }

  /** The entries and RUNPATH's place are what they were. */
  lemma EntriesAreKept(b: seq<byte>, c: seq<byte>, l: Layout, has: Has, dirs: seq<Dir>)
    requires Step(b, c, l, has, dirs)
    ensures var entries := EntriesFrom(b, l.dynamic.offset, SectionEnd(b, l.dynamic));
            && EntriesFrom(c, l.dynamic.offset, SectionEnd(c, l.dynamic)) == entries
            && Tagged(c, entries, DT_NEEDED) == Tagged(b, entries, DT_NEEDED)
            && PathAt(c, l.dynstr, entries) == PathAt(b, l.dynstr, entries)
  {
    hide Step, Tag, Val, Read, EntriesFrom, Tagged, LastPath;
    StepFacts(b, c, l, has, dirs);
    var off, end := l.dynamic.offset, SectionEnd(b, l.dynamic);
    var entries := EntriesFrom(b, off, end);
    forall e | off <= e < end && (e - off) % 16 == 0 && Room(b, e, 16)
      ensures Tag(c, e) == Tag(b, e)
    {
      TagIsKept(b, c, l, has, dirs, e);
    }
    SameEntries(b, c, off, end);
    forall e | e in entries
      ensures Tag(c, e) == Tag(b, e) && (Tag(b, e) != DT_NEEDED ==> Val(c, e) == Val(b, e))
    {
      EntryEnds(b, l.dynamic, e);
      EntriesOnGrid(b, off, end, e);
      TagIsKept(b, c, l, has, dirs, e);
    }
    SameTagged(b, c, entries, DT_NEEDED);
    LastPathIs(b, entries);
  }

  lemma ReadAgain(b: seq<byte>, c: seq<byte>, l: Layout, has: Has, dirs: seq<Dir>)
    requires Step(b, c, l, has, dirs)
    ensures var old_, new_ := Read(b, l), Read(c, l);
            && |new_.needed| == |old_.needed| && new_.runpath == old_.runpath && new_.dynstr == old_.dynstr
            && forall i :: 0 <= i < |old_.needed| ==>
                 && new_.needed[i].valOffset == old_.needed[i].valOffset
                 && new_.needed[i].name == CStringAt(c, StringOf(c, old_, i))
                 && old_.needed[i].name == CStringAt(b, StringOf(b, old_, i))
  {
    hide Step, Tag, EntriesFrom, Tagged, LastPath, Chain, Naming, PathAt, CStringAt, WordAt, Number, SectionEnd;
    EntriesAreKept(b, c, l, has, dirs);
  }

  /** The i-th library gets a path of its own. */
  predicate GetsPath(b: seq<byte>, l: Layout, has: Has, dirs: seq<Dir>, i: nat)
    requires Read(b, l).runpath.Some? && i < |Read(b, l).needed|
  {
    var names := Names(Read(b, l).needed);
    Fits(has, dirs, names, SlotSize(b, l)) && IsDirect(has, dirs, names[i])
  }

  lemma ChosenIsRead(b: seq<byte>, c: seq<byte>, l: Layout, has: Has, dirs: seq<Dir>, i: nat)
    requires Step(b, c, l, has, dirs) && i < |Read(b, l).needed| && GetsPath(b, l, has, dirs, i)
    ensures var libs := Read(b, l).needed;
            CStringAt(c, StringOf(c, Read(b, l), i)) == NewName(has, dirs, Names(libs), SlotSize(b, l), libs[i].name)
  {
    hide ReadFrom, Linked, NewSlot, NewRunpath, Holds, CStringAt, WordAt, Number, Fits, Target, IsDirect;
    var dyn, room := Read(b, l), SlotSize(b, l);
    var names := Names(dyn.needed);
    var direct := Direct(has, dirs, names);
    assert i in direct;
    var k :| 0 <= k < |direct| && direct[k] == i;
    var libs, texts := Chosen(has, dirs, dyn.needed, room), NewTexts(has, dirs, names, room);
    assert LeadsTo(c, dyn.dynstr, libs[k].valOffset, 8, texts[k]);
    assert libs[k] == dyn.needed[i] && texts[k] == Target(has, dirs, names[i]);
  }

  lemma ValueIsKept(b: seq<byte>, c: seq<byte>, l: Layout, has: Has, dirs: seq<Dir>, i: nat)
    requires Step(b, c, l, has, dirs) && i < |Read(b, l).needed| && !GetsPath(b, l, has, dirs, i)
    ensures StringOf(c, Read(b, l), i) == StringOf(b, Read(b, l), i)
  {
    hide ReadFrom, Number, WordAt, Step, IsDirect, Fits, Touches;
    StepFacts(b, c, l, has, dirs);
    var libs, room := Read(b, l).needed, SlotSize(b, l);
    var chosen, at := Chosen(has, dirs, libs, room), libs[i].valOffset;
    LibraryFacts(b, l.dynamic, l.dynstr, l.verneed, i);
    forall x | at <= x < at + 8
      ensures b[x] == c[x]
    {
      forall k | 0 <= k < |chosen|
        ensures !Touches(chosen[k].valOffset, 8, x)
      {
        ChosenOne(has, dirs, libs, room, k);
        var j := Direct(has, dirs, Names(libs))[k];
        assert j != i;
        LibrariesInOrder(b, l.dynamic, l.dynstr, l.verneed, if i < j then i else j, if i < j then j else i);
        NotTouched(libs[j].valOffset, at, x);
      }
      SectionIsKept(b, c, l, has, dirs, x);
    }
    WordSame(b, c, at, 8);
  }

  lemma NotTouched(d: nat, e: nat, x: int)
    requires (d + 16 <= e || e + 16 <= d) && e <= x < e + 8
    ensures !Touches(d, 8, x)
  {
  }

  lemma StringChangesInSlot(b: seq<byte>, c: seq<byte>, l: Layout, has: Has, dirs: seq<Dir>, s: nat)
    requires Step(b, c, l, has, dirs) && StringOk(b, l, s)
    ensures ChangedInSlot(b, c, Read(b, l).runpath.value, SlotSize(b, l), s)
  {
    hide Step, ReadFrom, CStringAt, Chain;
    StepFacts(b, c, l, has, dirs);
    forall x | s <= x <= s + |CStringAt(b, s)| && x < |b|
               && !(Read(b, l).runpath.value <= x < Read(b, l).runpath.value + SlotSize(b, l) + 1)
      ensures c[x] == b[x]
    {
      FarIsKept(b, c, l, has, dirs, x);
    }
  }

  /** A string that was not in the way of any word is the same after the step just if it survives the slot. */
  lemma StringIsKeptIff(b: seq<byte>, c: seq<byte>, l: Layout, has: Has, dirs: seq<Dir>, s: nat)
    requires Step(b, c, l, has, dirs) && StringOk(b, l, s)
    ensures var slot := Read(b, l).runpath.value;
            var packed := NewSlot(has, dirs, Names(Read(b, l).needed), SlotSize(b, l));
            CStringAt(c, s) == CStringAt(b, s) <==> packed == CStringAt(b, slot) || Survives(b, slot, packed, s)
  {
    hide ReadFrom, Linked, NewSlot, NewRunpath, NewTexts, Holds, CStringAt, LeadsTo, OffAll, Survives, ChangedInSlot;
    hide Chosen;
    var slot, packed := Read(b, l).runpath.value, NewSlot(has, dirs, Names(Read(b, l).needed), SlotSize(b, l));
    StringChangesInSlot(b, c, l, has, dirs, s);
    if packed != CStringAt(b, slot) {
      StringSurvivesIff(b, c, slot, packed, s);
    }
  }

  /** The i-th library is found again by the name it should have: it has a new one, nothing was rewritten, or its old
      one survives. */
  predicate NameOk(b: seq<byte>, l: Layout, has: Has, dirs: seq<Dir>, i: nat)
    requires Read(b, l).runpath.Some? && i < |Read(b, l).needed|
  {
    var dyn := Read(b, l);
    var slot, packed := dyn.runpath.value, NewSlot(has, dirs, Names(dyn.needed), SlotSize(b, l));
    GetsPath(b, l, has, dirs, i) || packed == CStringAt(b, slot) || Survives(b, slot, packed, StringOf(b, dyn, i))
  }

  /** The names read from the rewritten file are the new ones, exactly for the libraries whose string is not lost with
      the slot. */
  lemma NameIsReadIff(b: seq<byte>, c: seq<byte>, l: Layout, has: Has, dirs: seq<Dir>, i: nat)
    requires Step(b, c, l, has, dirs) && i < |Read(b, l).needed|
    ensures |Read(c, l).needed| == |Read(b, l).needed| && Read(c, l).runpath == Read(b, l).runpath
    ensures Read(c, l).needed[i].name
            == NewName(has, dirs, Names(Read(b, l).needed), SlotSize(b, l), Read(b, l).needed[i].name)
            <==> NameOk(b, l, has, dirs, i)
  {
    var dyn := Read(b, l);
    assert StringOk(b, l, StringOf(b, dyn, i));
    hide ReadFrom, Step, CStringAt, NewSlot, Survives, Fits, IsDirect, StringOf, Target;
    ReadAgain(b, c, l, has, dirs);
    if GetsPath(b, l, has, dirs, i) {
      ChosenIsRead(b, c, l, has, dirs, i);
    } else {
      ValueIsKept(b, c, l, has, dirs, i);
      StringIsKeptIff(b, c, l, has, dirs, StringOf(b, dyn, i));
    }
  }

  // ---------------------------------------------------------------- the version needs

  /** Where the string of a version need is, by its vn_file word. */
  function VersionString(b: seq<byte>, l: Layout, v: nat): nat { (l.dynstr + Number(WordAt(b, v, 4))) % U64 }

  /** The slot is within what 32 bits can say. */
  predicate Near(b: seq<byte>, l: Layout)
    requires Read(b, l).runpath.Some?
  {
    var slot := Read(b, l).runpath.value;
    l.dynstr <= slot && slot + SlotSize(b, l) + 1 - l.dynstr <= U32
  }

  lemma NeedIsOff(b: seq<byte>, l: Layout, slot: nat, room: nat, i: nat, x: nat, y: nat)
    requires l.dynamic.size % 16 == 0 && ChainOk(b, l.dynamic, l.verneed, slot, room) && i < |Read(b, l).needed|
    requires x in Chain(b, l.verneed) && x <= y < x + 16
    requires x + 4 <= y < x + 8 ==> x + 4 !in Read(b, l).needed[i].vnFiles
    ensures OffLib(Read(b, l).needed[i], y)
  {
    hide ReadFrom, Chain, VnFile, ElfDynamic.Named;
    LibraryFacts(b, l.dynamic, l.dynstr, l.verneed, i);
    var lib := Read(b, l).needed[i];
    forall j | 0 <= j < |lib.vnFiles|
      ensures !Touches(lib.vnFiles[j], 4, y)
    {
      var v := lib.vnFiles[j];
      assert v in lib.vnFiles;
      assert v - 4 in Chain(b, l.verneed);
    }
  }

  lemma StepKeeps(b: seq<byte>, c: seq<byte>, l: Layout, has: Has, dirs: seq<Dir>, y: nat)
    requires Step(b, c, l, has, dirs) && y < |b|
    requires OffAll(Chosen(has, dirs, Read(b, l).needed, SlotSize(b, l)), y)
    requires var slot := Read(b, l).runpath.value; !(slot <= y < slot + SlotSize(b, l) + 1)
    ensures c[y] == b[y]
  {
    hide ReadFrom, Chain, LeadsTo, NewSlot, NewRunpath, NewTexts, Holds, StringOk, OffAll, Chosen, CStringAt;
  }

  lemma StepChain(b: seq<byte>, c: seq<byte>, l: Layout, has: Has, dirs: seq<Dir>, x: nat)
    requires Step(b, c, l, has, dirs) && x in Chain(b, l.verneed)
    ensures var slot, room := Read(b, l).runpath.value, SlotSize(b, l);
            ChainOk(b, l.dynamic, l.verneed, slot, room) && x + 16 <= |b| && Apart(slot, room + 1, x, 16)
  {
    hide ReadFrom, Chain, Rewritten, StringOk, CStringAt;
  }

  /** In a version need only the vn_file word of a chosen library changes. */
  lemma NeedIsKept(b: seq<byte>, c: seq<byte>, l: Layout, has: Has, dirs: seq<Dir>, x: nat, at: nat)
    requires Step(b, c, l, has, dirs) && x in Chain(b, l.verneed) && (at == x + 4 || at == x + 12)
    requires var libs := Chosen(has, dirs, Read(b, l).needed, SlotSize(b, l));
             at == x + 4 ==> forall k :: 0 <= k < |libs| ==> x + 4 !in libs[k].vnFiles
    ensures WordAt(c, at, 4) == WordAt(b, at, 4)
  {
    hide Step, Read, Chain, ChainOk, OffLib, WordAt, Chosen, Direct;
    StepFacts(b, c, l, has, dirs);
    StepChain(b, c, l, has, dirs, x);
    var libs, slot, room := Read(b, l).needed, Read(b, l).runpath.value, SlotSize(b, l);
    var chosen := Chosen(has, dirs, libs, room);
    forall y | at <= y < at + 4
      ensures b[y] == c[y]
    {
      forall k | 0 <= k < |chosen|
        ensures OffLib(chosen[k], y)
      {
        ChosenOne(has, dirs, libs, room, k);
        NeedIsOff(b, l, slot, room, Direct(has, dirs, Names(libs))[k], x, y);
      }
      StepKeeps(b, c, l, has, dirs, y);
    }
    WordSame(b, c, at, 4);
  }

  ghost predicate SameNext(b: seq<byte>, c: seq<byte>, xs: seq<nat>) {
    forall x :: x in xs ==> WordAt(c, x + 12, 4) == WordAt(b, x + 12, 4)
  }

  lemma SameNextMore(b: seq<byte>, c: seq<byte>, x: nat, xs: seq<nat>)
    requires SameNext(b, c, [x] + xs)
    ensures SameNext(b, c, xs) && After(c, x) == After(b, x)
  {
    hide WordAt, Number;
    var all := [x] + xs;
    assert all[0] == x && x in all;
    assert WordAt(c, x + 12, 4) == WordAt(b, x + 12, 4);
    forall y | y in xs
      ensures y in all
    {
      var i :| 0 <= i < |xs| && xs[i] == y;
      assert all[i + 1] == y;
    }
  }

  lemma {:induction false} SameChain(b: seq<byte>, c: seq<byte>, off: nat)
    requires |b| == |c| && SameNext(b, c, Chain(b, off))
    ensures Chain(c, off) == Chain(b, off)
    decreases if off == 0 then 0 else if off <= |b| then |b| + 1 - off else 0
  {
    ChainStep(b, off);
    ChainStep(c, off);
    if off != 0 && Room(b, off, 16) {
      assert After(b, off) == 0 || After(b, off) > off;
      hide Chain, SameNext, After;
      SameNextMore(b, c, off, Chain(b, After(b, off)));
      SameChain(b, c, After(b, off));
    }
  }

  lemma ChainIsKept(b: seq<byte>, c: seq<byte>, l: Layout, has: Has, dirs: seq<Dir>)
    requires Step(b, c, l, has, dirs)
    ensures Chain(c, l.verneed) == Chain(b, l.verneed)
  {
    hide Step, Chain, Read, Chosen, WordAt;
    StepFacts(b, c, l, has, dirs);
    assert SameNext(b, c, Chain(b, l.verneed)) by { NextIsKept(b, c, l, has, dirs); }
    SameChain(b, c, l.verneed);
  }

  lemma NextIsKept(b: seq<byte>, c: seq<byte>, l: Layout, has: Has, dirs: seq<Dir>)
    requires Step(b, c, l, has, dirs)
    ensures SameNext(b, c, Chain(b, l.verneed))
  {
    hide Step, Chain, Read, Chosen, WordAt;
    StepFacts(b, c, l, has, dirs);
    forall x | x in Chain(b, l.verneed)
      ensures WordAt(c, x + 12, 4) == WordAt(b, x + 12, 4)
    {
      NeedIsKept(b, c, l, has, dirs, x, x + 12);
    }
  }

  /** A version need of a library that gets no path belongs to none that does. */
  lemma NotChosens(b: seq<byte>, l: Layout, has: Has, dirs: seq<Dir>, i: nat, v: nat, k: nat)
    requires l.dynamic.size % 16 == 0 && Read(b, l).runpath.Some? && i < |Read(b, l).needed|
    requires v in Read(b, l).needed[i].vnFiles && !GetsPath(b, l, has, dirs, i)
    requires k < |Chosen(has, dirs, Read(b, l).needed, SlotSize(b, l))|
    ensures v !in Chosen(has, dirs, Read(b, l).needed, SlotSize(b, l))[k].vnFiles
  {
    hide ReadFrom, Chain, VnFile, Fits, IsDirect;
    var libs := Read(b, l).needed;
    ChosenOne(has, dirs, libs, SlotSize(b, l), k);
    var j := Direct(has, dirs, Names(libs))[k];
    LibraryFacts(b, l.dynamic, l.dynstr, l.verneed, i);
    LibraryFacts(b, l.dynamic, l.dynstr, l.verneed, j);
    assert IsDirect(has, dirs, Names(libs)[j]);
  }

  lemma NoChosens(b: seq<byte>, l: Layout, has: Has, dirs: seq<Dir>, i: nat, v: nat)
    requires l.dynamic.size % 16 == 0 && Read(b, l).runpath.Some? && i < |Read(b, l).needed|
    requires v in Read(b, l).needed[i].vnFiles && !GetsPath(b, l, has, dirs, i)
    ensures var libs := Chosen(has, dirs, Read(b, l).needed, SlotSize(b, l));
            forall k :: 0 <= k < |libs| ==> v !in libs[k].vnFiles
  {
    hide Read, Chosen, GetsPath;
    forall k | 0 <= k < |Chosen(has, dirs, Read(b, l).needed, SlotSize(b, l))|
      ensures v !in Chosen(has, dirs, Read(b, l).needed, SlotSize(b, l))[k].vnFiles
    {
      NotChosens(b, l, has, dirs, i, v, k);
    }
  }

  lemma VersionIsKept(b: seq<byte>, c: seq<byte>, l: Layout, has: Has, dirs: seq<Dir>, i: nat, v: nat)
    requires Read(b, l).runpath.Some? && i < |Read(b, l).needed| && v in Read(b, l).needed[i].vnFiles
    requires !GetsPath(b, l, has, dirs, i) && Step(b, c, l, has, dirs)
    ensures VersionString(c, l, v) == VersionString(b, l, v)
  {
    hide *;
    StepFacts(b, c, l, has, dirs);
    VersionIsThere(b, l, i, v);
    NoChosens(b, l, has, dirs, i, v);
    var x: nat := v - 4;
    assert x + 4 == v;
    NeedIsKept(b, c, l, has, dirs, x, v);
    SameVersion(b, c, l, v);
  }

  lemma SameVersion(b: seq<byte>, c: seq<byte>, l: Layout, v: nat)
    requires WordAt(c, v, 4) == WordAt(b, v, 4)
    ensures VersionString(c, l, v) == VersionString(b, l, v)
  {
    hide Number, WordAt;
  }

  lemma VersionIsThere(b: seq<byte>, l: Layout, i: nat, v: nat)
    requires l.dynamic.size % 16 == 0 && i < |Read(b, l).needed| && v in Read(b, l).needed[i].vnFiles
    ensures v >= 4 && v - 4 in Chain(b, l.verneed)
    ensures CStringAt(b, VersionString(b, l, v)) == Read(b, l).needed[i].name
  {
    hide ReadFrom, Chain, CStringAt, WordAt, Number;
    LibraryFacts(b, l.dynamic, l.dynstr, l.verneed, i);
  }

  lemma ChosenVersionLeads(b: seq<byte>, c: seq<byte>, l: Layout, has: Has, dirs: seq<Dir>, i: nat, v: nat)
    requires Read(b, l).runpath.Some? && i < |Read(b, l).needed| && v in Read(b, l).needed[i].vnFiles
    requires GetsPath(b, l, has, dirs, i) && Near(b, l) && Step(b, c, l, has, dirs)
    ensures var libs := Read(b, l).needed;
            CStringAt(c, VersionString(c, l, v)) == NewName(has, dirs, Names(libs), SlotSize(b, l), libs[i].name)
  {
    hide ReadFrom, Linked, NewSlot, NewRunpath, Holds, CStringAt, WordAt, Number, Fits, Target, IsDirect;
    var dyn, room := Read(b, l), SlotSize(b, l);
    var names := Names(dyn.needed);
    var direct := Direct(has, dirs, names);
    assert i in direct;
    var k :| 0 <= k < |direct| && direct[k] == i;
    var libs, texts := Chosen(has, dirs, dyn.needed, room), NewTexts(has, dirs, names, room);
    assert libs[k] == dyn.needed[i] && texts[k] == Target(has, dirs, names[i]);
    DynstrIs(b, l);
    assert LeadsTo(c, dyn.dynstr, v, 4, texts[k]);
  }

  lemma DynstrIs(b: seq<byte>, l: Layout)
    ensures Read(b, l).dynstr == l.dynstr
  {
  }

  /** The version need's string is not lost with the slot. */
  predicate VersionOk(b: seq<byte>, l: Layout, has: Has, dirs: seq<Dir>, i: nat, v: nat)
    requires Read(b, l).runpath.Some? && i < |Read(b, l).needed|
  {
    var dyn := Read(b, l);
    var slot, packed := dyn.runpath.value, NewSlot(has, dirs, Names(dyn.needed), SlotSize(b, l));
    GetsPath(b, l, has, dirs, i) || packed == CStringAt(b, slot) || Survives(b, slot, packed, VersionString(b, l, v))
  }

  /** Each version need of a library names, read again, the name the library should have, exactly if its string is not
      lost with the slot. */
  lemma VersionIsReadIff(b: seq<byte>, c: seq<byte>, l: Layout, has: Has, dirs: seq<Dir>, i: nat, v: nat)
    requires Read(b, l).runpath.Some? && i < |Read(b, l).needed| && v in Read(b, l).needed[i].vnFiles
    requires StringOk(b, l, VersionString(b, l, v)) && (GetsPath(b, l, has, dirs, i) ==> Near(b, l))
    requires Step(b, c, l, has, dirs)
    ensures var libs := Read(b, l).needed;
            CStringAt(c, VersionString(c, l, v)) == NewName(has, dirs, Names(libs), SlotSize(b, l), libs[i].name)
            <==> VersionOk(b, l, has, dirs, i, v)
  {
    hide ReadFrom, Step, CStringAt, NewSlot, Survives, Fits, IsDirect, VersionString, Target, StringOk;
    StepFacts(b, c, l, has, dirs);
    if GetsPath(b, l, has, dirs, i) {
      ChosenVersionLeads(b, c, l, has, dirs, i, v);
    } else {
      VersionIsThere(b, l, i, v);
      VersionIsKept(b, c, l, has, dirs, i, v);
      StringIsKeptIff(b, c, l, has, dirs, VersionString(b, l, v));
    }
  }

  /** Where neither is lost the version need is read again as that library's: it names what NEEDED names. */
  lemma VersionsReadAgain(b: seq<byte>, c: seq<byte>, l: Layout, has: Has, dirs: seq<Dir>, i: nat, v: nat)
    requires Read(b, l).runpath.Some? && i < |Read(b, l).needed| && v in Read(b, l).needed[i].vnFiles
    requires StringOk(b, l, VersionString(b, l, v)) && (GetsPath(b, l, has, dirs, i) ==> Near(b, l))
    requires NameOk(b, l, has, dirs, i) && Step(b, c, l, has, dirs)
    ensures i < |Read(c, l).needed|
    ensures v in Read(c, l).needed[i].vnFiles <==> VersionOk(b, l, has, dirs, i, v)
  {
    hide Step, CStringAt, VersionString, StringOk, NameOk, VersionOk, NewName, Chain, Read, GetsPath;
    StepFacts(b, c, l, has, dirs);
    NameIsReadIff(b, c, l, has, dirs, i);
    VersionIsReadIff(b, c, l, has, dirs, i, v);
    VersionIsThere(b, l, i, v);
    ChainIsKept(b, c, l, has, dirs);
    NamesIt(c, l, i, v);
  }

  lemma NamesIt(c: seq<byte>, l: Layout, i: nat, v: nat)
    requires i < |Read(c, l).needed| && v >= 4 && v - 4 in Chain(c, l.verneed)
    ensures v in Read(c, l).needed[i].vnFiles <==> CStringAt(c, VersionString(c, l, v)) == Read(c, l).needed[i].name
  {
    hide EntriesFrom, Tagged, Chain, CStringAt, WordAt, Number, Val, Naming, PathAt;
    NamingOnes(c, l.dynstr, Chain(c, l.verneed), Read(c, l).needed[i].name);
  }

  // ---------------------------------------------------------------- the symbols

  /** A symbol's name, kept from beginning inside the RUNPATH string, is the same unless it begins with that string or
      runs into it. */
  lemma SymbolIsKeptIff(b: seq<byte>, c: seq<byte>, l: Layout, has: Has, dirs: seq<Dir>, symbols: seq<nat>, s: nat)
    requires Step(b, c, l, has, dirs) && s in symbols && StringOk(b, l, s)
    requires var slot := Read(b, l).runpath.value; !ElfDynamic.Inside(symbols, slot, slot + SlotSize(b, l))
    ensures var slot, room := Read(b, l).runpath.value, SlotSize(b, l);
            CStringAt(c, s) == CStringAt(b, s) <==>
              || NewSlot(has, dirs, Names(Read(b, l).needed), room) == CStringAt(b, slot)
              || s + |CStringAt(b, s)| < slot || slot + room <= s
  {
    hide ReadFrom, Step, CStringAt, NewSlot;
    StepFacts(b, c, l, has, dirs);
    StringIsKeptIff(b, c, l, has, dirs, s);
    var slot := Read(b, l).runpath.value;
    var packed := NewSlot(has, dirs, Names(Read(b, l).needed), SlotSize(b, l));
    var i :| 0 <= i < |symbols| && symbols[i] == s;
    assert s == slot ==> packed[0..] == packed && CStringAt(b, slot)[0..] == CStringAt(b, slot);
  }

  // ---------------------------------------------------------------- where the libraries load from

  /** A character no spelled entry may have. */
  predicate Bad(c: char) { c == ':' || c == '\0' || c >= 256 as char }

  /** The file is at `here`, the package's own directories are in the tree, and no name has what RUNPATH cannot hold. */
  ghost predicate SiteOk(ctx: Context, here: Path, own: seq<Path>) {
    && PlacesApart(ctx) && Normal(here)
    && (forall c :: Bad(c) ==>
          ContextLacks(ctx, c) && Lacks(here, c) && forall i :: 0 <= i < |own| ==> Lacks(own[i], c))
    && (forall i :: 0 <= i < |own| ==> Normal(own[i]) && Within(own[i], ctx.prefix))
    && (forall i, j :: 0 <= i < j < |own| ==> own[i] != own[j])
  }

  /** What follows "$ORIGIN//" is one place, counted from the root or from the file. */
  predicate Agrees(ctx: Context, here: Path, entry: string) {
    Doubled(entry) ==>
      var way := Split(entry[|ORIGIN| + 1..], '/'); OnDisk(ctx, Walk([], way)) == OnDisk(ctx, Walk(here, way))
  }

  /** The directory the tool takes an entry for is the one the dynamic linker looks in, exactly if it agrees. */
  lemma NamedIsWhere(ctx: Context, here: Path, entry: string)
    requires PlacesApart(ctx) && ContextLacks(ctx, ':') && ':' !in entry && InStore(ctx, here, entry)
    ensures OnDisk(ctx, Runpath.Named(ctx, here, entry)) == Where(ctx, here, entry) <==> Agrees(ctx, here, entry)
  {
    if !Anchored(entry, ORIGIN) {
      SplitLacks(entry, '/', ':');
      WalkLacks([], Split(entry, '/'), ':');
      OnDiskFinal(ctx, Walk([], Split(entry, '/')));
    }
  }

  /** The entries of the old RUNPATH that are in the store. */
  function StoreEntries(ctx: Context, here: Path, entries: seq<string>): seq<string> {
    if entries == [] then [] else
      var n := |entries| - 1;
      StoreEntries(ctx, here, entries[..n])
      + (if InStore(ctx, here, entries[n]) then [entries[n]] else [])
  }

  function DirAt(dirs: seq<Dir>, j: nat): Option<Path> { if j < |dirs| then Some(dirs[j].dir) else None }

  lemma FirstWithMore(has: Has, front: seq<Dir>, rest: seq<Dir>, name: string)
    ensures FirstWith(has, front + rest, name)
            == if FirstWith(has, front, name) < |front| then FirstWith(has, front, name)
               else |front| + FirstWith(has, rest, name)
  {
    var all := front + rest;
    var j, i, k := FirstWith(has, all, name), FirstWith(has, front, name), FirstWith(has, rest, name);
    assert forall x :: 0 <= x < |front| ==> all[x] == front[x];
    assert forall x :: |front| <= x < |all| ==> all[x] == rest[x - |front|];
    if j >= |front| && j < |all| { assert has(rest[j - |front|].dir, name); }
    if k < |rest| { assert all[|front| + k] == rest[k]; }
    if i < |front| { assert all[i] == front[i]; }
  }

  lemma OneDir(has: Has, d: Dir, name: string)
    ensures FirstWith(has, [d], name) == if has(d.dir, name) then 0 else 1
  {
  }

  function With(has: Has, name: string): There { (p: Path) => has(p, name) }

  lemma {:induction false} FirstOfDirs(has: Has, dirs: seq<Dir>, places: seq<Path>, name: string)
    requires |dirs| == |places| && forall i :: 0 <= i < |places| ==> dirs[i].dir == places[i]
    ensures FirstIn(With(has, name), places) == DirAt(dirs, FirstWith(has, dirs, name))
    decreases |places|
  {
    if places != [] { FirstOfDirs(has, dirs[1..], places[1..], name); }
  }

  /** Where the dynamic linker looks for the store's part of RUNPATH ... */
  function Searched(ctx: Context, here: Path, entries: seq<string>): seq<Path> {
    if entries == [] then [] else
      var n := |entries| - 1;
      Searched(ctx, here, entries[..n])
      + (if InStore(ctx, here, entries[n]) then [Where(ctx, here, entries[n])] else [])
  }

  /** ... and what the tool takes that for. */
  function Taken(ctx: Context, here: Path, entries: seq<string>): seq<Path> {
    if entries == [] then [] else
      var n := |entries| - 1;
      Taken(ctx, here, entries[..n])
      + (if InStore(ctx, here, entries[n]) then [OnDisk(ctx, Runpath.Named(ctx, here, entries[n]))] else [])
  }

  lemma {:induction false} SearchIsFirst(ctx: Context, has: Has, here: Path, entries: seq<string>, name: string)
    ensures Search(ctx, has, here, StoreEntries(ctx, here, entries), name)
            == FirstIn(With(has, name), Searched(ctx, here, entries))
    decreases |entries|
  {
    hide Where, InStore;
    if entries != [] {
      var n := |entries| - 1;
      var front, places := StoreEntries(ctx, here, entries[..n]), Searched(ctx, here, entries[..n]);
      SearchIsFirst(ctx, has, here, entries[..n], name);
      if InStore(ctx, here, entries[n]) {
        SearchMore(ctx, has, here, front, entries[n], name);
        FirstInMore(With(has, name), places, [Where(ctx, here, entries[n])]);
      } else {
        assert front + [] == front && places + [] == places;
      }
    }
  }

  lemma {:induction false} ListedIsTaken(ctx: Context, here: Path, entries: seq<string>)
    ensures var dirs, places := Listed(ctx, here, entries), Taken(ctx, here, entries);
            |dirs| == |places| && forall i :: 0 <= i < |places| ==> dirs[i].dir == places[i]
    decreases |entries|
  {
    hide Runpath.Named, InStore, Spelling, OnDisk, Ends;
    if entries != [] { ListedIsTaken(ctx, here, entries[..|entries| - 1]); }
  }

  /** Where a library comes from before: along the store's part of the old RUNPATH, else from the package itself. */
  function Wanted(ctx: Context, has: Has, here: Path, was: string, own: seq<Path>, name: string): Option<Path> {
    var found := Search(ctx, has, here, StoreEntries(ctx, here, Split(was, ':')), name);
    if found.Some? then found else FirstIn(With(has, name), own)
  }

  /** Where the tool finds it. */
  function Picked(ctx: Context, has: Has, here: Path, was: string, own: seq<Path>, name: string): Option<Path> {
    FirstIn(With(has, name), Taken(ctx, here, Split(was, ':')) + own)
  }

  /** That is in the package itself alone, beside a libc. */
  predicate BesideLibc(ctx: Context, has: Has, here: Path, was: string, own: seq<Path>, name: string) {
    && FirstIn(With(has, name), Taken(ctx, here, Split(was, ':'))).None?
    && var d := FirstIn(With(has, name), own); d.Some? && has(d.value, "libc.so.6")
  }

  /** The directories RelativizeRunpath makes of a RUNPATH. */
  function DirsOf(ctx: Context, here: Path, was: string, own: seq<Path>): seq<Dir> {
    Listed(ctx, Final(ctx, here), Split(was, ':')) + Own(ctx, Final(ctx, here), own)
  }

  lemma PickedIsFirst(ctx: Context, has: Has, here: Path, was: string, own: seq<Path>, name: string)
    ensures var place, dirs := Final(ctx, here), DirsOf(ctx, here, was, own);
            var j, listed := FirstWith(has, dirs, name), |Listed(ctx, place, Split(was, ':'))|;
            && Picked(ctx, has, place, was, own, name) == DirAt(dirs, j)
            && (BesideLibc(ctx, has, place, was, own, name) <==> listed <= j < |dirs| && Libc(has, dirs[j]))
  {
    hide Spelling, FirstWith, Final, Listed, Taken, FirstIn;
    var place, entries := Final(ctx, here), Split(was, ':');
    var a, b, places := Listed(ctx, place, entries), Own(ctx, place, own), Taken(ctx, place, entries);
    ListedIsTaken(ctx, place, entries);
    FirstOfDirs(has, a, places, name);
    FirstOfDirs(has, b, own, name);
    FirstWithMore(has, a, b, name);
    FirstInMore(With(has, name), places, own);
    var j := FirstWith(has, b, name);
    assert j < |b| ==> (a + b)[|a| + j] == b[j];
    var i := FirstWith(has, a, name);
    assert i < |a| ==> (a + b)[i] == a[i];
  }

  // ---------------------------------------------------------------- when the tool reads RUNPATH as the dynamic linker

  /** No entry by which the one or the other finds the library is two places. */
  ghost predicate SameFor(ctx: Context, has: Has, here: Path, was: string, name: string) {
    forall e :: e in Split(was, ':') && InStore(ctx, here, e)
                && (has(Where(ctx, here, e), name) || has(OnDisk(ctx, Runpath.Named(ctx, here, e)), name)) ==>
                  Agrees(ctx, here, e)
  }

  lemma {:induction false} SameFirst(ctx: Context, has: Has, here: Path, entries: seq<string>, name: string)
    requires PlacesApart(ctx) && ContextLacks(ctx, ':') && forall i :: 0 <= i < |entries| ==> ':' !in entries[i]
    requires forall e :: e in entries && InStore(ctx, here, e)
                         && (has(Where(ctx, here, e), name) || has(OnDisk(ctx, Runpath.Named(ctx, here, e)), name)) ==>
                           Agrees(ctx, here, e)
    ensures FirstIn(With(has, name), Taken(ctx, here, entries))
            == FirstIn(With(has, name), Searched(ctx, here, entries))
    decreases |entries|
  {
    hide Where, Runpath.Named, InStore, OnDisk, ContextLacks, PlacesApart, Agrees;
    if entries != [] {
      var n := |entries| - 1;
      var e, front := entries[n], entries[..n];
      SameFirst(ctx, has, here, front, name);
      if InStore(ctx, here, e) {
        NamedIsWhere(ctx, here, e);
        FirstInMore(With(has, name), Taken(ctx, here, front), [OnDisk(ctx, Runpath.Named(ctx, here, e))]);
        FirstInMore(With(has, name), Searched(ctx, here, front), [Where(ctx, here, e)]);
        OneIn(With(has, name), OnDisk(ctx, Runpath.Named(ctx, here, e)));
        OneIn(With(has, name), Where(ctx, here, e));
      } else {
        assert Taken(ctx, here, front) + [] == Taken(ctx, here, front);
        assert Searched(ctx, here, front) + [] == Searched(ctx, here, front);
      }
    }
  }

  lemma WantedIsFirst(ctx: Context, has: Has, here: Path, was: string, own: seq<Path>, name: string)
    ensures Wanted(ctx, has, here, was, own, name)
            == FirstIn(With(has, name), Searched(ctx, here, Split(was, ':')) + own)
  {
    hide Search, StoreEntries, Searched, FirstIn, Split;
    SearchIsFirst(ctx, has, here, Split(was, ':'), name);
    FirstInMore(With(has, name), Searched(ctx, here, Split(was, ':')), own);
  }

  /** The tool reads each entry of the store as the dynamic linker does, exactly if all agree. */
  lemma {:induction false} TakenIsSearchedIff(ctx: Context, here: Path, entries: seq<string>)
    requires PlacesApart(ctx) && ContextLacks(ctx, ':') && forall i :: 0 <= i < |entries| ==> ':' !in entries[i]
    ensures |Taken(ctx, here, entries)| == |Searched(ctx, here, entries)|
    ensures Taken(ctx, here, entries) == Searched(ctx, here, entries)
            <==> forall e :: e in entries && InStore(ctx, here, e) ==> Agrees(ctx, here, e)
    decreases |entries|
  {
    hide Where, Runpath.Named, InStore, OnDisk, ContextLacks, PlacesApart, Agrees;
    if entries != [] {
      var n := |entries| - 1;
      var e, front := entries[n], entries[..n];
      TakenIsSearchedIff(ctx, here, front);
      assert entries == front + [e];
      var a, b := Taken(ctx, here, front), Searched(ctx, here, front);
      if InStore(ctx, here, e) {
        NamedIsWhere(ctx, here, e);
        var p, q := OnDisk(ctx, Runpath.Named(ctx, here, e)), Where(ctx, here, e);
        assert a + [p] == b + [q] <==> a == b && p == q by {
          assert (a + [p])[..|a|] == a && (b + [q])[..|b|] == b && (a + [p])[|a|] == p && (b + [q])[|b|] == q;
        }
      } else {
        assert a + [] == a && b + [] == b;
      }
    }
  }

  /** The tool finds a library where the dynamic linker does, on this disk. */
  lemma PickedIsWanted(ctx: Context, has: Has, here: Path, was: string, own: seq<Path>, name: string)
    requires PlacesApart(ctx) && ContextLacks(ctx, ':') && SameFor(ctx, has, here, was, name)
    ensures Picked(ctx, has, here, was, own, name) == Wanted(ctx, has, here, was, own, name)
  {
    hide Searched, Taken, FirstIn, Wanted, Where, Runpath.Named, InStore, OnDisk, ContextLacks, PlacesApart, Agrees;
    var entries := Split(was, ':');
    PartsHaveNone(was, ':');
    SameFirst(ctx, has, here, entries, name);
    WantedIsFirst(ctx, has, here, was, own, name);
    FirstInMore(With(has, name), Searched(ctx, here, entries), own);
    FirstInMore(With(has, name), Taken(ctx, here, entries), own);
  }

  /** The tool finds every library where the dynamic linker does, whatever is on the disk, exactly if both read the same
      directories in the same order. */
  lemma AllPickedIff(ctx: Context, here: Path, was: string, own: seq<Path>)
    ensures (forall has: Has, name: string ::
               Picked(ctx, has, here, was, own, name) == Wanted(ctx, has, here, was, own, name))
            <==> Firsts(Taken(ctx, here, Split(was, ':')) + own) == Firsts(Searched(ctx, here, Split(was, ':')) + own)
  {
    hide Searched, Taken, FirstIn, Firsts, Wanted;
    var a, b := Taken(ctx, here, Split(was, ':')) + own, Searched(ctx, here, Split(was, ':')) + own;
    if Firsts(a) == Firsts(b) {
      forall has: Has, name: string
        ensures Picked(ctx, has, here, was, own, name) == Wanted(ctx, has, here, was, own, name)
      {
        SameLists(With(has, name), a, b);
        WantedIsFirst(ctx, has, here, was, own, name);
      }
    } else {
      var there := OtherLists(a, b);
      var has: Has := (p: Path, name: string) => there(p);
      SameThere(With(has, ""), there, a);
      SameThere(With(has, ""), there, b);
      WantedIsFirst(ctx, has, here, was, own, "");
      assert Picked(ctx, has, here, was, own, "") != Wanted(ctx, has, here, was, own, "");
    }
  }

  // ---------------------------------------------------------------- where the new file's libraries load from

  /** The spelled directories meet what the rewrite asks of them. */
  lemma DirsAreOk(ctx: Context, here: Path, was: string, own: seq<Path>)
    requires SiteOk(ctx, here, own) && Clear(was)
    ensures DirsOk(ctx, Final(ctx, here), DirsOf(ctx, here, was, own), |Listed(ctx, Final(ctx, here), Split(was, ':'))|)
    ensures ClearDirs(DirsOf(ctx, here, was, own))
  {
    assert Bad(':') && Bad('\0');
    SplitLacks(was, ':', '\0');
    RelativizedIsOk(ctx, Split(was, ':'), here, own);
    var dirs := DirsOf(ctx, here, was, own);
    hide DirsOk, Listed, Runpath.Own, Normal, Final;
    forall j | 0 <= j < |dirs|
      ensures Clear(dirs[j].entry)
    {
      var e := dirs[j].entry;
      forall i | 0 <= i < |e|
        ensures e[i] < 256 as char && e[i] != '\0'
      {
        if Bad(e[i]) { EntryLacks(ctx, here, was, own, j, e[i]); }
      }
    }
  }

  lemma EntryLacks(ctx: Context, here: Path, was: string, own: seq<Path>, j: nat, c: char)
    requires SiteOk(ctx, here, own) && Clear(was) && Bad(c) && j < |DirsOf(ctx, here, was, own)|
    ensures c !in DirsOf(ctx, here, was, own)[j].entry
  {
    hide Listed, Runpath.Own, Normal, Final;
    if c == ':' { PartsHaveNone(was, ':'); } else { SplitLacks(was, ':', c); }
    var place := Final(ctx, here);
    MovedLacks(ctx, here, c);
    ListedLacks(ctx, place, Split(was, ':'), c);
    OwnLacks(ctx, place, own, c);
    OwnLength(ctx, place, own);
  }

  lemma OwnLength(ctx: Context, here: Path, own: seq<Path>)
    ensures |Runpath.Own(ctx, here, own)| == |own|
  {
  }

  /** A library no directory has is found by no name afterwards either. */
  lemma MissingStaysMissing(ctx: Context, has: Has, here: Path, dirs: seq<Dir>, listed: nat, needed: seq<string>,
                            room: nat, name: string)
    requires DirsOk(ctx, here, dirs, listed) && '/' !in name && FirstWith(has, dirs, name) == |dirs|
    ensures LoadsFrom(ctx, has, here, NewRunpath(has, dirs, needed, room), NewName(has, dirs, needed, room, name))
            == None
  {
    hide Where, LoadsFrom, Rendered, Target, Packed, Targets, Serves;
    var a, b := Dropped(has, dirs, needed), Restored(has, dirs, needed);
    assert forall j :: 0 <= j < |dirs| ==>
          EntryOk(ctx, here, dirs[j]) && EntryOk(ctx, here, a[j]) && EntryOk(ctx, here, b[j]);
    assert forall j :: 0 <= j < |dirs| ==> a[j].dir == dirs[j].dir && b[j].dir == dirs[j].dir;
    LoadsByName(ctx, has, here, a, name);
    LoadsByName(ctx, has, here, b, name);
  }

  lemma RunpathIsRead(b: seq<byte>, c: seq<byte>, l: Layout, has: Has, dirs: seq<Dir>)
    requires Step(b, c, l, has, dirs)
    ensures CStringAt(c, Read(b, l).runpath.value) == NewRunpath(has, dirs, Names(Read(b, l).needed), SlotSize(b, l))
  {
  }

  /** The directory a library of the file loads from when the file is at `here`. */
  ghost function FileLoads(ctx: Context, has: Has, here: Path, b: seq<byte>, l: Layout, i: nat): Option<Path>
    requires Read(b, l).runpath.Some? && i < |Read(b, l).needed|
  {
    LoadsFrom(ctx, has, here, CStringAt(b, Read(b, l).runpath.value), Read(b, l).needed[i].name)
  }

  /** Where a library found in the package beside a libc loads from instead: without room for paths all directories that
      serve other libraries are on RUNPATH. */
  function Spared(has: Has, dirs: seq<Dir>, needed: seq<string>, room: nat, name: string): Option<Path> {
    if Fits(has, dirs, needed, room) then None else Found(has, Restored(has, dirs, needed), name)
  }

  lemma LibcLoads(ctx: Context, has: Has, here: Path, dirs: seq<Dir>, listed: nat, needed: seq<string>, room: nat,
                  name: string)
    requires DirsOk(ctx, here, dirs, listed) && !Skipped(name)
    requires var j := FirstWith(has, dirs, name); listed <= j < |dirs| && Libc(has, dirs[j])
    ensures LoadsFrom(ctx, has, here, NewRunpath(has, dirs, needed, room), NewName(has, dirs, needed, room, name))
            == Spared(has, dirs, needed, room, name)
  {
    hide Where, LoadsFrom, Rendered, Target, Packed, Targets, Serves, Found;
    if Fits(has, dirs, needed, room) {
      LoadsAfterDrop(ctx, has, here, dirs, listed, needed, name);
    } else {
      var ds := Restored(has, dirs, needed);
      assert forall k :: 0 <= k < |ds| ==> EntryOk(ctx, here, dirs[k]) && EntryOk(ctx, here, ds[k]);
      LoadsByName(ctx, has, here, ds, name);
    }
  }

  /** Library i of the new file loads from where the tool found it, exactly unless that is the package itself beside a
      libc; and from where the old file had it, if what the tool and the dynamic linker found it by is one place. */
  ghost predicate LoadsRight(b: seq<byte>, c: seq<byte>, l: Layout, ctx: Context, has: Has, here: Path, own: seq<Path>,
                             i: nat)
    requires Read(b, l).runpath.Some? && i < |Read(b, l).needed|
    requires Read(c, l).runpath.Some? && i < |Read(c, l).needed|
  {
    var was, name, place := CStringAt(b, Read(b, l).runpath.value), Read(b, l).needed[i].name, Final(ctx, here);
    var dirs, names := DirsOf(ctx, here, was, own), Names(Read(b, l).needed);
    var loads, picked := FileLoads(ctx, has, place, c, l, i), Picked(ctx, has, place, was, own, name);
    var beside := BesideLibc(ctx, has, place, was, own, name);
    && loads == (if beside then Spared(has, dirs, names, SlotSize(b, l), name) else picked)
    && (loads == picked <==> !beside)
    && (SameFor(ctx, has, place, was, name) ==> (loads == Wanted(ctx, has, place, was, own, name) <==> !beside))
  }

  /** Read, relativized, rewritten and read again: so it is with every library whose name is not lost with the slot. */
  lemma FileResolves(b: seq<byte>, c: seq<byte>, l: Layout, ctx: Context, has: Has, here: Path, own: seq<Path>, i: nat)
    requires SiteOk(ctx, here, own) && Read(b, l).runpath.Some?
    requires Step(b, c, l, has, DirsOf(ctx, here, CStringAt(b, Read(b, l).runpath.value), own))
    requires i < |Read(b, l).needed| && !Skipped(Read(b, l).needed[i].name)
    requires NameOk(b, l, has, DirsOf(ctx, here, CStringAt(b, Read(b, l).runpath.value), own), i)
    ensures Read(c, l).runpath.Some? && i < |Read(c, l).needed| && LoadsRight(b, c, l, ctx, has, here, own, i)
  {
    assert Bad(':');
    hide ReadFrom, Step, CStringAt, NameOk, LoadsFrom, NewRunpath, NewName, Final, Listed, Normal, Lacks, Wanted;
    hide BesideLibc, Picked, SameFor, Spared;
    hide FirstWith, DirsOk, ClearDirs, ContextLacks;
    var dyn, place, room := Read(b, l), Final(ctx, here), SlotSize(b, l);
    var was, name, names := CStringAt(b, dyn.runpath.value), dyn.needed[i].name, Names(dyn.needed);
    var dirs, listed := DirsOf(ctx, here, was, own), |Listed(ctx, place, Split(was, ':'))|;
    NameIsReadIff(b, c, l, has, dirs, i);
    RunpathIsRead(b, c, l, has, dirs);
    CStringHasNoNul(b, dyn.runpath.value);
    DirsAreOk(ctx, here, was, own);
    PickedIsFirst(ctx, has, here, was, own, name);
    if SameFor(ctx, has, place, was, name) { PickedIsWanted(ctx, has, place, was, own, name); }
    assert names[i] == name;
    hide DirsOf, SiteOk;
    if FirstWith(has, dirs, name) < |dirs| {
      ResolutionIsPreserved(ctx, has, place, dirs, listed, names, room, name);
      if BesideLibc(ctx, has, place, was, own, name) {
        LibcLoads(ctx, has, place, dirs, listed, names, room, name);
      }
    } else {
      FirstWithBound(has, dirs, name);
      MissingStaysMissing(ctx, has, place, dirs, listed, names, room, name);
    }
  }

  lemma FirstWithBound(has: Has, dirs: seq<Dir>, name: string)
    ensures FirstWith(has, dirs, name) <= |dirs|
  {
  }

  lemma {:induction false} StoreSearch(ctx: Context, has: Has, here: Path, entries: seq<string>, name: string)
    requires forall e :: e in entries ==> InStore(ctx, here, e) || !has(Where(ctx, here, e), name)
    ensures Search(ctx, has, here, StoreEntries(ctx, here, entries), name) == Search(ctx, has, here, entries, name)
    decreases |entries|
  {
    hide Where, Runpath.Named, InStore;
    if entries != [] {
      var n := |entries| - 1;
      StoreSearch(ctx, has, here, entries[..n], name);
      SearchMore(ctx, has, here, entries[..n], entries[n], name);
      assert entries == entries[..n] + [entries[n]];
      if InStore(ctx, here, entries[n]) {
        SearchMore(ctx, has, here, StoreEntries(ctx, here, entries[..n]), entries[n], name);
      } else {
        assert StoreEntries(ctx, here, entries[..n]) + [] == StoreEntries(ctx, here, entries[..n]);
      }
    }
  }

  /** No directory outside the store has it. */
  ghost predicate OnlyInStore(ctx: Context, has: Has, here: Path, was: string, name: string) {
    forall e :: e in Split(was, ':') ==> InStore(ctx, here, e) || !has(Where(ctx, here, e), name)
  }

  lemma OldIsWanted(ctx: Context, has: Has, here: Path, was: string, own: seq<Path>, name: string)
    requires OnlyInStore(ctx, has, here, was, name) && '/' !in name && LoadsFrom(ctx, has, here, was, name).Some?
    ensures Wanted(ctx, has, here, was, own, name) == LoadsFrom(ctx, has, here, was, name)
    ensures FirstIn(With(has, name), Searched(ctx, here, Split(was, ':'))).Some?
  {
    hide Search, StoreEntries, Where, InStore, Searched, FirstIn;
    StoreSearch(ctx, has, here, Split(was, ':'), name);
    SearchNothing(ctx, has, here, name);
    SearchIsFirst(ctx, has, here, Split(was, ':'), name);
  }

  /** The new file finds a library where the old one did, exactly if the tool did too; so it is if the old file found
      it, no directory outside the store has it and what it was found by is one place. */
  lemma SameAsBefore(b: seq<byte>, c: seq<byte>, l: Layout, ctx: Context, has: Has, here: Path, own: seq<Path>, i: nat)
    requires SiteOk(ctx, here, own) && Read(b, l).runpath.Some?
    requires Step(b, c, l, has, DirsOf(ctx, here, CStringAt(b, Read(b, l).runpath.value), own))
    requires i < |Read(b, l).needed| && !Skipped(Read(b, l).needed[i].name)
    requires NameOk(b, l, has, DirsOf(ctx, here, CStringAt(b, Read(b, l).runpath.value), own), i)
    ensures Read(c, l).runpath.Some? && i < |Read(c, l).needed|
    ensures var was, name, place := CStringAt(b, Read(b, l).runpath.value), Read(b, l).needed[i].name, Final(ctx, here);
            var before, after := FileLoads(ctx, has, place, b, l, i), FileLoads(ctx, has, place, c, l, i);
            && (!BesideLibc(ctx, has, place, was, own, name) ==>
                  (after == before <==> Picked(ctx, has, place, was, own, name) == before))
            && (before.Some? && OnlyInStore(ctx, has, place, was, name) && SameFor(ctx, has, place, was, name) ==>
                  after == before)
  {
    hide ReadFrom, Step, CStringAt, NameOk, Final, LoadsFrom, Wanted, Picked, BesideLibc, SameFor, OnlyInStore, Spared;
    var place, was, name := Final(ctx, here), CStringAt(b, Read(b, l).runpath.value), Read(b, l).needed[i].name;
    FileResolves(b, c, l, ctx, has, here, own, i);
    if FileLoads(ctx, has, place, b, l, i).Some? && OnlyInStore(ctx, has, place, was, name)
       && SameFor(ctx, has, place, was, name) {
      OldIsWanted(ctx, has, place, was, own, name);
      assert Bad(':');
      hide SiteOk;
      NotBeside(ctx, has, place, was, own, name);
    }
  }

  lemma NotBeside(ctx: Context, has: Has, here: Path, was: string, own: seq<Path>, name: string)
    requires PlacesApart(ctx) && ContextLacks(ctx, ':') && SameFor(ctx, has, here, was, name)
    requires FirstIn(With(has, name), Searched(ctx, here, Split(was, ':'))).Some?
    ensures !BesideLibc(ctx, has, here, was, own, name)
  {
    hide Searched, Taken, FirstIn, Where, Runpath.Named, InStore, OnDisk, ContextLacks, PlacesApart, Agrees;
    PartsHaveNone(was, ':');
    SameFirst(ctx, has, here, Split(was, ':'), name);
  }

  lemma SearchNothing(ctx: Context, has: Has, here: Path, name: string)
    ensures Search(ctx, has, here, [], name) == None
  {
  }

  // ---------------------------------------------------------------- the whole step on a file

  /** Every library that keeps or gets its name loads as it should. */
  ghost predicate AllLoad(b: seq<byte>, c: seq<byte>, l: Layout, ctx: Context, has: Has, here: Path, own: seq<Path>)
    requires Read(b, l).runpath.Some?
  {
    var dirs := DirsOf(ctx, here, CStringAt(b, Read(b, l).runpath.value), own);
    && Read(c, l).runpath == Read(b, l).runpath && |Read(c, l).needed| == |Read(b, l).needed|
    && forall i :: 0 <= i < |Read(b, l).needed| ==>
         var name := Read(b, l).needed[i].name;
         && (Read(c, l).needed[i].name == NewName(has, dirs, Names(Read(b, l).needed), SlotSize(b, l), name)
             <==> NameOk(b, l, has, dirs, i))
         && (NameOk(b, l, has, dirs, i) && !Skipped(name) ==> LoadsRight(b, c, l, ctx, has, here, own, i))
  }

  lemma StepLoads(b: seq<byte>, c: seq<byte>, l: Layout, ctx: Context, has: Has, here: Path, own: seq<Path>)
    requires SiteOk(ctx, here, own) && Read(b, l).runpath.Some?
    requires Step(b, c, l, has, DirsOf(ctx, here, CStringAt(b, Read(b, l).runpath.value), own))
    ensures AllLoad(b, c, l, ctx, has, here, own)
  {
    hide ReadFrom, Step, CStringAt, NameOk, Final, SiteOk, NewName, DirsOf, LoadsRight;
    var dirs := DirsOf(ctx, here, CStringAt(b, Read(b, l).runpath.value), own);
    ReadAgain(b, c, l, has, dirs);
    forall i | 0 <= i < |Read(b, l).needed|
      ensures var name := Read(b, l).needed[i].name;
              && (Read(c, l).needed[i].name == NewName(has, dirs, Names(Read(b, l).needed), SlotSize(b, l), name)
                  <==> NameOk(b, l, has, dirs, i))
              && (NameOk(b, l, has, dirs, i) && !Skipped(name) ==> LoadsRight(b, c, l, ctx, has, here, own, i))
    {
      NameIsReadIff(b, c, l, has, dirs, i);
      if NameOk(b, l, has, dirs, i) && !Skipped(Read(b, l).needed[i].name) {
        FileResolves(b, c, l, ctx, has, here, own, i);
      }
    }
  }

  lemma NamesAreClear(b: seq<byte>, l: Layout)
    ensures ClearNames(Names(Read(b, l).needed))
  {
    hide EntriesFrom, Tagged, Naming, Chain, PathAt, CStringAt, Val;
    var names := Names(Read(b, l).needed);
    forall i | 0 <= i < |names|
      ensures Clear(names[i])
    {
      var offs := Tagged(b, EntriesFrom(b, l.dynamic.offset, SectionEnd(b, l.dynamic)), DT_NEEDED);
      CStringHasNoNul(b, (l.dynstr + Val(b, offs[i])) % U64);
    }
  }

  /** The file at `here` with these sections, in place. */
  method FixRunpath(image: Image, ctx: Context, has: Has, sections: seq<Section>, here: Path, own: seq<Path>)
    returns (ok: bool, dirty: bool, missing: seq<nat>)
    requires SiteOk(ctx, here, own) && (LayoutOf(sections).Some? ==> Linked(image.bytes, LayoutOf(sections).value))
    modifies image
    ensures !ok || !dirty ==> image.bytes == old(image.bytes)
    ensures LayoutOf(sections).None? || Read(old(image.bytes), LayoutOf(sections).value).runpath.None? ==>
              ok && !dirty && missing == []
    ensures LayoutOf(sections).Some? && Read(old(image.bytes), LayoutOf(sections).value).runpath.Some? ==>
              var b, l := old(image.bytes), LayoutOf(sections).value;
              var slot, names := Read(b, l).runpath.value, Names(Read(b, l).needed);
              var dirs := DirsOf(ctx, here, CStringAt(b, slot), own);
              var packed := NewSlot(has, dirs, names, SlotSize(b, l));
              && ok == Rewritable(b, slot, packed, ElfDynamic.Inside(Symbols(b, sections), slot, slot + SlotSize(b, l)))
              && dirty == (ok && packed != CStringAt(b, slot))
              && (ok ==> Step(b, image.bytes, l, has, dirs) && AllLoad(b, image.bytes, l, ctx, has, here, own))
              && forall i :: 0 <= i < |names| ==> (i in missing <==> IsMissing(has, dirs, names[i]))
  {
    hide ReadFrom, CStringAt, Rewritten, AllLoad, NewSlot, Rewritable, SiteOk, IsMissing, Symbols, Chosen, LaidOut;
    var dyn := ReadDynamic(image, sections);
    if dyn.runpath.None? {
      return true, false, [];
    }
    ghost var b, l := image.bytes, LayoutOf(sections).value;
    var slot := dyn.runpath.value;
    var was := image.CString(slot);
    var dirs := RelativizeRunpath(ctx, Split(was, ':'), here, own);
    CStringHasNoNul(b, slot);
    DirsAreOk(ctx, here, was, own);
    NamesAreClear(b, l);
    ChosenIsLaidOut(b, l, slot, |was|, has, dirs);
    var inside := SymbolInside(image, sections, slot, slot + |was|);
    ok, dirty, missing := Rewrite(image, dyn, has, dirs, inside);
    if ok {
      StepLoads(b, image.bytes, l, ctx, has, here, own);
    }
  }
}
