/** Files that are rewritten without complaint and no longer load as they did. */
module ElfFails {
  import opened Bytes
  import opened Text
  import opened Paths
  import opened Relocation
  import opened Runpath
  import opened BinaryImage
  import opened ElfFixup
  import opened ElfDynamic
  import opened ElfResolution

  const WAS: string := "/nix/store/g:/t/m"
  const NOW: string := "$ORIGIN/../g"

  const SLOT: nat := 49

  /** A NEEDED "m", a RUNPATH, the end mark; then the string table, with RUNPATH in it, and more. */
  function File(k: nat, more: seq<byte>): seq<byte> {
    Words([DT_NEEDED, k, DT_RUNPATH, 1, 0, 0]) + ([0] + Texts() + ([0] + more))
  }

  /** "m" is the last character of RUNPATH. */
  function Merged(): seq<byte> { File(17, []) }

  /** "m" stands by itself, and behind it a symbol whose name is the RUNPATH string. */
  function Shared(): seq<byte> { File(19, SharedTail()) }

  function SharedTail(): seq<byte> { ['m' as int as byte, 0] + (LittleEndian(1, 4) + Zeros(20)) }

  ghost predicate Known(k: nat, more: seq<byte>) { (k == 17 && more == []) || (k == 19 && more == SharedTail()) }

  function Words(ns: seq<nat>): (r: seq<byte>)
    ensures |r| == 8 * |ns|
  {
    if ns == [] then [] else Words(ns[..|ns| - 1]) + LittleEndian(ns[|ns| - 1], 8)
  }

  function Texts(): (r: seq<byte>)
    ensures |r| == 17
  {
    assert Narrow(WAS);
    Octets(WAS)
  }

  const LAYOUT: Layout := Layout(Section(SHT_DYNAMIC, 0, 48, 1, 16), 48, 0)

  /** The C library and "m" are in /nix/store/g, and nothing is anywhere else. */
  predicate InG(dir: Path, name: string) { dir == ["nix", "store", "g"] && name in ["libc.so.6", "m"] }

  const DIRS: seq<Dir> := [Dir(NOW, ["nix", "store", "g"], true)]

  lemma {:induction false} WordOf(ns: seq<nat>, rest: seq<byte>, k: nat)
    requires k < |ns| && ns[k] < U64
    ensures Number(WordAt(Words(ns) + rest, 8 * k, 8)) == ns[k]
    decreases |ns|
  {
    var n := |ns| - 1;
    var front, last := Words(ns[..n]), LittleEndian(ns[n], 8);
    assert front + last + rest == front + (last + rest);
    if k < n {
      WordOf(ns[..n], last + rest, k);
    } else {
      Word64(ns[n]);
      hide LittleEndian, Words;
      assert (front + (last + rest))[8 * n..8 * n + 8] == last;
    }
  }

  lemma WordIs(k: nat, more: seq<byte>, i: nat)
    requires i < 6 && Known(k, more)
    ensures var ns := [DT_NEEDED, k, DT_RUNPATH, 1, 0, 0]; Number(WordAt(File(k, more), 8 * i, 8)) == ns[i]
  {
    hide Words, Texts;
    WordOf([DT_NEEDED, k, DT_RUNPATH, 1, 0, 0], [0] + Texts() + ([0] + more), i);
  }

  lemma StringsAre(k: nat, more: seq<byte>)
    requires Known(k, more)
    ensures |File(k, more)| == 67 + |more| && |more| <= 26 && File(k, more)[48] == 0
    ensures CStringAt(File(k, more), SLOT) == WAS && CStringAt(File(k, more), 48 + k) == "m"
  {
    var b := File(k, more);
    hide Words, LittleEndian;
    assert b[SLOT..66] == Octets(WAS) && b[66] == 0;
    CStringIs(b, SLOT, WAS);
    if k == 17 {
      assert b[65..66] == Octets(WAS)[16..] == Octets("m");
    } else {
      assert b[67..68] == more[..1] == Octets("m") && b[68] == more[1];
    }
    CStringIs(b, 48 + k, "m");
  }

  lemma TagsAre(k: nat, more: seq<byte>)
    requires Known(k, more)
    ensures var b := File(k, more); Tag(b, 0) == DT_NEEDED && Tag(b, 16) == DT_RUNPATH && Tag(b, 32) == 0
    ensures var b := File(k, more); Val(b, 0) == k && Val(b, 16) == 1
  {
    hide File, WordAt, Number;
    WordIs(k, more, 0);
    WordIs(k, more, 1);
    WordIs(k, more, 2);
    WordIs(k, more, 3);
    WordIs(k, more, 4);
  }

  lemma EntriesAre(k: nat, more: seq<byte>)
    requires Known(k, more)
    ensures EntriesFrom(File(k, more), 0, 48) == [0, 16]
  {
    hide File, EntriesFrom, CStringAt, Tag, Val;
    StringsAre(k, more);
    TagsAre(k, more);
    var b := File(k, more);
    EntriesStep(b, 32, 48);
    EntriesStep(b, 16, 48);
    EntriesStep(b, 0, 48);
    assert [0] + ([16] + []) == [0, 16];
  }

  lemma TaggedAre(k: nat, more: seq<byte>)
    requires Known(k, more)
    ensures Tagged(File(k, more), [0, 16], DT_NEEDED) == [0] && LastPath(File(k, more), [0, 16]) == Some(16)
  {
    hide File, Tag, Val;
    TagsAre(k, more);
    var b := File(k, more);
    var all: seq<nat> := [0, 16];
    assert all[..1] == [0] && all[..1][..0] == [];
    assert Tagged(b, all[..1], DT_NEEDED) == [] + [0];
  }

  lemma MergedIsRead(k: nat, more: seq<byte>)
    requires Known(k, more)
    ensures Read(File(k, more), LAYOUT) == Dynamic([Needed("m", 8, [])], 48, Some(SLOT))
  {
    hide File, EntriesFrom, CStringAt, Tagged, LastPath, Tag, Val;
    EntriesAre(k, more);
    StringsAre(k, more);
    TagsAre(k, more);
    TaggedAre(k, more);
    var b := File(k, more);
    assert SectionEnd(b, LAYOUT.dynamic) == 48;
    assert Chain(b, 0) == [];
    assert Libraries(b, 48, [0], []) == [Needed("m", 8, [])];
  }

  lemma NewSlotIs()
    ensures NewSlot(InG, DIRS, ["m"], 17) == NOW && NewName(InG, DIRS, ["m"], 17, "m") == "m"
    ensures !IsDirect(InG, DIRS, "m") && Direct(InG, DIRS, ["m"]) == []
  {
    assert InG(["nix", "store", "g"], "m") && Libc(InG, DIRS[0]);
    assert FirstWith(InG, DIRS, "m") == 0;
    assert !IsDirect(InG, DIRS, "m");
    assert Direct(InG, DIRS, ["m"]) == [] by { assert ["m"][..0] == []; }
    assert !Serves(InG, DIRS, ["m"], 0);
    assert Dropped(InG, DIRS, ["m"]) == DIRS;
    assert Kept(DIRS) == [NOW] by { assert DIRS[..0] == []; }
    assert Rendered(DIRS) == NOW;
    assert Targets(InG, DIRS, ["m"]) == [];
  }

  lemma MergedSlotIsOk(k: nat, more: seq<byte>)
    requires Known(k, more)
    ensures SlotOk(File(k, more), LAYOUT, SLOT, 17)
  {
    hide File;
    assert Chain(File(k, more), 0) == [];
  }

  lemma MergedStringIsOk(k: nat, more: seq<byte>)
    requires Known(k, more)
    ensures StringOk(File(k, more), LAYOUT, 48 + k)
  {
    StringsAre(k, more);
    hide File, CStringAt;
    assert Chain(File(k, more), 0) == [];
  }

  lemma MergedStringIsThere(k: nat, more: seq<byte>)
    requires Known(k, more)
    ensures StringOf(File(k, more), Dynamic([Needed("m", 8, [])], 48, Some(SLOT)), 0) == 48 + k
  {
    WordIs(k, more, 1);
    hide File, WordAt, Number;
  }

  lemma MergedIsLinked(k: nat, more: seq<byte>)
    requires Known(k, more)
    ensures Linked(File(k, more), LAYOUT)
  {
    hide File, CStringAt, Read, SlotOk, StringOk, StringOf;
    MergedIsRead(k, more);
    StringsAre(k, more);
    MergedSlotIsOk(k, more);
    MergedStringIsOk(k, more);
    MergedStringIsThere(k, more);
  }

  /** What the rewrite makes of the file. */
  function Fixed(k: nat, more: seq<byte>): seq<byte>
    requires Known(k, more)
  {
    StringsAre(k, more);
    assert Narrow(NOW);
    Patched(File(k, more), SLOT, Octets(NOW) + Zeros(6))
  }

  lemma FixedHolds(k: nat, more: seq<byte>)
    requires Known(k, more)
    ensures |Fixed(k, more)| == 67 + |more| && Holds(Fixed(k, more), SLOT, 17, NOW)
    ensures CStringAt(Fixed(k, more), SLOT) == NOW
    ensures forall x :: 0 <= x < 67 + |more| && !(SLOT <= x < 67) ==> Fixed(k, more)[x] == File(k, more)[x]
  {
    hide File, CStringAt, Octets, Zeros;
    StringsAre(k, more);
    assert Narrow(NOW) && NOW[0..12] == NOW && '\0' !in NOW;
    PaddedHolds(File(k, more), SLOT, 17, NOW);
    InSlot(Fixed(k, more), SLOT, 17, NOW, 0, NOW);
  }

  lemma FixedIsAStep(k: nat, more: seq<byte>)
    requires Known(k, more)
    ensures Step(File(k, more), Fixed(k, more), LAYOUT, InG, DIRS) && Rewritable(File(k, more), SLOT, NOW, false)
  {
    hide File, Fixed, CStringAt, Read, Linked, NewSlot, Holds, Direct, NewName, NewRunpath, SharedTail, IsDirect;
    MergedIsLinked(k, more);
    MergedIsRead(k, more);
    StringsAre(k, more);
    NewSlotIs();
    FixedHolds(k, more);
    SlotHasRunpath();
    NothingChosen();
    assert Names([Needed("m", 8, [])]) == ["m"];
    hide Chosen;
    assert Rewritten(File(k, more), Fixed(k, more), Dynamic([Needed("m", 8, [])], 48, Some(SLOT)), SLOT, InG, DIRS);
  }

  lemma NothingChosen()
    ensures Chosen(InG, DIRS, [Needed("m", 8, [])], 17) == []
  {
    hide Direct, NewName, NewSlot, IsDirect, Fits;
    NewSlotIs();
    assert Names([Needed("m", 8, [])]) == ["m"];
  }

  lemma SlotHasRunpath()
    ensures NewRunpath(InG, DIRS, ["m"], 17) == NOW
  {
    NewSlotIs();
    assert NewTexts(InG, DIRS, ["m"], 17) == [];
  }

  /** "m" was found in /nix/store/g. RUNPATH, rewritten without complaint, still leads there, but the file no longer
      asks for "m". */
  lemma MergedSonameIsLost()
    ensures Step(Merged(), Fixed(17, []), LAYOUT, InG, DIRS) && Rewritable(Merged(), SLOT, NOW, false)
    ensures |Read(Merged(), LAYOUT).needed| == 1 == |Read(Fixed(17, []), LAYOUT).needed|
    ensures Read(Merged(), LAYOUT).needed[0].name == "m" && Read(Fixed(17, []), LAYOUT).needed[0].name != "m"
    ensures !NameOk(Merged(), LAYOUT, InG, DIRS, 0)
  {
    hide File, Fixed, CStringAt, Read, Step, NewName, Rewritable, NameOk;
    MergedIsRead(17, []);
    NewSlotIs();
    FixedIsAStep(17, []);
    MergedNameIsNotOk();
    StringsAre(17, []);
    assert Names([Needed("m", 8, [])]) == ["m"];
    NameIsReadIff(Merged(), Fixed(17, []), LAYOUT, InG, DIRS, 0);
  }

  lemma MergedNameIsNotOk()
    ensures Read(Merged(), LAYOUT).runpath.Some? && |Read(Merged(), LAYOUT).needed| == 1
    ensures !NameOk(Merged(), LAYOUT, InG, DIRS, 0)
  {
    hide File, CStringAt, Read, StringOf, NewSlot, IsDirect, NewName;
    MergedIsRead(17, []);
    StringsAre(17, []);
    NewSlotIs();
    MergedStringIsThere(17, []);
    assert Names([Needed("m", 8, [])]) == ["m"];
  }

  // ---------------------------------------------------------------- a symbol that begins where RUNPATH does

  const SECTIONS: seq<Section> :=
    [Section(SHT_DYNAMIC, 0, 48, 1, 16), Section(3, 48, 21, 0, 0), Section(SHT_DYNSYM, 69, 24, 1, 24)]

  lemma SymbolWord()
    ensures |Shared()| == 93 && Number(WordAt(Shared(), 69, 4)) == 1
  {
    hide Words, Texts, LittleEndian;
    var b, t := Shared(), SharedTail();
    assert |t| == 26 && t[2..6] == LittleEndian(1, 4);
    assert b[67..] == t;
    assert b[69..73] == t[2..6];
    Word32(1);
  }

  lemma SharedSymbols()
    ensures LayoutOf(SECTIONS) == Some(LAYOUT) && Symbols(Shared(), SECTIONS) == [SLOT]
  {
    var b := Shared();
    SymbolWord();
    hide Shared, WordAt, Number;
    SectionsAre();
    assert SectionEnd(b, SECTIONS[2]) == 93;
    assert NamesFrom(b, 48, 93, 93, 24) == [];
    assert NamesFrom(b, 48, 69, 93, 24) == [SLOT] + [];
  }

  lemma SectionsAre()
    ensures FirstOf(SECTIONS, SHT_DYNAMIC) == 0 && FirstOf(SECTIONS, SHT_DYNSYM) == 2
    ensures FirstOf(SECTIONS, SHT_GNU_VERNEED) == 3
  {
    var i, j, k := FirstOf(SECTIONS, SHT_DYNAMIC), FirstOf(SECTIONS, SHT_DYNSYM), FirstOf(SECTIONS, SHT_GNU_VERNEED);
    assert SECTIONS[0].kind == SHT_DYNAMIC && SECTIONS[1].kind == 3 && SECTIONS[2].kind == SHT_DYNSYM;
  }

  /** A dynamic symbol whose name is the RUNPATH string: the guard, which looks for names inside that string, lets it
      pass, and the symbol is renamed. "m" is still asked for. */
  lemma SharedSymbolIsRenamed()
    ensures LayoutOf(SECTIONS) == Some(LAYOUT) && Symbols(Shared(), SECTIONS) == [SLOT]
    ensures !ElfDynamic.Inside(Symbols(Shared(), SECTIONS), SLOT, SLOT + 17) && Rewritable(Shared(), SLOT, NOW, false)
    ensures Known(19, SharedTail()) && Step(Shared(), Fixed(19, SharedTail()), LAYOUT, InG, DIRS)
    ensures CStringAt(Shared(), SLOT) == WAS && CStringAt(Fixed(19, SharedTail()), SLOT) == NOW
    ensures |Read(Shared(), LAYOUT).needed| == 1 == |Read(Fixed(19, SharedTail()), LAYOUT).needed|
    ensures Read(Shared(), LAYOUT).needed[0].name == "m" == Read(Fixed(19, SharedTail()), LAYOUT).needed[0].name
  {
    hide File, Fixed, CStringAt, Read, Step, Rewritable, Symbols, SharedTail, ElfDynamic.Inside;
    SharedSymbols();
    FixedIsAStep(19, SharedTail());
    FixedHolds(19, SharedTail());
    StringsAre(19, SharedTail());
    SharedNameIsKept();
    NotInside();
  }

  lemma NotInside()
    ensures !ElfDynamic.Inside([SLOT], SLOT, SLOT + 17)
  {
  }

  lemma SharedNameIsKept()
    ensures |Read(Shared(), LAYOUT).needed| == 1 == |Read(Fixed(19, SharedTail()), LAYOUT).needed|
    ensures Read(Shared(), LAYOUT).needed[0].name == "m" == Read(Fixed(19, SharedTail()), LAYOUT).needed[0].name
  {
    hide File, Fixed, CStringAt, Read, Step, NewName, Rewritable, NameOk, SharedTail, IsDirect, NewSlot;
    var more := SharedTail();
    FixedIsAStep(19, more);
    MergedIsRead(19, more);
    SharedNameIsOk();
    NewSlotIs();
    StringsAre(19, more);
    assert Names([Needed("m", 8, [])]) == ["m"];
    NameIsReadIff(File(19, more), Fixed(19, more), LAYOUT, InG, DIRS, 0);
  }

  lemma SharedNameIsOk()
    ensures Read(Shared(), LAYOUT).runpath.Some? && |Read(Shared(), LAYOUT).needed| == 1
    ensures NameOk(Shared(), LAYOUT, InG, DIRS, 0)
  {
    hide File, CStringAt, Read, StringOf, NewSlot, IsDirect, NewName, SharedTail;
    var more := SharedTail();
    MergedIsRead(19, more);
    StringsAre(19, more);
    NewSlotIs();
    MergedStringIsThere(19, more);
    assert Names([Needed("m", 8, [])]) == ["m"];
  }

  // ---------------------------------------------------------------- where the directories come from

  /** These are the directories the tool makes of that RUNPATH for a file in /nix/store/a. */
  lemma MergedDirs()
    ensures DirsOf(Context(["nix", "store", "a"], ["nix", "store", "a"]), ["nix", "store", "a"], WAS, []) == DIRS
  {
    var a, g := ["nix", "store", "a"], ["nix", "store", "g"];
    var ctx := Context(a, a);
    hide Split, RelativeTo, Walk, Final, OnDisk, Listed, Runpath.Own;
    SplitWas();
    MergedPlaces(ctx, a, g);
    assert Runpath.Own(ctx, a, []) == [] by { NoOwn(ctx, a); }
    MergedListed(ctx, a, g);
  }

  lemma NoOwn(ctx: Context, here: Path)
    ensures Runpath.Own(ctx, here, []) == []
  {
  }

  lemma MergedPlaces(ctx: Context, a: Path, g: Path)
    requires a == ["nix", "store", "a"] && g == ["nix", "store", "g"] && ctx == Context(a, a)
    ensures Final(ctx, a) == a && Final(ctx, g) == g && OnDisk(ctx, g) == g && Final(ctx, ["t", "m"]) == ["t", "m"]
  {
    hide Moved;
    MovedPath(a, a, a);
    MovedPath(g, a, a);
    MovedPath(["t", "m"], a, a);
    assert a + a[3..] == a;
  }

  lemma MergedListed(ctx: Context, a: Path, g: Path)
    requires a == ["nix", "store", "a"] && g == ["nix", "store", "g"] && ctx == Context(a, a)
    ensures Listed(ctx, a, ["/nix/store/g", "/t/m"]) == DIRS
  {
    hide Split, RelativeTo, Walk, Final, OnDisk, InStore, Ends, Runpath.Named;
    GIsSpelled(a, g);
    MergedPlaces(ctx, a, g);
    GIsListed(ctx, a, g);
    TIsNot(ctx, a);
    var entries := ["/nix/store/g", "/t/m"];
    assert entries[..1] == ["/nix/store/g"] && entries[..1][..0] == [];
    assert NOW + "" == NOW;
    assert Listed(ctx, a, entries[..1]) == [] + DIRS;
  }

  lemma GIsListed(ctx: Context, a: Path, g: Path)
    requires a == ["nix", "store", "a"] && g == ["nix", "store", "g"] && ctx == Context(a, a)
    ensures Runpath.Named(ctx, a, "/nix/store/g") == g && InStore(ctx, a, "/nix/store/g")
    ensures !Ends(ctx, "/nix/store/g")
  {
    hide Split, Walk, Final, Relative, Dotted, Slashed, Below;
    WalkG();
    MergedPlaces(ctx, a, g);
    GText();
    WayOut(ctx, a, g);
  }

  lemma GText()
    ensures Starts("/nix/store/g", STORE) && !Anchored("/nix/store/g", ORIGIN)
  {
    assert "/nix/store/g"[0..11] == STORE;
  }

  lemma TIsNot(ctx: Context, a: Path)
    requires a == ["nix", "store", "a"] && ctx == Context(a, a)
    ensures !InStore(ctx, a, "/t/m")
  {
    WalkT();
    hide Split, Walk, Final;
    WayOut(ctx, a, ["t", "m"]);
  }

  /** Neither is below the tree. */
  lemma WayOut(ctx: Context, a: Path, p: Path)
    requires a == ["nix", "store", "a"] && ctx == Context(a, a) && (p == ["nix", "store", "g"] || p == ["t", "m"])
    ensures var way := Relative(a, p); way != [] && Dotted(way[0])
  {
    var n := Common(a, p);
    assert a[..3] == a && (|p| == 3 ==> p[..3] == p);
    assert n < 3;
    assert Relative(a, p)[0] == "..";
  }

  lemma SplitWas()
    ensures Split(WAS, ':') == ["/nix/store/g", "/t/m"]
  {
    var parts := ["/nix/store/g", "/t/m"];
    assert parts[1..] == ["/t/m"];
    assert Join(parts, ':') == WAS;
    SplitOfJoin(parts, ':');
  }

  lemma WalkG()
    ensures Walk([], Split("/nix/store/g", '/')) == ["nix", "store", "g"] && !Slashed("/nix/store/g")
  {
    hide Split;
    SplitG();
    WalkFromRoot(["nix", "store", "g"]);
    assert [""] + ["nix", "store", "g"] == ["", "nix", "store", "g"];
  }

  lemma WalkFromRoot(names: Path)
    requires Normal(names)
    ensures Walk([], [""] + names) == names
  {
    assert ([""] + names)[1..] == names;
    WalkDown([], names);
  }

  lemma SplitG()
    ensures Split("/nix/store/g", '/') == ["", "nix", "store", "g"]
  {
    var p: seq<string> := ["", "nix", "store", "g"];
    var q: seq<string> := ["nix", "store", "g"];
    assert p[1..] == q;
    JoinG(q);
    assert Join(p, '/') == "" + ['/'] + Join(q, '/') == "/nix/store/g";
    hide Join;
    SplitOfJoin(p, '/');
  }

  lemma JoinG(q: seq<string>)
    requires q == ["nix", "store", "g"]
    ensures Join(q, '/') == "nix/store/g"
  {
    assert q[1..] == ["store", "g"] && q[1..][1..] == ["g"];
    assert Join(["store", "g"], '/') == "store/g";
  }

  lemma WalkT()
    ensures Walk([], Split("/t/m", '/')) == ["t", "m"] && !Slashed("/t/m")
  {
    hide Split;
    SplitT();
    WalkFromRoot(["t", "m"]);
    assert [""] + ["t", "m"] == ["", "t", "m"];
  }

  lemma SplitT()
    ensures Split("/t/m", '/') == ["", "t", "m"]
  {
    var q: seq<string> := ["", "t", "m"];
    var r: seq<string> := ["t", "m"];
    assert q[1..] == r && r[1..] == ["m"];
    assert Join(r, '/') == "t/m";
    assert Join(q, '/') == "" + ['/'] + Join(r, '/') == "/t/m";
    hide Join;
    SplitOfJoin(q, '/');
  }

  lemma GIsSpelled(a: Path, g: Path)
    requires a == ["nix", "store", "a"] && g == ["nix", "store", "g"]
    ensures RelativeTo(a, g, ORIGIN) == NOW
  {
    var pre := ["nix", "store"];
    assert a == pre + ["a"] && g == pre + ["g"];
    RelativeUnder(pre, ["a"], ["g"]);
    assert Relative(["a"], ["g"]) == ["..", "g"];
    assert ["..", "g"][1..] == ["g"] && Join(["..", "g"], '/') == "../g";
  }

  // ---------------------------------------------------------------- a doubled slash

  const DOUBLED: string := "$ORIGIN//nix/store/g"

  /** "m" is in nix/store/g below the directory the file is in. */
  predicate InDeep(dir: Path, name: string) { dir == ["nix", "store", "a"] + ["nix", "store", "g"] && name == "m" }

  lemma DoubledShape()
    ensures Doubled(DOUBLED) && DOUBLED[8..] == "/nix/store/g" && DOUBLED != ORIGIN && Anchored(DOUBLED, ORIGIN)
  {
    assert DOUBLED[..7] == ORIGIN;
  }

  lemma DoubledIsNamed(ctx: Context, a: Path)
    requires a == ["nix", "store", "a"] && ctx == Context(a, a)
    ensures Runpath.Named(ctx, a, DOUBLED) == ["nix", "store", "g"] && InStore(ctx, a, DOUBLED)
  {
    hide Split, Walk, Anchored, Doubled, Final, Slashed;
    DoubledShape();
    WalkG();
    assert Under(a, "/nix/store/g") == Walk([], Split("/nix/store/g", '/'));
    var g := ["nix", "store", "g"];
    assert g[..2] == ["nix", "store"];
  }

  lemma DoubledIsWhere(ctx: Context, a: Path)
    requires a == ["nix", "store", "a"] && ctx == Context(a, a)
    ensures Where(ctx, a, DOUBLED) == a + ["nix", "store", "g"]
  {
    hide Split, Anchored, Doubled, Moved;
    DoubledShape();
    SplitG();
    var parts: seq<string> := ["", "nix", "store", "g"];
    var g: seq<string> := ["nix", "store", "g"];
    var deep := a + g;
    assert parts[1..] == g;
    assert Walk(a, parts) == Walk(a, g);
    WalkDown(a, g);
    MovedPath(deep, a, a);
    assert deep[..3] == a && deep[3..] == g;
  }

  lemma DoubledMeans(ctx: Context, a: Path)
    requires a == ["nix", "store", "a"] && ctx == Context(a, a)
    ensures Doubled(DOUBLED) && Runpath.Named(ctx, a, DOUBLED) == ["nix", "store", "g"] && InStore(ctx, a, DOUBLED)
    ensures Where(ctx, a, DOUBLED) == a + ["nix", "store", "g"]
  {
    hide *;
    DoubledShape();
    DoubledIsNamed(ctx, a);
    DoubledIsWhere(ctx, a);
  }

  lemma DoubledIsTwo(ctx: Context, a: Path)
    requires a == ["nix", "store", "a"] && ctx == Context(a, a)
    ensures !Agrees(ctx, a, DOUBLED)
  {
    hide Where, Runpath.Named, InStore, OnDisk, Agrees;
    var g := ["nix", "store", "g"];
    DoubledMeans(ctx, a);
    MergedPlaces(ctx, a, g);
    assert ':' !in DOUBLED;
    NamedIsWhere(ctx, a, DOUBLED);
    assert |a + g| == 6;
  }

  lemma DoubledDirs(ctx: Context, a: Path)
    requires a == ["nix", "store", "a"] && ctx == Context(a, a)
    ensures var dirs := Listed(ctx, a, [DOUBLED]);
            DirsOk(ctx, a, dirs, |dirs|) && FirstWith(InDeep, dirs, "m") == |dirs| == 1
  {
    hide Split, Walk, Final, OnDisk, InStore, Runpath.Named, Where, Spelling, Ends, EntryOk;
    DoubledMeans(ctx, a);
    MergedPlaces(ctx, a, ["nix", "store", "g"]);
    RelativizedIsOk(ctx, [DOUBLED], a, []);
    NoOwn(ctx, a);
    assert [DOUBLED][..0] == [];
    var dirs := Listed(ctx, a, [DOUBLED]);
    assert dirs + [] == dirs;
    assert dirs == [] + [dirs[0]] && dirs[0].dir == ["nix", "store", "g"];
    OneDir(InDeep, dirs[0], "m");
  }

  /** The tool takes what follows "$ORIGIN/" for an absolute path. The library that was found below the file's own
      directory is found nowhere afterwards. */
  lemma DoubledSlashIsLost(room: nat)
    ensures var a := ["nix", "store", "a"];
            var ctx := Context(a, a);
            var dirs := Listed(ctx, a, [DOUBLED]);
            && !Agrees(ctx, a, DOUBLED) && InStore(ctx, a, DOUBLED)
            && LoadsFrom(ctx, InDeep, a, DOUBLED, "m") == Some(a + ["nix", "store", "g"])
            && LoadsFrom(ctx, InDeep, a, NewRunpath(InDeep, dirs, ["m"], room),
                         NewName(InDeep, dirs, ["m"], room, "m")) == None
  {
    var a := ["nix", "store", "a"];
    var ctx := Context(a, a);
    hide Walk, Final, OnDisk, InStore, Runpath.Named, Where, Listed, NewRunpath, NewName, DirsOk, FirstWith;
    hide Agrees;
    DoubledMeans(ctx, a);
    DoubledIsTwo(ctx, a);
    DoubledDirs(ctx, a);
    DoubledAlone();
    MissingStaysMissing(ctx, InDeep, a, Listed(ctx, a, [DOUBLED]), 1, ["m"], room, "m");
    assert Search(ctx, InDeep, a, [DOUBLED], "m") == Some(Where(ctx, a, DOUBLED));
    hide Split;
  }

  lemma DoubledAlone()
    ensures Split(DOUBLED, ':') == [DOUBLED]
  {
    assert ':' !in DOUBLED;
    SplitOfJoin([DOUBLED], ':');
  }
}
