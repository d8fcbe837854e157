/** RUNPATH and NEEDED of an ELF file rewritten in place. */
module ElfFixup {
  import opened Bytes
  import opened Text
  import opened Runpath
  import opened BinaryImage

  /** A DT_NEEDED: its string, the file offset of its d_val, and of every vn_file that names it. */
  datatype Needed = Needed(name: string, valOffset: nat, vnFiles: seq<nat>)

  datatype Dynamic = Dynamic(needed: seq<Needed>, dynstr: nat, runpath: Option<nat>)

  function Names(libs: seq<Needed>): seq<string> { seq(|libs|, i requires 0 <= i < |libs| => libs[i].name) }

  // ---------------------------------------------------------------- choosing

  method Render(dirs: seq<Dir>) returns (text: string)
    ensures text == Rendered(dirs)
  {
    var kept: seq<string> := [];
    for i := 0 to |dirs|
      invariant kept == Kept(dirs[..i])
    {
      assert dirs[..i + 1][..i] == dirs[..i];
      if dirs[i].keep && dirs[i].entry !in kept {
        kept := kept + [dirs[i].entry];
      }
    }
    assert dirs[..|dirs|] == dirs;
    text := Join(kept, ':');
  }

  method Find(has: Has, dirs: seq<Dir>, name: string) returns (j: nat)
    ensures j == FirstWith(has, dirs, name)
  {
    j := 0;
    while j < |dirs| && !has(dirs[j].dir, name)
      invariant j <= |dirs| && forall k :: 0 <= k < j ==> !has(dirs[k].dir, name)
    {
      j := j + 1;
    }
  }

  lemma ServesMore(has: Has, dirs: seq<Dir>, needed: seq<string>, i: nat, j: nat)
    requires i < |needed|
    ensures Serves(has, dirs, needed[..i + 1], j)
            <==> Serves(has, dirs, needed[..i], j)
                 || (IsDirect(has, dirs, needed[i]) && FirstWith(has, dirs, needed[i]) == j)
  {
    var a, b := needed[..i], needed[..i + 1];
    assert forall k :: 0 <= k < i ==> a[k] == b[k] == needed[k];
    assert b[i] == needed[i];
    if Serves(has, dirs, a, j) {
      var k :| 0 <= k < |a| && IsDirect(has, dirs, a[k]) && FirstWith(has, dirs, a[k]) == j;
      assert IsDirect(has, dirs, b[k]);
    }
  }

  /** Looked for and found in no directory. */
  predicate IsMissing(has: Has, dirs: seq<Dir>, name: string) { !Skipped(name) && FirstWith(has, dirs, name) == |dirs| }

  /** The loop over NEEDED: directories lose their keep flag as their libraries become direct. */
  method Choose(has: Has, start: seq<Dir>, needed: seq<string>)
    returns (dirs: seq<Dir>, direct: seq<nat>, missing: seq<nat>)
    ensures dirs == Dropped(has, start, needed) && direct == Direct(has, start, needed)
    ensures forall i :: 0 <= i < |needed| ==> (i in missing <==> IsMissing(has, start, needed[i]))
    ensures forall k :: 0 <= k < |missing| ==> missing[k] < |needed|
    ensures forall k, l :: 0 <= k < l < |missing| ==> missing[k] < missing[l]
  {
    dirs, direct, missing := start, [], [];
    for i := 0 to |needed|
      invariant dirs == Dropped(has, start, needed[..i]) && direct == Direct(has, start, needed[..i])
      invariant forall k :: 0 <= k < i ==> (k in missing <==> IsMissing(has, start, needed[k]))
      invariant forall k :: 0 <= k < |missing| ==> missing[k] < i
      invariant forall k, l :: 0 <= k < l < |missing| ==> missing[k] < missing[l]
    {
      assert needed[..i + 1][..i] == needed[..i];
      var name := needed[i];
      var next := dirs;
      if !Skipped(name) {
        var j := Find(has, start, name);
        if j == |start| {
          missing := missing + [i];
        } else if !has(dirs[j].dir, "libc.so.6") {
          next := dirs[j := dirs[j].(keep := false)];
          direct := direct + [i];
        }
      }
      DroppedMore(has, start, needed, i, dirs, next);
      dirs := next;
    }
    assert needed[..|needed|] == needed;
  }

  lemma DroppedMore(has: Has, start: seq<Dir>, needed: seq<string>, i: nat, dirs: seq<Dir>, next: seq<Dir>)
    requires i < |needed| && dirs == Dropped(has, start, needed[..i])
    requires var j := FirstWith(has, start, needed[i]);
             next == if IsDirect(has, start, needed[i]) then dirs[j := dirs[j].(keep := false)] else dirs
    ensures next == Dropped(has, start, needed[..i + 1])
  {
    hide Serves;
    forall k | 0 <= k < |start|
      ensures next[k] == Dropped(has, start, needed[..i + 1])[k]
    {
      ServesMore(has, start, needed, i, k);
    }
  }

  lemma ServedByMore(has: Has, dirs: seq<Dir>, needed: seq<string>, direct: seq<nat>, k: nat, j: nat)
    requires k < |direct| && forall i :: 0 <= i < |direct| ==> direct[i] < |needed|
    ensures ServedBy(has, dirs, needed, direct[..k + 1], j)
            <==> ServedBy(has, dirs, needed, direct[..k], j) || FirstWith(has, dirs, needed[direct[k]]) == j
  {
    var a, b := direct[..k], direct[..k + 1];
    assert b[k] == direct[k] && forall i :: 0 <= i < k ==> a[i] == b[i];
    if ServedBy(has, dirs, needed, a, j) {
      var i :| 0 <= i < |a| && FirstWith(has, dirs, needed[a[i]]) == j;
      assert FirstWith(has, dirs, needed[b[i]]) == j;
    }
  }

  function Back(has: Has, start: seq<Dir>, needed: seq<string>, dropped: seq<Dir>, direct: seq<nat>): (r: seq<Dir>)
    requires |dropped| == |start| && forall k :: 0 <= k < |direct| ==> direct[k] < |needed|
    ensures |r| == |start|
  {
    seq(|start|, j requires 0 <= j < |start| =>
          dropped[j].(keep := dropped[j].keep || ServedBy(has, start, needed, direct, j)))
  }

  lemma BackMore(has: Has, start: seq<Dir>, needed: seq<string>, dropped: seq<Dir>, direct: seq<nat>, k: nat)
    requires |dropped| == |start| && k < |direct| && forall k :: 0 <= k < |direct| ==> direct[k] < |needed|
    requires FirstWith(has, start, needed[direct[k]]) < |start|
    ensures var dirs, j := Back(has, start, needed, dropped, direct[..k]), FirstWith(has, start, needed[direct[k]]);
            Back(has, start, needed, dropped, direct[..k + 1]) == dirs[j := dirs[j].(keep := true)]
  {
    hide ServedBy;
    var dirs, j := Back(has, start, needed, dropped, direct[..k]), FirstWith(has, start, needed[direct[k]]);
    var next, more := dirs[j := dirs[j].(keep := true)], Back(has, start, needed, dropped, direct[..k + 1]);
    forall i | 0 <= i < |start|
      ensures more[i] == next[i]
    {
      ServedByMore(has, start, needed, direct, k, i);
    }
  }

  /** The directories of direct libraries put back. */
  method PutBack(has: Has, start: seq<Dir>, needed: seq<string>, dropped: seq<Dir>,
                 direct: seq<nat>) returns (dirs: seq<Dir>)
    requires dropped == Dropped(has, start, needed) && direct == Direct(has, start, needed)
    ensures dirs == Restored(has, start, needed)
  {
    dirs := dropped;
    hide Serves, IsDirect;
    for k := 0 to |direct|
      invariant dirs == Back(has, start, needed, dropped, direct[..k])
    {
      DirectIsFound(has, start, needed, k);
      BackMore(has, start, needed, dropped, direct, k);
      var j := Find(has, start, needed[direct[k]]);
      dirs := dirs[j := dirs[j].(keep := true)];
    }
    assert direct[..|direct|] == direct;
    forall j | 0 <= j < |start|
      ensures dirs[j] == Restored(has, start, needed)[j]
    {
      ServedByAll(has, start, needed, j);
    }
  }

  lemma DirectIsFound(has: Has, dirs: seq<Dir>, needed: seq<string>, k: nat)
    requires k < |Direct(has, dirs, needed)|
    ensures FirstWith(has, dirs, needed[Direct(has, dirs, needed)[k]]) < |dirs|
  {
    assert IsDirect(has, dirs, needed[Direct(has, dirs, needed)[k]]);
  }

  predicate ServedBy(has: Has, dirs: seq<Dir>, needed: seq<string>, direct: seq<nat>, j: nat)
    requires forall k :: 0 <= k < |direct| ==> direct[k] < |needed|
  {
    exists k :: 0 <= k < |direct| && FirstWith(has, dirs, needed[direct[k]]) == j
  }

  lemma ServedByAll(has: Has, dirs: seq<Dir>, needed: seq<string>, j: nat)
    ensures ServedBy(has, dirs, needed, Direct(has, dirs, needed), j) <==> Serves(has, dirs, needed, j)
  {
    var direct := Direct(has, dirs, needed);
    if Serves(has, dirs, needed, j) {
      var i :| 0 <= i < |needed| && IsDirect(has, dirs, needed[i]) && FirstWith(has, dirs, needed[i]) == j;
      assert i in direct;
      var k :| 0 <= k < |direct| && direct[k] == i;
    }
    if ServedBy(has, dirs, needed, direct, j) {
      var k :| 0 <= k < |direct| && FirstWith(has, dirs, needed[direct[k]]) == j;
      assert IsDirect(has, dirs, needed[direct[k]]);
    }
  }

  // ---------------------------------------------------------------- the slot

  /** Where the k-th text begins in the packed ones. */
  function Offset(first: string, texts: seq<string>, k: nat): nat
    requires k <= |texts|
  {
    |Packed(first, texts[..k])| + 1
  }

  lemma {:induction false} PackedBegins(first: string, texts: seq<string>)
    ensures var p := Packed(first, texts);
            |first| <= |p| && p[..|first|] == first && (|first| < |p| ==> p[|first|] == '\0')
    decreases |texts|
  {
    if texts != [] {
      PackedBegins(first, texts[..|texts| - 1]);
    }
  }

  lemma {:induction false} PackedAt(first: string, texts: seq<string>, k: nat)
    requires k < |texts|
    ensures var p, at := Packed(first, texts), Offset(first, texts, k);
            at + |texts[k]| <= |p| && p[at..at + |texts[k]|] == texts[k]
            && (at + |texts[k]| < |p| ==> p[at + |texts[k]|] == '\0')
    decreases |texts|
  {
    var n := |texts| - 1;
    var front := Packed(first, texts[..n]);
    if k < n {
      PackedAt(first, texts[..n], k);
      assert texts[..n][..k] == texts[..k];
      var at := Offset(first, texts, k);
      assert Packed(first, texts)[at..at + |texts[k]|] == front[at..at + |texts[k]|];
    }
  }

  predicate Clear(text: string) { Narrow(text) && '\0' !in text }

  /** The slot holds the packed texts and NULs to its end, one at least. */
  predicate Holds(b: seq<byte>, slot: nat, room: nat, packed: string)
    requires Narrow(packed)
  {
    |packed| <= room && Room(b, slot, room + 1)
    && b[slot..slot + room + 1] == Octets(packed) + Zeros(room + 1 - |packed|)
  }

  lemma InSlot(b: seq<byte>, slot: nat, room: nat, packed: string, at: nat, text: string)
    requires Narrow(packed) && Holds(b, slot, room, packed) && Clear(text)
    requires at + |text| <= |packed| && packed[at..at + |text|] == text
    requires at + |text| < |packed| ==> packed[at + |text|] == '\0'
    ensures CStringAt(b, slot + at) == text
  {
    var s := b[slot..slot + room + 1];
    var o := Octets(packed);
    var there := b[slot + at..slot + at + |text|];
    forall i | 0 <= i < |text|
      ensures there[i] == Octets(text)[i]
    {
      assert packed[at + i] == packed[at..at + |text|][i];
      assert there[i] == s[at + i] == o[at + i];
    }
    assert there == Octets(text);
    assert b[slot + at + |text|] == s[at + |text|] == 0;
    CStringIs(b, slot + at, text);
  }

  /** The strings are where the offsets say. */
  lemma SlotStrings(b: seq<byte>, slot: nat, room: nat, first: string, texts: seq<string>)
    requires Narrow(Packed(first, texts)) && Holds(b, slot, room, Packed(first, texts))
    requires Clear(first) && forall k :: 0 <= k < |texts| ==> Clear(texts[k])
    ensures CStringAt(b, slot) == first
    ensures forall k :: 0 <= k < |texts| ==> CStringAt(b, slot + Offset(first, texts, k)) == texts[k]
  {
    hide Holds, CStringAt, Packed;
    PackedBegins(first, texts);
    InSlot(b, slot, room, Packed(first, texts), 0, first);
    forall k | 0 <= k < |texts|
      ensures CStringAt(b, slot + Offset(first, texts, k)) == texts[k]
    {
      PackedAt(first, texts, k);
      InSlot(b, slot, room, Packed(first, texts), Offset(first, texts, k), texts[k]);
    }
  }

  lemma {:induction false} PackedNarrow(first: string, texts: seq<string>)
    requires Narrow(first) && forall k :: 0 <= k < |texts| ==> Narrow(texts[k])
    ensures Narrow(Packed(first, texts))
    decreases |texts|
  {
    if texts != [] { PackedNarrow(first, texts[..|texts| - 1]); }
  }

  // ---------------------------------------------------------------- the words that point there

  predicate Touches(at: nat, width: nat, x: int) { at <= x < at + width }

  /** x is in none of the words. */
  ghost predicate Outside(offsets: seq<nat>, width: nat, x: int) {
    forall i :: 0 <= i < |offsets| ==> !Touches(offsets[i], width, x)
  }

  /** Two words are the same or do not overlap. */
  ghost predicate Separate(offsets: seq<nat>, width: nat) {
    forall i, j :: 0 <= i < |offsets| && 0 <= j < |offsets| ==>
      offsets[i] == offsets[j] || Apart(offsets[i], width, offsets[j], width)
  }

  lemma SliceSame(b: seq<byte>, c: seq<byte>, at: nat, size: nat)
    requires |b| == |c| && at + size <= |b| && forall x :: at <= x < at + size ==> b[x] == c[x]
    ensures b[at..at + size] == c[at..at + size]
  {
  }

  function WordAt(b: seq<byte>, at: nat, width: nat): seq<byte> {
    if Room(b, at, width) then b[at..at + width] else []
  }

  lemma WordKept(b: seq<byte>, c: seq<byte>, at: nat, width: nat)
    requires |b| == |c| && forall x :: 0 <= x < |b| && Touches(at, width, x) ==> b[x] == c[x]
    ensures WordAt(b, at, width) == WordAt(c, at, width)
  {
    if Room(b, at, width) {
      assert forall x :: at <= x < at + width ==> Touches(at, width, x);
    }
  }

  lemma WroteWord(b: seq<byte>, offsets: seq<nat>, k: nat, value: nat)
    requires k < |offsets| && Room(b, offsets[k], 4) && Separate(offsets, 4)
    ensures var c := Patched(b, offsets[k], LittleEndian(value, 4));
            && WordAt(c, offsets[k], 4) == LittleEndian(value, 4)
            && (forall i :: 0 <= i < |offsets| && offsets[i] != offsets[k] ==>
                WordAt(c, offsets[i], 4) == WordAt(b, offsets[i], 4))
            && (forall x :: 0 <= x < |c| && Outside(offsets, 4, x) ==> c[x] == b[x])
  {
    var word := LittleEndian(value, 4);
    var c := Patched(b, offsets[k], word);
    hide LittleEndian, Patched;
    forall i | 0 <= i < |offsets| && offsets[i] != offsets[k]
      ensures WordAt(c, offsets[i], 4) == WordAt(b, offsets[i], 4)
    {
      assert Apart(offsets[i], 4, offsets[k], 4);
      WordKept(b, c, offsets[i], 4);
    }
    forall x | 0 <= x < |c| && Outside(offsets, 4, x)
      ensures c[x] == b[x]
    {
      assert !Touches(offsets[k], 4, x);
    }
  }

  method WriteWords(image: Image, offsets: seq<nat>, value: nat)
    requires forall i :: 0 <= i < |offsets| ==> Room(image.bytes, offsets[i], 4)
    requires Separate(offsets, 4)
    modifies image
    ensures |image.bytes| == |old(image.bytes)|
    ensures forall i :: 0 <= i < |offsets| ==> WordAt(image.bytes, offsets[i], 4) == LittleEndian(value, 4)
    ensures forall x :: 0 <= x < |image.bytes| && Outside(offsets, 4, x) ==> image.bytes[x] == old(image.bytes)[x]
  {
    hide LittleEndian, WordAt, Outside, Separate;
    for k := 0 to |offsets|
      invariant |image.bytes| == |old(image.bytes)|
      invariant forall i :: 0 <= i < k ==> WordAt(image.bytes, offsets[i], 4) == LittleEndian(value, 4)
      invariant forall x :: 0 <= x < |image.bytes| && Outside(offsets, 4, x) ==> image.bytes[x] == old(image.bytes)[x]
    {
      WroteWord(image.bytes, offsets, k, value);
      var ok := image.Write(offsets[k], 4, value);
    }
  }

  /** What a linker guarantees of these words: inside the file, off the slot and off each other; two
      libraries share a vn_file only if they are of one name. */
  ghost predicate LaidOut(size: nat, libs: seq<Needed>, slot: nat, room: nat) {
    && (forall k :: 0 <= k < |libs| ==> Alone(size, libs[k], slot, room))
    && (forall k, l :: 0 <= k < |libs| && 0 <= l < |libs| && k != l ==> Friends(libs[k], libs[l]))
  }

  ghost predicate Alone(size: nat, lib: Needed, slot: nat, room: nat) {
    && lib.valOffset + 8 <= size && Apart(slot, room + 1, lib.valOffset, 8)
    && (forall v :: v in lib.vnFiles ==> v + 4 <= size && Apart(slot, room + 1, v, 4) && Apart(lib.valOffset, 8, v, 4))
    && Separate(lib.vnFiles, 4)
  }

  ghost predicate Friends(a: Needed, b: Needed) {
    && Apart(a.valOffset, 8, b.valOffset, 8)
    && (forall v :: v in b.vnFiles ==> Apart(a.valOffset, 8, v, 4))
    && (forall u, v :: u in a.vnFiles && v in b.vnFiles ==> (u == v && a.name == b.name) || Apart(u, 4, v, 4))
  }

  ghost predicate OffLib(lib: Needed, x: int) { !Touches(lib.valOffset, 8, x) && Outside(lib.vnFiles, 4, x) }

  ghost predicate OffAll(libs: seq<Needed>, x: int) { forall k :: 0 <= k < |libs| ==> OffLib(libs[k], x) }

  /** The word at v, of `width` bytes, has one of the values given to libraries of that name. */
  ghost predicate OneOf(b: seq<byte>, libs: seq<Needed>, values: seq<nat>, n: nat, name: string, v: nat)
    requires n <= |libs| && |values| == |libs|
  {
    exists l :: 0 <= l < n && libs[l].name == name && WordAt(b, v, 4) == LittleEndian(values[l], 4)
  }

  ghost predicate Pointed(b: seq<byte>, libs: seq<Needed>, values: seq<nat>, n: nat)
    requires n <= |libs| && |values| == |libs|
  {
    forall k :: 0 <= k < n ==>
      && WordAt(b, libs[k].valOffset, 8) == LittleEndian(values[k], 8)
      && forall v :: v in libs[k].vnFiles ==> OneOf(b, libs, values, n, libs[k].name, v)
  }

  lemma KeptByFriend(b: seq<byte>, c: seq<byte>, a: Needed, lib: Needed)
    requires |b| == |c| && Friends(lib, a) && Friends(a, lib)
    requires forall x :: 0 <= x < |b| && OffLib(lib, x) ==> b[x] == c[x]
    ensures WordAt(c, a.valOffset, 8) == WordAt(b, a.valOffset, 8)
    ensures forall v :: v in a.vnFiles && v !in lib.vnFiles ==> WordAt(c, v, 4) == WordAt(b, v, 4)
  {
    assert forall i :: 0 <= i < |lib.vnFiles| ==> lib.vnFiles[i] in lib.vnFiles;
    forall x | 0 <= x < |b| && Touches(a.valOffset, 8, x)
      ensures b[x] == c[x]
    {
      assert OffLib(lib, x);
    }
    WordKept(b, c, a.valOffset, 8);
    forall v | v in a.vnFiles && v !in lib.vnFiles
      ensures WordAt(c, v, 4) == WordAt(b, v, 4)
    {
      forall x | 0 <= x < |b| && Touches(v, 4, x)
        ensures b[x] == c[x]
      {
        assert OffLib(lib, x);
      }
      WordKept(b, c, v, 4);
    }
  }

  lemma PointedMore(b: seq<byte>, c: seq<byte>, libs: seq<Needed>, values: seq<nat>, k: nat)
    requires k < |libs| && |values| == |libs| && |b| == |c| && Pointed(b, libs, values, k)
    requires forall i, l :: 0 <= i < |libs| && 0 <= l < |libs| && i != l ==> Friends(libs[i], libs[l])
    requires WordAt(c, libs[k].valOffset, 8) == LittleEndian(values[k], 8)
    requires forall v :: v in libs[k].vnFiles ==> WordAt(c, v, 4) == LittleEndian(values[k], 4)
    requires forall x :: 0 <= x < |b| && OffLib(libs[k], x) ==> b[x] == c[x]
    ensures Pointed(c, libs, values, k + 1)
  {
    hide Friends, OffLib, LittleEndian, WordAt;
    forall i | 0 <= i < k + 1
      ensures WordAt(c, libs[i].valOffset, 8) == LittleEndian(values[i], 8)
      ensures forall v :: v in libs[i].vnFiles ==> OneOf(c, libs, values, k + 1, libs[i].name, v)
    {
      if i < k {
        KeptByFriend(b, c, libs[i], libs[k]);
        forall v | v in libs[i].vnFiles
          ensures OneOf(c, libs, values, k + 1, libs[i].name, v)
        {
          assert OneOf(b, libs, values, k, libs[i].name, v);
          if v in libs[k].vnFiles { SharedName(libs[i], libs[k], v); }
        }
      }
    }
  }

  lemma SharedName(a: Needed, b: Needed, v: nat)
    requires Friends(a, b) && v in a.vnFiles && v in b.vnFiles
    ensures a.name == b.name
  {
  }

  /** d_val and every vn_file of one library. */
  method PointOne(image: Image, lib: Needed, value: nat)
    requires Room(image.bytes, lib.valOffset, 8) && Separate(lib.vnFiles, 4)
    requires forall v :: v in lib.vnFiles ==> Room(image.bytes, v, 4) && Apart(lib.valOffset, 8, v, 4)
    modifies image
    ensures |image.bytes| == |old(image.bytes)|
    ensures WordAt(image.bytes, lib.valOffset, 8) == LittleEndian(value, 8)
    ensures forall v :: v in lib.vnFiles ==> WordAt(image.bytes, v, 4) == LittleEndian(value, 4)
    ensures forall x :: 0 <= x < |image.bytes| && OffLib(lib, x) ==> image.bytes[x] == old(image.bytes)[x]
  {
    hide LittleEndian, Separate;
    ghost var b0 := image.bytes;
    var ok := image.Write(lib.valOffset, 8, value);
    ghost var b1 := image.bytes;
    assert WordAt(b1, lib.valOffset, 8) == LittleEndian(value, 8);
    assert forall i :: 0 <= i < |lib.vnFiles| ==> lib.vnFiles[i] in lib.vnFiles;
    WriteWords(image, lib.vnFiles, value);
    forall x | 0 <= x < |b1| && Touches(lib.valOffset, 8, x)
      ensures b1[x] == image.bytes[x]
    {
      assert Outside(lib.vnFiles, 4, x);
    }
    WordKept(b1, image.bytes, lib.valOffset, 8);
  }

  /** The k-th string's place, counted from the string table, as a 64-bit number. */
  function Place(slot: nat, dynstr: nat, first: string, texts: seq<string>, k: nat): nat
    requires k <= |texts|
  {
    (slot + Offset(first, texts, k) - dynstr) % U64
  }

  function Places(slot: nat, dynstr: nat, first: string, texts: seq<string>): seq<nat> {
    seq(|texts|, k requires 0 <= k < |texts| => Place(slot, dynstr, first, texts, k))
  }

  lemma NextPlace(slot: nat, dynstr: nat, first: string, texts: seq<string>, k: nat)
    requires k < |texts|
    ensures Place(slot, dynstr, first, texts, k + 1) == (Place(slot, dynstr, first, texts, k) + |texts[k]| + 1) % U64
  {
    assert texts[..k + 1][..k] == texts[..k];
    assert Offset(first, texts, k + 1) == Offset(first, texts, k) + |texts[k]| + 1;
    ModPlus(slot + Offset(first, texts, k) - dynstr, |texts[k]| + 1);
  }

  lemma ModPlus(a: int, b: int)
    ensures (a % U64 + b) % U64 == (a + b) % U64
  {
    var q := a / U64;
    assert a + b == (a % U64 + b) + q * U64;
  }

  method PointAll(image: Image, libs: seq<Needed>, slot: nat, room: nat, dynstr: nat, first: string, texts: seq<string>)
    requires |libs| == |texts| && LaidOut(|image.bytes|, libs, slot, room)
    modifies image
    ensures |image.bytes| == |old(image.bytes)|
    ensures Pointed(image.bytes, libs, Places(slot, dynstr, first, texts), |libs|)
    ensures forall x :: 0 <= x < |image.bytes| && OffAll(libs, x) ==> image.bytes[x] == old(image.bytes)[x]
  {
    ghost var values := Places(slot, dynstr, first, texts);
    assert texts[..0] == [];
    var str := (slot + |first| + 1 - dynstr) % U64;
    hide LittleEndian, Friends, Pointed, Offset, OffAll;
    assert Pointed(image.bytes, libs, values, 0) by { NonePointed(image.bytes, libs, values); }
    assert str == Place(slot, dynstr, first, texts, 0) by { FirstPlace(slot, dynstr, first, texts); }
    for k := 0 to |libs|
      invariant |image.bytes| == |old(image.bytes)| && Pointed(image.bytes, libs, values, k)
      invariant str == Place(slot, dynstr, first, texts, k)
      invariant forall x :: 0 <= x < |image.bytes| && OffAll(libs, x) ==> image.bytes[x] == old(image.bytes)[x]
    {
      ghost var b := image.bytes;
      assert Alone(|b|, libs[k], slot, room);
      PointOne(image, libs[k], str);
      PointedMore(b, image.bytes, libs, values, k);
      forall x | 0 <= x < |b| && OffAll(libs, x)
        ensures image.bytes[x] == b[x]
      {
        OffOne(libs, k, x);
      }
      NextPlace(slot, dynstr, first, texts, k);
      str := (str + |texts[k]| + 1) % U64;
    }
  }

  lemma OffOne(libs: seq<Needed>, k: nat, x: int)
    requires k < |libs| && OffAll(libs, x)
    ensures OffLib(libs[k], x)
  {
  }

  lemma NonePointed(b: seq<byte>, libs: seq<Needed>, values: seq<nat>)
    requires |values| == |libs|
    ensures Pointed(b, libs, values, 0)
  {
  }

  lemma FirstPlace(slot: nat, dynstr: nat, first: string, texts: seq<string>)
    ensures Place(slot, dynstr, first, texts, 0) == (slot + |first| + 1 - dynstr) % U64
  {
    assert texts[..0] == [];
  }

  // ---------------------------------------------------------------- the whole rewrite

  /** The texts behind RUNPATH and the libraries they are for: none if there is no room. */
  function NewTexts(has: Has, dirs: seq<Dir>, needed: seq<string>, room: nat): seq<string> {
    if Fits(has, dirs, needed, room) then Targets(has, dirs, needed) else []
  }

  function Chosen(has: Has, dirs: seq<Dir>, libs: seq<Needed>, room: nat): (r: seq<Needed>)
    ensures |r| == |NewTexts(has, dirs, Names(libs), room)|
  {
    if Fits(has, dirs, Names(libs), room) then
      var direct := Direct(has, dirs, Names(libs));
      seq(|direct|, k requires 0 <= k < |direct| => libs[direct[k]])
    else []
  }

  /** What the slot holds. */
  function NewSlot(has: Has, dirs: seq<Dir>, needed: seq<string>, room: nat): string {
    Packed(NewRunpath(has, dirs, needed, room), NewTexts(has, dirs, needed, room))
  }

  /** What the rewritten file says: RUNPATH is the new one; d_val of every library that became direct leads to
      its path, and so does every vn_file if the slot is in the first 4 GiB of the string table; nothing else
      changed. */
  ghost predicate Rewritten(b: seq<byte>, c: seq<byte>, dyn: Dynamic, slot: nat, has: Has, dirs: seq<Dir>) {
    var room := |CStringAt(b, slot)|;
    var names := Names(dyn.needed);
    var libs, texts := Chosen(has, dirs, dyn.needed, room), NewTexts(has, dirs, names, room);
    var packed := NewSlot(has, dirs, names, room);
    && |c| == |b| && Narrow(packed) && (if packed == CStringAt(b, slot) then c == b else Holds(c, slot, room, packed))
    && CStringAt(c, slot) == NewRunpath(has, dirs, names, room)
    && (forall k :: 0 <= k < |libs| ==> LeadsTo(c, dyn.dynstr, libs[k].valOffset, 8, texts[k]))
    && (dyn.dynstr <= slot && slot + room + 1 - dyn.dynstr <= U32 ==>
          forall k, v :: 0 <= k < |libs| && v in libs[k].vnFiles ==> LeadsTo(c, dyn.dynstr, v, 4, texts[k]))
    && (forall x :: 0 <= x < |b| && OffAll(libs, x) && !(slot <= x < slot + room + 1) ==> c[x] == b[x])
  }

  /** The word at `at` is the offset in the string table of this text. */
  ghost predicate LeadsTo(b: seq<byte>, dynstr: nat, at: nat, width: nat, text: string) {
    Room(b, at, width) && CStringAt(b, (dynstr + Number(WordAt(b, at, width))) % U64) == text
  }

  lemma PlaceLeads(slot: nat, dynstr: nat, first: string, texts: seq<string>, k: nat)
    requires k < |texts| && slot + Offset(first, texts, k) < U64
    ensures (dynstr + Place(slot, dynstr, first, texts, k)) % U64 == slot + Offset(first, texts, k)
  {
    var at := slot + Offset(first, texts, k);
    ModPlus(at - dynstr, dynstr);
  }

  lemma ValLeads(b: seq<byte>, slot: nat, dynstr: nat, first: string, texts: seq<string>, k: nat, at: nat)
    requires k < |texts| && slot + Offset(first, texts, k) < U64 && Room(b, at, 8)
    requires WordAt(b, at, 8) == LittleEndian(Place(slot, dynstr, first, texts, k), 8)
    requires CStringAt(b, slot + Offset(first, texts, k)) == texts[k]
    ensures LeadsTo(b, dynstr, at, 8, texts[k])
  {
    hide CStringAt, Offset, WordAt;
    PlaceLeads(slot, dynstr, first, texts, k);
    Word64(Place(slot, dynstr, first, texts, k));
  }

  lemma VnLeads(b: seq<byte>, slot: nat, dynstr: nat, first: string, texts: seq<string>, k: nat, at: nat)
    requires k < |texts| && slot + Offset(first, texts, k) < U64 && Room(b, at, 4)
    requires dynstr <= slot && slot + Offset(first, texts, k) - dynstr < U32
    requires WordAt(b, at, 4) == LittleEndian(Place(slot, dynstr, first, texts, k), 4)
    requires CStringAt(b, slot + Offset(first, texts, k)) == texts[k]
    ensures LeadsTo(b, dynstr, at, 4, texts[k])
  {
    hide CStringAt, Offset, WordAt;
    PlaceLeads(slot, dynstr, first, texts, k);
    Word32(Place(slot, dynstr, first, texts, k));
  }

  predicate ClearDirs(dirs: seq<Dir>) { forall j :: 0 <= j < |dirs| ==> Clear(dirs[j].entry) }

  predicate ClearNames(names: seq<string>) { forall i :: 0 <= i < |names| ==> Clear(names[i]) }

  lemma {:induction false} KeptIsClear(dirs: seq<Dir>)
    requires ClearDirs(dirs)
    ensures forall k :: 0 <= k < |Kept(dirs)| ==> Clear(Kept(dirs)[k])
    decreases |dirs|
  {
    if dirs != [] { KeptIsClear(dirs[..|dirs| - 1]); }
  }

  lemma {:induction false} JoinIsClear(parts: seq<string>)
    requires forall k :: 0 <= k < |parts| ==> Clear(parts[k])
    ensures Clear(Join(parts, ':'))
    decreases |parts|
  {
    if |parts| > 1 { JoinIsClear(parts[1..]); }
  }

  lemma RenderedIsClear(dirs: seq<Dir>)
    requires ClearDirs(dirs)
    ensures Clear(Rendered(dirs))
  {
    KeptIsClear(dirs);
    JoinIsClear(Kept(dirs));
  }

  lemma NewTextsAreClear(has: Has, dirs: seq<Dir>, names: seq<string>, room: nat)
    requires ClearDirs(dirs) && ClearNames(names)
    ensures Clear(NewRunpath(has, dirs, names, room))
    ensures forall k :: 0 <= k < |NewTexts(has, dirs, names, room)| ==> Clear(NewTexts(has, dirs, names, room)[k])
  {
    RenderedIsClear(Dropped(has, dirs, names));
    RenderedIsClear(Restored(has, dirs, names));
    forall k | 0 <= k < |Targets(has, dirs, names)|
      ensures Clear(Targets(has, dirs, names)[k])
    {
      var name := names[Direct(has, dirs, names)[k]];
      assert Targets(has, dirs, names)[k] == dirs[FirstWith(has, dirs, name)].entry + "/" + name;
    }
  }

  /** Libraries of one name have one target. */
  lemma OneTarget(has: Has, dirs: seq<Dir>, libs: seq<Needed>, room: nat, k: nat, l: nat)
    requires k < |Chosen(has, dirs, libs, room)| && l < |Chosen(has, dirs, libs, room)|
    requires Chosen(has, dirs, libs, room)[k].name == Chosen(has, dirs, libs, room)[l].name
    ensures var texts := NewTexts(has, dirs, Names(libs), room); texts[k] == texts[l]
  {
    var names := Names(libs);
    var direct := Direct(has, dirs, names);
    assert names[direct[k]] == libs[direct[k]].name && names[direct[l]] == libs[direct[l]].name;
  }

  /** The packed texts never equal what was there unless they are RUNPATH alone. */
  lemma {:induction false} PackedHasNul(first: string, texts: seq<string>)
    requires texts != []
    ensures '\0' in Packed(first, texts)
    decreases |texts|
  {
    var front := Packed(first, texts[..|texts| - 1]);
    assert Packed(first, texts)[|front|] == '\0';
  }

  lemma SlotIsOff(size: nat, libs: seq<Needed>, slot: nat, room: nat, x: int)
    requires LaidOut(size, libs, slot, room) && slot <= x < slot + room + 1
    ensures OffAll(libs, x)
  {
    forall k | 0 <= k < |libs|
      ensures OffLib(libs[k], x)
    {
      assert Alone(size, libs[k], slot, room);
      assert forall i :: 0 <= i < |libs[k].vnFiles| ==> libs[k].vnFiles[i] in libs[k].vnFiles;
    }
  }

  /** After the padded write and the pointers the slot still holds the texts. */
  lemma SlotSurvives(base: seq<byte>, c: seq<byte>, libs: seq<Needed>, slot: nat, room: nat, packed: string)
    requires Narrow(packed) && Holds(base, slot, room, packed) && |c| == |base| && LaidOut(|base|, libs, slot, room)
    requires forall x :: 0 <= x < |c| && OffAll(libs, x) ==> c[x] == base[x]
    ensures Holds(c, slot, room, packed)
  {
    hide LaidOut, OffAll;
    forall x | slot <= x < slot + room + 1
      ensures c[x] == base[x]
    {
      SlotIsOff(|base|, libs, slot, room, x);
    }
    SliceSame(c, base, slot, room + 1);
  }

  lemma {:induction false} OffsetInside(first: string, texts: seq<string>, k: nat)
    requires k < |texts|
    ensures Offset(first, texts, k) <= |Packed(first, texts)|
  {
    PackedAt(first, texts, k);
  }

  lemma PointedLeads(c: seq<byte>, dyn: Dynamic, slot: nat, has: Has, dirs: seq<Dir>, room: nat)
    requires ClearDirs(dirs) && ClearNames(Names(dyn.needed)) && |c| < U64
    requires var first := NewRunpath(has, dirs, Names(dyn.needed), room);
             var texts := NewTexts(has, dirs, Names(dyn.needed), room);
             var libs := Chosen(has, dirs, dyn.needed, room);
             && LaidOut(|c|, libs, slot, room) && Narrow(Packed(first, texts))
             && Holds(c, slot, room, Packed(first, texts))
             && Pointed(c, libs, Places(slot, dyn.dynstr, first, texts), |libs|)
    ensures var texts := NewTexts(has, dirs, Names(dyn.needed), room);
            var libs := Chosen(has, dirs, dyn.needed, room);
            && CStringAt(c, slot) == NewRunpath(has, dirs, Names(dyn.needed), room)
            && (forall k :: 0 <= k < |libs| ==> LeadsTo(c, dyn.dynstr, libs[k].valOffset, 8, texts[k]))
            && (dyn.dynstr <= slot && slot + room + 1 - dyn.dynstr <= U32 ==>
                  forall k, v :: 0 <= k < |libs| && v in libs[k].vnFiles ==> LeadsTo(c, dyn.dynstr, v, 4, texts[k]))
  {
    hide CStringAt, Offset, LeadsTo, WordAt, Packed, NewRunpath, NewTexts, Chosen, Separate, Friends, LittleEndian;
    var names := Names(dyn.needed);
    var first, texts := NewRunpath(has, dirs, names, room), NewTexts(has, dirs, names, room);
    var libs := Chosen(has, dirs, dyn.needed, room);
    NewTextsAreClear(has, dirs, names, room);
    SlotStrings(c, slot, room, first, texts);
    forall k | 0 <= k < |libs|
      ensures LeadsTo(c, dyn.dynstr, libs[k].valOffset, 8, texts[k])
    {
      OffsetInside(first, texts, k);
      assert Alone(|c|, libs[k], slot, room);
      ValLeads(c, slot, dyn.dynstr, first, texts, k, libs[k].valOffset);
    }
    if dyn.dynstr <= slot && slot + room + 1 - dyn.dynstr <= U32 {
      forall k, v | 0 <= k < |libs| && v in libs[k].vnFiles
        ensures LeadsTo(c, dyn.dynstr, v, 4, texts[k])
      {
        assert Alone(|c|, libs[k], slot, room);
        var values := Places(slot, dyn.dynstr, first, texts);
        assert OneOf(c, libs, values, |libs|, libs[k].name, v);
        var l :| 0 <= l < |libs| && libs[l].name == libs[k].name && WordAt(c, v, 4) == LittleEndian(values[l], 4);
        OffsetInside(first, texts, l);
        OneTarget(has, dirs, dyn.needed, room, k, l);
        VnLeads(c, slot, dyn.dynstr, first, texts, l, v);
      }
    }
  }

  /** The slot can take the new texts: they are what is there, or no symbol shares it and they fit. */
  predicate Rewritable(b: seq<byte>, slot: nat, packed: string, inside: bool) {
    var room := |CStringAt(b, slot)|;
    packed == CStringAt(b, slot) || (!inside && |packed| <= room && Room(b, slot, room + 1))
  }

  /** The whole step but for reading the file. `inside` tells whether the name of a dynamic symbol begins inside the
      RUNPATH string, where a linker that merges suffixes may have put it. */
  method Rewrite(image: Image, dyn: Dynamic, has: Has, dirs: seq<Dir>, inside: bool)
    returns (ok: bool, dirty: bool, missing: seq<nat>)
    requires |image.bytes| < U64
    requires ClearDirs(dirs) && ClearNames(Names(dyn.needed))
    requires dyn.runpath.Some? ==>
               var room := |image.CString(dyn.runpath.value)|;
               LaidOut(|image.bytes|, Chosen(has, dirs, dyn.needed, room), dyn.runpath.value, room)
    modifies image
    ensures !ok || !dirty ==> image.bytes == old(image.bytes)
    ensures dyn.runpath.None? ==> ok && !dirty && missing == []
    ensures dyn.runpath.Some? ==>
              var slot, names := dyn.runpath.value, Names(dyn.needed);
              var packed := NewSlot(has, dirs, names, |CStringAt(old(image.bytes), slot)|);
              && ok == Rewritable(old(image.bytes), slot, packed, inside)
              && dirty == (ok && packed != CStringAt(old(image.bytes), slot))
              && (ok ==> Rewritten(old(image.bytes), image.bytes, dyn, slot, has, dirs))
              && forall i :: 0 <= i < |names| ==> (i in missing <==> IsMissing(has, dirs, names[i]))
  {
    hide CStringAt, LaidOut, LeadsTo, Pointed, OffAll, Packed, Holds, Dropped, Restored, Direct;
    ok, dirty, missing := true, false, [];
    if dyn.runpath.None? {
      return;
    }
    var slot := dyn.runpath.value;
    var was := image.CString(slot);
    var names := Names(dyn.needed);
    var first, texts, libs;
    first, texts, libs, missing := Planned(has, dirs, dyn.needed, |was|);
    NewTextsAreClear(has, dirs, names, |was|);
    PackedNarrow(first, texts);
    var packed := Packed(first, texts);
    if packed == was {
      assert texts == [] by {
        CStringHasNoNul(image.bytes, slot);
        if texts != [] { PackedHasNul(first, texts); }
      }
      assert packed == first by { PackedAlone(first); }
      return;
    }
    if inside {
      ok := false;
      return;
    }
    ghost var b := image.bytes;
    ok := image.WritePadded(slot, |was| + 1, packed);
    if !ok {
      return;
    }
    ghost var base := image.bytes;
    assert Holds(base, slot, |was|, packed) by { PaddedHolds(b, slot, |was|, packed); }
    PointAll(image, libs, slot, |was|, dyn.dynstr, first, texts);
    SlotSurvives(base, image.bytes, libs, slot, |was|, packed);
    PointedLeads(image.bytes, dyn, slot, has, dirs, |was|);
    dirty := true;
  }

  lemma PackedAlone(first: string)
    ensures Packed(first, []) == first
  {
  }

  lemma PaddedHolds(b: seq<byte>, slot: nat, room: nat, packed: string)
    requires Narrow(packed) && |packed| <= room && Room(b, slot, room + 1)
    ensures Holds(Patched(b, slot, Octets(packed) + Zeros(room + 1 - |packed|)), slot, room, packed)
  {
  }

  /** The decision: direct names if they fit where RUNPATH was, else RUNPATH alone. */
  method Planned(has: Has, dirs: seq<Dir>, libs: seq<Needed>, room: nat)
    returns (first: string, texts: seq<string>, chosen: seq<Needed>, missing: seq<nat>)
    ensures first == NewRunpath(has, dirs, Names(libs), room)
    ensures texts == NewTexts(has, dirs, Names(libs), room) && chosen == Chosen(has, dirs, libs, room)
    ensures forall i :: 0 <= i < |Names(libs)| ==> (i in missing <==> IsMissing(has, dirs, Names(libs)[i]))
  {
    hide Dropped, Restored, Rendered, Packed, Target;
    var names := Names(libs);
    var dropped, direct;
    dropped, direct, missing := Choose(has, dirs, names);
    first := Render(dropped);
    texts := Targets(has, dirs, names);
    chosen := seq(|direct|, k requires 0 <= k < |direct| => libs[direct[k]]);
    if |Packed(first, texts)| > room {
      var restored := PutBack(has, dirs, names, dropped, direct);
      first := Render(restored);
      texts, chosen := [], [];
    }
  }
}
