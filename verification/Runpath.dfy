/** Which directories a binary's libraries come from, before and after its RUNPATH is rewritten. */
module Runpath {
  import opened Bytes
  import opened Text
  import opened Paths
  import opened Relocation

  /** Whether a directory on disk holds a file. */
  type Has = (Path, string) -> bool

  datatype Dir = Dir(entry: string, dir: Path, keep: bool)

  predicate Begins(t: string, p: string) { |p| <= |t| && t[..|p|] == p }

  /** Opened directly already, or provided by the kernel or the loader itself. */
  predicate Skipped(name: string) { '/' in name || Begins(name, "ld-linux") || Begins(name, "linux-vdso") }

  /** The first directory that has it, or |dirs|. */
  function FirstWith(has: Has, dirs: seq<Dir>, name: string): (r: nat)
    ensures r <= |dirs| && (r < |dirs| ==> has(dirs[r].dir, name)) && forall j :: 0 <= j < r ==> !has(dirs[j].dir, name)
    decreases |dirs|
  {
    if dirs == [] then 0 else if has(dirs[0].dir, name) then 0
    else
      assert forall j :: 1 <= j < |dirs| ==> dirs[j] == dirs[1..][j - 1];
      1 + FirstWith(has, dirs[1..], name)
  }

  predicate Libc(has: Has, d: Dir) { has(d.dir, "libc.so.6") }

  /** A library found in a directory that is not libc's. */
  predicate IsDirect(has: Has, dirs: seq<Dir>, name: string) {
    !Skipped(name) && var j := FirstWith(has, dirs, name); j < |dirs| && !Libc(has, dirs[j])
  }

  /** The libraries (by index) that get a path of their own. */
  function Direct(has: Has, dirs: seq<Dir>, needed: seq<string>): (r: seq<nat>)
    ensures forall k :: 0 <= k < |r| ==> r[k] < |needed| && IsDirect(has, dirs, needed[r[k]])
    ensures forall i :: 0 <= i < |needed| && IsDirect(has, dirs, needed[i]) ==> i in r
  {
    if needed == [] then [] else
      var n := |needed| - 1;
      var front := Direct(has, dirs, needed[..n]);
      assert forall i :: 0 <= i < n ==> needed[..n][i] == needed[i];
      if IsDirect(has, dirs, needed[n]) then front + [n] else front
  }

  function Target(has: Has, dirs: seq<Dir>, name: string): string
    requires IsDirect(has, dirs, name)
  {
    dirs[FirstWith(has, dirs, name)].entry + "/" + name
  }

  /** The directory at j serves a library that is opened directly. */
  predicate Serves(has: Has, dirs: seq<Dir>, needed: seq<string>, j: nat) {
    exists i :: 0 <= i < |needed| && IsDirect(has, dirs, needed[i]) && FirstWith(has, dirs, needed[i]) == j
  }

  /** A directory leaves RUNPATH once its libraries are direct. */
  function Dropped(has: Has, dirs: seq<Dir>, needed: seq<string>): seq<Dir> {
    seq(|dirs|, j requires 0 <= j < |dirs| => dirs[j].(keep := dirs[j].keep && !Serves(has, dirs, needed, j)))
  }

  /** Without room for the paths they all stay, or come on. */
  function Restored(has: Has, dirs: seq<Dir>, needed: seq<string>): seq<Dir> {
    seq(|dirs|, j requires 0 <= j < |dirs| => dirs[j].(keep := dirs[j].keep || Serves(has, dirs, needed, j)))
  }

  /** The kept entries in order, each once. */
  function Kept(dirs: seq<Dir>): seq<string> {
    if dirs == [] then [] else
      var n := |dirs| - 1;
      var front := Kept(dirs[..n]);
      if dirs[n].keep && dirs[n].entry !in front then front + [dirs[n].entry] else front
  }

  function Rendered(dirs: seq<Dir>): string { Join(Kept(dirs), ':') }

  function Targets(has: Has, dirs: seq<Dir>, needed: seq<string>): seq<string> {
    var direct := Direct(has, dirs, needed);
    seq(|direct|, k requires 0 <= k < |direct| => Target(has, dirs, needed[direct[k]]))
  }

  /** RUNPATH and the targets behind it, a NUL before each. */
  function Packed(first: string, texts: seq<string>): string {
    if texts == [] then first else Packed(first, texts[..|texts| - 1]) + ['\0'] + texts[|texts| - 1]
  }

  predicate Fits(has: Has, dirs: seq<Dir>, needed: seq<string>, room: nat) {
    |Packed(Rendered(Dropped(has, dirs, needed)), Targets(has, dirs, needed))| <= room
  }

  /** The new RUNPATH in a slot of `room` characters. */
  function NewRunpath(has: Has, dirs: seq<Dir>, needed: seq<string>, room: nat): string {
    if Fits(has, dirs, needed, room) then Rendered(Dropped(has, dirs, needed))
    else Rendered(Restored(has, dirs, needed))
  }

  /** And the new name of a library. */
  function NewName(has: Has, dirs: seq<Dir>, needed: seq<string>, room: nat, name: string): string {
    if Fits(has, dirs, needed, room) && IsDirect(has, dirs, name) then Target(has, dirs, name) else name
  }

  // ---------------------------------------------------------------- what the dynamic linker does with them

  function LastSlash(t: string): (r: nat)
    requires '/' in t
    ensures r < |t| && t[r] == '/' && forall j :: r < j < |t| ==> t[j] != '/'
  {
    if t[|t| - 1] == '/' then |t| - 1
    else
      assert t == t[..|t| - 1] + [t[|t| - 1]];
      assert forall j :: 0 <= j < |t| - 1 ==> t[..|t| - 1][j] == t[j];
      LastSlash(t[..|t| - 1])
  }

  function Where(ctx: Context, here: Path, entry: string): Path { OnDisk(ctx, Expand(here, entry, ORIGIN)) }

  function Search(ctx: Context, has: Has, here: Path, entries: seq<string>, name: string): Option<Path>
    decreases |entries|
  {
    if entries == [] then None
    else if has(Where(ctx, here, entries[0]), name) then Some(Where(ctx, here, entries[0]))
    else Search(ctx, has, here, entries[1..], name)
  }

  /** The directory (as on disk now) a library loads from when the file is at `here`: a name with a slash
      is opened as it is, any other is looked for along RUNPATH. */
  function LoadsFrom(ctx: Context, has: Has, here: Path, runpath: string, name: string): Option<Path> {
    if '/' in name then
      var s := LastSlash(name);
      var dir := Where(ctx, here, name[..s]);
      if has(dir, name[s + 1..]) then Some(dir) else None
    else Search(ctx, has, here, if runpath == "" then [] else Split(runpath, ':'), name)
  }

  // ---------------------------------------------------------------- nothing is found elsewhere than before

  /** The first `listed` directories were on RUNPATH, the others are the package's own. */
  ghost predicate DirsOk(ctx: Context, here: Path, dirs: seq<Dir>, listed: nat) {
    && listed <= |dirs|
    && (forall j :: 0 <= j < |dirs| ==> dirs[j].keep == (j < listed) && EntryOk(ctx, here, dirs[j]))
    && (forall i, j :: listed <= i < j < |dirs| ==> dirs[i].dir != dirs[j].dir)
  }

  /** The entry denotes the directory, and can stand in a RUNPATH. */
  ghost predicate EntryOk(ctx: Context, here: Path, d: Dir) {
    Where(ctx, here, d.entry) == d.dir && d.entry != "" && ':' !in d.entry && '\0' !in d.entry
  }

  function FirstKept(has: Has, dirs: seq<Dir>, name: string): (r: nat)
    ensures r <= |dirs| && (r < |dirs| ==> dirs[r].keep && has(dirs[r].dir, name))
    ensures forall j :: 0 <= j < r ==> !(dirs[j].keep && has(dirs[j].dir, name))
    decreases |dirs|
  {
    if dirs == [] then 0 else if dirs[0].keep && has(dirs[0].dir, name) then 0
    else
      assert forall j :: 1 <= j < |dirs| ==> dirs[j] == dirs[1..][j - 1];
      1 + FirstKept(has, dirs[1..], name)
  }

  lemma {:induction false} SearchMore(ctx: Context, has: Has, here: Path, front: seq<string>, e: string, name: string)
    ensures Search(ctx, has, here, front + [e], name)
            == if Search(ctx, has, here, front, name).Some? then Search(ctx, has, here, front, name)
               else if has(Where(ctx, here, e), name) then Some(Where(ctx, here, e)) else None
    decreases |front|
  {
    hide Where;
    var all := front + [e];
    if front == [] {
      assert all[1..] == [];
    } else {
      assert all[1..] == front[1..] + [e];
      SearchMore(ctx, has, here, front[1..], e, name);
    }
  }

  lemma {:induction false} SearchMisses(ctx: Context, has: Has, here: Path, entries: seq<string>, e: string,
                                        name: string)
    requires e in entries && Search(ctx, has, here, entries, name).None?
    ensures !has(Where(ctx, here, e), name)
    decreases |entries|
  {
    hide Where;
    if e != entries[0] { SearchMisses(ctx, has, here, entries[1..], e, name); }
  }

  function Found(has: Has, dirs: seq<Dir>, name: string): Option<Path> {
    var r := FirstKept(has, dirs, name);
    if r < |dirs| then Some(dirs[r].dir) else None
  }

  lemma FoundMore(has: Has, dirs: seq<Dir>, name: string)
    requires dirs != []
    ensures var n := |dirs| - 1; var front := Found(has, dirs[..n], name);
            Found(has, dirs, name) == if front.Some? then front
                                      else if dirs[n].keep && has(dirs[n].dir, name) then Some(dirs[n].dir) else None
  {
    var n := |dirs| - 1;
    var r, f := FirstKept(has, dirs, name), FirstKept(has, dirs[..n], name);
    assert forall j :: 0 <= j < n ==> dirs[..n][j] == dirs[j];
    if f < n {
      assert r <= f;
      assert dirs[..n][r] == dirs[r];
    }
  }

  /** Pruned, without doubles and in order, RUNPATH finds the first kept directory. */
  lemma {:induction false} SearchKept(ctx: Context, has: Has, here: Path, dirs: seq<Dir>, name: string)
    requires forall j :: 0 <= j < |dirs| ==> EntryOk(ctx, here, dirs[j])
    ensures Search(ctx, has, here, Kept(dirs), name) == Found(has, dirs, name)
    decreases |dirs|
  {
    hide Where, Found;
    if dirs != [] {
      var n := |dirs| - 1;
      var front := Kept(dirs[..n]);
      SearchKept(ctx, has, here, dirs[..n], name);
      FoundMore(has, dirs, name);
      SearchMore(ctx, has, here, front, dirs[n].entry, name);
      if dirs[n].entry in front && Search(ctx, has, here, front, name).None? {
        SearchMisses(ctx, has, here, front, dirs[n].entry, name);
      }
    } else {
      FoundNothing(has, name);
    }
  }

  lemma FoundNothing(has: Has, name: string)
    ensures Found(has, [], name) == None
  {
  }

  lemma {:induction false} KeptEntries(dirs: seq<Dir>, c: char)
    requires forall j :: 0 <= j < |dirs| ==> c !in dirs[j].entry && dirs[j].entry != ""
    ensures forall k :: 0 <= k < |Kept(dirs)| ==> c !in Kept(dirs)[k] && Kept(dirs)[k] != ""
    decreases |dirs|
  {
    if dirs != [] { KeptEntries(dirs[..|dirs| - 1], c); }
  }

  /** A soname is found in the first kept directory that has it. */
  lemma LoadsByName(ctx: Context, has: Has, here: Path, dirs: seq<Dir>, name: string)
    requires '/' !in name && forall j :: 0 <= j < |dirs| ==> EntryOk(ctx, here, dirs[j])
    ensures LoadsFrom(ctx, has, here, Rendered(dirs), name) == Found(has, dirs, name)
  {
    hide Where, Found;
    SearchKept(ctx, has, here, dirs, name);
    KeptEntries(dirs, ':');
    var entries := Kept(dirs);
    if entries != [] {
      SplitOfJoin(entries, ':');
      assert Join(entries, ':') != "" by { JoinNotEmpty(entries, ':'); }
    }
  }

  lemma JoinNotEmpty(parts: seq<string>, c: char)
    requires parts != [] && parts[0] != ""
    ensures Join(parts, c) != ""
  {
  }

  /** A library opened by its new name comes from the directory it was found in. */
  lemma LoadsDirectly(ctx: Context, has: Has, here: Path, dirs: seq<Dir>, runpath: string, name: string)
    requires IsDirect(has, dirs, name) && forall j :: 0 <= j < |dirs| ==> EntryOk(ctx, here, dirs[j])
    ensures LoadsFrom(ctx, has, here, runpath, Target(has, dirs, name)) == Some(dirs[FirstWith(has, dirs, name)].dir)
  {
    hide Where;
    var e := dirs[FirstWith(has, dirs, name)].entry;
    var t := Target(has, dirs, name);
    assert t == e + "/" + name;
    assert t[|e|] == '/' && forall j :: |e| < j < |t| ==> t[j] == name[j - |e| - 1];
    assert LastSlash(t) == |e|;
    assert t[..|e|] == e && t[|e| + 1..] == name;
  }

  lemma LoadsAfterDrop(ctx: Context, has: Has, here: Path, dirs: seq<Dir>, listed: nat, needed: seq<string>,
                       name: string)
    requires DirsOk(ctx, here, dirs, listed) && !Skipped(name) && !IsDirect(has, dirs, name)
    requires FirstWith(has, dirs, name) < |dirs|
    ensures var j := FirstWith(has, dirs, name);
            LoadsFrom(ctx, has, here, Rendered(Dropped(has, dirs, needed)), name)
            == if j < listed then Some(dirs[j].dir) else None
  {
    hide Where, LoadsFrom, Rendered;
    var ds, j := Dropped(has, dirs, needed), FirstWith(has, dirs, name);
    assert forall k :: 0 <= k < |ds| ==> EntryOk(ctx, here, dirs[k]) && EntryOk(ctx, here, ds[k]);
    LoadsByName(ctx, has, here, ds, name);
    assert forall k :: 0 <= k < |ds| ==> ds[k].dir == dirs[k].dir;
    assert ds[j].keep == (j < listed);
  }

  lemma LoadsAfterRestore(ctx: Context, has: Has, here: Path, dirs: seq<Dir>, listed: nat, needed: seq<string>,
                          name: string)
    requires DirsOk(ctx, here, dirs, listed) && !Skipped(name) && name in needed
    requires FirstWith(has, dirs, name) < |dirs|
    ensures var j := FirstWith(has, dirs, name);
            LoadsFrom(ctx, has, here, Rendered(Restored(has, dirs, needed)), name) == Some(dirs[j].dir)
            <==> j < listed || !Libc(has, dirs[j])
  {
    hide Where, LoadsFrom, Rendered;
    var ds, j := Restored(has, dirs, needed), FirstWith(has, dirs, name);
    assert forall k :: 0 <= k < |ds| ==> EntryOk(ctx, here, dirs[k]) && EntryOk(ctx, here, ds[k]);
    LoadsByName(ctx, has, here, ds, name);
    assert forall k :: 0 <= k < |ds| ==> ds[k].dir == dirs[k].dir;
    assert ds[j].keep == (j < listed || !Libc(has, dirs[j]));
  }

  /** Whether or not the slot has room: a library found on RUNPATH or in one of the package's own directories
      loads from there again, unless that is an own directory with a libc in it. */
  lemma ResolutionIsPreserved(ctx: Context, has: Has, here: Path, dirs: seq<Dir>, listed: nat, needed: seq<string>,
                              room: nat, name: string)
    requires DirsOk(ctx, here, dirs, listed) && !Skipped(name) && name in needed
    requires FirstWith(has, dirs, name) < |dirs|
    ensures var j := FirstWith(has, dirs, name);
            LoadsFrom(ctx, has, here, NewRunpath(has, dirs, needed, room), NewName(has, dirs, needed, room, name))
            == Some(dirs[j].dir)
            <==> j < listed || !Libc(has, dirs[j])
  {
    hide Where, LoadsFrom, Rendered, Target, Packed, Targets, Dropped, Restored;
    if Fits(has, dirs, needed, room) {
      if IsDirect(has, dirs, name) {
        LoadsDirectly(ctx, has, here, dirs, NewRunpath(has, dirs, needed, room), name);
      } else {
        LoadsAfterDrop(ctx, has, here, dirs, listed, needed, name);
      }
    } else {
      LoadsAfterRestore(ctx, has, here, dirs, listed, needed, name);
    }
  }

  /** A directory with a libc and another library, and nothing anywhere else. */
  predicate LibcOnly(dir: Path, name: string) { dir == ["p", "lib"] && name in ["libc.so.6", "libm.so.6"] }

  const OWN_LIBC: seq<Dir> := [Dir("$ORIGIN/../lib", ["p", "lib"], false)]

  /** A library that is only in the package's own directory, beside a libc: it is on no RUNPATH afterwards. */
  lemma OwnLibcIsLost(room: nat)
    ensures var ctx, here, needed := Context(["p"], ["p"]), ["p", "bin"], ["libm.so.6"];
            && DirsOk(ctx, here, OWN_LIBC, 0) && FirstWith(LibcOnly, OWN_LIBC, "libm.so.6") == 0
            && LoadsFrom(ctx, LibcOnly, here, NewRunpath(LibcOnly, OWN_LIBC, needed, room),
                         NewName(LibcOnly, OWN_LIBC, needed, room, "libm.so.6")) == None
  {
    hide DirsOk, LoadsFrom, NewRunpath, NewName, FirstWith, Libc;
    OwnLibcDirs();
    OwnLibcIsNotKept(LibcOnly, OWN_LIBC, ["libm.so.6"], room);
    NoRunpath(Context(["p"], ["p"]), LibcOnly, ["p", "bin"], "libm.so.6");
  }

  lemma OwnLibcDirs()
    ensures DirsOk(Context(["p"], ["p"]), ["p", "bin"], OWN_LIBC, 0) && FirstWith(LibcOnly, OWN_LIBC, "libm.so.6") == 0
    ensures Libc(LibcOnly, OWN_LIBC[0])
  {
    hide EntryOk;
    OwnLibcEntry();
    assert LibcOnly(["p", "lib"], "libm.so.6");
  }

  lemma NoRunpath(ctx: Context, has: Has, here: Path, name: string)
    requires '/' !in name
    ensures LoadsFrom(ctx, has, here, "", name) == None
  {
  }

  lemma OwnLibcSpelling(here: Path, own: Path)
    requires here == ["p", "bin"] && own == ["p", "lib"]
    ensures Spelling(here, own, false) == "$ORIGIN/../lib"
  {
    var pre := ["p"];
    assert here == pre + ["bin"] && own == pre + ["lib"];
    RelativeUnder(pre, ["bin"], ["lib"]);
    assert Relative(["bin"], ["lib"]) == ["..", "lib"];
    assert ["..", "lib"][1..] == ["lib"] && Join(["..", "lib"], '/') == "../lib";
    hide Relative, Join;
    assert RelativeTo(here, own, ORIGIN) == "$ORIGIN/../lib";
  }

  lemma OwnLibcEntry()
    ensures EntryOk(Context(["p"], ["p"]), ["p", "bin"], OWN_LIBC[0])
  {
    hide EntryOk, Spelling, Moved;
    var here, own: Path := ["p", "bin"], ["p", "lib"];
    OwnLibcSpelling(here, own);
    MovedPath(own, ["p"], ["p"]);
    assert ["p"] + own[1..] == own;
    SpellingIsOk(Context(["p"], ["p"]), here, own, false, own, false);
  }

  lemma OwnLibcIsNotKept(has: Has, dirs: seq<Dir>, needed: seq<string>, room: nat)
    requires |dirs| == 1 && !dirs[0].keep && Libc(has, dirs[0])
    ensures NewRunpath(has, dirs, needed, room) == "" && forall name :: NewName(has, dirs, needed, room, name) == name
  {
    var a, b := Dropped(has, dirs, needed), Restored(has, dirs, needed);
    assert !a[0].keep && !b[0].keep;
    assert a[..0] == [] && b[..0] == [];
    assert Kept(a) == [] && Kept(b) == [];
  }

  // ---------------------------------------------------------------- the directories of a binary

  const STORE: string := "/nix/store/"

  /** The final place an entry of the old RUNPATH names: $ORIGIN counts from the file's own. */
  function Named(ctx: Context, here: Path, entry: string): Path {
    if entry == ORIGIN then here
    else if Anchored(entry, ORIGIN) then Under(here, entry[|ORIGIN| + 1..])
    else if entry != "" && entry[0] == '/' then Final(ctx, Walk([], Split(entry, '/')))
    else []
  }

  /** "$ORIGIN//...": what follows $ORIGIN is taken as absolute, though the dynamic linker counts it from there too. */
  predicate Doubled(entry: string) {
    |entry| > |ORIGIN| + 1 && Anchored(entry, ORIGIN) && entry[|ORIGIN| + 1] == '/'
  }

  /** An absolute entry that is moved with the tree. */
  predicate Moves(ctx: Context, entry: string) {
    entry != "" && entry[0] == '/'
    && var way := Relative(ctx.prefix, Walk([], Split(entry, '/'))); way == [] || !Dotted(way[0])
  }

  predicate TextEnds(ctx: Context, entry: string) {
    Slashed(entry) || (Moves(ctx, entry) && Walk([], Split(entry, '/')) == ctx.prefix)
  }

  /** The text of that place ends in '/'. */
  predicate Ends(ctx: Context, entry: string) {
    if Anchored(entry, ORIGIN) then entry == ORIGIN || Slashed(entry[|ORIGIN| + 1..]) else TextEnds(ctx, entry)
  }

  /** The normal text of a place, which ends in '/' or not, begins with the store. */
  predicate PlaceInStore(p: Path, slash: bool) { Below(p, ["nix", "store"]) && (|p| > 2 || slash) }

  /** The text of an entry that is not anchored begins with the store: as it is, or moved. */
  predicate TextInStore(ctx: Context, entry: string) {
    if Moves(ctx, entry) then PlaceInStore(Final(ctx, Walk([], Split(entry, '/'))), TextEnds(ctx, entry))
    else Starts(entry, STORE)
  }

  /** The text of the place an entry names begins with the store. */
  predicate InStore(ctx: Context, here: Path, entry: string) {
    if Anchored(entry, ORIGIN) then PlaceInStore(Named(ctx, here, entry), Ends(ctx, entry)) else TextInStore(ctx, entry)
  }

  /** The spelling of a place, with the '/' its text ended in. */
  function Spelling(here: Path, p: Path, slash: bool): string { SpelledFrom(here, p, slash, ORIGIN) }

  /** What is not in the store drops out: the build tree, directories of the host, padding. */
  function Listed(ctx: Context, here: Path, entries: seq<string>): seq<Dir> {
    if entries == [] then [] else
      var n := |entries| - 1;
      var front, p := Listed(ctx, here, entries[..n]), Named(ctx, here, entries[n]);
      if InStore(ctx, here, entries[n]) then
        front + [Dir(Spelling(here, p, Ends(ctx, entries[n])), OnDisk(ctx, p), true)]
      else front
  }

  /** The place of the tree itself is the one of which the moved text ends in '/'. */
  function Own(ctx: Context, here: Path, own: seq<Path>): seq<Dir> {
    seq(|own|, i requires 0 <= i < |own| =>
          Dir(Spelling(here, Final(ctx, own[i]), own[i] == ctx.prefix), own[i], false))
  }

  method RelativizeRunpath(ctx: Context, entries: seq<string>, here: Path, own: seq<Path>) returns (dirs: seq<Dir>)
    ensures dirs == Listed(ctx, Final(ctx, here), entries) + Own(ctx, Final(ctx, here), own)
  {
    hide Spelling, OnDisk, Named, Final, InStore, Ends;
    var place := Final(ctx, here);
    dirs := [];
    for i := 0 to |entries|
      invariant dirs == Listed(ctx, place, entries[..i])
    {
      assert entries[..i + 1][..i] == entries[..i];
      var p := Named(ctx, place, entries[i]);
      if InStore(ctx, place, entries[i]) {
        dirs := dirs + [Dir(Spelling(place, p, Ends(ctx, entries[i])), OnDisk(ctx, p), true)];
      }
    }
    assert entries[..|entries|] == entries;
    ghost var before := dirs;
    for i := 0 to |own|
      invariant dirs == before + Own(ctx, place, own)[..i]
    {
      dirs := dirs + [Dir(Spelling(place, Final(ctx, own[i]), own[i] == ctx.prefix), own[i], false)];
    }
  }

  /** No name of the path has c in it. */
  predicate Lacks(p: Path, c: char) { forall i :: 0 <= i < |p| ==> c !in p[i] }

  lemma {:induction false} WalkLacks(from: Path, way: seq<string>, c: char)
    requires Normal(from) && Lacks(from, c) && forall i :: 0 <= i < |way| ==> '/' !in way[i] && c !in way[i]
    ensures Normal(Walk(from, way)) && Lacks(Walk(from, way), c)
    decreases |way|
  {
    if way != [] {
      WalkLacks(if way[0] == ".." then (if from == [] then [] else from[..|from| - 1])
                else if way[0] == "." || way[0] == "" then from else from + [way[0]], way[1..], c);
    }
  }

  lemma {:induction false} SplitLacks(t: string, sep: char, c: char)
    requires c !in t
    ensures forall i :: 0 <= i < |Split(t, sep)| ==> sep !in Split(t, sep)[i] && c !in Split(t, sep)[i]
    decreases |t|
  {
    var n := IndexOf(t, sep, 0);
    if n < |t| { SplitLacks(t[n + 1..], sep, c); }
  }

  lemma SpellingIs(here: Path, p: Path, slash: bool)
    ensures Spelling(here, p, slash) == SpelledFrom(here, p, slash, ORIGIN)
  {
  }

  lemma SpellingIsOk(ctx: Context, here: Path, p: Path, slash: bool, dir: Path, keep: bool)
    requires Normal(p) && Lacks(p, ':') && Lacks(p, '\0') && OnDisk(ctx, p) == dir
    ensures EntryOk(ctx, here, Dir(Spelling(here, p, slash), dir, keep))
  {
    hide Spelling, Expand, OnDisk, Normal, Lacks;
    SpellingIs(here, p, slash);
    SpelledExpands(here, p, slash, ORIGIN);
    SpellingLacks(here, p, slash, ':');
    SpellingLacks(here, p, slash, '\0');
  }

  lemma SpellingLacks(here: Path, p: Path, slash: bool, c: char)
    requires Lacks(p, c) && c != '/' && c != '.' && c !in ORIGIN
    ensures c !in Spelling(here, p, slash)
  {
    RelativeChars(here, p, ORIGIN, c);
  }

  /** The places the tree is and will be at have no c in their names. */
  predicate ContextLacks(ctx: Context, c: char) {
    Normal(ctx.prefix) && Normal(ctx.dest) && Lacks(ctx.prefix, c) && Lacks(ctx.dest, c)
  }

  predicate ContextOk(ctx: Context) { ContextLacks(ctx, ':') && ContextLacks(ctx, '\0') }

  lemma MovedLacks(ctx: Context, path: Path, c: char)
    requires ContextLacks(ctx, c) && Normal(path) && Lacks(path, c)
    ensures Normal(Final(ctx, path)) && Lacks(Final(ctx, path), c)
  {
    MovedPath(path, ctx.prefix, ctx.dest);
  }

  lemma NamedLacks(ctx: Context, here: Path, entry: string, c: char)
    requires ContextLacks(ctx, c) && Normal(here) && Lacks(here, c) && c !in entry
    ensures Normal(Named(ctx, here, entry)) && Lacks(Named(ctx, here, entry), c)
  {
    if entry == ORIGIN {
    } else if Anchored(entry, ORIGIN) {
      var rest := entry[|ORIGIN| + 1..];
      SplitLacks(rest, '/', c);
      WalkLacks(here, Split(rest, '/'), c);
      WalkLacks([], Split(rest, '/'), c);
    } else if entry != "" && entry[0] == '/' {
      SplitLacks(entry, '/', c);
      WalkLacks([], Split(entry, '/'), c);
      MovedLacks(ctx, Walk([], Split(entry, '/')), c);
    }
  }

  /** What is spelled has no character the old RUNPATH and the places did not have. */
  lemma {:induction false} ListedLacks(ctx: Context, here: Path, entries: seq<string>, c: char)
    requires ContextLacks(ctx, c) && Normal(here) && Lacks(here, c) && forall i :: 0 <= i < |entries| ==>
          c !in entries[i]
    requires c != '/' && c != '.' && c !in ORIGIN
    ensures forall j :: 0 <= j < |Listed(ctx, here, entries)| ==> c !in Listed(ctx, here, entries)[j].entry
    decreases |entries|
  {
    hide Named, Spelling, OnDisk, Normal, ContextLacks, InStore, Ends;
    if entries != [] {
      var n := |entries| - 1;
      ListedLacks(ctx, here, entries[..n], c);
      NamedLacks(ctx, here, entries[n], c);
      SpellingLacks(here, Named(ctx, here, entries[n]), Ends(ctx, entries[n]), c);
    }
  }

  lemma OwnLacks(ctx: Context, here: Path, own: seq<Path>, c: char)
    requires ContextLacks(ctx, c) && forall i :: 0 <= i < |own| ==> Normal(own[i]) && Lacks(own[i], c)
    requires c != '/' && c != '.' && c !in ORIGIN
    ensures forall j :: 0 <= j < |own| ==> c !in Own(ctx, here, own)[j].entry
  {
    hide Spelling, Normal, ContextLacks, Final;
    forall j | 0 <= j < |own|
      ensures c !in Own(ctx, here, own)[j].entry
    {
      MovedLacks(ctx, own[j], c);
      SpellingLacks(here, Final(ctx, own[j]), own[j] == ctx.prefix, c);
    }
  }

  lemma {:induction false} ListedIsOk(ctx: Context, here: Path, entries: seq<string>)
    requires ContextOk(ctx) && Normal(here) && Lacks(here, ':') && Lacks(here, '\0')
    requires forall i :: 0 <= i < |entries| ==> ':' !in entries[i] && '\0' !in entries[i]
    ensures forall j :: 0 <= j < |Listed(ctx, here, entries)| ==>
              Listed(ctx, here, entries)[j].keep && EntryOk(ctx, here, Listed(ctx, here, entries)[j])
    decreases |entries|
  {
    hide EntryOk, Named, Spelling, OnDisk, Normal, Lacks, ContextLacks, InStore, Ends;
    if entries != [] {
      var n := |entries| - 1;
      ListedIsOk(ctx, here, entries[..n]);
      var p := Named(ctx, here, entries[n]);
      NamedLacks(ctx, here, entries[n], ':');
      NamedLacks(ctx, here, entries[n], '\0');
      SpellingIsOk(ctx, here, p, Ends(ctx, entries[n]), OnDisk(ctx, p), true);
    }
  }

  lemma OwnIsOk(ctx: Context, here: Path, own: seq<Path>, i: nat)
    requires ContextOk(ctx) && i < |own| && Normal(own[i]) && Lacks(own[i], ':') && Lacks(own[i], '\0')
             && Within(own[i], ctx.prefix)
    ensures EntryOk(ctx, here, Own(ctx, here, own)[i])
  {
    hide EntryOk, Spelling;
    FinalOnDisk(ctx, own[i]);
    MovedLacks(ctx, own[i], ':');
    MovedLacks(ctx, own[i], '\0');
    SpellingIsOk(ctx, here, Final(ctx, own[i]), own[i] == ctx.prefix, own[i], false);
  }

  /** Every entry denotes its directory in the finished tree. */
  lemma RelativizedIsOk(ctx: Context, entries: seq<string>, here: Path, own: seq<Path>)
    requires ContextOk(ctx) && Normal(here) && Lacks(here, ':') && Lacks(here, '\0')
    requires forall i :: 0 <= i < |entries| ==> ':' !in entries[i] && '\0' !in entries[i]
    requires forall i :: 0 <= i < |own| ==>
          Normal(own[i]) && Lacks(own[i], ':') && Lacks(own[i], '\0') && Within(own[i], ctx.prefix)
    requires forall i, j :: 0 <= i < j < |own| ==> own[i] != own[j]
    ensures var listed := Listed(ctx, Final(ctx, here), entries);
            DirsOk(ctx, Final(ctx, here), listed + Own(ctx, Final(ctx, here), own), |listed|)
  {
    hide EntryOk, Listed, Spelling;
    MovedLacks(ctx, here, ':');
    MovedLacks(ctx, here, '\0');
    var place := Final(ctx, here);
    ListedIsOk(ctx, place, entries);
    var listed, mine := Listed(ctx, place, entries), Own(ctx, place, own);
    forall j | 0 <= j < |mine|
      ensures EntryOk(ctx, place, mine[j])
    {
      OwnIsOk(ctx, place, own, j);
    }
    var dirs := listed + mine;
    forall j | 0 <= j < |dirs|
      ensures dirs[j].keep == (j < |listed|) && EntryOk(ctx, place, dirs[j])
    {
      if j >= |listed| { assert dirs[j] == mine[j - |listed|]; }
    }
    assert forall j :: |listed| <= j < |dirs| ==> dirs[j].dir == own[j - |listed|];
  }
}
