/** What the load commands of a Mach-O file name, before and after they are respelled. */
module MachOPaths {
  import opened Bytes
  import opened Text
  import opened Paths
  import opened Lookup
  import opened Relocation
  import opened Runpath
  import opened MachO

  const LOADER: string := "@loader_path"
  const RPATH: string := "@rpath/"
  const EXECUTABLE: string := "@executable_path"

  const ID_DYLIB := 0xd
  const LC_RPATH := 0x8000_001c

  /** `own` are the package's lib directories, `there` tells which files are on disk, `sdk` which .tbd files the SDK
      has, if there is one. */
  datatype Env = Env(ctx: Context, own: seq<Path>, there: There, sdk: Option<string -> bool>)

  predicate IsSystem(path: string) { Starts(path, "/usr/lib/") || Starts(path, "/System/") }

  /** libz.1.dylib is listed as libz.1.tbd, Foo.framework/Foo as Foo.tbd. */
  function Stub(path: string): string
    requires IsSystem(path)
  {
    var n := |path|;
    (if n >= 6 && path[n - 6..] == ".dylib" then path[..n - 6] else path)[1..] + ".tbd"
  }

  /** What the tool tries for an @rpath: each of the package's directories. */
  function OwnFiles(own: seq<Path>, rest: string): seq<Path> {
    seq(|own|, i requires 0 <= i < |own| => Under(own[i], rest))
  }

  method FindOwn(env: Env, rest: string) returns (file: Option<Path>)
    ensures file == FirstIn(env.there, OwnFiles(env.own, rest))
  {
    hide Under, FirstIn;
    ghost var files := OwnFiles(env.own, rest);
    file := None;
    NoneIn(env.there, []);
    for i := 0 to |env.own|
      invariant file == FirstIn(env.there, files[..i])
    {
      FirstInMore(env.there, files[..i], [files[i]]);
      OneIn(env.there, files[i]);
      assert files[..i + 1] == files[..i] + [files[i]];
      if file.None? && env.there(Under(env.own[i], rest)) {
        file := Some(Under(env.own[i], rest));
      }
    }
    assert files[..|env.own|] == files;
  }

  /** A place and whether its text ended in '/'. */
  datatype Place = Place(path: Path, slash: bool)

  function After(path: string, tag: string): string
    requires Starts(path, tag)
  {
    path[|tag|..]
  }

  /** Where a load command points that is not of the system, in the finished tree. */
  function Target(env: Env, here: Path, path: string): Option<Place> {
    if Starts(path, RPATH) then
      var rest := After(path, RPATH);
      match FirstIn(env.there, OwnFiles(env.own, rest))
      case None => None
      case Some(p) => Some(Place(Final(env.ctx, p), Slashed(rest) || p == env.ctx.prefix))
    else if Starts(path, LOADER + "/") then
      var rest := After(path, LOADER + "/");
      Some(Place(Under(here, rest), Slashed(rest)))
    else if TextInStore(env.ctx, path) then
      Some(Place(Final(env.ctx, Walk([], Split(path, '/'))), TextEnds(env.ctx, path)))
    else None
  }

  /** Ours must be there; what is a dependency's the linker had found. */
  predicate Present(env: Env, p: Path) { OnDisk(env.ctx, p) == p || env.there(OnDisk(env.ctx, p)) }

  function Resolve(env: Env, here: Path, path: string): Option<Place> {
    if IsSystem(path) then
      if env.sdk.Some? && !env.sdk.value(Stub(path)) then None
      else Some(Place(Walk([], Split(path, '/')), Slashed(path)))
    else
      var target := Target(env, here, path);
      if target.Some? && Present(env, target.value.path) then target else None
  }

  /** What a path command of the file at `self` should say; None to leave it, for a load an error. */
  function NewSpelling(env: Env, self: Path, cmd: nat, path: string): Option<string>
    requires self != []
  {
    var here := self[..|self| - 1];
    if cmd == ID_DYLIB then Some("/" + Join(self, '/'))
    else if cmd == LC_RPATH then
      if !TextInStore(env.ctx, path) then None
      else Some(SpelledFrom(here, Final(env.ctx, Walk([], Split(path, '/'))), TextEnds(env.ctx, path), LOADER))
    else
      match Resolve(env, here, path)
      case None => None
      case Some(p) => if IsSystem(path) then Some(path) else Some(SpelledFrom(here, p.path, p.slash, LOADER))
  }

  // ---------------------------------------------------------------- what dyld does with them

  /** An image in `here` with its LC_RPATHs; behind these come the run paths of the images that load it. */
  datatype Image = Image(here: Path, rpaths: seq<string>, outer: seq<Path>, exec: Path)

  /** The directories @rpath stands for, in the order dyld tries them. */
  function RunDirs(image: Image, rpaths: seq<string>): seq<Path>
    decreases |rpaths|
  {
    if rpaths == [] then image.outer else
      var r := rpaths[0];
      (if Anchored(r, LOADER) then [Expand(image.here, r, LOADER)]
       else if Anchored(r, EXECUTABLE) then [Expand(image.exec, r, EXECUTABLE)]
       else if r != "" && r[0] == '/' then [Walk([], Split(r, '/'))]
       else [])
      + RunDirs(image, rpaths[1..])
  }

  function RunFiles(ctx: Context, image: Image, rest: string): seq<Path> {
    var dirs := RunDirs(image, image.rpaths);
    seq(|dirs|, i requires 0 <= i < |dirs| => OnDisk(ctx, Walk(dirs[i], Split(rest, '/'))))
  }

  /** The file (as on disk now) a load command of the image opens: dyld joins what follows @loader_path to the image's
      directory, and what follows @rpath to each run path. */
  function Opens(env: Env, image: Image, path: string): Option<Path> {
    if Starts(path, RPATH) then FirstIn(env.there, RunFiles(env.ctx, image, After(path, RPATH)))
    else if Starts(path, LOADER + "/") then
      Some(OnDisk(env.ctx, Walk(image.here, Split(After(path, LOADER + "/"), '/'))))
    else if path != "" && path[0] == '/' then Some(OnDisk(env.ctx, Walk([], Split(path, '/'))))
    else None
  }

  /** "@loader_path//...": taken as absolute, though dyld counts it from the image. */
  predicate Doubled(path: string) { Starts(path, LOADER + "//") }

  ghost predicate EnvOk(env: Env, here: Path) {
    && PlacesApart(env.ctx) && Normal(env.ctx.prefix) && Normal(env.ctx.dest) && Normal(here)
    && forall i :: 0 <= i < |env.own| ==> Normal(env.own[i])
  }

  /** dyld comes to the file the tool chose: by @rpath it is tried and is there, and none tried before it is; and what
      follows "@loader_path//" is one place, counted from the root or from the image. */
  ghost predicate Agrees(env: Env, image: Image, path: string)
    requires Target(env, image.here, path).Some?
  {
    if Starts(path, RPATH) then
      FirstAt(env.there, RunFiles(env.ctx, image, After(path, RPATH)),
              OnDisk(env.ctx, Target(env, image.here, path).value.path))
    else
      Doubled(path) ==>
        var way := Split(After(path, LOADER + "/"), '/');
        OnDisk(env.ctx, Walk([], way)) == OnDisk(env.ctx, Walk(image.here, way))
  }

  lemma FinalIsNormal(ctx: Context, p: Path)
    requires Normal(ctx.prefix) && Normal(ctx.dest) && Normal(p)
    ensures Normal(Final(ctx, p))
  {
    MovedPath(p, ctx.prefix, ctx.dest);
  }

  lemma TargetIsNormal(env: Env, here: Path, path: string)
    requires EnvOk(env, here) && Target(env, here, path).Some?
    ensures Normal(Target(env, here, path).value.path)
  {
    RootIsNormal();
    hide Normal, Walk, Split, Moves, PlaceInStore, Slashed, TextEnds, Within, Under, Final, TextInStore;
    if Starts(path, RPATH) {
      var rest := After(path, RPATH);
      var files := OwnFiles(env.own, rest);
      FoundIsOne(env.there, files);
      var j :| 0 <= j < |files| && files[j] == FirstIn(env.there, files).value;
      UnderIsNormal(env.own[j], rest);
      FinalIsNormal(env.ctx, files[j]);
    } else if Starts(path, LOADER + "/") {
      UnderIsNormal(here, After(path, LOADER + "/"));
    } else {
      TextIsNormal([], path);
      FinalIsNormal(env.ctx, Walk([], Split(path, '/')));
    }
  }

  /** Where a command is resolved to is what dyld opens for it, exactly if they agree. */
  lemma TargetIsOpenedIff(env: Env, image: Image, path: string)
    requires EnvOk(env, image.here) && Target(env, image.here, path).Some?
    ensures Opens(env, image, path) == Some(OnDisk(env.ctx, Target(env, image.here, path).value.path))
            <==> Agrees(env, image, path)
  {
    RootIsNormal();
    hide Normal, Walk, Split, Moves, PlaceInStore, Slashed, TextEnds, Within, OnDisk, Final, FirstAt, RunFiles, FirstIn;
    if Starts(path, RPATH) {
      FirstInIff(env.there, RunFiles(env.ctx, image, After(path, RPATH)),
                 OnDisk(env.ctx, Target(env, image.here, path).value.path));
    } else if Starts(path, LOADER + "/") {
      DoubledIff(path);
    } else {
      DoubledStarts(path);
      IsAbsolute(env.ctx, path);
      TextIsNormal([], path);
      OnDiskFinal(env.ctx, Walk([], Split(path, '/')));
    }
  }

  lemma DoubledIff(path: string)
    requires Starts(path, LOADER + "/")
    ensures var rest := After(path, LOADER + "/"); Doubled(path) <==> rest != "" && rest[0] == '/'
  {
    assert |path| >= 14 ==> path[0..14] == path[0..13] + [path[13]];
    assert LOADER + "//" == LOADER + "/" + ['/'];
  }

  lemma DoubledStarts(path: string)
    ensures Doubled(path) ==> Starts(path, LOADER + "/")
  {
    assert LOADER + "//" == LOADER + "/" + ['/'];
    if Doubled(path) { assert path[0..13] == path[0..14][..13]; }
  }

  /** Whatever is on the disk, dyld finds by @rpath the file the tool does, exactly if they try the same files in the
      same order. */
  lemma RpathAgreesIff(ctx: Context, image: Image, own: seq<Path>, rest: string)
    ensures (forall there: There ::
               FirstIn(there, RunFiles(ctx, image, rest)) == FirstIn(there, OwnFiles(own, rest)))
            <==> Firsts(RunFiles(ctx, image, rest)) == Firsts(OwnFiles(own, rest))
  {
    hide RunFiles, OwnFiles, FirstIn, Firsts;
    SameListsIff(RunFiles(ctx, image, rest), OwnFiles(own, rest));
  }

  lemma RootIsNormal()
    ensures Normal([])
  {
  }

  lemma UnderIsNormal(dir: Path, rest: string)
    requires Normal(dir)
    ensures Normal(Under(dir, rest))
  {
    RootIsNormal();
    hide Normal, Walk, Split;
    TextIsNormal(dir, rest);
    TextIsNormal([], rest);
  }

  lemma IsAbsolute(ctx: Context, path: string)
    requires TextInStore(ctx, path)
    ensures path != "" && path[0] == '/'
  {
    hide Relative, Walk, Split, Dotted;
    if !Moves(ctx, path) { AtIndex(path, STORE, 0, 0); }
  }

  lemma SpelledAlone(here: Path, p: Path, slash: bool)
    requires Normal(p)
    ensures SpelledFrom(here, p, slash, LOADER) == LOADER <==> p == here
  {
    NoWay(here, p);
    var t := RelativeTo(here, p, LOADER);
    if p != here { WayParts(here, p); }
    assert t + "" == t;
  }

  /** A spelling opens the file it was made for, unless that is the image's own directory. */
  lemma SpelledOpens(env: Env, image: Image, p: Path, slash: bool)
    requires Normal(p)
    ensures var s := SpelledFrom(image.here, p, slash, LOADER);
            Opens(env, image, s) == if p == image.here then None else Some(OnDisk(env.ctx, p))
  {
    hide Normal, SpelledFrom, OnDisk, Split, Walk, RunFiles;
    var here := image.here;
    var s := SpelledFrom(here, p, slash, LOADER);
    SpelledExpands(here, p, slash, LOADER);
    SpelledAlone(here, p, slash);
    AnchoredStarts(s);
  }

  lemma AnchoredStarts(s: string)
    requires Anchored(s, LOADER)
    ensures !Starts(s, RPATH) && s[0] != '/' && !IsSystem(s)
    ensures Starts(s, LOADER + "/") <==> s != LOADER
    ensures s != LOADER ==> After(s, LOADER + "/") == s[13..]
  {
    assert s[0] == LOADER[0] && s[1] == LOADER[1] by { assert s[..12] == LOADER; }
    if Starts(s, RPATH) { AtIndex(s, RPATH, 0, 1); }
    if Starts(s, "/usr/lib/") { AtIndex(s, "/usr/lib/", 0, 0); }
    if Starts(s, "/System/") { AtIndex(s, "/System/", 0, 0); }
    if s != LOADER { assert s[0..13] == s[..12] + [s[12]] == LOADER + "/"; }
  }

  predicate IsLoad(cmd: nat) { IsPath(cmd) && cmd != ID_DYLIB && cmd != LC_RPATH }

  /** The command opens the same file before and after: what the tool chose; or, if that is the image's own directory,
      which is no file, nothing. */
  ghost predicate SameFile(env: Env, image: Image, path: string)
    requires Target(env, image.here, path).Some?
  {
    if Target(env, image.here, path).value.path == image.here then
      Starts(path, RPATH) && forall f :: f in RunFiles(env.ctx, image, After(path, RPATH)) ==> !env.there(f)
    else Agrees(env, image, path)
  }

  lemma NothingOpensIff(env: Env, image: Image, path: string)
    requires Target(env, image.here, path).Some?
    ensures Opens(env, image, path).None?
            <==> Starts(path, RPATH) && forall f :: f in RunFiles(env.ctx, image, After(path, RPATH)) ==> !env.there(f)
  {
    hide RunFiles, Walk, Split, OnDisk, FirstIn, Under, Final, Slashed, TextEnds, PlaceInStore, Moves, OwnFiles;
    if Starts(path, RPATH) {
      var files := RunFiles(env.ctx, image, After(path, RPATH));
      if f :| f in files && env.there(f) {
        IsIn(env.there, files, f);
      } else {
        NoneIn(env.there, files);
      }
    } else if !Starts(path, LOADER + "/") {
      IsAbsolute(env.ctx, path);
    }
  }

  /** A load command that is respelled opens, in the image as fixed, the file it opened before, exactly if dyld and the
      tool agree on it and it is not the image's own directory. */
  lemma LoadIsKept(env: Env, image: Image, later: Image, self: Path, cmd: nat, path: string)
    requires self != [] && image.here == later.here == self[..|self| - 1] && EnvOk(env, image.here) && IsLoad(cmd)
    requires NewSpelling(env, self, cmd, path).Some?
    ensures Opens(env, later, NewSpelling(env, self, cmd, path).value) == Opens(env, image, path)
            <==> IsSystem(path) || SameFile(env, image, path)
  {
    hide Target, EnvOk, Opens, Normal, SpelledFrom, IsPath, Agrees, RunFiles, FirstIn, Starts;
    if IsSystem(path) {
      SystemOpens(env, image, later, path);
    } else {
      var p := Target(env, image.here, path).value;
      TargetIsNormal(env, image.here, path);
      TargetIsOpenedIff(env, image, path);
      NothingOpensIff(env, image, path);
      SpelledOpens(env, later, p.path, p.slash);
    }
  }

  lemma SystemOpens(env: Env, image: Image, later: Image, path: string)
    requires IsSystem(path)
    ensures Opens(env, image, path) == Opens(env, later, path)
  {
    hide RunFiles, FirstIn, OnDisk, Walk, Split;
    assert path[0] == '/' by {
      if Starts(path, "/usr/lib/") { AtIndex(path, "/usr/lib/", 0, 0); } else { AtIndex(path, "/System/", 0, 0); }
    }
    if Starts(path, RPATH) { AtIndex(path, RPATH, 0, 0); }
    if Starts(path, LOADER + "/") { AtIndex(path, LOADER + "/", 0, 0); }
  }

  /** And still does wherever the store both are below is put. */
  lemma LoadMoves(pre: Path, moved: Path, here: Path, target: Path, slash: bool)
    requires Normal(moved + target)
    ensures Expand(moved + here, SpelledFrom(pre + here, pre + target, slash, LOADER), LOADER) == moved + target
  {
    hide Expand;
    RelativeUnder(pre, here, target);
    RelativeUnder(moved, here, target);
    SpelledExpands(moved + here, moved + target, slash, LOADER);
    assert pre + target == pre + here <==> target == here by { SameRest(pre, here, target); }
    assert moved + target == moved + here <==> target == here by { SameRest(moved, here, target); }
  }

  lemma SameRest(pre: Path, a: Path, b: Path)
    ensures pre + a == pre + b <==> a == b
  {
    assert (pre + a)[|pre|..] == a && (pre + b)[|pre|..] == b;
  }

  /** The id is the file's own path. */
  lemma IdIsSelf(env: Env, self: Path, path: string)
    requires self != [] && Normal(self)
    ensures NewSpelling(env, self, ID_DYLIB, path).Some?
    ensures Walk([], Split(NewSpelling(env, self, ID_DYLIB, path).value, '/')) == self
  {
    var parts := [""] + self;
    assert parts[1..] == self;
    assert Join(parts, '/') == "" + ['/'] + Join(self, '/') == "/" + Join(self, '/');
    hide Join;
    SplitOfJoin(parts, '/');
    WalkDown([], self);
  }

  /** An rpath in the store denotes the directory it did, in the finished tree. */
  lemma RpathIsKept(env: Env, self: Path, path: string)
    requires self != [] && EnvOk(env, self[..|self| - 1]) && NewSpelling(env, self, LC_RPATH, path).Some?
    ensures var here := self[..|self| - 1];
            Expand(here, NewSpelling(env, self, LC_RPATH, path).value, LOADER)
            == Final(env.ctx, Walk([], Split(path, '/')))
  {
    hide Expand, SpelledFrom, Walk, Split, TextInStore, TextEnds, Normal, Final;
    var p := Walk([], Split(path, '/'));
    RootIsNormal();
    TextIsNormal([], path);
    FinalIsNormal(env.ctx, p);
    SpelledExpands(self[..|self| - 1], Final(env.ctx, p), TextEnds(env.ctx, path), LOADER);
  }

  // ---------------------------------------------------------------- a second time nothing changes

  /** A text behind "@loader_path/". */
  lemma LoaderText(rest: string)
    ensures var s := LOADER + "/" + rest;
            && Starts(s, LOADER + "/") && After(s, LOADER + "/") == rest && !Starts(s, RPATH) && !IsSystem(s)
            && (Doubled(s) <==> rest != "" && rest[0] == '/')
  {
    var s, front := LOADER + "/" + rest, LOADER + "/";
    assert |front| == 13;
    StartsConcat(front, rest);
    assert Anchored(s, LOADER) by { assert s[..12] == LOADER && s[12] == '/'; }
    AnchoredStarts(s);
    assert rest != "" ==> s[0..14] == front + [rest[0]];
    assert LOADER + "//" == front + ['/'];
  }

  lemma SpelledText(here: Path, p: Path, slash: bool)
    requires Normal(p) && p != here
    ensures var text := Join(Relative(here, p), '/');
            SpelledFrom(here, p, slash, LOADER) == LOADER + "/" + (text + (if slash then "/" else ""))
  {
    hide Relative, Join, Normal;
    NoWay(here, p);
    WayParts(here, p);
    var text := Join(Relative(here, p), '/');
    assert LOADER + "/" + text + "/" == LOADER + "/" + (text + "/");
    assert LOADER + "/" + text + "" == LOADER + "/" + (text + "");
  }

  lemma TextLeads(here: Path, p: Path, slash: bool)
    requires Normal(p) && p != here
    ensures var rest := Join(Relative(here, p), '/') + (if slash then "/" else "");
            && rest != "" && rest[0] != '/' && Under(here, rest) == p && Slashed(rest) == (slash || Below(here, p))
  {
    hide Relative, Join, Split, Normal, Walk, Below;
    NoWay(here, p);
    WayEnds(here, p);
    WayParts(here, p);
    var way, text := Relative(here, p), Join(Relative(here, p), '/');
    SplitSlash(text);
    WalkRelative(here, p);
    WalkSlash(here, way);
    assert text + "" == text;
  }

  lemma RestOfSpelled(here: Path, p: Path, slash: bool)
    requires Normal(p) && p != here
    ensures var s := SpelledFrom(here, p, slash, LOADER);
            && Starts(s, LOADER + "/") && !Doubled(s)
            && var rest := After(s, LOADER + "/"); Under(here, rest) == p && Slashed(rest) == (slash || Below(here, p))
  {
    hide *;
    SpelledText(here, p, slash);
    TextLeads(here, p, slash);
    LoaderText(Join(Relative(here, p), '/') + (if slash then "/" else ""));
  }

  /** The way to a directory above ends in "..", any other in a name. */
  lemma WayEnds(here: Path, p: Path)
    requires Normal(p) && p != here
    ensures var way := Relative(here, p);
            && way != [] && (Below(here, p) ==> way[|way| - 1] == "..")
            && (!Below(here, p) ==> way[|way| - 1] !in ["", ".", ".."])
  {
    var n, way := Common(here, p), Relative(here, p);
    NoWay(here, p);
    if Below(here, p) {
      assert here == p + here[|p|..];
      CommonAbove(p, here[|p|..]);
    } else {
      assert n < |p| by { assert p[..|p|] == p; }
      assert way[|way| - 1] == p[n..][|p| - n - 1];
    }
  }

  lemma {:induction false} CommonAbove(dir: Path, rest: Path)
    ensures Common(dir + rest, dir) == |dir|
    decreases |dir|
  {
    if dir != [] {
      CommonAbove(dir[1..], rest);
      assert (dir + rest)[1..] == dir[1..] + rest;
    }
  }

  lemma SlashTells(here: Path, p: Path)
    requires p != here
    ensures SpelledFrom(here, p, true, LOADER) != SpelledFrom(here, p, false, LOADER)
  {
    hide RelativeTo;
    var t := RelativeTo(here, p, LOADER);
    assert |t + "/"| != |t + ""|;
  }

  lemma SecondTarget(env: Env, here: Path, p: Place)
    requires EnvOk(env, here) && Normal(p.path) && p.path != here
    ensures var s := SpelledFrom(here, p.path, p.slash, LOADER);
            !IsSystem(s) && Target(env, here, s) == Some(Place(p.path, p.slash || Below(here, p.path)))
  {
    hide SpelledFrom, Normal, Below, Under, Slashed, Expand;
    RestOfSpelled(here, p.path, p.slash);
    SpelledExpands(here, p.path, p.slash, LOADER);
    AnchoredStarts(SpelledFrom(here, p.path, p.slash, LOADER));
    hide TextInStore, TextEnds, IsSystem, Starts, Final;
  }

  lemma LoaderAlone(env: Env, here: Path)
    ensures Resolve(env, here, LOADER) == None
  {
    AnchoredStarts(LOADER);
    if TextInStore(env.ctx, LOADER) { IsAbsolute(env.ctx, LOADER); }
  }

  /** What has been respelled is left as it is, exactly unless it names the image's own directory or, without a '/' at
      its end, one above. */
  lemma SpellingIsStableIff(env: Env, self: Path, cmd: nat, path: string)
    requires self != [] && EnvOk(env, self[..|self| - 1]) && IsLoad(cmd) && NewSpelling(env, self, cmd, path).Some?
    ensures NewSpelling(env, self, cmd, NewSpelling(env, self, cmd, path).value) == NewSpelling(env, self, cmd, path)
            <==> IsSystem(path)
                 || var here := self[..|self| - 1]; var p := Target(env, here, path).value;
                    p.path != here && (p.slash || !Below(here, p.path))
  {
    hide Target, SpelledFrom, Below, EnvOk, IsSystem, Normal, Present;
    var here := self[..|self| - 1];
    if !IsSystem(path) {
      var p := Target(env, here, path).value;
      TargetIsNormal(env, here, path);
      SpelledAlone(here, p.path, p.slash);
      if p.path == here {
        LoaderAlone(env, here);
      } else {
        SecondTarget(env, here, p);
        SlashTells(here, p.path);
      }
    }
  }

  // ---------------------------------------------------------------- the file afterwards

  function SpellOf(env: Env, self: Path): Speller
    requires self != []
  {
    (c: Command) => NewSpelling(env, self, c.cmd, PathOf(c))
  }

  function RpathsOf(cs: seq<Command>): seq<string>
    decreases |cs|
  {
    if cs == [] then [] else (if cs[0].cmd == LC_RPATH then [PathOf(cs[0])] else []) + RpathsOf(cs[1..])
  }

  /** The image a file is loaded as. */
  function ImageOf(b: seq<byte>, self: Path, outer: seq<Path>, exec: Path): Image
    requires self != []
  {
    Image(self[..|self| - 1], RpathsOf(HeaderCommands(b)), outer, exec)
  }

  /** Read again, every load command that was found opens what it opened before, exactly as above. */
  lemma FixedLoads(b: seq<byte>, c: seq<byte>, env: Env, self: Path, h: Hash, outer: seq<Path>, exec: Path, i: nat)
    requires self != [] && EnvOk(env, self[..|self| - 1]) && i < |HeaderCommands(b)|
    requires WellFormed(HeaderCommands(b), SpellOf(env, self)) && Fixed(b, c, SpellOf(env, self), h)
    requires var was := HeaderCommands(b)[i];
             was.pathOff != 0 && IsLoad(was.cmd) && NewSpelling(env, self, was.cmd, PathOf(was)).Some?
    ensures i < |HeaderCommands(c)|
    ensures var image, later := ImageOf(b, self, outer, exec), ImageOf(c, self, outer, exec);
            var was, now := HeaderCommands(b)[i], HeaderCommands(c)[i];
            && now.cmd == was.cmd && PathOf(now) == NewSpelling(env, self, was.cmd, PathOf(was)).value
            && (Opens(env, later, PathOf(now)) == Opens(env, image, PathOf(was))
                <==> IsSystem(PathOf(was)) || SameFile(env, image, PathOf(was)))
  {
    hide HeaderCommands, Signed, OffSlots, AllDirectories, NewSpelling, Opens, EnvOk, PathOf, IsLoad, RpathsOf;
    hide MachO.Proper, SameFile;
    var was, spell := HeaderCommands(b)[i], SpellOf(env, self);
    EditIsProper(was, spell);
    LoadIsKept(env, ImageOf(b, self, outer, exec), ImageOf(c, self, outer, exec), self, was.cmd, PathOf(was));
    assert IsSystem(PathOf(was)) || Target(env, self[..|self| - 1], PathOf(was)).Some? by {
      SpelledHasTarget(env, self, was.cmd, PathOf(was));
    }
  }

  lemma SpelledHasTarget(env: Env, self: Path, cmd: nat, path: string)
    requires self != [] && IsLoad(cmd) && NewSpelling(env, self, cmd, path).Some?
    ensures IsSystem(path) || Target(env, self[..|self| - 1], path).Some?
  {
  }

  lemma RootZ(here: Path)
    ensures Split("/z", '/') == ["", "z"] && Walk([], ["", "z"]) == ["z"] && Walk(here, ["", "z"]) == here + ["z"]
    ensures !Slashed("/z")
  {
    var parts: seq<string> := ["", "z"];
    assert parts[1..] == ["z"] && Join(parts, '/') == "/z";
    hide Join, Split;
    SplitOfJoin(parts, '/');
    WalkDown(here, ["z"]);
    WalkDown([], ["z"]);
  }

  lemma PlacesOfZ(ctx: Context)
    requires ctx == Context(["p"], ["p"])
    ensures OnDisk(ctx, ["z"]) == ["z"] && OnDisk(ctx, ["p", "bin"] + ["z"]) == ["p", "bin", "z"]
  {
    hide Moved;
    var deep: Path := ["p", "bin"] + ["z"];
    MovedPath(["z"], ["p"], ["p"]);
    MovedPath(deep, ["p"], ["p"]);
    assert ["p"] + deep[1..] == deep == ["p", "bin", "z"];
  }

  lemma DoubledTarget(env: Env, image: Image, path: string)
    requires env.ctx == Context(["p"], ["p"]) && image.here == ["p", "bin"] && path == LOADER + "/" + "/z"
    ensures Doubled(path) && !IsSystem(path) && Opens(env, image, path) == Some(["p", "bin", "z"])
    ensures Resolve(env, image.here, path) == Some(Place(["z"], false))
  {
    hide Split, Walk, OnDisk, Slashed, IsSystem, Doubled, Starts, RunFiles;
    LoaderText("/z");
    RootZ(["p", "bin"]);
    PlacesOfZ(env.ctx);
    assert Under(["p", "bin"], "/z") == ["z"];
  }

  /** The tool takes what follows "@loader_path/" for an absolute path: the image then loads another file. */
  lemma DoubledLoadIsMoved(env: Env, image: Image, later: Image, path: string)
    requires env.ctx == Context(["p"], ["p"]) && image.here == later.here == ["p", "bin"]
    requires path == LOADER + "/" + "/z"
    ensures var self := ["p", "bin", "t"];
            && Doubled(path) && Opens(env, image, path) == Some(["p", "bin", "z"])
            && NewSpelling(env, self, 0xc, path).Some?
            && Opens(env, later, NewSpelling(env, self, 0xc, path).value) == Some(["z"])
  {
    hide Resolve, Opens, SpelledFrom, OnDisk, Doubled, IsSystem;
    assert ["p", "bin", "t"][..2] == ["p", "bin"];
    DoubledTarget(env, image, path);
    PlacesOfZ(env.ctx);
    assert Normal(["z"]);
    SpelledOpens(env, later, ["z"], false);
  }

  /** Both /q and the package's /p/lib have z. */
  predicate InTwo(p: Path) { p in [["q", "z"], ["p", "lib", "z"]] }

  const TWO: Env := Env(Context(["p"], ["p"]), [["p", "lib"]], InTwo, None)

  const BY_Q: Image := Image(["p", "bin"], ["/q"], [], ["p", "bin"])

  lemma TextsOfTwo(dir: Path)
    ensures Split("z", '/') == ["z"] && Walk(dir, ["z"]) == dir + ["z"] && !Slashed("z")
    ensures Split("/q", '/') == ["", "q"] && Walk([], ["", "q"]) == ["q"]
  {
    var parts: seq<string> := ["", "q"];
    assert parts[1..] == ["q"] && Join(parts, '/') == "/q" && Join(["z"], '/') == "z";
    hide Join, Split;
    SplitOfJoin(parts, '/');
    SplitOfJoin(["z"], '/');
    WalkDown(dir, ["z"]);
    WalkDown([], ["q"]);
  }

  lemma PlacesOfTwo(ctx: Context)
    requires ctx == Context(["p"], ["p"])
    ensures OnDisk(ctx, ["q"] + ["z"]) == ["q", "z"]
    ensures var f := ["p", "lib"] + ["z"]; f == ["p", "lib", "z"] && Final(ctx, f) == f && OnDisk(ctx, f) == f
  {
    hide Moved;
    var f: Path := ["p", "lib"] + ["z"];
    MovedPath(["q"] + ["z"], ["p"], ["p"]);
    MovedPath(f, ["p"], ["p"]);
    assert ["p"] + f[1..] == f;
  }

  lemma QIsTried()
    ensures RunFiles(TWO.ctx, BY_Q, "z") == [["q", "z"]]
  {
    hide Split, Walk, OnDisk;
    TextsOfTwo(["q"]);
    PlacesOfTwo(TWO.ctx);
    assert !Anchored("/q", LOADER) && !Anchored("/q", EXECUTABLE);
    var rpaths := BY_Q.rpaths;
    assert rpaths[1..] == [] && RunDirs(BY_Q, rpaths[1..]) == [];
    assert RunDirs(BY_Q, rpaths) == [["q"]];
  }

  lemma OwnIsChosen()
    ensures OwnFiles(TWO.own, "z") == [["p", "lib", "z"]] && !Slashed("z")
  {
    hide Split, Walk, OnDisk;
    TextsOfTwo(["p", "lib"]);
    PlacesOfTwo(TWO.ctx);
  }

  lemma RpathText(rest: string)
    ensures var s := RPATH + rest; Starts(s, RPATH) && After(s, RPATH) == rest && !IsSystem(s)
  {
    var s := RPATH + rest;
    StartsConcat(RPATH, rest);
    assert s[0] == '@' && s[|RPATH|..] == rest;
    if Starts(s, "/usr/lib/") { AtIndex(s, "/usr/lib/", 0, 0); }
    if Starts(s, "/System/") { AtIndex(s, "/System/", 0, 0); }
  }

  lemma RpathTarget(path: string)
    requires path == RPATH + "z"
    ensures !IsSystem(path) && Opens(TWO, BY_Q, path) == Some(["q", "z"])
    ensures Resolve(TWO, ["p", "bin"], path) == Some(Place(["p", "lib", "z"], false))
  {
    hide Split, Walk, OnDisk, Slashed, IsSystem, Starts, RunFiles, OwnFiles, After, Final, FirstIn;
    RpathText("z");
    QIsTried();
    OwnIsChosen();
    PlacesOfTwo(TWO.ctx);
    OneIn(TWO.there, ["q", "z"]);
    OneIn(TWO.there, ["p", "lib", "z"]);
  }

  /** The tool looks for @rpath in the package alone: what dyld found by the image's LC_RPATH is then another file. */
  lemma RpathLoadIsMoved(later: Image, path: string)
    requires later.here == ["p", "bin"] && path == RPATH + "z"
    ensures var self := ["p", "bin", "t"];
            && Opens(TWO, BY_Q, path) == Some(["q", "z"])
            && NewSpelling(TWO, self, 0xc, path).Some?
            && Opens(TWO, later, NewSpelling(TWO, self, 0xc, path).value) == Some(["p", "lib", "z"])
  {
    hide Resolve, Opens, SpelledFrom, OnDisk, IsSystem;
    assert ["p", "bin", "t"][..2] == ["p", "bin"];
    RpathTarget(path);
    PlacesOfTwo(TWO.ctx);
    assert Normal(["p", "lib", "z"]);
    SpelledOpens(TWO, later, ["p", "lib", "z"], false);
  }
}
