/** Runs in which the compile cache replays what the compiler would not produce now. */
module ReplayFails {
  import opened Bytes
  import opened Text
  import opened Masking
  import opened OutHash
  import opened Roots
  import opened Decimal
  import opened RequestKey
  import opened Manifest
  import opened Compiler
  import opened Replay
  import opened ReplayRuns

  lemma ShortIsPlain(site: Site, s: string)
    requires |s| < 11
    ensures Clean(s) && Unmasked(site, s) && MaskOut(site.id, s) == s && Masked(s) == s && !IsStorePath(s)
    ensures Resolve(Masked(s), site.table) == Some(s)
  {
    CleanIsKept(s);
    if site.id.outHash != "" {
      var h := site.id.outHash;
      ReplacedCopies(s, Marker(h), Marker(Placeholder()), |s|);
      assert s[|s|..] == "" && s[..|s|] == s;
    }
  }

  /** What every job here has in common: one short source, no precompiled headers. */
  function Plain(args: seq<string>): Job {
    Job(Invocation("cc", "/", Compile, "/a.c", "", args), "/a.o", {}, [], "t", false)
  }

  lemma PlainIsOk(setup: Setup, args: seq<string>)
    requires Blind(TreeOf(setup, Plain(args)), {"/a.o"}) && Tame(setup.site, TreeOf(setup, Plain(args)))
    requires setup.pch(Essential(Plain(args).inv)) == []
    ensures JobOk(setup, Plain(args))
  {
    ShortIsPlain(setup.site, "/a.c");
    ShortIsPlain(setup.site, "/a.o");
    ShortIsPlain(setup.site, "t");
    hide Blind, Tame, Unmasked, Resolve, Masked, OutSwapped, IsStorePath, Own, TreeOf;
    assert Outs(Plain(args)) == {"/a.o"};
  }

  lemma PrimaryOfPlain(setup: Setup, w: World, args: seq<string>)
    requires setup.pch(Essential(Plain(args).inv)) == [] && "/a.c" in w
    ensures Primary(setup, w, Plain(args)) == Some(w["/a.c"] + "" + ("\ntoolchain=" + "t"))
  {
  }

  // ---------------------------------------------------------------- a store path in an argument

  /** A macro with a store path in it. */
  function Define(h: string): string { "-DX=\"" + (PREFIX + h + "-z\"") }

  /** A compiler whose object is its first argument. */
  function Echo(inv: Invocation, toolchain: string): Tree {
    Finish(Result(0, if |inv.args| > 0 then inv.args[0] else ""))
  }

  function EchoSetup(hash: string -> string): Setup {
    Setup(Site(Identity(true, ""), map[], hash), Echo, inv => [], map[], "")
  }

  lemma DefineMasked(h: string)
    requires IsStoreHash(h)
    ensures Masked(Define(h)) == "-DX=\"" + (PREFIX + "*" + "-z\"")
  {
    var t := Define(h);
    var u := PREFIX + h + "-z\"";
    forall i: nat | i < 5
      ensures !At(t, PREFIX, i)
    {
      if At(t, PREFIX, i) { AtIndex(t, PREFIX, i, 0); }
    }
    assert t[5..] == u && t[..5] == "-DX=\"";
    assert u[0..11] == PREFIX && u[11..43] == h && u[43..] == "-z\"";
    assert Occurs(u, 0);
    assert Clean("-z\"");
    hide Masked, Occurs, At, Named;
    MaskedCopies(t, 5);
    MaskedAtHash(u);
    CleanIsKept("-z\"");
  }

  lemma SameCall(id: Identity, h: string, g: string)
    requires id == Identity(true, "") && IsStoreHash(h) && IsStoreHash(g)
    ensures CallOf(id, Plain([Define(h)]).inv) == CallOf(id, Plain([Define(g)]).inv)
  {
    DefineMasked(h);
    DefineMasked(g);
    hide Masked, Define;
    assert ArgTexts(id, Compile, [Define(h)]) == ArgTexts(id, Compile, [Define(g)]);
  }

  /** Two compiles that differ in a store hash within an argument have one key: the second replays the first. */
  lemma DefineHitsWrongly(hash: string -> string, h: string, g: string)
    requires GoodHash(hash) && IsStoreHash(h) && IsStoreHash(g)
    ensures var setup, start := EchoSetup(hash), map["/a.c" := ""];
            var es := [Build(Plain([Define(h)]), start["/a.o" := Define(h)], true, "", "")];
            && SetupOk(setup) && WorldOk(setup, start) && JobOk(setup, Plain([Define(g)]))
            && Happens(setup, Empty(start), es)
            && var m := Final(setup, Empty(start), es);
               && Lookup(setup, m, Plain([Define(g)])) == Some(Result(0, Define(h)))
               && Run(TreeOf(setup, Plain([Define(g)])), m.world) == Result(0, Define(g))
  {
    var setup, job, other := EchoSetup(hash), Plain([Define(h)]), Plain([Define(g)]);
    var start: World := map["/a.c" := ""];
    var after := start["/a.o" := Define(h)];
    PlainIsOk(setup, [Define(h)]);
    PlainIsOk(setup, [Define(g)]);
    PrimaryOfPlain(setup, start, [Define(h)]);
    PrimaryOfPlain(setup, after, [Define(h)]);
    PrimaryOfPlain(setup, after, [Define(g)]);
    EchoWorlds(hash, h);
    SameCall(setup.site.id, h, g);
    assert Outcome(setup, Origin(job, start, after)) == Result(0, Define(h));
    hide Define, JobOk, WorldOk, GoodHash, Primary, Outcome, Final, Happens, SameBut, Lookup;
    OneBuild(setup, start, job, after);
    LookupIsByCall(setup, Final(setup, Empty(start), [Build(job, after, true, "", "")]), job, other);
  }

  lemma EchoWorlds(hash: string -> string, h: string)
    ensures var start: World := map["/a.c" := ""];
            var after := start["/a.o" := Define(h)];
            WorldOk(EchoSetup(hash), start) && WorldOk(EchoSetup(hash), after) && SameBut(start, after, {"/a.o"})
  {
    ShortIsPlain(EchoSetup(hash).site, "/a.c");
    ShortIsPlain(EchoSetup(hash).site, "/a.o");
  }

  /** A first compile that succeeds is stored and found again. */
  lemma OneBuild(setup: Setup, start: World, job: Job, after: World)
    requires SetupOk(setup) && WorldOk(setup, start) && WorldOk(setup, after) && JobOk(setup, job)
    requires SameBut(start, after, Outs(job)) && Primary(setup, start, job).Some?
    requires Outcome(setup, Origin(job, start, after)).status == 0
    ensures var e, o := Build(job, after, true, "", ""), Origin(job, start, after);
            && Happens(setup, Empty(start), [e])
            && Final(setup, Empty(start), [e]) == Stored(setup, Empty(start), o, "", "")
            && Made(setup, KeyOf(setup, o), o) && Sound(setup, Empty(start))
            && Lookup(setup, Final(setup, Empty(start), [e]), job) == Some(Result(0, Outcome(setup, o).bytes))
  {
    var m, e, o := Empty(start), Build(job, after, true, "", ""), Origin(job, start, after);
    NothingIsFound(setup, start, job);
    hide JobOk, WorldOk, GoodHash, Primary, Outcome, KeyOf, StatusSlot, ObjectSlot, SameBut, Lookup;
    assert Made(setup, KeyOf(setup, o), o);
    assert Sound(setup, m);
    StoredIsFound(setup, m, o, "", "");
    OneEvent(setup, m, e);
  }

  lemma NothingIsFound(setup: Setup, start: World, job: Job)
    ensures Lookup(setup, Empty(start), job).None?
  {
    hide Primary, K1, Validated;
  }

  lemma OneEvent(setup: Setup, m: Machine, e: Event)
    requires CanHappen(setup, m, e)
    ensures Happens(setup, m, [e]) && Final(setup, m, [e]) == Next(setup, m, e)
  {
    hide CanHappen, Next;
    var n := Next(setup, m, e);
    assert [e][1..] == [];
    assert Happens(setup, n, []) && Final(setup, n, []) == n;
  }

  lemma LookupIsByCall(setup: Setup, m: Machine, job: Job, other: Job)
    requires CallOf(setup.site.id, job.inv) == CallOf(setup.site.id, other.inv)
    requires Primary(setup, m.world, job) == Primary(setup, m.world, other) && job.wantsDepfile == other.wantsDepfile
    ensures Lookup(setup, m, job) == Lookup(setup, m, other)
  {
    assert job.inv.mode == CallOf(setup.site.id, job.inv).mode == other.inv.mode;
    hide CallOf, Primary, Validated, StatusOf;
  }

  // ---------------------------------------------------------------- files below the output

  function Output(h: string): string { PREFIX + h + "-z" }

  function Header(h: string): string { Output(h) + "/x.h" }

  /** The compiler's object is the header, "0" without one. */
  ghost function Asks(h: string): Tree {
    Look(Header(h), imap[None := Finish(Result(0, "0")), Some("1") := Finish(Result(0, "1")),
                         Some("2") := Finish(Result(0, "2"))])
  }

  /** The compiler refuses the header "1" and takes "2". */
  ghost function Refuses(h: string): Tree {
    Look(Header(h), imap[Some("1") := Finish(Result(1, "")), Some("2") := Finish(Result(0, "2"))])
  }

  ghost function OutSetup(hash: string -> string, h: string, byContent: bool, t: Tree): Setup {
    Setup(Site(Identity(byContent, if byContent then h else ""), map[STARRED + "z" := Output(h)], hash),
          (inv, toolchain) => t, inv => [], map[], Output(h))
  }

  lemma HeaderShape(h: string)
    requires IsStoreHash(h)
    ensures var r, p := Output(h), Header(h);
            && Occurs(r, 0) && r[44..] == "z" && (forall i: nat :: 0 < i ==> !Occurs(p, i))
            && Starts(p, PREFIX) && Starts(p, r + "/") && !Starts(p, STARRED) && p[0] == '/' && '\t' !in p && '\n' !in p
  {
    var r, p := Output(h), Header(h);
    HashCharsArePlain(h);
    assert p == PREFIX + h + "-z/x.h" && p[44..] == "z/x.h";
    assert r[0..11] == PREFIX && r[11..43] == h && r[43] == '-' && r[44..] == "z";
    assert p[0..11] == PREFIX && p[11..43] == h && p[0..|r| + 1] == r + "/";
    forall i: nat | 0 < i
      ensures !Occurs(p, i)
    {
      if Occurs(p, i) { OccursChars(p, i); }
    }
    assert p[0..13][11] == h[0];
  }

  lemma HeaderIsOwn(hash: string -> string, h: string, byContent: bool, t: Tree)
    requires IsStoreHash(h)
    ensures var setup := OutSetup(hash, h, byContent, t); Own(setup, Header(h)) && Recordable(setup.site, Header(h))
  {
    var setup, r := OutSetup(hash, h, byContent, t), Output(h);
    HeaderShape(h);
    hide Masked, Occurs, Starts, Output;
    if byContent {
      MaskedPath(r, "/x.h");
      ResolveMasked(r, "/x.h", setup.site.table);
    }
  }

  lemma HashCharsArePlain(h: string)
    requires IsStoreHash(h)
    ensures '\t' !in h && '\n' !in h && '*' !in h && '/' !in h
  {
    forall i | 0 <= i < |h|
      ensures h[i] != '\t' && h[i] != '\n' && h[i] != '*' && h[i] != '/'
    {
      PlainChar(h[i]);
    }
  }

  lemma PlainChar(c: char)
    requires HashChar(c)
    ensures c != '\t' && c != '\n' && c != '*' && c != '/'
  {
  }

  lemma OutJobIsOk(hash: string -> string, h: string, byContent: bool, t: Tree)
    requires GoodHash(hash) && IsStoreHash(h)
    requires t == Asks(h) || t == Refuses(h)
    ensures var setup := OutSetup(hash, h, byContent, t);
            SetupOk(setup) && JobOk(setup, Plain([])) && TreeOf(setup, Plain([])) == t
  {
    var setup := OutSetup(hash, h, byContent, t);
    HeaderIsOwn(hash, h, byContent, t);
    hide Recordable, Own;
    ShortIsPlain(setup.site, "");
    ShortIsPlain(setup.site, "0");
    ShortIsPlain(setup.site, "1");
    ShortIsPlain(setup.site, "2");
    hide Unmasked;
    PlainIsOk(setup, []);
  }

  /** A file changed after a first compile that succeeds leaves the hit, where the key and the manifest do not tell. */
  lemma BuildThenEdit(setup: Setup, start: World, job: Job, after: World, p: string, text: string)
    requires SetupOk(setup) && WorldOk(setup, start) && WorldOk(setup, after) && JobOk(setup, job)
    requires SameBut(start, after, Outs(job)) && Primary(setup, start, job).Some?
    requires Outcome(setup, Origin(job, start, after)).status == 0
    requires Own(setup, p) && p != "" && Unmasked(setup.site, text)
    requires Primary(setup, after[p := text], job) == Primary(setup, start, job)
    requires JobLines(setup, job, start, after[p := text]) == JobLines(setup, job, start, after)
    ensures var es := [Build(job, after, true, "", ""), Edit(p, Some(text))];
            && Happens(setup, Empty(start), es) && Final(setup, Empty(start), es).world == after[p := text]
            && Lookup(setup, Final(setup, Empty(start), es), job)
               == Some(Result(0, Outcome(setup, Origin(job, start, after)).bytes))
  {
    var m, o, u := Empty(start), Origin(job, start, after), after[p := text];
    var e, f := Build(job, after, true, "", ""), Edit(p, Some(text));
    hide JobOk, WorldOk, GoodHash, Primary, Outcome, KeyOf, StatusSlot, ObjectSlot, SameBut, Lookup, JobLines, Own;
    hide Unmasked;
    OneBuild(setup, start, job, after);
    var n := Stored(setup, m, o, "", "");
    assert n.world == after;
    StoredStaysFound(setup, m, o, "", "", u);
    assert CanHappen(setup, n, f) && Next(setup, n, f) == n.(world := u);
    hide Stored, CanHappen, Next;
    OneMore(setup, m, [e], f);
    assert [e] + [f] == [e, f];
  }

  lemma {:induction false} OneMore(setup: Setup, m: Machine, es: seq<Event>, e: Event)
    requires Happens(setup, m, es) && CanHappen(setup, Final(setup, m, es), e)
    ensures Happens(setup, m, es + [e]) && Final(setup, m, es + [e]) == Next(setup, Final(setup, m, es), e)
    decreases |es|
  {
    hide CanHappen, Next;
    var all := es + [e];
    if es == [] {
      assert all == [e];
      OneEvent(setup, m, e);
    } else {
      OneMore(setup, Next(setup, m, es[0]), es[1..], e);
      assert all[0] == es[0] && all[1..] == es[1..] + [e];
    }
  }

  lemma OutWorldOk(hash: string -> string, h: string, byContent: bool, t: Tree, w: World)
    requires IsStoreHash(h) && w.Keys <= {"/a.c", "/a.o", Header(h)} && forall p :: p in w ==> |w[p]| < 11
    ensures WorldOk(OutSetup(hash, h, byContent, t), w)
  {
    var setup := OutSetup(hash, h, byContent, t);
    HeaderIsOwn(hash, h, byContent, t);
    ShortIsPlain(setup.site, "/a.c");
    ShortIsPlain(setup.site, "/a.o");
    hide Own, Unmasked, Recordable, IsStorePath;
    forall p | p in w
      ensures Unmasked(setup.site, w[p])
    {
      ShortIsPlain(setup.site, w[p]);
    }
    assert Header(h) != "";
  }

  lemma HeaderIsElsewhere(h: string)
    requires IsStoreHash(h)
    ensures Header(h) != "/a.c" && Header(h) != "/a.o" && Header(h) != "" && IsStorePath(Header(h))
  {
    HeaderShape(h);
    assert |Header(h)| == 49;
  }

  /** By content: a header that was not there is installed below the output, and the object without it is replayed. */
  lemma InstalledLaterStillHits(hash: string -> string, h: string)
    requires GoodHash(hash) && IsStoreHash(h)
    ensures var setup, job, start := OutSetup(hash, h, true, Asks(h)), Plain([]), map["/a.c" := ""];
            var es := [Build(job, start["/a.o" := "0"], true, "", ""), Edit(Header(h), Some("1"))];
            && SetupOk(setup) && WorldOk(setup, start) && JobOk(setup, job) && Happens(setup, Empty(start), es)
            && var m := Final(setup, Empty(start), es);
               Lookup(setup, m, job) == Some(Result(0, "0")) && Run(TreeOf(setup, job), m.world) == Result(0, "1")
  {
    var setup, job, start: World := OutSetup(hash, h, true, Asks(h)), Plain([]), map["/a.c" := ""];
    var after := start["/a.o" := "0"];
    HeaderIsElsewhere(h);
    StaleHit(hash, h, true, start, after, "1");
  }

  /** By path: a header below the output changes, and the object with the old one is replayed. */
  lemma ChangedHeaderStillHits(hash: string -> string, h: string)
    requires GoodHash(hash) && IsStoreHash(h)
    ensures var setup, job, start := OutSetup(hash, h, false, Asks(h)), Plain([]), map["/a.c" := "", Header(h) := "1"];
            var es := [Build(job, start["/a.o" := "1"], true, "", ""), Edit(Header(h), Some("2"))];
            && SetupOk(setup) && WorldOk(setup, start) && JobOk(setup, job) && Happens(setup, Empty(start), es)
            && var m := Final(setup, Empty(start), es);
               Lookup(setup, m, job) == Some(Result(0, "1")) && Run(TreeOf(setup, job), m.world) == Result(0, "2")
  {
    var setup, job, start: World := OutSetup(hash, h, false, Asks(h)), Plain([]), map["/a.c" := "", Header(h) := "1"];
    var after := start["/a.o" := "1"];
    HeaderIsElsewhere(h);
    StaleHit(hash, h, false, start, after, "2");
  }

  lemma LinesAreStale(hash: string -> string, h: string, byContent: bool, w: World, v: World, u: World)
    requires IsStoreHash(h) && (byContent ==> Header(h) !in w)
    ensures JobLines(OutSetup(hash, h, byContent, Asks(h)), Plain([]), w, v)
            == JobLines(OutSetup(hash, h, byContent, Asks(h)), Plain([]), w, u)
  {
    var setup, t := OutSetup(hash, h, byContent, Asks(h)), Asks(h);
    HeaderIsElsewhere(h);
    hide Header, Masked;
    var x, site := Header(h), setup.site;
    assert Read(t, w) == (if x in w then [x] else []) && Sought(t, w) == (if x in w then [] else [x]);
    OneLine(site, v, x);
    OneLine(site, u, x);
  }

  lemma OneLine(site: Site, w: World, x: string)
    requires IsStorePath(x) && x != "/a.c"
    ensures !site.id.byContent ==> InputLines(site, w, [x], "/a.c") == [InputLine(site, x, "S:" + x)]
    ensures InputLines(site, w, [], "/a.c") == [] && AbsentLines(site, w, [x]) == [] && AbsentLines(site, w, []) == []
  {
    hide Masked;
    assert [x][..0] == [];
  }

  lemma AsksRuns(h: string, w: World)
    requires Header(h) in w ==> w[Header(h)] in ["1", "2"]
    ensures Run(Asks(h), w) == Result(0, if Header(h) in w then w[Header(h)] else "0")
  {
    hide Header;
  }

  lemma StaleHit(hash: string -> string, h: string, byContent: bool, start: World, after: World, text: string)
    requires GoodHash(hash) && IsStoreHash(h)
    requires start == map["/a.c" := ""] || (!byContent && start == map["/a.c" := "", Header(h) := "1"])
    requires after == start["/a.o" := if Header(h) in start then "1" else "0"] && text in ["1", "2"]
    ensures var setup, job := OutSetup(hash, h, byContent, Asks(h)), Plain([]);
            var es := [Build(job, after, true, "", ""), Edit(Header(h), Some(text))];
            && SetupOk(setup) && WorldOk(setup, start) && JobOk(setup, job) && Happens(setup, Empty(start), es)
            && var m := Final(setup, Empty(start), es);
               && Lookup(setup, m, job) == Some(Result(0, if Header(h) in start then "1" else "0"))
               && Run(TreeOf(setup, job), m.world) == Result(0, text)
  {
    var t, x := Asks(h), Header(h);
    var setup, job := OutSetup(hash, h, byContent, t), Plain([]);
    hide JobOk, WorldOk, GoodHash, Primary, Lookup, JobLines, Own, Unmasked, Run, Asks, Header, Happens, Final;
    hide IsStorePath, Recordable, Clean, Masked, OutSwapped, Resolve;
    HeaderIsElsewhere(h);
    HeaderIsOwn(hash, h, byContent, t);
    OutJobIsOk(hash, h, byContent, t);
    OutWorldOk(hash, h, byContent, t, start);
    OutWorldOk(hash, h, byContent, t, after);
    ShortIsPlain(setup.site, text);
    PrimaryOfPlain(setup, start, []);
    PrimaryOfPlain(setup, after[x := text], []);
    LinesAreStale(hash, h, byContent, start, after, after[x := text]);
    AsksRuns(h, start);
    AsksRuns(h, after[x := text]);
    BuildThenEdit(setup, start, job, after, x, text);
  }

  // ---------------------------------------------------------------- a failure kept under the key of a success

  lemma RefusesRuns(h: string, w: World)
    requires Header(h) in w && w[Header(h)] in ["1", "2"]
    ensures Run(Refuses(h), w) == if w[Header(h)] == "1" then Result(1, "") else Result(0, "2")
    ensures Read(Refuses(h), w) == [Header(h)] && Sought(Refuses(h), w) == []
  {
    hide Header;
  }

  lemma RefusesLines(hash: string -> string, h: string, w: World, v: World)
    requires IsStoreHash(h) && Header(h) in w && w[Header(h)] in ["1", "2"]
    ensures var setup := OutSetup(hash, h, false, Refuses(h));
            JobLines(setup, Plain([]), w, v) == [InputLine(setup.site, Header(h), "S:" + Header(h))]
  {
    HeaderIsElsewhere(h);
    RefusesRuns(h, w);
    hide Header, Masked, Refuses, Read, Sought;
    OneLine(OutSetup(hash, h, false, Refuses(h)).site, v, Header(h));
  }

  lemma FailureIsFiled(cache: Cache, job: Job, k1: string, k2: string, text: string, masked: string)
    requires job.inv.mode.Compile?
    ensures var c := Filed(cache, job, k1, k2, text, 1, masked, "", "") - {ManifestSlot(k1)};
            StatusSlot(k2) in c && StatusOf(c[StatusSlot(k2)]) == 1 && ManifestSlot(k1) !in c
  {
    hide Digits, StatusOf, ManifestSlot, StatusSlot, StderrSlot;
    SlotsApart(k1, k2);
    SlotsApart(k2, k2);
    StatusRoundTrip(1);
  }

  /** What is found after a success was stored where its key had a failure. */
  lemma FailureWins(setup: Setup, m: Machine, o: Origin)
    requires SetupOk(setup) && Primary(setup, o.before, o.job).Some? && Made(setup, KeyOf(setup, o), o)
    requires Outcome(setup, o).status == 0 && o.job.inv.mode.Compile?
    requires StatusSlot(KeyOf(setup, o)) in m.cache && StatusOf(m.cache[StatusSlot(KeyOf(setup, o))]) == 1
    ensures Lookup(setup, Stored(setup, m, o, "", ""), o.job) == Some(Result(1, ""))
  {
    var r, k2 := Outcome(setup, o), KeyOf(setup, o);
    hide JobOk, WorldOk, GoodHash, Outcome, KeyOf, Primary, JobLines, StatusSlot, StatusOf, SameBut, K1, TextOf;
    hide MaskOut, Filed, Replayed, FindResult;
    KeyIsStable(setup, o.job, o.before, o.after);
    StoredLeadsThere(setup, m, o, "", "", o.after);
    assert Stored(setup, m, o, "", "").(world := o.after) == Stored(setup, m, o, "", "");
    FiledIsFound(m.cache, o.job, K1(setup, o.before, o.job), k2, TextOf(JobLines(setup, o.job, o.before, o.after)),
                 r.status, MaskOut(setup.site.id, r.bytes), "", "", setup.site.id);
  }

  lemma NoManifestNoHit(setup: Setup, m: Machine, job: Job)
    requires Primary(setup, m.world, job).Some? && ManifestSlot(K1(setup, m.world, job)) !in m.cache
    ensures Lookup(setup, m, job).None?
  {
    hide Primary, K1, Validated;
  }

  /** The machine after the failed build, the edit and the eviction. */
  ghost function Before(setup: Setup, o: Origin, u: World): Machine
    requires Primary(setup, o.before, o.job).Some?
  {
    var n := Stored(setup, Empty(o.before), o, "", "");
    n.(world := u, cache := n.cache - {ManifestSlot(K1(setup, o.before, o.job))})
  }

  lemma BeforeHappens(setup: Setup, o: Origin, p: string, text: string)
    requires SetupOk(setup) && WorldOk(setup, o.before) && WorldOk(setup, o.after) && JobOk(setup, o.job)
    requires SameBut(o.before, o.after, Outs(o.job)) && Primary(setup, o.before, o.job).Some?
    requires Own(setup, p) && p != "" && Unmasked(setup.site, text)
    ensures var es := [Build(o.job, o.after, true, "", ""), Edit(p, Some(text)),
                       Evict({ManifestSlot(K1(setup, o.before, o.job))})];
            && Happens(setup, Empty(o.before), es)
            && Final(setup, Empty(o.before), es) == Before(setup, o, o.after[p := text])
  {
    hide JobOk, WorldOk, GoodHash, Primary, SameBut, Lookup, Own, Unmasked, K1, ManifestSlot, Filed, KeyOf, Outcome;
    hide TextOf, MaskOut, JobLines, ObjectSlot, StatusSlot;
    var m, e := Empty(o.before), Build(o.job, o.after, true, "", "");
    var f, g := Edit(p, Some(text)), Evict({ManifestSlot(K1(setup, o.before, o.job))});
    NothingIsFound(setup, o.before, o.job);
    assert CanHappen(setup, m, e) && Next(setup, m, e) == Stored(setup, m, o, "", "");
    assert Stored(setup, m, o, "", "").world == o.after;
    hide Stored;
    OneEvent(setup, m, e);
    OneMore(setup, m, [e], f);
    assert [e] + [f] == [e, f];
    OneMore(setup, m, [e, f], g);
    assert [e, f] + [g] == [e, f, g];
  }

  ghost function Failing(hash: string -> string, h: string): Setup { OutSetup(hash, h, false, Refuses(h)) }

  function Fresh(h: string, text: string): World { map["/a.c" := "", Header(h) := text] }

  lemma FreshFacts(hash: string -> string, h: string, text: string, w: World)
    requires GoodHash(hash) && IsStoreHash(h) && text in ["1", "2"]
    requires w == Fresh(h, text) || w == Fresh(h, text)["/a.o" := "2"]
    ensures WorldOk(Failing(hash, h), w) && Header(h) in w && w[Header(h)] == text
    ensures Primary(Failing(hash, h), w, Plain([])) == Some("\ntoolchain=t")
    ensures TreeOf(Failing(hash, h), Plain([])) == Refuses(h)
  {
    hide JobOk, WorldOk, Own, Recordable, Header, Refuses, Primary, GoodHash;
    HeaderIsElsewhere(h);
    OutWorldOk(hash, h, false, Refuses(h), w);
    PrimaryOfPlain(Failing(hash, h), w, []);
    OutJobIsOk(hash, h, false, Refuses(h));
    assert "" + "" + ("\ntoolchain=" + "t") == "\ntoolchain=t";
  }

  lemma OneKeyForBoth(hash: string -> string, h: string)
    requires GoodHash(hash) && IsStoreHash(h)
    ensures var setup, job := Failing(hash, h), Plain([]);
            var w, u := Fresh(h, "1"), Fresh(h, "2");
            var o, q := Origin(job, w, w), Origin(job, u, u["/a.o" := "2"]);
            && Primary(setup, w, job).Some? && Primary(setup, u, job).Some? && KeyOf(setup, o) == KeyOf(setup, q)
            && K1(setup, w, job) == K1(setup, u, job)
            && Outcome(setup, o) == Result(1, "") && Outcome(setup, q) == Result(0, "2")
  {
    hide WorldOk, Header, Refuses, Primary, GoodHash, OutSetup;
    var w, u := Fresh(h, "1"), Fresh(h, "2");
    FreshFacts(hash, h, "1", w);
    FreshFacts(hash, h, "2", u);
    RefusesRuns(h, w);
    RefusesRuns(h, u);
    RefusesLines(hash, h, w, w);
    RefusesLines(hash, h, u, u["/a.o" := "2"]);
    hide JobLines, Run, TreeOf;
  }

  lemma FailureStays(setup: Setup, o: Origin, u: World)
    requires Primary(setup, o.before, o.job).Some? && Outcome(setup, o) == Result(1, "") && o.job.inv.mode.Compile?
    ensures var n, k2 := Before(setup, o, u), KeyOf(setup, o);
            && n.world == u && StatusSlot(k2) in n.cache && StatusOf(n.cache[StatusSlot(k2)]) == 1
            && ManifestSlot(K1(setup, o.before, o.job)) !in n.cache
  {
    hide Primary, K1, KeyOf, Outcome, JobLines, TextOf, MaskOut, StatusOf, StatusSlot, ManifestSlot, Filed;
    FailureIsFiled(map[], o.job, K1(setup, o.before, o.job), KeyOf(setup, o),
                   TextOf(JobLines(setup, o.job, o.before, o.after)), MaskOut(setup.site.id, ""));
  }

  /** A failed build, an edit of something the key and the manifest do not tell, an eviction of the manifest and a build
      that now succeeds: the failure is found. */
  lemma FailThenSucceed(setup: Setup, o: Origin, q: Origin, p: string, text: string)
    requires SetupOk(setup) && JobOk(setup, o.job) && q.job == o.job && o.job.inv.mode.Compile?
    requires WorldOk(setup, o.before) && WorldOk(setup, o.after) && WorldOk(setup, q.before) && WorldOk(setup, q.after)
    requires SameBut(o.before, o.after, Outs(o.job)) && SameBut(q.before, q.after, Outs(o.job))
    requires Own(setup, p) && p != "" && Unmasked(setup.site, text) && q.before == o.after[p := text]
    requires Primary(setup, o.before, o.job).Some? && Primary(setup, q.before, o.job).Some?
    requires K1(setup, q.before, o.job) == K1(setup, o.before, o.job) && KeyOf(setup, q) == KeyOf(setup, o)
    requires Outcome(setup, o) == Result(1, "") && Outcome(setup, q).status == 0
    ensures var es := [Build(o.job, o.after, true, "", ""), Edit(p, Some(text)),
                       Evict({ManifestSlot(K1(setup, o.before, o.job))}), Build(o.job, q.after, true, "", "")];
            && Happens(setup, Empty(o.before), es) && Final(setup, Empty(o.before), es).world == q.after
            && Lookup(setup, Final(setup, Empty(o.before), es), o.job) == Some(Result(1, ""))
  {
    hide WorldOk, Primary, GoodHash, JobOk, Own, Unmasked, K1, KeyOf, Outcome, Lookup, JobLines, SameBut, Outs;
    hide StatusSlot, ManifestSlot, StatusOf;
    BeforeHappens(setup, o, p, text);
    var n := Before(setup, o, q.before);
    FailureStays(setup, o, q.before);
    NoManifestNoHit(setup, n, o.job);
    assert Made(setup, KeyOf(setup, q), q);
    FailureWins(setup, n, q);
    var e, f := Build(o.job, o.after, true, "", ""), Edit(p, Some(text));
    var g, l := Evict({ManifestSlot(K1(setup, o.before, o.job))}), Build(o.job, q.after, true, "", "");
    assert Origin(o.job, n.world, q.after) == q;
    assert CanHappen(setup, n, l) && Next(setup, n, l) == Stored(setup, n, q, "", "");
    assert Stored(setup, n, q, "", "").world == q.after;
    hide CanHappen, Next, Happens, Final, Before, Stored;
    OneMore(setup, Empty(o.before), [e, f, g], l);
    assert [e, f, g] + [l] == [e, f, g, l];
  }

  /** By path: a compile fails over a header below the output, the header is mended, the manifest is evicted and the
      compile succeeds; it is stored beside the failure, and from then on the failure is replayed. */
  lemma KeptFailureIsReplayed(hash: string -> string, h: string)
    requires GoodHash(hash) && IsStoreHash(h)
    ensures var setup, job := Failing(hash, h), Plain([]);
            var w, u := Fresh(h, "1"), Fresh(h, "2");
            && SetupOk(setup) && WorldOk(setup, w) && JobOk(setup, job) && Primary(setup, w, job).Some?
            && var es := [Build(job, w, true, "", ""), Edit(Header(h), Some("2")),
                          Evict({ManifestSlot(K1(setup, w, job))}), Build(job, u["/a.o" := "2"], true, "", "")];
               && Happens(setup, Empty(w), es)
               && var m := Final(setup, Empty(w), es);
                  Lookup(setup, m, job) == Some(Result(1, "")) && Run(TreeOf(setup, job), m.world) == Result(0, "2")
  {
    var setup, job := Failing(hash, h), Plain([]);
    var w, u := Fresh(h, "1"), Fresh(h, "2");
    var v := u["/a.o" := "2"];
    assert w[Header(h) := "2"] == u;
    assert job.inv.mode.Compile? && Outs(job) == {"/a.o"} && SameBut(w, w, {"/a.o"}) && SameBut(u, v, {"/a.o"});
    hide WorldOk, Header, Refuses, Primary, GoodHash, OutSetup, JobOk, Own, Unmasked, Recordable, K1, KeyOf, Outcome;
    hide Lookup, JobLines, Fresh, Plain, SameBut, Outs, Run, TreeOf, Happens, Final, ManifestSlot, Clean, OutSwapped;
    hide IsStorePath, Masked, Resolve, IsStoreHash;
    FreshFacts(hash, h, "1", w);
    FreshFacts(hash, h, "2", u);
    FreshFacts(hash, h, "2", v);
    HeaderIsElsewhere(h);
    HeaderIsOwn(hash, h, false, Refuses(h));
    OutJobIsOk(hash, h, false, Refuses(h));
    ShortIsPlain(setup.site, "2");
    RefusesRuns(h, v);
    OneKeyForBoth(hash, h);
    FailThenSucceed(setup, Origin(job, w, w), Origin(job, u, v), Header(h), "2");
  }
}
