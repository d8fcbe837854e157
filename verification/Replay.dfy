/** What a compile is known by and what its manifest remembers: where both agree, it comes out the same. */
module Replay {
  import opened Bytes
  import opened Text
  import opened Masking
  import opened OutHash
  import opened Roots
  import opened RequestKey
  import opened Manifest
  import opened Compiler

  /** Every path it may look at can be named in a manifest, every object it may write is free of the placeholder. */
  ghost predicate Tame(site: Site, t: Tree) {
    match t
    case Finish(r) => Unmasked(site, r.bytes) && 0 <= r.status < 0x8000_0000
    case Look(p, next) => Recordable(site, p) && forall a :: a in next ==> Tame(site, next[a])
  }

  /** The text does not hold the placeholder by itself. */
  ghost predicate Unmasked(site: Site, s: string) { site.id.outHash == "" || Absent(s, Marker(Placeholder())) }

  lemma {:induction false} LooksAreRecordable(site: Site, t: Tree, w: World)
    requires Tame(site, t)
    ensures forall p :: p in Looks(t, w) ==> Recordable(site, p)
  {
    hide Recordable;
    if t.Look? && Answer(w, t.path) in t.next {
      LooksAreRecordable(site, t.next[Answer(w, t.path)], w);
    }
  }

  // ---------------------------------------------------------------- jobs and their keys

  /** `compile` is the compiler: what it does follows from the call as it was made and the identity of the toolchain.
      `pch` are the precompiled headers a call names, `store` the files of the store, `out` the output of the build,
      which is below /nix/store too but still being written. */
  datatype Setup = Setup(site: Site, compile: (Invocation, string) -> Tree, pch: Invocation -> seq<string>,
                         store: World, out: string)

  /** A link has no one source, and only links read LIBRARY_PATH. */
  function Essential(inv: Invocation): Invocation {
    inv.(source := if inv.mode.Link? then "" else inv.source,
         libraryPath := if inv.mode.Compile? then "" else inv.libraryPath)
  }

  /** A path of the store that may change under the build. */
  predicate Own(setup: Setup, p: string) {
    IsStorePath(p) && setup.out != "" && (p == setup.out || Starts(p, setup.out + "/"))
  }

  /** `others` are paths the compile may write besides its output, `inputs` the objects of a link. */
  datatype Job = Job(inv: Invocation, output: string, others: set<string>, inputs: seq<string>, toolchain: string,
                     wantsDepfile: bool)

  function Outs(job: Job): set<string> { job.others + {job.output} }

  ghost function TreeOf(setup: Setup, job: Job): Tree {
    setup.compile(Essential(job.inv), job.toolchain)
  }

  function PchText(site: Site, w: World, pch: seq<string>): Option<string> {
    if pch == [] then Some("") else
      var n := |pch| - 1;
      var front, id := PchText(site, w, pch[..n]), InputId(site, w, pch[n]);
      if front.None? || id.None? then None else Some(front.value + ("\npch=" + id.value))
  }

  function LinkText(site: Site, w: World, inputs: seq<string>): Option<string> {
    if inputs == [] then Some("") else
      var n := |inputs| - 1;
      var front, id := LinkText(site, w, inputs[..n]), InputId(site, w, inputs[n]);
      if front.None? || id.None? then None else Some(front.value + (inputs[n] + "=" + id.value + "\n"))
  }

  function Identified(setup: Setup, w: World, job: Job): Option<string> {
    if job.inv.mode.Link? then LinkText(setup.site, w, job.inputs)
    else if job.inv.source !in w then None
    else
      var pch := PchText(setup.site, w, setup.pch(Essential(job.inv)));
      if pch.None? then None else Some(w[job.inv.source] + pch.value)
  }

  function Primary(setup: Setup, w: World, job: Job): Option<string> {
    var text := Identified(setup, w, job);
    if text.None? then None else Some(text.value + ("\ntoolchain=" + job.toolchain))
  }

  function K1(setup: Setup, w: World, job: Job): string
    requires Primary(setup, w, job).Some?
  {
    var id := setup.site.id;
    setup.site.hash(Fields(KeyFields(CallOf(id, job.inv), MaskOut(id, Primary(setup, w, job).value))))
  }

  ghost predicate JobOk(setup: Setup, job: Job) {
    && Blind(TreeOf(setup, job), Outs(job)) && Tame(setup.site, TreeOf(setup, job))
    && (forall p :: p in Outs(job) ==> (!IsStorePath(p) || Own(setup, p)) && p != "")
    && (job.inv.mode.Link? <==> job.inv.source in Outs(job))
    && '\n' !in job.toolchain && Unmasked(setup.site, job.toolchain)
    && (forall p :: p in setup.pch(Essential(job.inv)) ==>
          p !in Outs(job) && '\n' !in p && Unmasked(setup.site, p))
    && (forall p :: p in job.inputs ==> p !in Outs(job) && '\n' !in p && Unmasked(setup.site, p))
  }

  /** Nobody writes to the store but below the build's own output, and no file holds the placeholder. */
  ghost predicate WorldOk(setup: Setup, w: World) {
    && "" !in w
    && (forall p :: IsStorePath(p) && !Own(setup, p) ==> Answer(w, p) == Answer(setup.store, p))
    && (forall p :: p in w ==> Unmasked(setup.site, w[p]))
  }

  ghost predicate SetupOk(setup: Setup) {
    ValidIdentity(setup.site.id) && GoodHash(setup.site.hash)
  }

  // ---------------------------------------------------------------- what the key pins

  lemma MaskOutInjective(site: Site, a: string, b: string)
    requires ValidIdentity(site.id) && Unmasked(site, a) && Unmasked(site, b)
    requires MaskOut(site.id, a) == MaskOut(site.id, b)
    ensures a == b
  {
    hide OutSwapped, Absent;
    OutRoundTrip(a, site.id.outHash);
    OutRoundTrip(b, site.id.outHash);
  }

  /** A character no marker holds. */
  predicate Foreign(c: char) { c == '\n' || c == '=' }

  lemma MarkerHasNo(c: char)
    requires Foreign(c)
    ensures c !in Marker(Placeholder())
  {
  }

  /** No placeholder arises across a character that is none of its own. */
  lemma UnmaskedJoin(site: Site, a: string, b: string)
    requires Unmasked(site, a) && Unmasked(site, b)
    requires a == "" || (b != "" && Foreign(b[0])) || Foreign(a[|a| - 1])
    ensures Unmasked(site, a + b)
  {
    var m, t := Marker(Placeholder()), a + b;
    var k := if b != "" && Foreign(b[0]) then |a| else |a| - 1;
    assert t[|a|..] == b;
    assert a != "" ==> Foreign(t[k]);
    forall i: nat
      ensures site.id.outHash != "" ==> !At(t, m, i)
    {
      if site.id.outHash != "" && At(t, m, i) {
        if a != "" && i <= k < i + |m| {
          AtIndex(t, m, i, k - i);
          MarkerHasNo(t[k]);
        } else if i + |m| <= |a| {
          AtSame(t, a, m, i);
        } else {
          AtShift(t, m, |a|, i - |a|);
        }
      }
    }
  }

  /** Nor behind a tag. */
  lemma UnmaskedTagged(site: Site, tag: string, b: string)
    requires Unmasked(site, b) && '/' !in tag
    ensures Unmasked(site, tag + b)
  {
    var m, t := Marker(Placeholder()), tag + b;
    assert t[|tag|..] == b;
    assert forall i :: 0 <= i < |tag| ==> t[i] in tag;
    forall i: nat
      ensures site.id.outHash != "" ==> !At(t, m, i)
    {
      if site.id.outHash != "" && At(t, m, i) {
        if i < |tag| {
          AtIndex(t, m, i, 0);
        } else {
          AtShift(t, m, |tag|, i - |tag|);
        }
      }
    }
  }

  lemma IdentityIsLine(setup: Setup, w: World, p: string)
    requires SetupOk(setup) && InputId(setup.site, w, p).Some? && '\n' !in p && Unmasked(setup.site, p)
    ensures '\n' !in InputId(setup.site, w, p).value && Unmasked(setup.site, InputId(setup.site, w, p).value)
  {
    var site := setup.site;
    if IsStorePath(p) && !site.id.byContent {
      UnmaskedTagged(site, "S:", p);
    } else {
      var digest := site.hash(if IsStorePath(p) then w[p] else MaskOut(site.id, w[p]));
      assert forall i :: 0 <= i < |digest| ==> Hex(digest[i]);
      assert '/' !in digest && '\n' !in digest;
      forall i: nat
        ensures !At("C:" + digest, Marker(Placeholder()), i)
      {
        if At("C:" + digest, Marker(Placeholder()), i) { AtIndex("C:" + digest, Marker(Placeholder()), i, 0); }
      }
    }
  }

  lemma {:induction false} PchIsUnmasked(setup: Setup, w: World, text: string, pch: seq<string>)
    requires SetupOk(setup) && Unmasked(setup.site, text) && PchText(setup.site, w, pch).Some?
    requires forall p :: p in pch ==> '\n' !in p && Unmasked(setup.site, p)
    ensures Unmasked(setup.site, text + PchText(setup.site, w, pch).value)
    decreases |pch|
  {
    hide Unmasked, InputId, GoodHash;
    if pch == [] {
      assert text + "" == text;
    } else {
      var n := |pch| - 1;
      assert pch[n] in pch;
      PchIsUnmasked(setup, w, text, pch[..n]);
      var front, id := PchText(setup.site, w, pch[..n]).value, InputId(setup.site, w, pch[n]).value;
      IdentityIsLine(setup, w, pch[n]);
      UnmaskedTagged(setup.site, "\npch=", id);
      UnmaskedJoin(setup.site, text + front, "\npch=" + id);
      assert text + (front + ("\npch=" + id)) == text + front + ("\npch=" + id);
    }
  }

  lemma {:induction false} LinkIsUnmasked(setup: Setup, w: World, inputs: seq<string>)
    requires SetupOk(setup) && LinkText(setup.site, w, inputs).Some?
    requires forall p :: p in inputs ==> '\n' !in p && Unmasked(setup.site, p)
    ensures var t := LinkText(setup.site, w, inputs).value; Unmasked(setup.site, t) && (t == "" || t[|t| - 1] == '\n')
    decreases |inputs|
  {
    EmptyIsUnmasked(setup.site);
    hide Unmasked, InputId, GoodHash;
    if inputs != [] {
      var n := |inputs| - 1;
      assert inputs[n] in inputs;
      LinkIsUnmasked(setup, w, inputs[..n]);
      var front, p := LinkText(setup.site, w, inputs[..n]).value, inputs[n];
      var id := InputId(setup.site, w, p).value;
      IdentityIsLine(setup, w, p);
      UnmaskedTagged(setup.site, "=", id);
      UnmaskedJoin(setup.site, p, "=" + id);
      UnmaskedTagged(setup.site, "\n", "");
      assert "\n" + "" == "\n" && p + ("=" + id) == p + "=" + id;
      UnmaskedJoin(setup.site, p + "=" + id, "\n");
      UnmaskedJoin(setup.site, front, p + "=" + id + "\n");
    }
  }

  lemma EmptyIsUnmasked(site: Site)
    ensures Unmasked(site, "")
  {
  }

  lemma PrimaryIsUnmasked(setup: Setup, w: World, job: Job)
    requires SetupOk(setup) && JobOk(setup, job) && WorldOk(setup, w) && Primary(setup, w, job).Some?
    ensures Unmasked(setup.site, Identified(setup, w, job).value) && Unmasked(setup.site, Primary(setup, w, job).value)
  {
    hide Blind, Tame, Recordable, Unmasked, GoodHash, InputId;
    if job.inv.mode.Link? {
      LinkIsUnmasked(setup, w, job.inputs);
    } else {
      SourceUnmasked(setup, w, job);
      PchIsUnmasked(setup, w, w[job.inv.source], setup.pch(Essential(job.inv)));
    }
    UnmaskedTagged(setup.site, "\ntoolchain=", job.toolchain);
    UnmaskedJoin(setup.site, Identified(setup, w, job).value, "\ntoolchain=" + job.toolchain);
  }

  lemma SourceUnmasked(setup: Setup, w: World, job: Job)
    requires SetupOk(setup) && WorldOk(setup, w) && job.inv.source in w
    ensures Unmasked(setup.site, w[job.inv.source])
  {
  }

  /** Texts whose last lines have the same number of characters before a tag agree up to it. */
  lemma LastLine(a: string, b: string, tag: string, x: string, y: string)
    requires '\n' !in tag && '\n' !in x && '\n' !in y
    requires a + ("\n" + tag + x) == b + ("\n" + tag + y)
    ensures a == b && x == y
  {
    var t := a + ("\n" + tag + x);
    assert t[|a|] == '\n' && t[|b|] == '\n';
    assert forall i :: |a| < i < |t| ==> t[i] == (tag + x)[i - |a| - 1];
    assert forall i :: |b| < i < |t| ==> t[i] == (tag + y)[i - |b| - 1];
    assert |a| == |b|;
    assert t[..|a|] == a && t[..|b|] == b;
    assert t[|a| + 1 + |tag|..] == x && t[|a| + 1 + |tag|..] == y;
  }

  lemma {:induction false} PchPinsSource(setup: Setup, w: World, v: World, s: string, t: string, pch: seq<string>)
    requires SetupOk(setup) && forall p :: p in pch ==> '\n' !in p && Unmasked(setup.site, p)
    requires PchText(setup.site, w, pch).Some? && PchText(setup.site, v, pch).Some?
    requires s + PchText(setup.site, w, pch).value == t + PchText(setup.site, v, pch).value
    ensures s == t
    decreases |pch|
  {
    hide Unmasked, InputId, GoodHash;
    if pch == [] {
      assert s + "" == s && t + "" == t;
    } else {
      var n := |pch| - 1;
      assert pch[n] in pch;
      IdentityIsLine(setup, w, pch[n]);
      IdentityIsLine(setup, v, pch[n]);
      var a, x := PchText(setup.site, w, pch[..n]).value, InputId(setup.site, w, pch[n]).value;
      var b, y := PchText(setup.site, v, pch[..n]).value, InputId(setup.site, v, pch[n]).value;
      assert s + (a + ("\npch=" + x)) == (s + a) + ("\n" + "pch=" + x);
      assert t + (b + ("\npch=" + y)) == (t + b) + ("\n" + "pch=" + y);
      LastLine(s + a, t + b, "pch=", x, y);
      PchPinsSource(setup, w, v, s, t, pch[..n]);
    }
  }

  lemma KeyPinsPreimage(setup: Setup, w: World, job: Job, v: World, other: Job)
    requires GoodHash(setup.site.hash) && Primary(setup, w, job).Some? && Primary(setup, v, other).Some?
    requires K1(setup, w, job) == K1(setup, v, other)
    ensures CallOf(setup.site.id, job.inv) == CallOf(setup.site.id, other.inv)
    ensures MaskOut(setup.site.id, Primary(setup, w, job).value)
            == MaskOut(setup.site.id, Primary(setup, v, other).value)
  {
    var id := setup.site.id;
    CallIsProper(id, job.inv);
    CallIsProper(id, other.inv);
    hide Fields, KeyFields, CallOf, MaskOut, Primary;
    PreimageInjective(CallOf(id, job.inv), CallOf(id, other.inv),
                      MaskOut(id, Primary(setup, w, job).value), MaskOut(id, Primary(setup, v, other).value));
  }

  lemma ToolchainIsLine(setup: Setup, job: Job)
    requires JobOk(setup, job)
    ensures '\n' !in job.toolchain
  {
  }

  /** One k1: the same call, as the key sees it, of the same toolchain. */
  lemma KeyPinsCall(setup: Setup, w: World, job: Job, v: World, other: Job)
    requires SetupOk(setup) && JobOk(setup, job) && JobOk(setup, other) && WorldOk(setup, w) && WorldOk(setup, v)
    requires Primary(setup, w, job).Some? && Primary(setup, v, other).Some? && K1(setup, w, job) == K1(setup, v, other)
    ensures CallOf(setup.site.id, job.inv) == CallOf(setup.site.id, other.inv) && job.toolchain == other.toolchain
    ensures Identified(setup, w, job) == Identified(setup, v, other)
  {
    hide JobOk, WorldOk, Unmasked, CallOf, K1, MaskOut, Identified, GoodHash;
    PrimaryIsUnmasked(setup, w, job);
    PrimaryIsUnmasked(setup, v, other);
    KeyPinsPreimage(setup, w, job, v, other);
    var p, q := Primary(setup, w, job).value, Primary(setup, v, other).value;
    MaskOutInjective(setup.site, p, q);
    var a, b := Identified(setup, w, job).value, Identified(setup, v, other).value;
    ToolchainIsLine(setup, job);
    ToolchainIsLine(setup, other);
    assert p == a + ("\n" + "toolchain=" + job.toolchain) && q == b + ("\n" + "toolchain=" + other.toolchain);
    LastLine(a, b, "toolchain=", job.toolchain, other.toolchain);
  }

  lemma CallIsProper(id: Identity, inv: Invocation)
    ensures Proper(CallOf(id, inv))
  {
  }

  // ---------------------------------------------------------------- when one key is one call

  /** The path is found again under the name it has in the key. */
  ghost predicate Found(site: Site, name: string, p: string) {
    site.id.byContent ==> Resolve(Masked(name), site.table) == Some(p)
  }

  /** The text comes back from what the key holds of it. An argument a link embeds is not masked; it comes back unless
      it looks as if it were. */
  ghost predicate ArgReturns(site: Site, mode: Mode, arg: string) {
    var text := MaskOut(site.id, arg);
    var back := Resolved(Masked(text), site.table) == arg;
    site.id.byContent ==> if Embedded(mode, arg) then Unmasked(site, arg) && (Masked(text) == text ==> back) else back
  }

  /** Every masked field of the call comes back. */
  ghost predicate Settled(site: Site, inv: Invocation) {
    && Found(site, inv.cc, inv.cc) && Found(site, inv.cwd, inv.cwd)
    && (!inv.mode.Link? ==> Found(site, MaskOut(site.id, inv.source), inv.source))
    && (!inv.mode.Compile? && site.id.byContent ==> Resolved(Masked(inv.libraryPath), site.table) == inv.libraryPath)
    && (forall arg :: arg in inv.args ==> ArgReturns(site, inv.mode, arg))
  }

  lemma UntouchedByPath(id: Identity, s: string)
    requires ValidIdentity(id)
    ensures !id.byContent ==> MaskOut(id, s) == s
  {
  }

  lemma SameArg(site: Site, mode: Mode, a: string, b: string)
    requires ValidIdentity(site.id) && ArgReturns(site, mode, a) && ArgReturns(site, mode, b)
    requires ArgText(site.id, mode, a) == ArgText(site.id, mode, b)
    ensures a == b
  {
    hide Masked, Embedded, Resolved, Unmasked, OutSwapped;
    if site.id.byContent {
      var x, y := MaskOut(site.id, a), MaskOut(site.id, b);
      MaskedIdempotent(x);
      MaskedIdempotent(y);
      if Embedded(mode, a) && Embedded(mode, b) { MaskOutInjective(site, a, b); }
    } else {
      UntouchedByPath(site.id, a);
      UntouchedByPath(site.id, b);
    }
  }

  /** Of two calls with one key of which one comes back, the other is the same call just when it comes back too. */
  lemma OneKeyOneCall(site: Site, inv: Invocation, other: Invocation)
    requires ValidIdentity(site.id) && CallOf(site.id, inv) == CallOf(site.id, other) && Settled(site, inv)
    ensures Essential(inv) == Essential(other) <==> Settled(site, other)
  {
    hide Masked, Resolved, Resolve, ArgReturns, OutSwapped, ArgText;
    var c, d := CallOf(site.id, inv), CallOf(site.id, other);
    UntouchedByPath(site.id, inv.source);
    UntouchedByPath(site.id, other.source);
    if Settled(site, other) {
      assert c.mode == d.mode && |inv.args| == |c.args| == |other.args|;
      forall i | 0 <= i < |inv.args|
        ensures inv.args[i] == other.args[i]
      {
        assert c.args[i] == ArgText(site.id, inv.mode, inv.args[i]) == ArgText(site.id, inv.mode, other.args[i]);
        SameArg(site, inv.mode, inv.args[i], other.args[i]);
      }
      assert inv.args == other.args;
    }
  }

  /** And, where there is one, the same source with the same text. */
  lemma KeyPinsSource(setup: Setup, w: World, job: Job, v: World, other: Job)
    requires SetupOk(setup) && JobOk(setup, job) && JobOk(setup, other) && WorldOk(setup, w) && WorldOk(setup, v)
    requires Primary(setup, w, job).Some? && Primary(setup, v, other).Some? && K1(setup, w, job) == K1(setup, v, other)
    requires !job.inv.mode.Link? && Essential(job.inv) == Essential(other.inv)
    ensures job.inv.source == other.inv.source && Answer(w, job.inv.source) == Answer(v, job.inv.source)
  {
    KeyPinsCall(setup, w, job, v, other);
    hide Blind, Tame, Unmasked, K1, Masked, OutSwapped, Recordable;
    var pch := setup.pch(Essential(job.inv));
    assert other.inv.mode == job.inv.mode && other.inv.source == job.inv.source;
    PchPinsSource(setup, w, v, w[job.inv.source], v[other.inv.source], pch);
  }

  // ---------------------------------------------------------------- what the manifest pins

  /** The compile has changed nothing but its outputs. */
  ghost predicate SameBut(w: World, v: World, outs: set<string>) {
    forall p :: p !in outs ==> Answer(w, p) == Answer(v, p)
  }

  /** The manifest of a job compiled in w that left v behind. */
  ghost function JobLines(setup: Setup, job: Job, w: World, v: World): seq<string> {
    ManifestLines(setup.site, v, Read(TreeOf(setup, job), w), job.inv.source, Sought(TreeOf(setup, job), w))
  }

  lemma IdentityPins(setup: Setup, w: World, v: World, p: string)
    requires SetupOk(setup) && WorldOk(setup, w) && WorldOk(setup, v) && p in v
    requires InputId(setup.site, w, p) == InputId(setup.site, v, p)
    requires setup.site.id.byContent || !Own(setup, p)
    ensures Answer(w, p) == Answer(v, p)
  {
    var site := setup.site;
    if !IsStorePath(p) {
      assert p in w;
      var a, b := site.hash(MaskOut(site.id, w[p])), site.hash(MaskOut(site.id, v[p]));
      TagInjective("C:", a, b);
      MaskOutInjective(site, w[p], v[p]);
    } else if site.id.byContent {
      TagInjective("C:", site.hash(w[p]), site.hash(v[p]));
    }
  }

  lemma LineHolds(setup: Setup, u: World, lines: seq<string>, line: string)
    requires AllValid(setup.site, u, lines) && line in lines
    ensures IsEntry(line) && ValidLine(setup.site, u, line)
  {
  }

  lemma ReadIsPinned(setup: Setup, job: Job, w: World, v: World, u: World, p: string)
    requires SetupOk(setup) && WorldOk(setup, v) && WorldOk(setup, u) && SameBut(w, v, Outs(job))
    requires AllValid(setup.site, u, JobLines(setup, job, w, v))
    requires p in Read(TreeOf(setup, job), w) && Recordable(setup.site, p) && p in w && p !in Outs(job)
    requires p != job.inv.source && (setup.site.id.byContent || !Own(setup, p))
    ensures Answer(u, p) == Answer(w, p)
  {
    hide InputLines, AbsentLines, Recordable, AllValid, WorldOk, GoodHash, Read, Sought, TreeOf;
    var site := setup.site;
    assert Answer(w, p) == Answer(v, p);
    assert InputId(site, v, p).Some?;
    var id := InputId(site, v, p).value;
    hide InputId;
    InputHasLine(site, v, Read(TreeOf(setup, job), w), job.inv.source, p);
    LineHolds(setup, u, JobLines(setup, job, w, v), InputLine(site, p, id));
    InputLineSays(site, u, p, id);
    IdentityPins(setup, u, v, p);
  }

  lemma SoughtIsPinned(setup: Setup, job: Job, w: World, v: World, u: World, p: string)
    requires SetupOk(setup) && WorldOk(setup, v) && WorldOk(setup, u) && SameBut(w, v, Outs(job))
    requires AllValid(setup.site, u, JobLines(setup, job, w, v))
    requires p in Sought(TreeOf(setup, job), w) && Recordable(setup.site, p) && p !in w && p !in Outs(job)
    requires !Own(setup, p)
    ensures p !in u
  {
    assert Answer(w, p) == Answer(v, p);
    if IsStorePath(p) {
      assert Answer(u, p) == Answer(v, p);
    } else {
      hide InputLines, AbsentLines, AllValid, WorldOk, GoodHash, Read, Sought, TreeOf;
      assert Missed(v, p);
      AbsentHasLine(setup.site, v, Sought(TreeOf(setup, job), w), p);
      LineHolds(setup, u, JobLines(setup, job, w, v), AbsentLine(setup.site, p));
      AbsentLineSays(setup.site, u, p);
    }
  }

  /** Below the build's own output the manifest does not remember what was not there, and by path not what was. This is
      what has to be as it was: nothing the compile missed there has come, and by path nothing it read has changed. */
  ghost predicate OutKept(setup: Setup, job: Job, w: World, u: World) {
    var t := TreeOf(setup, job);
    && (forall p :: p in Sought(t, w) && p !in Outs(job) && Own(setup, p) ==> p !in u)
    && (setup.site.id.byContent
        || forall p :: p in Read(t, w) && p !in Outs(job) && Own(setup, p) ==> Answer(u, p) == Answer(w, p))
  }

  /** Where the same key is asked for and the same manifest holds, the compiler looks at the same things just when
      what it saw below the output is still so. */
  lemma ManifestPinsLooks(setup: Setup, job: Job, w: World, v: World, other: Job, u: World)
    requires SetupOk(setup) && JobOk(setup, job) && JobOk(setup, other) && Essential(job.inv) == Essential(other.inv)
    requires WorldOk(setup, w) && WorldOk(setup, v) && WorldOk(setup, u) && SameBut(w, v, Outs(job))
    requires Primary(setup, w, job).Some? && Primary(setup, u, other).Some? && K1(setup, w, job) == K1(setup, u, other)
    requires AllValid(setup.site, u, JobLines(setup, job, w, v))
    ensures !Differs(TreeOf(setup, job), Outs(job), w, u) <==> OutKept(setup, job, w, u)
  {
    if !job.inv.mode.Link? { KeyPinsSource(setup, w, job, u, other); }
    var t := TreeOf(setup, job);
    LooksAreRecordable(setup.site, t, w);
    LooksAreBoth(t, w);
    assert job.inv.mode.Link? ==> job.inv.source in Outs(job);
    hide JobOk, WorldOk, GoodHash, AllValid, Primary, K1, Read, Sought, Looks, Run, Recordable, Blind, Own, JobLines;
    hide TreeOf;
    if OutKept(setup, job, w, u) {
      forall p | p in Looks(t, w) && p !in Outs(job)
        ensures Answer(u, p) == Answer(w, p)
      {
        if p !in w {
          if !Own(setup, p) { SoughtIsPinned(setup, job, w, v, u, p); }
        } else if p != job.inv.source && (setup.site.id.byContent || !Own(setup, p)) {
          ReadIsPinned(setup, job, w, v, u, p);
        }
      }
    }
  }

  /** So the compiler then does again what it did. */
  lemma ManifestPinsRun(setup: Setup, job: Job, w: World, v: World, other: Job, u: World)
    requires SetupOk(setup) && JobOk(setup, job) && JobOk(setup, other) && Essential(job.inv) == Essential(other.inv)
    requires WorldOk(setup, w) && WorldOk(setup, v) && WorldOk(setup, u) && SameBut(w, v, Outs(job))
    requires Primary(setup, w, job).Some? && Primary(setup, u, other).Some? && K1(setup, w, job) == K1(setup, u, other)
    requires AllValid(setup.site, u, JobLines(setup, job, w, v)) && OutKept(setup, job, w, u)
    ensures TreeOf(setup, other) == TreeOf(setup, job) && Run(TreeOf(setup, other), u) == Run(TreeOf(setup, job), w)
  {
    KeyPinsCall(setup, w, job, u, other);
    ManifestPinsLooks(setup, job, w, v, other, u);
    RunIsPinned(TreeOf(setup, job), Outs(job), w, u);
  }
}
