/** The compile cache over whole runs: what a hit replays, and when it is what the compiler would produce now. */
module ReplayRuns {
  import opened Bytes
  import opened Text
  import opened OutHash
  import opened Decimal
  import opened RequestKey
  import opened Manifest
  import opened Compiler
  import opened Replay

  // ---------------------------------------------------------------- the cache

  type Cache = map<string, string>

  /** A compile of job in the world before that left the world after. */
  datatype Origin = Origin(job: Job, before: World, after: World)

  /** `origins` tells which compile filled a slot; nothing the cache does depends on it. */
  datatype Machine = Machine(world: World, cache: Cache, origins: map<string, Origin>)

  function ManifestSlot(k: string): string { "m/" + k }
  function ObjectSlot(k: string): string { "o/" + k }
  function StatusSlot(k: string): string { "r/" + k }
  function StderrSlot(k: string): string { "e/" + k }
  function DepfileSlot(k: string): string { "d/" + k }

  lemma SlotsApart(j: string, k: string)
    ensures ManifestSlot(j) != ObjectSlot(k) && ManifestSlot(j) != StatusSlot(k) && ObjectSlot(j) != StatusSlot(k)
    ensures StderrSlot(j) != ObjectSlot(k) && StderrSlot(j) != StatusSlot(k) && StderrSlot(j) != ManifestSlot(k)
    ensures DepfileSlot(j) != ObjectSlot(k) && DepfileSlot(j) != StatusSlot(k) && DepfileSlot(j) != ManifestSlot(k)
    ensures DepfileSlot(j) != StderrSlot(k)
    ensures ObjectSlot(j) == ObjectSlot(k) || StatusSlot(j) == StatusSlot(k) ==> j == k
  {
    assert ObjectSlot(j)[2..] == j && ObjectSlot(k)[2..] == k;
    assert StatusSlot(j)[2..] == j && StatusSlot(k)[2..] == k;
    assert ManifestSlot(j)[0] == 'm' && ObjectSlot(j)[0] == ObjectSlot(k)[0] == 'o' && StatusSlot(k)[0] == 'r';
    assert StderrSlot(j)[0] == StderrSlot(k)[0] == 'e' && DepfileSlot(j)[0] == 'd' && ManifestSlot(k)[0] == 'm';
  }

  /** A status that cannot be read counts as 1; the number is cut to an int. */
  function StatusOf(text: string): int {
    var n := match ParseUint(text) case Some(v) => v % 0x1_0000_0000 case None => 1;
    if n < 0x8000_0000 then n else n - 0x1_0000_0000
  }

  /** Only failed compiles leave a status; failures of links are never replayed. */
  function Replayed(id: Identity, cache: Cache, job: Job, k2: string): Option<Result> {
    var status := if job.inv.mode.Compile? && StatusSlot(k2) in cache then StatusOf(cache[StatusSlot(k2)]) else 0;
    if status != 0 then Some(Result(status, ""))
    else if ObjectSlot(k2) !in cache || (job.wantsDepfile && DepfileSlot(k2) !in cache) then None
    else Some(Result(0, UnmaskOut(id, cache[ObjectSlot(k2)])))
  }

  function FindResult(setup: Setup, m: Machine, job: Job): Option<string> {
    if Primary(setup, m.world, job).None? then None else
      var k1 := K1(setup, m.world, job);
      if ManifestSlot(k1) !in m.cache then None
      else Validated(setup.site, m.world, k1, m.cache[ManifestSlot(k1)])
  }

  function Lookup(setup: Setup, m: Machine, job: Job): Option<Result> {
    match FindResult(setup, m, job)
    case None => None
    case Some(k2) => Replayed(setup.site.id, m.cache, job, k2)
  }

  /** The slots a compile with this status and masked object fills. */
  function Filed(cache: Cache, job: Job, k1: string, k2: string, text: string, status: int, masked: string,
                 stderr: string, depfile: string): Cache
  {
    var found := cache[ManifestSlot(k1) := text];
    if status > 0 then
      if !job.inv.mode.Compile? then cache else found[StatusSlot(k2) := Digits(status)][StderrSlot(k2) := stderr]
    else
      var kept := found[ObjectSlot(k2) := masked][StderrSlot(k2) := stderr];
      if job.wantsDepfile then kept[DepfileSlot(k2) := depfile] else kept
  }

  /** The daemon's slots as the client sees them. */
  class Server {
    var slots: Cache

    constructor ()
      ensures slots == map[]
    {
      slots := map[];
    }

    method Put(key: string, value: string)
      modifies this
      ensures slots == old(slots)[key := value]
    {
      slots := slots[key := value];
    }

    method Get(key: string) returns (value: Option<string>)
      ensures value == if key in slots then Some(slots[key]) else None
    {
      value := if key in slots then Some(slots[key]) else None;
    }
  }

  /** The end of CompileAndStore: manifest first, then what it leads to. */
  method StoreResult(server: Server, job: Job, k1: string, k2: string, text: string, status: int, masked: string,
                     stderr: string, depfile: string)
    modifies server
    ensures server.slots == Filed(old(server.slots), job, k1, k2, text, status, masked, stderr, depfile)
  {
    hide Digits;
    if status > 0 {
      if !job.inv.mode.Compile? {
        return;
      }
      server.Put(ManifestSlot(k1), text);
      server.Put(StatusSlot(k2), Digits(status));
      server.Put(StderrSlot(k2), stderr);
      return;
    }
    server.Put(ManifestSlot(k1), text);
    server.Put(ObjectSlot(k2), masked);
    server.Put(StderrSlot(k2), stderr);
    if job.wantsDepfile {
      server.Put(DepfileSlot(k2), depfile);
    }
  }

  /** FindResult and Lookup for a request key already computed. */
  method LookUp(server: Server, site: Site, w: World, job: Job, k1: string) returns (r: Option<Result>)
    requires ValidIdentity(site.id)
    ensures r == if ManifestSlot(k1) !in server.slots then None else
                   match Validated(site, w, k1, server.slots[ManifestSlot(k1)])
                   case None => None
                   case Some(k2) => Replayed(site.id, server.slots, job, k2)
  {
    hide StatusOf, Validated, OutSwapped;
    var text := server.Get(ManifestSlot(k1));
    if text.None? {
      return None;
    }
    var k2 := ValidateManifest(site, k1, w, text.value);
    if k2.None? {
      return None;
    }
    var status := server.Get(StatusSlot(k2.value));
    var bytes := server.Get(ObjectSlot(k2.value));
    var depfile := server.Get(DepfileSlot(k2.value));
    var code := 0;
    if job.inv.mode.Compile? && status.Some? {
      code := StatusOf(status.value);
    }
    if code != 0 {
      return Some(Result(code, ""));
    }
    if bytes.None? || (job.wantsDepfile && depfile.None?) {
      return None;
    }
    var plain := SwapOutHash(bytes.value, site.id.outHash, true);
    return Some(Result(0, plain));
  }

  lemma FiledObjects(cache: Cache, job: Job, k1: string, k2: string, text: string, status: int, masked: string,
                     stderr: string, depfile: string, k: string)
    ensures var c := Filed(cache, job, k1, k2, text, status, masked, stderr, depfile);
            ObjectSlot(k) in c ==>
              (k == k2 && status <= 0 && c[ObjectSlot(k)] == masked)
              || (!(k == k2 && status <= 0) && ObjectSlot(k) in cache && c[ObjectSlot(k)] == cache[ObjectSlot(k)])
  {
    hide Digits, ManifestSlot, ObjectSlot, StatusSlot, StderrSlot, DepfileSlot;
    SlotsApart(k1, k);
    SlotsApart(k2, k);
    SlotsApart(k, k2);
  }

  lemma FiledStatuses(cache: Cache, job: Job, k1: string, k2: string, text: string, status: int, masked: string,
                      stderr: string, depfile: string, k: string)
    ensures var c := Filed(cache, job, k1, k2, text, status, masked, stderr, depfile);
            StatusSlot(k) in c ==>
              (k == k2 && status > 0 && job.inv.mode.Compile? && c[StatusSlot(k)] == Digits(status))
              || (!(k == k2 && status > 0 && job.inv.mode.Compile?)
                  && StatusSlot(k) in cache && c[StatusSlot(k)] == cache[StatusSlot(k)])
  {
    hide Digits, ManifestSlot, ObjectSlot, StatusSlot, StderrSlot, DepfileSlot;
    SlotsApart(k1, k);
    SlotsApart(k2, k);
    SlotsApart(k, k2);
  }

  /** The slot from which a hit under k2 is taken. */
  function HitSlot(cache: Cache, job: Job, k2: string): string {
    if job.inv.mode.Compile? && StatusSlot(k2) in cache && StatusOf(cache[StatusSlot(k2)]) != 0 then StatusSlot(k2)
    else ObjectSlot(k2)
  }

  ghost function KeyOf(setup: Setup, o: Origin): string
    requires Primary(setup, o.before, o.job).Some?
  {
    ResultKey(setup.site, K1(setup, o.before, o.job), JobLines(setup, o.job, o.before, o.after))
  }

  ghost function Outcome(setup: Setup, o: Origin): Result { Run(TreeOf(setup, o.job), o.before) }

  /** What a compile stores, and in which slot its result is remembered to be its own. */
  ghost function Stored(setup: Setup, m: Machine, o: Origin, stderr: string, depfile: string): Machine
    requires Primary(setup, o.before, o.job).Some?
  {
    var r, k2 := Outcome(setup, o), KeyOf(setup, o);
    Machine(o.after,
            Filed(m.cache, o.job, K1(setup, o.before, o.job), k2, TextOf(JobLines(setup, o.job, o.before, o.after)),
                  r.status, MaskOut(setup.site.id, r.bytes), stderr, depfile),
            if r.status <= 0 then m.origins[ObjectSlot(k2) := o]
            else if o.job.inv.mode.Compile? then m.origins[StatusSlot(k2) := o] else m.origins)
  }

  // ---------------------------------------------------------------- soundness

  /** A compile that can have happened, and has k2 as its result key. */
  ghost predicate Made(setup: Setup, k2: string, o: Origin) {
    && JobOk(setup, o.job) && WorldOk(setup, o.before) && WorldOk(setup, o.after)
    && SameBut(o.before, o.after, Outs(o.job)) && Primary(setup, o.before, o.job).Some? && k2 == KeyOf(setup, o)
  }

  ghost predicate ObjectOk(setup: Setup, k2: string, bytes: string, o: Origin) {
    Made(setup, k2, o) && Outcome(setup, o).status == 0 && bytes == MaskOut(setup.site.id, Outcome(setup, o).bytes)
  }

  ghost predicate StatusOk(setup: Setup, k2: string, text: string, o: Origin) {
    Made(setup, k2, o) && Outcome(setup, o).status > 0 && text == Digits(Outcome(setup, o).status)
  }

  /** Nothing is asked of the manifests in the cache: any text may be in their slots. */
  ghost predicate CacheOk(setup: Setup, m: Machine) {
    && (forall k :: ObjectSlot(k) in m.cache ==>
          ObjectSlot(k) in m.origins && ObjectOk(setup, k, m.cache[ObjectSlot(k)], m.origins[ObjectSlot(k)]))
    && (forall k :: StatusSlot(k) in m.cache ==>
          StatusSlot(k) in m.origins && StatusOk(setup, k, m.cache[StatusSlot(k)], m.origins[StatusSlot(k)]))
  }

  lemma {:induction false} RunIsTame(site: Site, t: Tree, w: World)
    requires Tame(site, t)
    ensures Unmasked(site, Run(t, w).bytes) && 0 <= Run(t, w).status < 0x8000_0000
  {
    EmptyIsUnmasked(site);
    hide Recordable, Unmasked;
    if t.Look? && Answer(w, t.path) in t.next {
      RunIsTame(site, t.next[Answer(w, t.path)], w);
    }
  }

  lemma ResultKeyPins(site: Site, a: string, b: string, x: seq<string>, y: seq<string>)
    requires GoodHash(site.hash) && ResultKey(site, a, x) == ResultKey(site, b, y)
    ensures a == b && x == y
  {
    hide Fields;
    FieldsInjective([a] + x, [b] + y);
    assert ([a] + x)[0] == a && ([b] + y)[0] == b;
    assert ([a] + x)[1..] == x && ([b] + y)[1..] == y;
  }

  /** A validated k2 under which a compile has stored has that compile's key and manifest. */
  lemma FoundIsMade(setup: Setup, m: Machine, job: Job, k2: string, o: Origin)
    requires SetupOk(setup) && FindResult(setup, m, job) == Some(k2) && Made(setup, k2, o)
    ensures Primary(setup, m.world, job).Some? && K1(setup, m.world, job) == K1(setup, o.before, o.job)
    ensures AllValid(setup.site, m.world, JobLines(setup, o.job, o.before, o.after))
  {
    hide JobOk, WorldOk, Primary, K1, JobLines, Lines, Entries, ResultKey, AllValid;
    var k1 := K1(setup, m.world, job);
    var lines := Entries(Lines(m.cache[ManifestSlot(k1)]));
    ResultKeyPins(setup.site, k1, K1(setup, o.before, o.job), lines, JobLines(setup, o.job, o.before, o.after));
  }

  lemma StatusRoundTrip(n: int)
    requires 0 <= n < 0x8000_0000
    ensures StatusOf(Digits(n)) == n
  {
    ParseDigits(n, false);
  }

  lemma MaskRoundTrip(site: Site, s: string)
    requires ValidIdentity(site.id) && Unmasked(site, s)
    ensures UnmaskOut(site.id, MaskOut(site.id, s)) == s
  {
    hide OutSwapped, Absent;
    OutRoundTrip(s, site.id.outHash);
  }

  /** The same status and, for a success, the same bytes. */
  predicate Matches(r: Result, now: Result) { r.status == now.status && (r.status == 0 ==> r.bytes == now.bytes) }

  /** The compile whose result a hit replays. */
  ghost predicate IsHit(setup: Setup, m: Machine, job: Job, r: Result, o: Origin) {
    && Lookup(setup, m, job) == Some(r)
    && var slot := HitSlot(m.cache, job, FindResult(setup, m, job).value); slot in m.origins && m.origins[slot] == o
  }

  /** A hit replays a compile that was made, with its key and a manifest that holds. */
  lemma HitHasOrigin(setup: Setup, m: Machine, job: Job) returns (o: Origin)
    requires SetupOk(setup) && CacheOk(setup, m) && Lookup(setup, m, job).Some?
    ensures IsHit(setup, m, job, Lookup(setup, m, job).value, o) && Made(setup, FindResult(setup, m, job).value, o)
    ensures Matches(Lookup(setup, m, job).value, Outcome(setup, o))
  {
    hide FindResult, Made, Outcome, MaskOut, UnmaskOut, GoodHash, StatusOf, Digits;
    var k2 := FindResult(setup, m, job).value;
    if job.inv.mode.Compile? && StatusSlot(k2) in m.cache {
      o := m.origins[StatusSlot(k2)];
      OutcomeIsTame(setup, k2, o);
      StatusRoundTrip(Outcome(setup, o).status);
    } else {
      o := m.origins[ObjectSlot(k2)];
      OutcomeIsTame(setup, k2, o);
      MaskRoundTrip(setup.site, Outcome(setup, o).bytes);
    }
  }

  lemma OutcomeIsTame(setup: Setup, k2: string, o: Origin)
    requires Made(setup, k2, o)
    ensures Unmasked(setup.site, Outcome(setup, o).bytes) && 0 <= Outcome(setup, o).status < 0x8000_0000
  {
    hide Tame, Unmasked, Blind, Run, WorldOk;
    RunIsTame(setup.site, TreeOf(setup, o.job), o.before);
  }

  /** A hit for the same call has the status, and for a success the bytes, that compiling now would have, if what the
      stored compile saw below the build's output is still so. */
  lemma HitIsSound(setup: Setup, m: Machine, job: Job, r: Result, o: Origin)
    requires SetupOk(setup) && JobOk(setup, job) && WorldOk(setup, m.world) && CacheOk(setup, m)
    requires IsHit(setup, m, job, r, o)
    ensures CallOf(setup.site.id, job.inv) == CallOf(setup.site.id, o.job.inv) && job.toolchain == o.job.toolchain
    ensures Matches(r, Outcome(setup, o))
    ensures Essential(job.inv) == Essential(o.job.inv) && OutKept(setup, o.job, o.before, m.world) ==>
              Matches(r, Run(TreeOf(setup, job), m.world))
  {
    hide JobOk, WorldOk, FindResult, JobLines, K1, Primary, AllValid, Run, TreeOf, GoodHash, CacheOk, OutKept, CallOf;
    var was := HitHasOrigin(setup, m, job);
    var k2 := FindResult(setup, m, job).value;
    FoundIsMade(setup, m, job, k2, o);
    KeyPinsCall(setup, m.world, job, o.before, o.job);
    if Essential(job.inv) == Essential(o.job.inv) && OutKept(setup, o.job, o.before, m.world) {
      ManifestPinsRun(setup, o.job, o.before, o.after, job, m.world);
    }
  }

  /** And only if: otherwise some compiler that made the same looks and ended the same way would now end in another. */
  lemma HitIsRightIff(setup: Setup, m: Machine, job: Job, r: Result, o: Origin)
    requires SetupOk(setup) && JobOk(setup, job) && WorldOk(setup, m.world) && CacheOk(setup, m)
    requires IsHit(setup, m, job, r, o) && Essential(job.inv) == Essential(o.job.inv)
    ensures (forall t :: Alike(t, TreeOf(setup, o.job), Outs(o.job), o.before) ==> Matches(r, Run(t, m.world)))
            <==> OutKept(setup, o.job, o.before, m.world)
  {
    var t0, outs := TreeOf(setup, o.job), Outs(o.job);
    var was := HitHasOrigin(setup, m, job);
    var k2 := FindResult(setup, m, job).value;
    FoundIsMade(setup, m, job, k2, o);
    assert Blind(t0, outs);
    hide JobOk, WorldOk, FindResult, JobLines, K1, Primary, AllValid, Run, TreeOf, GoodHash, CacheOk, OutKept, Blind;
    hide Looks;
    ManifestPinsLooks(setup, o.job, o.before, o.after, job, m.world);
    if Differs(t0, outs, o.before, m.world) {
      var t := Divert(t0, outs, o.before, m.world);
      DivertIsTheSame(t0, outs, o.before, m.world);
      DivertDiffers(t0, outs, o.before, m.world);
      assert Alike(t, t0, outs, o.before) && !Matches(r, Run(t, m.world));
    } else {
      PinnedIff(t0, outs, o.before, m.world);
    }
  }

  // ---------------------------------------------------------------- whole runs

  datatype Event =
    | Edit(path: string, content: Option<string>)
    | Evict(slots: set<string>)
    | Build(job: Job, after: World, keep: bool, stderr: string, depfile: string)

  /** Edits are made outside the store or below the build's output. A build leaves its outputs behind, whether
      it compiles or replays. */
  ghost predicate CanHappen(setup: Setup, m: Machine, e: Event) {
    match e
    case Edit(p, content) =>
      p != "" && (!IsStorePath(p) || Own(setup, p)) && (content.Some? ==> Unmasked(setup.site, content.value))
    case Evict(_) => true
    case Build(job, after, _, _, _) => JobOk(setup, job) && WorldOk(setup, after) && SameBut(m.world, after, Outs(job))
  }

  ghost function Next(setup: Setup, m: Machine, e: Event): Machine {
    match e
    case Edit(p, content) => m.(world := if content.Some? then m.world[p := content.value] else m.world - {p})
    case Evict(slots) => m.(cache := m.cache - slots)
    case Build(job, after, keep, stderr, depfile) =>
      if Lookup(setup, m, job).Some? || Primary(setup, m.world, job).None? || !keep then m.(world := after)
      else Stored(setup, m, Origin(job, m.world, after), stderr, depfile)
  }

  ghost predicate Sound(setup: Setup, m: Machine) { WorldOk(setup, m.world) && CacheOk(setup, m) }

  lemma StoredObjectOk(setup: Setup, m: Machine, o: Origin, stderr: string, depfile: string, k: string)
    requires CacheOk(setup, m) && Primary(setup, o.before, o.job).Some? && Made(setup, KeyOf(setup, o), o)
    requires ObjectSlot(k) in Stored(setup, m, o, stderr, depfile).cache
    ensures var n := Stored(setup, m, o, stderr, depfile);
            ObjectSlot(k) in n.origins && ObjectOk(setup, k, n.cache[ObjectSlot(k)], n.origins[ObjectSlot(k)])
  {
    hide Made, Primary, K1, JobLines, KeyOf, Outcome, Digits, TextOf, MaskOut, Filed, ObjectSlot, StatusSlot;
    var r, k1, k2 := Outcome(setup, o), K1(setup, o.before, o.job), KeyOf(setup, o);
    var text, masked := TextOf(JobLines(setup, o.job, o.before, o.after)), MaskOut(setup.site.id, r.bytes);
    OutcomeIsTame(setup, k2, o);
    FiledObjects(m.cache, o.job, k1, k2, text, r.status, masked, stderr, depfile, k);
    SlotsApart(k, k2);
  }

  lemma StoredStatusOk(setup: Setup, m: Machine, o: Origin, stderr: string, depfile: string, k: string)
    requires CacheOk(setup, m) && Primary(setup, o.before, o.job).Some? && Made(setup, KeyOf(setup, o), o)
    requires StatusSlot(k) in Stored(setup, m, o, stderr, depfile).cache
    ensures var n := Stored(setup, m, o, stderr, depfile);
            StatusSlot(k) in n.origins && StatusOk(setup, k, n.cache[StatusSlot(k)], n.origins[StatusSlot(k)])
  {
    hide Made, Primary, K1, JobLines, KeyOf, Outcome, Digits, TextOf, MaskOut, Filed, ObjectSlot, StatusSlot;
    var r, k1, k2 := Outcome(setup, o), K1(setup, o.before, o.job), KeyOf(setup, o);
    var text, masked := TextOf(JobLines(setup, o.job, o.before, o.after)), MaskOut(setup.site.id, r.bytes);
    OutcomeIsTame(setup, k2, o);
    FiledStatuses(m.cache, o.job, k1, k2, text, r.status, masked, stderr, depfile, k);
    SlotsApart(k, k2);
    SlotsApart(k2, k);
  }

  lemma StoredIsOk(setup: Setup, m: Machine, o: Origin, stderr: string, depfile: string)
    requires SetupOk(setup) && Sound(setup, m)
    requires Primary(setup, o.before, o.job).Some? && Made(setup, KeyOf(setup, o), o)
    ensures Sound(setup, Stored(setup, m, o, stderr, depfile))
  {
    MadeWorld(setup, KeyOf(setup, o), o);
    assert Stored(setup, m, o, stderr, depfile).world == o.after;
    hide Made, WorldOk, Primary, KeyOf, GoodHash, Stored, ObjectOk, StatusOk, ObjectSlot, StatusSlot;
    var n := Stored(setup, m, o, stderr, depfile);
    forall k | ObjectSlot(k) in n.cache
      ensures ObjectSlot(k) in n.origins && ObjectOk(setup, k, n.cache[ObjectSlot(k)], n.origins[ObjectSlot(k)])
    {
      StoredObjectOk(setup, m, o, stderr, depfile, k);
    }
    forall k | StatusSlot(k) in n.cache
      ensures StatusSlot(k) in n.origins && StatusOk(setup, k, n.cache[StatusSlot(k)], n.origins[StatusSlot(k)])
    {
      StoredStatusOk(setup, m, o, stderr, depfile, k);
    }
  }

  lemma MadeWorld(setup: Setup, k2: string, o: Origin)
    requires Made(setup, k2, o)
    ensures WorldOk(setup, o.after)
  {
  }

  lemma EditKeeps(setup: Setup, w: World, p: string, content: Option<string>)
    requires WorldOk(setup, w) && p != "" && (!IsStorePath(p) || Own(setup, p))
    requires content.Some? ==> Unmasked(setup.site, content.value)
    ensures WorldOk(setup, if content.Some? then w[p := content.value] else w - {p})
  {
    hide Unmasked;
  }

  lemma EventKeeps(setup: Setup, m: Machine, e: Event)
    requires SetupOk(setup) && Sound(setup, m) && CanHappen(setup, m, e)
    ensures Sound(setup, Next(setup, m, e))
  {
    hide WorldOk, JobOk, ObjectOk, StatusOk, GoodHash, Lookup, Primary, Stored, KeyOf;
    match e
    case Edit(p, content) => EditKeeps(setup, m.world, p, content);
    case Evict(slots) =>
    case Build(job, after, keep, stderr, depfile) =>
      if Primary(setup, m.world, job).Some? {
        StoredIsOk(setup, m, Origin(job, m.world, after), stderr, depfile);
      }
  }

  ghost predicate Happens(setup: Setup, m: Machine, es: seq<Event>)
    decreases |es|
  {
    es == [] || (CanHappen(setup, m, es[0]) && Happens(setup, Next(setup, m, es[0]), es[1..]))
  }

  ghost function Final(setup: Setup, m: Machine, es: seq<Event>): Machine
    decreases |es|
  {
    if es == [] then m else Final(setup, Next(setup, m, es[0]), es[1..])
  }

  lemma {:induction false} RunKeeps(setup: Setup, m: Machine, es: seq<Event>)
    requires SetupOk(setup) && Sound(setup, m) && Happens(setup, m, es)
    ensures Sound(setup, Final(setup, m, es))
    decreases |es|
  {
    hide Sound, Next, CanHappen, GoodHash;
    if es != [] {
      EventKeeps(setup, m, es[0]);
      RunKeeps(setup, Next(setup, m, es[0]), es[1..]);
    }
  }

  ghost function Empty(start: World): Machine { Machine(start, map[], map[]) }

  /** Whatever was compiled, edited and evicted, in whatever order, below the build's own output too: a hit replays what
      a compile of the run ended in. It is what the compiler, run in the world as it is, would produce if both
      calls come back from their key and what that compile saw below the output is still so. */
  lemma ReplayIsSound(setup: Setup, start: World, es: seq<Event>, job: Job) returns (o: Origin)
    requires SetupOk(setup) && WorldOk(setup, start) && JobOk(setup, job)
    requires Happens(setup, Empty(start), es) && Lookup(setup, Final(setup, Empty(start), es), job).Some?
    ensures var m := Final(setup, Empty(start), es);
            var r := Lookup(setup, m, job).value;
            var settled := Settled(setup.site, job.inv) && Settled(setup.site, o.job.inv);
            && IsHit(setup, m, job, r, o) && JobOk(setup, o.job) && Matches(r, Outcome(setup, o))
            && (settled && OutKept(setup, o.job, o.before, m.world) ==> Matches(r, Run(TreeOf(setup, job), m.world)))
  {
    hide WorldOk, JobOk, Happens, Final, IsHit, Run, TreeOf, GoodHash, Settled, OutKept, CallOf, Lookup, FindResult;
    var m := Final(setup, Empty(start), es);
    RunKeeps(setup, Empty(start), es);
    o := HitHasOrigin(setup, m, job);
    HitIsSound(setup, m, job, Lookup(setup, m, job).value, o);
    if Settled(setup.site, job.inv) { OneKeyOneCall(setup.site, job.inv, o.job.inv); }
  }

  // ---------------------------------------------------------------- runs that leave the output alone

  /** Nothing below the build's output is touched, and every call comes back from its key. */
  ghost predicate Calm(setup: Setup, e: Event) {
    match e
    case Edit(p, _) => !Own(setup, p)
    case Evict(_) => true
    case Build(job, _, _, _, _) => Settled(setup.site, job.inv) && forall p :: p in Outs(job) ==> !Own(setup, p)
  }

  ghost predicate SameOwn(setup: Setup, w: World, v: World) {
    forall p :: Own(setup, p) ==> Answer(w, p) == Answer(v, p)
  }

  ghost predicate CalmSoFar(setup: Setup, start: World, m: Machine) {
    && SameOwn(setup, m.world, start)
    && forall slot :: slot in m.origins ==>
         SameOwn(setup, m.origins[slot].before, start) && Settled(setup.site, m.origins[slot].job.inv)
  }

  lemma OriginsOf(setup: Setup, m: Machine, e: Event, slot: string)
    requires e.Build? && slot in Next(setup, m, e).origins
    ensures (slot in m.origins && Next(setup, m, e).origins[slot] == m.origins[slot])
            || Next(setup, m, e).origins[slot] == Origin(e.job, m.world, e.after)
  {
    hide Lookup, Primary, Filed, KeyOf, Outcome, K1, TextOf, JobLines, MaskOut;
  }

  lemma CalmStep(setup: Setup, start: World, m: Machine, e: Event)
    requires CanHappen(setup, m, e) && Calm(setup, e) && CalmSoFar(setup, start, m)
    ensures CalmSoFar(setup, start, Next(setup, m, e))
  {
    if e.Build? {
      assert SameOwn(setup, e.after, start);
      hide Next, SameOwn, Settled, JobOk, WorldOk, Own;
      assert SameOwn(setup, m.world, start) && Settled(setup.site, e.job.inv);
      var n := Next(setup, m, e);
      forall slot | slot in n.origins
        ensures SameOwn(setup, n.origins[slot].before, start) && Settled(setup.site, n.origins[slot].job.inv)
      {
        OriginsOf(setup, m, e, slot);
      }
      NextWorld(setup, m, e);
    } else {
      hide Own, Settled;
    }
  }

  lemma NextWorld(setup: Setup, m: Machine, e: Event)
    requires e.Build?
    ensures Next(setup, m, e).world == e.after
  {
    hide Lookup, Primary, Filed, KeyOf, Outcome, K1, TextOf, JobLines, MaskOut;
  }

  lemma {:induction false} CalmRun(setup: Setup, start: World, m: Machine, es: seq<Event>)
    requires Happens(setup, m, es) && (forall e :: e in es ==> Calm(setup, e)) && CalmSoFar(setup, start, m)
    ensures CalmSoFar(setup, start, Final(setup, m, es))
    decreases |es|
  {
    hide CalmSoFar, Next, CanHappen, Calm;
    if es != [] {
      assert es[0] in es;
      CalmStep(setup, start, m, es[0]);
      CalmRun(setup, start, Next(setup, m, es[0]), es[1..]);
    }
  }

  lemma CalmIsKept(setup: Setup, start: World, job: Job, w: World, u: World)
    requires SameOwn(setup, w, start) && SameOwn(setup, u, start)
    ensures OutKept(setup, job, w, u)
  {
    hide Own, Read, Sought, Looks, TreeOf;
    LooksAreBoth(TreeOf(setup, job), w);
  }

  /** In a run that leaves the output alone every hit is what the compiler would produce now. */
  lemma CalmReplayIsSound(setup: Setup, start: World, es: seq<Event>, job: Job)
    requires SetupOk(setup) && WorldOk(setup, start) && JobOk(setup, job) && Settled(setup.site, job.inv)
    requires Happens(setup, Empty(start), es) && forall e :: e in es ==> Calm(setup, e)
    ensures var m := Final(setup, Empty(start), es);
            Lookup(setup, m, job).Some? ==> Matches(Lookup(setup, m, job).value, Run(TreeOf(setup, job), m.world))
  {
    hide WorldOk, JobOk, Happens, Final, Lookup, Run, TreeOf, GoodHash, Settled, OutKept, SameOwn, Calm, Made;
    hide FindResult;
    var m := Final(setup, Empty(start), es);
    RunKeeps(setup, Empty(start), es);
    CalmAtFirst(setup, start);
    CalmRun(setup, start, Empty(start), es);
    if Lookup(setup, m, job).Some? {
      var o := ReplayIsSound(setup, start, es, job);
      CalmIsKept(setup, start, o.job, o.before, m.world);
    }
  }

  lemma CalmAtFirst(setup: Setup, start: World)
    ensures CalmSoFar(setup, start, Empty(start))
  {
  }

  // ---------------------------------------------------------------- and what was stored is found

  lemma SameIdentity(site: Site, w: World, v: World, p: string)
    requires Answer(w, p) == Answer(v, p)
    ensures InputId(site, w, p) == InputId(site, v, p)
  {
  }

  lemma {:induction false} SamePch(site: Site, w: World, v: World, pch: seq<string>)
    requires forall p :: p in pch ==> Answer(w, p) == Answer(v, p)
    ensures PchText(site, w, pch) == PchText(site, v, pch)
    decreases |pch|
  {
    hide InputId;
    if pch != [] {
      assert pch[|pch| - 1] in pch;
      SameIdentity(site, w, v, pch[|pch| - 1]);
      SamePch(site, w, v, pch[..|pch| - 1]);
    }
  }

  lemma {:induction false} SameLink(site: Site, w: World, v: World, inputs: seq<string>)
    requires forall p :: p in inputs ==> Answer(w, p) == Answer(v, p)
    ensures LinkText(site, w, inputs) == LinkText(site, v, inputs)
    decreases |inputs|
  {
    hide InputId;
    if inputs != [] {
      assert inputs[|inputs| - 1] in inputs;
      SameIdentity(site, w, v, inputs[|inputs| - 1]);
      SameLink(site, w, v, inputs[..|inputs| - 1]);
    }
  }

  /** Writing its outputs does not change what a job is known by. */
  lemma KeyIsStable(setup: Setup, job: Job, w: World, v: World)
    requires JobOk(setup, job) && SameBut(w, v, Outs(job))
    ensures Primary(setup, w, job) == Primary(setup, v, job)
  {
    var pch := setup.pch(Essential(job.inv));
    hide Blind, Tame, Recordable, Unmasked, PchText, LinkText, CallOf;
    if job.inv.mode.Link? {
      SameLink(setup.site, w, v, job.inputs);
    } else {
      assert Answer(w, job.inv.source) == Answer(v, job.inv.source);
      SamePch(setup.site, w, v, pch);
    }
  }

  lemma FiledIsFound(cache: Cache, job: Job, k1: string, k2: string, text: string, status: int, masked: string,
                     stderr: string, depfile: string, id: Identity)
    requires 0 <= status < 0x8000_0000 && (status == 0 || job.inv.mode.Compile?)
    ensures var c := Filed(cache, job, k1, k2, text, status, masked, stderr, depfile);
            ManifestSlot(k1) in c && c[ManifestSlot(k1)] == text
            && Replayed(id, c, job, k2) ==
                 if status != 0 then Some(Result(status, ""))
                 else if job.inv.mode.Compile? && StatusSlot(k2) in cache && StatusOf(cache[StatusSlot(k2)]) != 0 then
                   Some(Result(StatusOf(cache[StatusSlot(k2)]), ""))
                 else Some(Result(0, UnmaskOut(id, masked)))
  {
    hide Digits, StatusOf, ManifestSlot, ObjectSlot, StatusSlot, StderrSlot, DepfileSlot, UnmaskOut;
    SlotsApart(k1, k2);
    SlotsApart(k2, k1);
    SlotsApart(k2, k2);
    if status > 0 { StatusRoundTrip(status); }
  }

  lemma OwnLinesValidate(setup: Setup, job: Job, w: World, v: World, k1: string)
    requires SetupOk(setup) && JobOk(setup, job)
    ensures var lines := JobLines(setup, job, w, v);
            Validated(setup.site, v, k1, TextOf(lines)) == Some(ResultKey(setup.site, k1, lines))
  {
    var t := TreeOf(setup, job);
    assert Tame(setup.site, t);
    hide JobOk, TreeOf, Tame, ManifestLines, Validated, ResultKey, TextOf;
    LooksAreRecordable(setup.site, t, w);
    LooksAreBoth(t, w);
    hide Recordable, Read, Sought, Looks, GoodHash;
    OwnManifestValidates(setup.site, v, k1, Read(t, w), job.inv.source, Sought(t, w));
  }

  lemma StoredLeadsThere(setup: Setup, m: Machine, o: Origin, stderr: string, depfile: string, u: World)
    requires SetupOk(setup) && Primary(setup, o.before, o.job).Some?
    requires Made(setup, KeyOf(setup, o), o) && (Outcome(setup, o).status == 0 || o.job.inv.mode.Compile?)
    requires Primary(setup, u, o.job) == Primary(setup, o.before, o.job)
    requires JobLines(setup, o.job, o.before, u) == JobLines(setup, o.job, o.before, o.after)
    ensures FindResult(setup, Stored(setup, m, o, stderr, depfile).(world := u), o.job) == Some(KeyOf(setup, o))
  {
    var r, k2 := Outcome(setup, o), KeyOf(setup, o);
    OutcomeIsTame(setup, k2, o);
    assert JobOk(setup, o.job);
    hide JobOk, WorldOk, Made, Outcome, GoodHash, Unmasked, JobLines, ResultKey, Validated, TextOf, Filed, Replayed;
    hide MaskOut, UnmaskOut, Primary, StatusOf, ManifestSlot, ObjectSlot, StatusSlot;
    var k1, lines := K1(setup, o.before, o.job), JobLines(setup, o.job, o.before, o.after);
    assert K1(setup, u, o.job) == k1;
    OwnLinesValidate(setup, o.job, o.before, u, k1);
    FiledIsFound(m.cache, o.job, k1, k2, TextOf(lines), r.status, MaskOut(setup.site.id, r.bytes), stderr, depfile,
                 setup.site.id);
  }

  /** In a world where the job is known by the same key and its manifest would be the same, a compile that was stored is
      a hit. The hit is what the compile produced, but for a success under the key of an earlier failure: then
      the failure is replayed. */
  lemma StoredStaysFound(setup: Setup, m: Machine, o: Origin, stderr: string, depfile: string, u: World)
    requires SetupOk(setup) && Sound(setup, m) && Primary(setup, o.before, o.job).Some?
    requires Made(setup, KeyOf(setup, o), o) && (Outcome(setup, o).status == 0 || o.job.inv.mode.Compile?)
    requires Primary(setup, u, o.job) == Primary(setup, o.before, o.job)
    requires JobLines(setup, o.job, o.before, u) == JobLines(setup, o.job, o.before, o.after)
    ensures var again := Lookup(setup, Stored(setup, m, o, stderr, depfile).(world := u), o.job);
            again.Some?
            && (Matches(again.value, Outcome(setup, o)) <==>
                  !(Outcome(setup, o).status == 0 && o.job.inv.mode.Compile? && StatusSlot(KeyOf(setup, o)) in m.cache))
  {
    var r, k2 := Outcome(setup, o), KeyOf(setup, o);
    hide WorldOk, Made, Outcome, GoodHash, Unmasked, JobLines, KeyOf, TextOf, Filed, Replayed, FindResult, K1;
    hide MaskOut, UnmaskOut, Primary, StatusOf, Digits, ObjectSlot, StatusSlot;
    OutcomeIsTame(setup, k2, o);
    StoredLeadsThere(setup, m, o, stderr, depfile, u);
    FiledIsFound(m.cache, o.job, K1(setup, o.before, o.job), k2, TextOf(JobLines(setup, o.job, o.before, o.after)),
                 r.status, MaskOut(setup.site.id, r.bytes), stderr, depfile, setup.site.id);
    MaskRoundTrip(setup.site, r.bytes);
    if o.job.inv.mode.Compile? && StatusSlot(k2) in m.cache {
      var was := m.origins[StatusSlot(k2)];
      OutcomeIsTame(setup, k2, was);
      StatusRoundTrip(Outcome(setup, was).status);
    }
  }

  /** So it is right after the compile. */
  lemma StoredIsFound(setup: Setup, m: Machine, o: Origin, stderr: string, depfile: string)
    requires SetupOk(setup) && Sound(setup, m) && Primary(setup, o.before, o.job).Some?
    requires Made(setup, KeyOf(setup, o), o) && (Outcome(setup, o).status == 0 || o.job.inv.mode.Compile?)
    ensures var again := Lookup(setup, Stored(setup, m, o, stderr, depfile), o.job);
            again.Some?
            && (Matches(again.value, Outcome(setup, o)) <==>
                  !(Outcome(setup, o).status == 0 && o.job.inv.mode.Compile? && StatusSlot(KeyOf(setup, o)) in m.cache))
  {
    hide JobOk, WorldOk, GoodHash, Outcome, KeyOf, Primary, JobLines, Lookup, Sound, StatusSlot;
    KeyIsStable(setup, o.job, o.before, o.after);
    StoredStaysFound(setup, m, o, stderr, depfile, o.after);
    assert Stored(setup, m, o, stderr, depfile).(world := o.after) == Stored(setup, m, o, stderr, depfile);
  }

  /** An earlier failure of the same call under the key of a success has seen something below the output that has
      changed since. */
  lemma KeptFailureIsStale(setup: Setup, m: Machine, o: Origin)
    requires SetupOk(setup) && Sound(setup, m) && Primary(setup, o.before, o.job).Some?
    requires Made(setup, KeyOf(setup, o), o) && Outcome(setup, o).status == 0
    requires StatusSlot(KeyOf(setup, o)) in m.cache
    requires Essential(m.origins[StatusSlot(KeyOf(setup, o))].job.inv) == Essential(o.job.inv)
    ensures var was := m.origins[StatusSlot(KeyOf(setup, o))]; !OutKept(setup, was.job, was.before, o.after)
  {
    var k2 := KeyOf(setup, o);
    var was := m.origins[StatusSlot(k2)];
    assert StatusOk(setup, k2, m.cache[StatusSlot(k2)], was);
    var k1, lines := K1(setup, o.before, o.job), JobLines(setup, o.job, o.before, o.after);
    assert Blind(TreeOf(setup, o.job), Outs(o.job));
    hide JobOk, WorldOk, JobLines, Primary, AllValid, Run, TreeOf, CacheOk, OutKept, Blind, Looks, TextOf, Validated;
    hide GoodHash, ResultKey;
    OwnLinesValidate(setup, o.job, o.before, o.after, k1);
    KeyIsStable(setup, o.job, o.before, o.after);
    var n := Machine(o.after, map[ManifestSlot(k1) := TextOf(lines)], map[]);
    assert FindResult(setup, n, o.job) == Some(k2);
    hide K1;
    FoundIsMade(setup, n, o.job, k2, was);
    if OutKept(setup, was.job, was.before, o.after) {
      ManifestPinsRun(setup, was.job, was.before, was.after, o.job, o.after);
      RunIsPinned(TreeOf(setup, o.job), Outs(o.job), o.before, o.after);
    }
  }
}
