/** The store over any number of daemon lives: runs, crashes inside any action, restarts, and
    restarts that crash themselves. */
module StoreLives {
  import opened Bytes
  import opened PackFile
  import opened PackDisk
  import opened PackSet
  import opened BlobState
  import opened StoreCrash
  import opened StoreRuns

  /** The daemon is running, or there are only its files. */
  datatype Phase = Up(s: State) | Down(d: Disk)

  datatype Event =
    | Acting(a: Action)
    | Dying(a: Action, left: Disk)                                             // inside a
    | Opening(s: State)                                                       // a restart gets to its end
    | DyingInOpen(top: nat, ops: seq<Op>, done: Disk, last: nat, left: Disk)  // or does not

  ghost predicate Next(p: Phase, e: Event, p': Phase) {
    match e
    case Acting(a) => p.Up? && Can(p.s, a) && p' == Up(After(p.s, a))
    case Dying(a, left) => p.Up? && Can(p.s, a) && Crashes(p.s.disk, OpsOf(p.s, a), left) && p' == Down(left)
    case Opening(s) => p.Down? && Opens(p.d, s) && p' == Up(s)
    case DyingInOpen(top, ops, done, last, left) =>
      p.Down? && DiskOk(p.d, top) && Trail(p.d, top, ops, done, last) && Crashes(p.d, ops, left) && p' == Down(left)
  }

  /** Per key the values it may have, one of which it has. */
  type Promise = map<Key, set<seq<byte>>>

  /** What is promised after an event: the value put; the old one or the new one of a key whose Put a crash caught;
      nothing of what is evicted. */
  ghost function Promised(p: Phase, e: Event, kept: Promise): Promise {
    if !p.Up? then kept else
      match e
      case Acting(a) =>
        if a.Putting? then kept[a.key := {a.value}] else map k | k in kept && !About(p.s, a, k) :: kept[k]
      case Dying(a, _) =>
        if a.Putting? then (if a.key in kept then kept[a.key := kept[a.key] + {a.value}] else kept)
        else map k | k in kept && !About(p.s, a, k) :: kept[k]
      case _ => kept
  }

  ghost predicate HoldsOneOf(p: PackMap, key: Key, values: set<seq<byte>>) {
    exists v :: v in values && Holds(p, key, v)
  }

  /** All that anyone ever tried to put. */
  function Offered(e: Event, ever: set<(Key, seq<byte>)>): set<(Key, seq<byte>)> {
    if (e.Acting? || e.Dying?) && e.a.Putting? then ever + {(e.a.key, e.a.value)} else ever
  }

  ghost predicate Good(p: Phase, kept: Promise, ever: set<(Key, seq<byte>)>) {
    match p
    case Up(s) =>
      Inv(s) && Sourced(Packs(s.disk), ever)
      && forall k :: k in kept ==> k in Bindings(s) && Bindings(s)[k] in kept[k]
    case Down(d) =>
      (exists top :: DiskOk(d, top)) && Sourced(Packs(d), ever)
      && forall k :: k in kept ==> HoldsOneOf(Packs(d), k, kept[k])
  }

  // ---------------------------------------------------------------- values

  ghost predicate Offers(ops: seq<Op>, more: set<(Key, seq<byte>)>) {
    forall op :: op in ops && op.act.Append? ==> (op.act.key, op.act.value) in more
  }

  lemma {:induction false} SourcedCrash(d: Disk, top: nat, ops: seq<Op>, d': Disk, ever: set<(Key, seq<byte>)>)
    requires DiskOk(d, top) && AllSafe(d, top, ops) && Crashes(d, ops, d')
    requires Sourced(Packs(d), ever) && Offers(ops, ever)
    ensures Sourced(Packs(d'), ever)
    decreases |ops|
  {
    hide DiskOk, Safe, Perform, Packs, Sourced;
    if d' != d {
      var op := ops[0];
      var e := if op.act.Append? then ever + {(op.act.key, op.act.value)} else ever;
      assert e == ever;
      if Torn(d, op, d') {
        SourcedTorn(d, top, op, d', ever);
      } else {
        SourcedTorn(d, top, op, Perform(d, op), ever);
        WholeOp(d, top, op);
        SourcedCrash(Perform(d, op), NewTop(top, op), ops[1..], d', ever);
      }
    }
  }

  lemma {:induction false} WholeIsCrash(d: Disk, ops: seq<Op>)
    ensures Crashes(d, ops, PerformAll(d, ops))
    decreases |ops|
  {
    hide Perform, Torn;
    if ops != [] { WholeIsCrash(Perform(d, ops[0]), ops[1..]); }
  }

  lemma ActionOffers(s: State, a: Action, ever: set<(Key, seq<byte>)>)
    ensures Offers(OpsOf(s, a), if a.Putting? then ever + {(a.key, a.value)} else ever)
  {
    hide Fits;
  }

  // ---------------------------------------------------------------- the four events

  lemma ActingGood(s: State, a: Action, kept: Promise, ever: set<(Key, seq<byte>)>)
    requires Good(Up(s), kept, ever) && Can(s, a)
    ensures Good(Up(After(s, a)), Promised(Up(s), Acting(a), kept), Offered(Acting(a), ever))
  {
    hide Inv, Can, After, OpsOf, Sourced, Packs, Bindings, Crashes, AllSafe, DiskOk, Offers;
    ActionRefines(s, a);
    ActionOps(s, a);
    DiskOf(s);
    WholeIsCrash(s.disk, OpsOf(s, a));
    var ever' := Offered(Acting(a), ever);
    ActionOffers(s, a, ever);
    SourcedMore(Packs(s.disk), ever, ever');
    assert ever + ever' == ever';
    SourcedCrash(s.disk, s.active, OpsOf(s, a), After(s, a).disk, ever');
    PromisedBinds(s, a, kept);
  }

  lemma PromisedBinds(s: State, a: Action, kept: Promise)
    requires forall k :: k in kept ==> k in Bindings(s) && Bindings(s)[k] in kept[k]
    ensures var kept' := Promised(Up(s), Acting(a), kept);
            forall k :: k in kept' ==> k in Rebind(s, a) && Rebind(s, a)[k] in kept'[k]
  {
    hide ValueIn, Content;
  }

  lemma DyingGood(s: State, a: Action, left: Disk, kept: Promise, ever: set<(Key, seq<byte>)>)
    requires Good(Up(s), kept, ever) && Can(s, a) && Crashes(s.disk, OpsOf(s, a), left)
    ensures Good(Down(left), Promised(Up(s), Dying(a, left), kept), Offered(Dying(a, left), ever))
  {
    hide Inv, Can, OpsOf, Sourced, Packs, Crashes, AllSafe, DiskOk, Offers, Holds, About, ValueIn, Content;
    ActionIsCrashSafe(s, a, left);
    ActionOps(s, a);
    DiskOf(s);
    var ever' := Offered(Dying(a, left), ever);
    ActionOffers(s, a, ever);
    SourcedMore(Packs(s.disk), ever, ever');
    assert ever + ever' == ever';
    SourcedCrash(s.disk, s.active, OpsOf(s, a), left, ever');
    var kept' := Promised(Up(s), Dying(a, left), kept);
    forall k | k in kept'
      ensures HoldsOneOf(Packs(left), k, kept'[k])
    {
      DyingKeepsOne(s, a, left, k, kept);
    }
  }

  /** The key being put has its old value or the new one, every other key the value it had. */
  lemma DyingKeepsOne(s: State, a: Action, left: Disk, k: Key, kept: Promise)
    requires Inv(s) && Can(s, a) && Crashes(s.disk, OpsOf(s, a), left)
    requires forall k :: k in kept ==> k in Bindings(s) && Bindings(s)[k] in kept[k]
    requires k in Promised(Up(s), Dying(a, left), kept)
    ensures HoldsOneOf(Packs(left), k, Promised(Up(s), Dying(a, left), kept)[k])
  {
    hide Inv, Puts, PutOps, Packs, Crashes, Holds, Bindings, Can, OpsOf;
    assert k in kept;
    BoundIsIndexed(s, k);
    if a.Putting? && a.key == k {
      PuttingIs(s, a);
      PutIsCrashAtomic(s, k, a.value, a.hint, left);
    } else {
      ActionIsCrashSafe(s, a, left);
    }
  }

  lemma PuttingIs(s: State, a: Action)
    requires a.Putting?
    ensures Can(s, a) == Puts(s, a.key, a.value, a.hint) && OpsOf(s, a) == PutOps(s, a.key, a.value, a.hint)
  {
    hide Puts, PutOps;
  }

  /** An index that misses nothing binds what the disk holds. */
  lemma ExactBinds(s: State, k: Key, v: seq<byte>)
    requires Inv(s) && Exact(s.index, Packs(s.disk)) && Holds(Packs(s.disk), k, v)
    ensures k in Bindings(s) && Bindings(s)[k] == v
  {
    hide Inv, Packs, ValueIn, Content;
    var id :| Newest(Packs(s.disk), k, id);
    assert k in s.index;
    IndexedIsHeld(s, k);
    HoldsOne(Packs(s.disk), k, v, Bindings(s)[k]);
  }

  /** A restart binds exactly what the disk it found holds: nothing is lost, nothing made up. */
  lemma OpenedBinds(d: Disk, s: State, k: Key, v: seq<byte>)
    requires Opens(d, s)
    ensures (k in Bindings(s) && Bindings(s)[k] == v) <==> Holds(Packs(d), k, v)
  {
    hide Inv, Packs, Exact, Holds, ValueIn, Content, Trail, DiskOk;
    if Holds(Packs(d), k, v) { ExactBinds(s, k, v); }
    if k in Bindings(s) { IndexedIsHeld(s, k); }
  }

  lemma OpeningGood(d: Disk, s: State, kept: Promise, ever: set<(Key, seq<byte>)>)
    requires Good(Down(d), kept, ever) && Opens(d, s)
    ensures Good(Up(s), kept, ever)
  {
    hide Inv, Packs, Exact, Holds, Trail, DiskOk, Sourced, Bindings;
    forall k | k in kept
      ensures k in Bindings(s) && Bindings(s)[k] in kept[k]
    {
      var v :| v in kept[k] && Holds(Packs(d), k, v);
      OpenedBinds(d, s, k, v);
    }
    var top, ops :| DiskOk(d, top) && Trail(d, top, ops, s.disk, s.active);
    TrailSourced(d, top, ops, s.disk, s.active, s.disk, ever);
  }

  lemma TrailSourced(d: Disk, top: nat, ops: seq<Op>, done: Disk, last: nat, left: Disk, ever: set<(Key, seq<byte>)>)
    requires DiskOk(d, top) && Trail(d, top, ops, done, last) && Sourced(Packs(d), ever)
    requires left == done || Crashes(d, ops, left)
    ensures Sourced(Packs(left), ever)
  {
    hide DiskOk, Packs, Sourced, Crashes, AllSafe, AllHarmless;
    HarmlessOffers(d, ops, ever);
    WholeIsCrash(d, ops);
    SourcedCrash(d, top, ops, left, ever);
  }

  lemma {:induction false} HarmlessOffers(d: Disk, ops: seq<Op>, ever: set<(Key, seq<byte>)>)
    requires AllHarmless(d, ops)
    ensures Offers(ops, ever)
    decreases |ops|
  {
    hide Perform;
    if ops != [] {
      HarmlessOffers(Perform(d, ops[0]), ops[1..], ever);
      assert !Disturbs(d, ops[0], if ops[0].act.Append? then ops[0].act.key else []);
      assert ops == [ops[0]] + ops[1..];
    }
  }

  lemma DyingInOpenGood(d: Disk, e: Event, kept: Promise, ever: set<(Key, seq<byte>)>)
    requires e.DyingInOpen? && Good(Down(d), kept, ever) && Next(Down(d), e, Down(e.left))
    ensures Good(Down(e.left), kept, ever)
  {
    hide DiskOk, Packs, Holds, Sourced, Trail, Crashes;
    TrailSourced(d, e.top, e.ops, e.done, e.last, e.left, ever);
    RestartIsCrashSafe(d, e.top, e.ops, e.done, e.last, e.left, [], []);
    forall k | k in kept
      ensures HoldsOneOf(Packs(e.left), k, kept[k])
    {
      var v :| v in kept[k] && Holds(Packs(d), k, v);
      RestartIsCrashSafe(d, e.top, e.ops, e.done, e.last, e.left, k, v);
    }
  }

  lemma EventGood(p: Phase, e: Event, p': Phase, kept: Promise, ever: set<(Key, seq<byte>)>)
    requires Good(p, kept, ever) && Next(p, e, p')
    ensures Good(p', Promised(p, e, kept), Offered(e, ever))
  {
    hide Good, Promised, Offered;
    match e
    case Acting(a) => ActingGood(p.s, a, kept, ever);
    case Dying(a, left) => DyingGood(p.s, a, left, kept, ever);
    case Opening(s) =>
      OpeningGood(p.d, s, kept, ever);
      NothingNew(p, e, kept, ever);
    case DyingInOpen(_, _, _, _, left) =>
      DyingInOpenGood(p.d, e, kept, ever);
      NothingNew(p, e, kept, ever);
  }

  lemma NothingNew(p: Phase, e: Event, kept: Promise, ever: set<(Key, seq<byte>)>)
    requires p.Down? && (e.Opening? || e.DyingInOpen?)
    ensures Promised(p, e, kept) == kept && Offered(e, ever) == ever
  {
  }

  // ---------------------------------------------------------------- whole histories

  /** A history: each event with the phase it leads to. */
  ghost predicate History(p: Phase, h: seq<(Event, Phase)>)
    decreases |h|
  {
    h != [] ==> Next(p, h[0].0, h[0].1) && History(h[0].1, h[1..])
  }

  function Last(p: Phase, h: seq<(Event, Phase)>): Phase { if h == [] then p else h[|h| - 1].1 }

  ghost function AllPromised(p: Phase, h: seq<(Event, Phase)>, kept: Promise): Promise
    decreases |h|
  {
    if h == [] then kept else AllPromised(h[0].1, h[1..], Promised(p, h[0].0, kept))
  }

  function AllOffered(h: seq<(Event, Phase)>, ever: set<(Key, seq<byte>)>): set<(Key, seq<byte>)>
    decreases |h|
  {
    if h == [] then ever else AllOffered(h[1..], Offered(h[0].0, ever))
  }

  lemma {:induction false} HistoryGood(p: Phase, h: seq<(Event, Phase)>, kept: Promise, ever: set<(Key, seq<byte>)>)
    requires Good(p, kept, ever) && History(p, h)
    ensures Good(Last(p, h), AllPromised(p, h, kept), AllOffered(h, ever))
    decreases |h|
  {
    hide Good, Next, Promised, Offered;
    if h != [] {
      EventGood(p, h[0].0, h[0].1, kept, ever);
      HistoryGood(h[0].1, h[1..], Promised(p, h[0].0, kept), Offered(h[0].0, ever));
      assert Last(p, h) == Last(h[0].1, h[1..]);
    }
  }

  /** From an empty directory, through any history: a running store answers every promised key with one of the values it
      may have, and answers nothing that was not put under that key. */
  lemma StoreIsFaithful(h: seq<(Event, Phase)>, key: Key)
    requires History(Down(map[]), h) && Last(Down(map[]), h).Up?
    ensures var s := Last(Down(map[]), h).s;
            var promised := AllPromised(Down(map[]), h, map[]);
            && Inv(s)
            && (key in promised ==> Get(s, key).Some? && Read(s.disk, Get(s, key).value) in promised[key])
            && (Get(s, key).Some? ==> (key, Read(s.disk, Get(s, key).value)) in AllOffered(h, {}))
  {
    hide Inv, Get, Read, History, AllPromised, AllOffered, Bindings, Packs, Sourced, Holds, Last;
    EmptyIsGood();
    HistoryGood(Down(map[]), h, map[], {});
    var s := Last(Down(map[]), h).s;
    GetReads(s, key);
    if Get(s, key).Some? {
      assert key in s.index by { BoundIsIndexed(s, key); }
      IndexedIsHeld(s, key);
      SourcedHolds(Packs(s.disk), AllOffered(h, {}), key, Bindings(s)[key]);
    }
  }

  lemma BoundIsIndexed(s: State, key: Key)
    requires key in Bindings(s)
    ensures key in s.index
  {
    hide ValueIn, Content;
  }

  lemma EmptyIsGood()
    ensures Good(Down(map[]), map[], {})
  {
    assert DiskOk(map[], 0);
    assert Packs(map[]) == map[];
  }
}
