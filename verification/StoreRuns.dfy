/** Whole runs of the daemon: puts, reads, demotions and evictions in any interleaving, crashes at
    any point of any of them, restarts, and crashes of restarts. */
module StoreRuns {
  import opened Bytes
  import opened PackFile
  import opened PackDisk
  import opened PackSet
  import opened BlobState
  import opened Demotion
  import opened StoreCrash

  /** What happens under the lock, one at a time. A demotion is four of these; others may come between. */
  datatype Action =
    | Putting(key: Key, value: seq<byte>, hint: File, now: int)
    | Reading(key: Key, now: int)
    | CopyingPack(id: nat, linked: bool)
    | CopyingHint(id: nat)
    | Switching(id: nat)
    | Evicting(id: nat)
    | Closing(hint: File)

  /** The pack may be moved: not the one being written, and not in the last tier. */
  predicate Movable(s: State, id: nat) {
    id in s.packs && id != s.active && s.packs[id].tier + 1 < |s.tiers|
  }

  ghost predicate Can(s: State, a: Action) {
    match a
    case Putting(key, value, hint, _) => Puts(s, key, value, hint)
    case Reading(_, _) => true
    case CopyingPack(id, _) => Movable(s, id)
    case CopyingHint(id) => Movable(s, id)
    case Switching(id) => ReadyToSwitch(s, id)
    case Evicting(id) => id in s.packs && id != s.active && s.packs[id].tier + 1 == |s.tiers|
    case Closing(hint) => TrueHint(s, hint)
  }

  function After(s: State, a: Action): State {
    match a
    case Putting(key, value, hint, now) => Put(s, key, value, hint, now)
    case Reading(key, now) => Touched(s, key, now)
    case CopyingPack(id, linked) => CopiedPack(s, id, linked)
    case CopyingHint(id) => CopiedHint(s, id)
    case Switching(id) => Switched(s, id)
    case Evicting(id) => Evicted(s, id)
    case Closing(hint) => Closed(s, hint)
  }

  function TierOf(s: State, id: nat): nat { if id in s.packs then s.packs[id].tier else 0 }

  function OpsOf(s: State, a: Action): seq<Op> {
    match a
    case Putting(key, value, hint, _) => PutOps(s, key, value, hint)
    case Reading(_, _) => []
    case CopyingPack(id, linked) => [Op(id, CopyPack(TierOf(s, id), linked))]
    case CopyingHint(id) => [Op(id, CopyHint(TierOf(s, id)))]
    case Switching(id) => [Op(id, RemovePack(TierOf(s, id))), Op(id, RemoveHint(TierOf(s, id)))]
    case Evicting(id) => [Op(id, RemovePack(TierOf(s, id))), Op(id, RemoveHint(TierOf(s, id)))]
    case Closing(hint) => [Op(s.active, PutHint(hint))]
  }

  /** The map after an action: Put rebinds its key, eviction forgets the pack's keys. */
  ghost function Rebind(s: State, a: Action): map<Key, seq<byte>> {
    match a
    case Putting(key, value, _, _) => Bindings(s)[key := value]
    case Evicting(id) => map k | k in s.index && s.index[k].pack != id :: Bindings(s)[k]
    case _ => Bindings(s)
  }

  /** The store refines a forgetful map: every action keeps the invariant and does to the bindings
      exactly what it should. */
  lemma ActionRefines(s: State, a: Action)
    requires Inv(s) && Can(s, a)
    ensures Inv(After(s, a)) && Bindings(After(s, a)) == Rebind(s, a)
  {
    hide Inv, Bindings, Put, Puts, Switched, Evicted, CopiedHint, CopiedPack, TrueHint, Closed, Touched;
    match a
    case Putting(key, value, hint, now) => PutKeeps(s, key, value, hint, now);
    case Reading(key, now) => TouchedKeeps(s, key, now);
    case CopyingPack(id, linked) => CopiedPackKeeps(s, id, linked);
    case CopyingHint(id) => CopiedHintKeeps(s, id);
    case Switching(id) => SwitchedKeeps(s, id);
    case Evicting(id) =>
      EvictedKeeps(s, id);
      EvictedBinds(s, id);
    case Closing(hint) => ClosedKeeps(s, hint);
  }

  // ---------------------------------------------------------------- what each action does on disk

  lemma OneOp(d: Disk, top: nat, op: Op)
    ensures AllSafe(d, top, [op]) <==> Safe(d, top, op)
    ensures PerformAll(d, [op]) == Perform(d, op)
    ensures forall k :: Untouched(d, [op], k) <==> !Disturbs(d, op, k)
  {
    hide Safe, Perform, Disturbs;
    assert [op][1..] == [];
  }

  lemma TwoOps(d: Disk, top: nat, o: Op, p: Op)
    requires !o.act.Create?
    ensures AllSafe(d, top, [o, p]) <==> Safe(d, top, o) && Safe(Perform(d, o), top, p)
    ensures PerformAll(d, [o, p]) == Perform(Perform(d, o), p)
    ensures forall k :: Untouched(d, [o, p], k) <==> !Disturbs(d, o, k) && !Disturbs(Perform(d, o), p, k)
  {
    hide Safe, Perform, Disturbs;
    assert [o, p][1..] == [p];
    OneOp(Perform(d, o), top, p);
  }

  lemma RemovalOps(s: State, id: nat)
    requires id in s.packs && id != s.active && Inv(s)
    requires ReadyToSwitch(s, id) || s.packs[id].tier + 1 == |s.tiers|
    ensures var tier := s.packs[id].tier;
            Safe(s.disk, s.active, Op(id, RemovePack(tier)))
            && Safe(Perform(s.disk, Op(id, RemovePack(tier))), s.active, Op(id, RemoveHint(tier)))
  {
    hide PackOk, DiskOk, Content, Complete, Points, Covers, Counted, Based;
    PackFacts(s, id);
    if s.packs[id].tier + 1 == |s.tiers| {
      LastCopyOk(s.disk[id], s.packs[id].tier);
    } else {
      OldCopyGone(s.disk[id], s.packs[id].tier);
    }
  }

  /** Every action is made of operations that are safe, one after the other. */
  lemma ActionOps(s: State, a: Action)
    requires Inv(s) && Can(s, a)
    ensures AllSafe(s.disk, s.active, OpsOf(s, a))
    ensures PerformAll(s.disk, OpsOf(s, a)) == After(s, a).disk
  {
    hide Inv, Puts, PutOps, Put, Safe, Perform, TrueHint;
    var d := s.disk;
    match a
    case Putting(key, value, hint, now) => PutOpsSafe(s, key, value, hint, now);
    case Reading(_, _) =>
    case CopyingPack(id, linked) =>
      CopiedPackKeeps(s, id, linked);
      OneOp(d, s.active, Op(id, CopyPack(s.packs[id].tier, linked)));
    case CopyingHint(id) =>
      CopiedHintKeeps(s, id);
      OneOp(d, s.active, Op(id, CopyHint(s.packs[id].tier)));
    case Switching(id) =>
      RemovalOps(s, id);
      TwoOps(d, s.active, Op(id, RemovePack(s.packs[id].tier)), Op(id, RemoveHint(s.packs[id].tier)));
    case Evicting(id) =>
      RemovalOps(s, id);
      TwoOps(d, s.active, Op(id, RemovePack(s.packs[id].tier)), Op(id, RemoveHint(s.packs[id].tier)));
    case Closing(hint) =>
      SealIsSafe(s, hint);
      OneOp(d, s.active, Op(s.active, PutHint(hint)));
  }

  /** The keys an action is about. */
  ghost predicate About(s: State, a: Action, k: Key) {
    || (a.Putting? && a.key == k)
    || (a.Evicting? && k in s.index && s.index[k].pack == a.id)
  }

  lemma SwitchTouchesNothing(s: State, id: nat, k: Key)
    requires ReadyToSwitch(s, id) && Inv(s)
    ensures !Disturbs(s.disk, Op(id, RemovePack(s.packs[id].tier)), k)
  {
    hide PackOk, DiskOk, Content, Complete, Points, Covers, Counted, Based, Newest;
    PackFacts(s, id);
  }

  lemma EvictTouches(s: State, id: nat, k: Key)
    requires Inv(s) && k in s.index && s.index[k].pack != id
    ensures !Newest(Packs(s.disk), k, id)
  {
    hide Stored, Counted, Covers;
    assert Newest(Packs(s.disk), k, s.index[k].pack);
  }

  lemma ActionUntouched(s: State, a: Action, k: Key)
    requires Inv(s) && Can(s, a) && k in s.index && !About(s, a, k)
    ensures Untouched(s.disk, OpsOf(s, a), k)
  {
    hide Inv, Puts, PutOps, Put, Safe, Perform, TrueHint, Newest;
    var d := s.disk;
    match a
    case Putting(key, value, hint, now) => PutUntouched(s, key, value, hint, k);
    case Reading(_, _) =>
    case CopyingPack(id, linked) => OneOp(d, s.active, Op(id, CopyPack(s.packs[id].tier, linked)));
    case CopyingHint(id) => OneOp(d, s.active, Op(id, CopyHint(s.packs[id].tier)));
    case Switching(id) =>
      SwitchTouchesNothing(s, id, k);
      TwoOps(d, s.active, Op(id, RemovePack(s.packs[id].tier)), Op(id, RemoveHint(s.packs[id].tier)));
    case Evicting(id) =>
      EvictTouches(s, id, k);
      TwoOps(d, s.active, Op(id, RemovePack(s.packs[id].tier)), Op(id, RemoveHint(s.packs[id].tier)));
    case Closing(hint) => OneOp(d, s.active, Op(s.active, PutHint(hint)));
  }

  /** Crash atomicity of everything the daemon does: a restart finds every indexed key the action is
      not about bound to the bytes it had. */
  lemma ActionIsCrashSafe(s: State, a: Action, d': Disk)
    requires Inv(s) && Can(s, a) && Crashes(s.disk, OpsOf(s, a), d')
    ensures exists top :: DiskOk(d', top)
    ensures forall k :: k in s.index && !About(s, a, k) ==> Holds(Packs(d'), k, Bindings(s)[k])
  {
    hide Inv, Can, OpsOf, Crashes, AllSafe, Untouched, Holds, Packs, DiskOk, About;
    ActionOps(s, a);
    DiskOf(s);
    CrashKeeps(s.disk, s.active, OpsOf(s, a), d', [], []);
    forall k | k in s.index && !About(s, a, k)
      ensures Holds(Packs(d'), k, Bindings(s)[k])
    {
      IndexedIsHeld(s, k);
      ActionUntouched(s, a, k);
      CrashKeeps(s.disk, s.active, OpsOf(s, a), d', k, Bindings(s)[k]);
    }
  }

  // ---------------------------------------------------------------- readers

  /** Files only grow, and none goes away while someone may have it open. */
  ghost predicate Grows(d: Disk, d': Disk) {
    forall id :: id in d ==>
      id in d' && |d[id].files| <= |d'[id].files|
      && forall i :: 0 <= i < |d[id].files| ==> d[id].files[i] <= d'[id].files[i]
  }

  lemma OpGrows(d: Disk, op: Op)
    requires !op.act.Truncate?
    ensures Grows(d, Perform(d, op))
  {
    hide Record;
  }

  lemma {:induction false} OpsGrow(d: Disk, ops: seq<Op>)
    requires forall op :: op in ops ==> !op.act.Truncate?
    ensures Grows(d, PerformAll(d, ops))
    decreases |ops|
  {
    hide Perform, Grows;
    if ops == [] {
      GrowsNot(d);
    } else {
      OpGrows(d, ops[0]);
      OpsGrow(Perform(d, ops[0]), ops[1..]);
      GrowsOn(d, Perform(d, ops[0]), PerformAll(d, ops));
    }
  }

  lemma GrowsNot(d: Disk)
    ensures Grows(d, d)
  {
  }

  lemma GrowsOn(d: Disk, e: Disk, f: Disk)
    requires Grows(d, e) && Grows(e, f)
    ensures Grows(d, f)
  {
    forall id | id in d
      ensures id in f && |d[id].files| <= |f[id].files|
      ensures forall i :: 0 <= i < |d[id].files| ==> d[id].files[i] <= f[id].files[i]
    {
      forall i | 0 <= i < |d[id].files|
        ensures d[id].files[i] <= f[id].files[i]
      {
        assert d[id].files[i] <= e[id].files[i] <= f[id].files[i];
      }
    }
  }

  lemma ReadGrows(d: Disk, d': Disk, r: Reader)
    requires Grows(d, d') && r.pack in d && r.file < |d[r.pack].files| && r.off + r.len <= |d[r.pack].files[r.file]|
    ensures Read(d', r) == Read(d, r)
  {
    assert d[r.pack].files[r.file] <= d'[r.pack].files[r.file];
  }

  /** A run of the daemon between start and stop. */
  ghost predicate Runs(s: State, actions: seq<Action>, s': State)
    decreases |actions|
  {
    if actions == [] then s' == s
    else Can(s, actions[0]) && Runs(After(s, actions[0]), actions[1..], s')
  }

  lemma ActionGrows(s: State, a: Action)
    requires Inv(s) && Can(s, a)
    ensures Grows(s.disk, After(s, a).disk)
  {
    hide Inv, Can, After, Grows;
    ActionOps(s, a);
    OpsGrow(s.disk, OpsOf(s, a));
  }

  lemma {:induction false} RunKeeps(s: State, actions: seq<Action>, s': State)
    requires Inv(s) && Runs(s, actions, s')
    ensures Inv(s') && Grows(s.disk, s'.disk)
    decreases |actions|
  {
    hide Inv, Can, After, Grows;
    if actions == [] {
      GrowsNot(s.disk);
    } else {
      ActionRefines(s, actions[0]);
      ActionGrows(s, actions[0]);
      RunKeeps(After(s, actions[0]), actions[1..], s');
      GrowsOn(s.disk, After(s, actions[0]).disk, s'.disk);
    }
  }

  /** A reader handed out by Get reads the bytes the key was bound to then, whatever is put, moved or
      evicted afterwards. */
  lemma ReaderSurvives(s: State, key: Key, actions: seq<Action>, s': State)
    requires Inv(s) && Get(s, key).Some? && Runs(s, actions, s')
    ensures Read(s'.disk, Get(s, key).value) == Bindings(s)[key]
  {
    hide Inv, Runs, Grows, Bindings;
    GetReads(s, key);
    RunKeeps(s, actions, s');
    ReaderInRange(s, key);
    ReadGrows(s.disk, s'.disk, Get(s, key).value);
  }

  lemma ReaderInRange(s: State, key: Key)
    requires Inv(s) && Get(s, key).Some?
    ensures var r := Get(s, key).value;
            r.pack in s.disk && r.file < |s.disk[r.pack].files| && r.off + r.len <= |s.disk[r.pack].files[r.file]|
    ensures key in Bindings(s)
  {
    hide Contents, Newest, Points, Covers, Counted, Content, PackOk, Complete, Based;
    EntryOfKey(s, key);
    PackFacts(s, s.index[key].pack);
  }

  /** The last value put under key by the actions, if any. */
  function LastPut(actions: seq<Action>, key: Key): Option<seq<byte>> {
    if actions == [] then None else
      var a := actions[|actions| - 1];
      if a.Putting? && a.key == key then Some(a.value) else LastPut(actions[..|actions| - 1], key)
  }

  lemma {:induction false} RunsSplit(s: State, actions: seq<Action>, a: Action, s': State)
    requires Runs(s, actions + [a], s')
    ensures exists m :: Runs(s, actions, m) && Can(m, a) && s' == After(m, a)
    decreases |actions|
  {
    hide Can, After;
    if actions == [] {
      assert (actions + [a])[1..] == [];
      assert Runs(s, [], s);
    } else {
      assert (actions + [a])[1..] == actions[1..] + [a];
      var n := After(s, actions[0]);
      RunsSplit(n, actions[1..], a, s');
      var m :| Runs(n, actions[1..], m) && Can(m, a) && s' == After(m, a);
      assert Runs(s, actions, m);
    }
  }

  /** Get is nothing, or exactly the last value put under the key, or what was loaded if none was. */
  lemma {:induction false} GetIsLastPut(s: State, actions: seq<Action>, s': State, key: Key)
    requires Inv(s) && Runs(s, actions, s') && key in Bindings(s')
    ensures match LastPut(actions, key)
            case Some(v) => Bindings(s')[key] == v
            case None => key in Bindings(s) && Bindings(s')[key] == Bindings(s)[key]
    decreases |actions|
  {
    hide Inv, Can, After, Bindings;
    if actions != [] {
      var init, a := actions[..|actions| - 1], actions[|actions| - 1];
      assert actions == init + [a];
      RunsSplit(s, init, a, s');
      var m :| Runs(s, init, m) && Can(m, a) && s' == After(m, a);
      RunKeeps(s, init, m);
      ActionRefines(m, a);
      if !(a.Putting? && a.key == key) {
        GetIsLastPut(s, init, m, key) by { assert key in Bindings(m) by { RebindOld(m, a, key); } }
        RebindOld(m, a, key);
      }
    }
  }

  lemma RebindOld(s: State, a: Action, key: Key)
    requires key in Rebind(s, a) && !(a.Putting? && a.key == key)
    ensures key in Bindings(s) && Rebind(s, a)[key] == Bindings(s)[key]
  {
    hide ValueIn, Content;
  }
}
