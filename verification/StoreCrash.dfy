/** The process dying anywhere inside what the store does. */
module StoreCrash {
  import opened Bytes
  import opened PackFile
  import opened PackDisk
  import opened PackSet
  import opened BlobState

  function PerformAll(d: Disk, ops: seq<Op>): Disk
    decreases |ops|
  {
    if ops == [] then d else PerformAll(Perform(d, ops[0]), ops[1..])
  }

  function TopAfter(top: nat, ops: seq<Op>): nat
    decreases |ops|
  {
    if ops == [] then top else TopAfter(NewTop(top, ops[0]), ops[1..])
  }

  ghost predicate AllSafe(d: Disk, top: nat, ops: seq<Op>)
    decreases |ops|
  {
    ops != [] ==> Safe(d, top, ops[0]) && AllSafe(Perform(d, ops[0]), NewTop(top, ops[0]), ops[1..])
  }

  /** d' is what is on disk when the process dies before, inside or after one of the operations. */
  ghost predicate Crashes(d: Disk, ops: seq<Op>, d': Disk)
    decreases |ops|
  {
    d' == d || (ops != [] && (Torn(d, ops[0], d') || Crashes(Perform(d, ops[0]), ops[1..], d')))
  }

  ghost predicate Untouched(d: Disk, ops: seq<Op>, key: Key)
    decreases |ops|
  {
    ops != [] ==> !Disturbs(d, ops[0], key) && Untouched(Perform(d, ops[0]), ops[1..], key)
  }

  lemma WholeOp(d: Disk, top: nat, op: Op)
    requires DiskOk(d, top) && Safe(d, top, op)
    ensures DiskOk(Perform(d, op), NewTop(top, op))
  {
    hide DiskOk, Safe, Perform;
    if op.act.Append? {
      var r := Record(op.act.key, op.act.value);
      assert r[..|r|] == r;
      CrashInGrow(d, top, op, |r|, [], []);
      assert Perform(d, op) == d[op.id := Grow(Dir(d, op.id), r)] by { WholeGrow(d, op); }
    } else {
      AfterOp(d, top, op, [], []);
    }
  }

  lemma WholeGrow(d: Disk, op: Op)
    requires op.act.Append?
    ensures Perform(d, op) == d[op.id := Grow(Dir(d, op.id), Record(op.act.key, op.act.value))]
  {
  }

  /** Whatever the operations, whichever the crash: the disk stays one a restart can read, and a
      binding none of the operations is about survives. */
  lemma {:induction false} CrashKeeps(d: Disk, top: nat, ops: seq<Op>, d': Disk, k: Key, v: seq<byte>)
    requires DiskOk(d, top) && AllSafe(d, top, ops) && Crashes(d, ops, d')
    ensures exists t :: DiskOk(d', t)
    ensures Holds(Packs(d), k, v) && Untouched(d, ops, k) ==> Holds(Packs(d'), k, v)
    decreases |ops|
  {
    hide DiskOk, Safe, Perform, Holds, Packs, Disturbs;
    if d' != d {
      var op := ops[0];
      if Torn(d, op, d') {
        AnyCrash(d, top, op, d', k, v);
      } else {
        AnyCrash(d, top, op, Perform(d, op), k, v);
        WholeOp(d, top, op);
        CrashKeeps(Perform(d, op), NewTop(top, op), ops[1..], d', k, v);
      }
    } else {
      assert DiskOk(d', top);
    }
  }

  // ---------------------------------------------------------------- Put

  /** Put as a whole: rotate if the record does not fit, then append it. */
  function Put(s: State, key: Key, value: seq<byte>, hint: File, now: int): State {
    PutRecord(if Fits(s, key, value) then s else Rotated(s, hint, now), key, value)
  }

  function PutOps(s: State, key: Key, value: seq<byte>, hint: File): seq<Op> {
    if Fits(s, key, value) then [Op(s.active, Append(key, value))]
    else [Op(s.active, PutHint(hint)), Op(s.active + 1, Create), Op(s.active + 1, Append(key, value))]
  }

  ghost predicate Puts(s: State, key: Key, value: seq<byte>, hint: File) {
    Inv(s) && !s.closed && Putable(key, value) && (Fits(s, key, value) || TrueHint(s, hint))
  }

  lemma RotatedFits(s: State, key: Key, value: seq<byte>, hint: File, now: int)
    ensures Fits(Rotated(s, hint, now), key, value)
  {
    hide Record;
  }

  /** Put keeps the invariant and refines the update of a map. */
  lemma PutKeeps(s: State, key: Key, value: seq<byte>, hint: File, now: int)
    requires Puts(s, key, value, hint)
    ensures Inv(Put(s, key, value, hint, now))
    ensures Bindings(Put(s, key, value, hint, now)) == Bindings(s)[key := value]
  {
    hide Inv, PutRecord, Bindings, Fits, TrueHint;
    if Fits(s, key, value) {
      PutRecordKeeps(s, key, value);
      PutRecordBinds(s, key, value);
    } else {
      RotatedKeeps(s, hint, now);
      RotatedFits(s, key, value, hint, now);
      var r := Rotated(s, hint, now);
      PutRecordKeeps(r, key, value);
      PutRecordBinds(r, key, value);
    }
  }

  lemma StartIsSafe(s: State, hint: File)
    requires Inv(s) && TrueHint(s, hint)
    ensures Safe(Sealed(s, hint).disk, s.active, Op(s.active + 1, Create))
  {
    hide Inv, TrueHint;
    ClosedKeeps(s, hint);
  }

  lemma PutOpsSafe(s: State, key: Key, value: seq<byte>, hint: File, now: int)
    requires Puts(s, key, value, hint)
    ensures AllSafe(s.disk, s.active, PutOps(s, key, value, hint))
    ensures PerformAll(s.disk, PutOps(s, key, value, hint)) == Put(s, key, value, hint, now).disk
  {
    hide Inv, Fits, TrueHint, Safe, Perform;
    var ops := PutOps(s, key, value, hint);
    if Fits(s, key, value) {
      PutIsSafe(s, key, value);
      PutDisk(s, key, value);
      assert ops[1..] == [];
    } else {
      var r := Rotated(s, hint, now);
      SealIsSafe(s, hint);
      StartIsSafe(s, hint);
      RotatedKeeps(s, hint, now);
      RotatedFits(s, key, value, hint, now);
      PutIsSafe(r, key, value);
      PutDisk(r, key, value);
      var d1 := Perform(s.disk, ops[0]);
      assert ops[1..] == [ops[1], ops[2]] && ops[1..][1..] == [ops[2]] && ops[1..][1..][1..] == [];
      assert AllSafe(Perform(d1, ops[1]), s.active + 1, [ops[2]]);
      assert AllSafe(d1, s.active, [ops[1], ops[2]]);
      assert PerformAll(Perform(d1, ops[1]), [ops[2]]) == Perform(r.disk, ops[2]);
      assert PerformAll(d1, [ops[1], ops[2]]) == Perform(r.disk, ops[2]);
    }
  }

  lemma PutDisk(s: State, key: Key, value: seq<byte>)
    requires Inv(s)
    ensures PutRecord(s, key, value).disk == Perform(s.disk, Op(s.active, Append(key, value)))
  {
    hide DiskOk, Points, Counted, Perform, Record;
  }

  /** One of the keys the operations are not about. */
  lemma PutUntouched(s: State, key: Key, value: seq<byte>, hint: File, k: Key)
    requires k != key
    ensures Untouched(s.disk, PutOps(s, key, value, hint), k)
  {
    hide Perform, Fits;
    var d, ops := s.disk, PutOps(s, key, value, hint);
    if Fits(s, key, value) {
      assert ops[1..] == [];
    } else {
      assert ops[1..] == [ops[1], ops[2]] && ops[1..][1..] == [ops[2]] && ops[1..][1..][1..] == [];
      var d2 := Perform(Perform(d, ops[0]), ops[1]);
      assert Untouched(d2, [ops[2]], k);
      assert Untouched(Perform(d, ops[0]), [ops[1], ops[2]], k);
    }
  }

  lemma CrashInAppend(d: Disk, top: nat, id: nat, key: Key, value: seq<byte>, d': Disk, v: seq<byte>)
    requires DiskOk(d, top) && Safe(d, top, Op(id, Append(key, value))) && Crashes(d, [Op(id, Append(key, value))], d')
    requires Holds(Packs(d), key, v)
    ensures Holds(Packs(d'), key, v) || Holds(Packs(d'), key, value)
  {
    hide DiskOk, Safe, Perform, Holds, Packs;
    var op := Op(id, Append(key, value));
    assert [op][1..] == [];
    assert Torn(d, op, d');
    AnyCrash(d, top, op, d', key, v);
  }

  /** Seal, create, append: only the append can change what the key is bound to. */
  lemma CrashInRotatedPut(d: Disk, top: nat, hint: File, key: Key, value: seq<byte>, d': Disk, v: seq<byte>)
    requires var ops := [Op(top, PutHint(hint)), Op(top + 1, Create), Op(top + 1, Append(key, value))];
             DiskOk(d, top) && AllSafe(d, top, ops) && Crashes(d, ops, d')
    requires Holds(Packs(d), key, v)
    ensures Holds(Packs(d'), key, v) || Holds(Packs(d'), key, value)
  {
    hide DiskOk, Safe, Perform, Holds, Packs, Torn;
    var o1, o2, o3 := Op(top, PutHint(hint)), Op(top + 1, Create), Op(top + 1, Append(key, value));
    var ops := [o1, o2, o3];
    assert ops[1..] == [o2, o3] && [o2, o3][1..] == [o3];
    var d1 := Perform(d, o1);
    var d2 := Perform(d1, o2);
    assert AllSafe(d1, top, [o2, o3]) && AllSafe(d2, top + 1, [o3]);
    NotAbout(d, top, o1, d', key, v);
    WholeOp(d, top, o1);
    NotAbout(d1, top, o2, d', key, v);
    WholeOp(d1, top, o2);
    if Crashes(d2, [o3], d') {
      CrashInAppend(d2, top + 1, top + 1, key, value, d', v);
    }
  }

  lemma CrashForPutKey(s: State, key: Key, value: seq<byte>, hint: File, d': Disk)
    requires Puts(s, key, value, hint) && Crashes(s.disk, PutOps(s, key, value, hint), d') && key in s.index
    ensures Holds(Packs(d'), key, Bindings(s)[key]) || Holds(Packs(d'), key, value)
  {
    hide Inv, Safe, Perform, Holds, Packs, Fits, Torn, Crashes, AllSafe, DiskOk;
    PutOpsSafe(s, key, value, hint, 0);
    IndexedIsHeld(s, key);
    DiskOf(s);
    if Fits(s, key, value) {
      PutIsSafe(s, key, value);
      CrashInAppend(s.disk, s.active, s.active, key, value, d', Bindings(s)[key]);
    } else {
      CrashInRotatedPut(s.disk, s.active, hint, key, value, d', Bindings(s)[key]);
    }
  }

  lemma DiskOf(s: State)
    requires Inv(s)
    ensures DiskOk(s.disk, s.active)
  {
    hide DiskOk, Points, Counted, Covers;
  }

  lemma NotAbout(d: Disk, top: nat, op: Op, d': Disk, k: Key, v: seq<byte>)
    requires DiskOk(d, top) && Safe(d, top, op) && (op.act.PutHint? || op.act.Create?) && Holds(Packs(d), k, v)
    ensures d' == d || Torn(d, op, d') ==> Holds(Packs(d'), k, v)
    ensures Holds(Packs(Perform(d, op)), k, v)
  {
    hide DiskOk, Safe, Perform, Holds, Packs;
    AnyCrash(d, top, op, Perform(d, op), k, v);
    if Torn(d, op, d') { AnyCrash(d, top, op, d', k, v); }
  }

  /** Crash atomicity of Put, at any byte of any of its operations: a restart finds every indexed key
      bound to the bytes it had, and the key being put to its old bytes or to all of the new ones. */
  lemma PutIsCrashAtomic(s: State, key: Key, value: seq<byte>, hint: File, d': Disk)
    requires Puts(s, key, value, hint) && Crashes(s.disk, PutOps(s, key, value, hint), d')
    ensures exists top :: DiskOk(d', top)
    ensures forall k :: k in s.index && k != key ==> Holds(Packs(d'), k, Bindings(s)[k])
    ensures key in s.index ==> Holds(Packs(d'), key, Bindings(s)[key]) || Holds(Packs(d'), key, value)
  {
    hide Inv, DiskOk, Safe, Perform, Holds, Packs, Fits, Torn, Crashes, AllSafe;
    PutOpsSafe(s, key, value, hint, 0);
    DiskOf(s);
    CrashKeeps(s.disk, s.active, PutOps(s, key, value, hint), d', [], []);
    forall k | k in s.index && k != key
      ensures Holds(Packs(d'), k, Bindings(s)[k])
    {
      IndexedIsHeld(s, k);
      PutUntouched(s, key, value, hint, k);
      CrashKeeps(s.disk, s.active, PutOps(s, key, value, hint), d', k, Bindings(s)[k]);
    }
    if key in s.index {
      CrashForPutKey(s, key, value, hint, d');
    }
  }

  // ---------------------------------------------------------------- a growing trail of operations

  ghost predicate Harmless(d: Disk, op: Op) {
    forall k :: !Disturbs(d, op, k)
  }

  ghost predicate AllHarmless(d: Disk, ops: seq<Op>)
    decreases |ops|
  {
    ops != [] ==> Harmless(d, ops[0]) && AllHarmless(Perform(d, ops[0]), ops[1..])
  }

  /** disk is what the operations made of d0, each safe when it was performed and none about any key. */
  ghost predicate Trail(d0: Disk, top0: nat, ops: seq<Op>, d: Disk, top: nat) {
    AllSafe(d0, top0, ops) && AllHarmless(d0, ops) && PerformAll(d0, ops) == d && TopAfter(top0, ops) == top
  }

  lemma {:induction false} TrailGrows(d0: Disk, top0: nat, ops: seq<Op>, d: Disk, top: nat, op: Op)
    requires Trail(d0, top0, ops, d, top) && Safe(d, top, op) && Harmless(d, op)
    ensures Trail(d0, top0, ops + [op], Perform(d, op), NewTop(top, op))
    decreases |ops|
  {
    hide Safe, Perform, NewTop, Harmless;
    if ops == [] {
      assert ops + [op] == [op] && [op][1..] == [];
      assert AllSafe(Perform(d, op), NewTop(top, op), []);
      assert AllHarmless(Perform(d, op), []);
      assert PerformAll(Perform(d, op), []) == Perform(d, op);
      assert TopAfter(NewTop(top, op), []) == NewTop(top, op);
    } else {
      TrailGrows(Perform(d0, ops[0]), NewTop(top0, ops[0]), ops[1..], d, top, op);
      assert (ops + [op])[1..] == ops[1..] + [op];
    }
  }

  lemma {:induction false} HarmlessUntouched(d: Disk, ops: seq<Op>, k: Key)
    requires AllHarmless(d, ops)
    ensures Untouched(d, ops, k)
    decreases |ops|
  {
    hide Disturbs, Perform;
    if ops != [] { HarmlessUntouched(Perform(d, ops[0]), ops[1..], k); }
  }

  /** What opening the store on d is proved to establish. */
  ghost predicate Opens(d: Disk, s: State) {
    Inv(s) && !s.closed && Exact(s.index, Packs(s.disk)) && SameHolds(Packs(d), Packs(s.disk))
    && exists top, ops :: DiskOk(d, top) && Trail(d, top, ops, s.disk, s.active)
  }

  /** A restart that dies anywhere leaves every binding to the next one. */
  lemma RestartIsCrashSafe(d: Disk, top: nat, ops: seq<Op>, done: Disk, last: nat, d': Disk, k: Key, v: seq<byte>)
    requires DiskOk(d, top) && Trail(d, top, ops, done, last) && Crashes(d, ops, d')
    ensures exists t :: DiskOk(d', t)
    ensures Holds(Packs(d), k, v) ==> Holds(Packs(d'), k, v)
  {
    hide DiskOk, Holds, Packs, AllSafe, AllHarmless, Crashes;
    HarmlessUntouched(d, ops, k);
    CrashKeeps(d, top, ops, d', k, v);
  }
}
