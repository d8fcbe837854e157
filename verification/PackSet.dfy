/** A set of packs, seen as the map from keys to values a restart would build from it: the newest
    pack that has a key says what it is bound to. */
module PackSet {
  import opened Bytes
  import opened PackFile
  import opened PackDisk

  type PackMap = map<nat, File>

  function ValueIn(file: File, key: Key): seq<byte> {
    if key !in Contents(file) then [] else
      ContentsInside(file);
      file[Contents(file)[key].Value()..Contents(file)[key].End()]
  }

  ghost predicate Newest(p: PackMap, key: Key, id: nat) {
    id in p && key in Contents(p[id]) && forall j :: j in p && j > id ==> key !in Contents(p[j])
  }

  /** A restart on these packs binds key to value. */
  ghost predicate Holds(p: PackMap, key: Key, value: seq<byte>) {
    exists id :: Newest(p, key, id) && ValueIn(p[id], key) == value
  }

  lemma HoldsOne(p: PackMap, key: Key, v: seq<byte>, w: seq<byte>)
    requires Holds(p, key, v) && Holds(p, key, w)
    ensures v == w
  {
  }

  /** A change to one pack that leaves what the pack says about the key alone. */
  lemma HoldsSame(p: PackMap, id: nat, file: File, key: Key, value: seq<byte>)
    requires Holds(p, key, value)
    requires id in p ==> (key in Contents(file) <==> key in Contents(p[id]))
    requires id !in p ==> key !in Contents(file)
    requires id in p && key in Contents(file) ==> ValueIn(file, key) == ValueIn(p[id], key)
    ensures Holds(p[id := file], key, value)
  {
    var n :| Newest(p, key, n) && ValueIn(p[n], key) == value;
    assert Newest(p[id := file], key, n);
  }

  lemma ValueInGrown(file: File, more: File, key: Key)
    requires key in Contents(file) && key in Contents(file + more)
    requires Contents(file + more)[key] == Contents(file)[key]
    ensures ValueIn(file + more, key) == ValueIn(file, key)
  {
    ContentsInside(file);
    var e := Contents(file)[key];
    assert (file + more)[e.Value()..e.End()] == file[e.Value()..e.End()];
  }

  lemma ValueInAppended(file: File, key: Key, value: seq<byte>)
    requires Complete(file) && Putable(key, value)
    ensures key in Contents(file + Record(key, value))
    ensures ValueIn(file + Record(key, value), key) == value
  {
    ScanAppended(file, key, value);
    var g := file + Record(key, value);
    var e := Contents(g)[key];
    assert g[e.Value()..e.End()] == value;
  }

  /** An append torn after n bytes: all other keys keep their binding, and the key being put keeps
      its old one until the last byte is there, when it has the new one. */
  lemma HoldsAppend(p: PackMap, top: nat, key: Key, value: seq<byte>, n: nat, k: Key, v: seq<byte>)
    requires top in p && (forall id :: id in p ==> id <= top) && Complete(p[top])
    requires Putable(key, value) && n <= |Record(key, value)|
    ensures var p' := p[top := p[top] + Record(key, value)[..n]];
            && (k != key && Holds(p, k, v) ==> Holds(p', k, v))
            && (n < |Record(key, value)| && Holds(p, k, v) ==> Holds(p', k, v))
            && (n == |Record(key, value)| ==> Holds(p', key, value))
  {
    var file, r := p[top], Record(key, value);
    var g := file + r[..n];
    var p' := p[top := g];
    if n < |r| {
      ScanTorn(file, key, value, n);
      if Holds(p, k, v) {
        if k in Contents(file) { ValueInGrown(file, r[..n], k); }
        HoldsSame(p, top, g, k, v);
      }
    } else {
      assert r[..n] == r;
      ScanAppended(file, key, value);
      ValueInAppended(file, key, value);
      assert Newest(p', key, top);
      if k != key && Holds(p, k, v) {
        if k in Contents(file) { ValueInGrown(file, r, k); }
        HoldsSame(p, top, g, k, v);
      }
    }
  }

  lemma ValueInCut(file: File, size: nat, key: Key)
    requires size <= |file| && key in Contents(file)
    requires Contents(file[..size]) == Contents(file)
    ensures ValueIn(file[..size], key) == ValueIn(file, key)
  {
    ContentsInside(file[..size]);
    var e := Contents(file[..size])[key];
    assert file[..size][e.Value()..e.End()] == file[e.Value()..e.End()];
  }

  lemma HoldsTruncate(p: PackMap, top: nat, k: Key, v: seq<byte>)
    requires top in p && Holds(p, k, v)
    ensures Holds(p[top := p[top][..ScanEnd(p[top], 0)]], k, v)
  {
    var file, size := p[top], ScanEnd(p[top], 0);
    ScanTruncated(file, 0);
    assert Contents(file[..size]) == Contents(file);
    if k in Contents(file) {
      ValueInCut(file, size, k);
    }
    HoldsSame(p, top, file[..size], k, v);
  }

  lemma HoldsCreate(p: PackMap, id: nat, k: Key, v: seq<byte>)
    requires id !in p && Holds(p, k, v)
    ensures Holds(p[id := []], k, v)
  {
    HoldsSame(p, id, [], k, v);
  }

  /** Without pack `id` every key keeps its binding except those whose newest copy was there. */
  lemma HoldsEvict(p: PackMap, id: nat, k: Key, v: seq<byte>)
    requires Holds(p, k, v) && !Newest(p, k, id)
    ensures Holds(p - {id}, k, v)
  {
    var n :| Newest(p, k, n) && ValueIn(p[n], k) == v;
    assert Newest(p - {id}, k, n);
  }

  // ---------------------------------------------------------------- one operation, crashed or not

  /** What an operation may do to the binding of k: Append rebinds its key, removing the last copy
      of a pack forgets the keys bound to it, nothing else changes any binding. */
  ghost predicate Disturbs(d: Disk, op: Op, k: Key) {
    || (op.act.Append? && op.act.key == k)
    || (op.act.RemovePack? && op.id in d && d[op.id].copies.Keys <= {op.act.tier} && Newest(Packs(d), k, op.id))
  }

  lemma PacksChanged(d: Disk, id: nat, p: PackDir)
    ensures Packs(d[id := p]) == if Present(p) then Packs(d)[id := Content(p)] else Packs(d) - {id}
  {
  }

  /** Whatever safe operation the process dies in, the disk stays in order and every binding the
      operation is not about survives. */
  lemma CrashInGrow(d: Disk, top: nat, op: Op, n: nat, k: Key, v: seq<byte>)
    requires DiskOk(d, top) && Safe(d, top, op) && op.act.Append? && n <= |Record(op.act.key, op.act.value)|
    ensures var d' := d[op.id := Grow(Dir(d, op.id), Record(op.act.key, op.act.value)[..n])];
            && DiskOk(d', top)
            && (Holds(Packs(d), k, v) && (k != op.act.key || n < |Record(op.act.key, op.act.value)|) ==>
                Holds(Packs(d'), k, v))
            && (n == |Record(op.act.key, op.act.value)| ==> Holds(Packs(d'), op.act.key, op.act.value))
  {
    var r := Record(op.act.key, op.act.value);
    var q := Grow(d[top], r[..n]);
    GrowOk(d[top], op.act.key, op.act.value, n);
    PacksChanged(d, top, q);
    assert PackOk(d[top], true) && Present(d[top]) && Present(q);
    assert Packs(d)[top] == Content(d[top]);
    HoldsAppend(Packs(d), top, op.act.key, op.act.value, n, k, v);
  }

  lemma DirChanged(d: Disk, top: nat, id: nat, q: PackDir)
    requires DiskOk(d, top) && id in d && PackOk(q, id == top)
    ensures DiskOk(d[id := q], top)
  {
    var d' := d[id := q];
    forall i | i in d'
      ensures 1 <= i <= top && PackOk(d'[i], i == top)
    {
      assert PackOk(d[i], i == top);
    }
  }

  lemma SamePacks(d: Disk, top: nat, id: nat, q: PackDir)
    requires DiskOk(d, top) && id in d && PackOk(q, id == top)
    requires Present(q) <==> Present(d[id])
    requires Present(q) ==> Content(q) == Content(d[id])
    ensures DiskOk(d[id := q], top) && Packs(d[id := q]) == Packs(d)
  {
    PacksChanged(d, id, q);
    DirChanged(d, top, id, q);
  }

  lemma AfterTruncate(d: Disk, top: nat, op: Op, k: Key, v: seq<byte>)
    requires DiskOk(d, top) && Safe(d, top, op) && op.act.Truncate?
    ensures DiskOk(Perform(d, op), top)
    ensures Holds(Packs(d), k, v) ==> Holds(Packs(Perform(d, op)), k, v)
  {
    var q := Effect(d[top], op.act);
    assert PackOk(d[top], true) && Present(d[top]) && Present(q);
    TruncateOk(d[top], op.act.size);
    hide Effect, PackOk, Content;
    DirChanged(d, top, top, q);
    PacksChanged(d, top, q);
    assert Packs(d)[top] == Content(d[top]);
    if Holds(Packs(d), k, v) { HoldsTruncate(Packs(d), top, k, v); }
  }

  lemma FreshPack(d: Disk, top: nat)
    requires DiskOk(d, top)
    ensures Dir(d, top + 1) == NO_PACK
    ensures PackOk(Effect(NO_PACK, Create), true)
    ensures Present(Effect(NO_PACK, Create)) && Content(Effect(NO_PACK, Create)) == []
    ensures top + 1 !in Packs(d)
    ensures top > 0 && 0 in d[top].hints ==> PackOk(d[top], false)
  {
    hide HintOf, Complete;
    assert Effect(NO_PACK, Create).copies == map[0 := 0];
  }

  lemma CreateOk(d: Disk, top: nat, q: PackDir)
    requires DiskOk(d, top) && (top > 0 ==> 0 in d[top].hints)
    requires PackOk(q, true)
    ensures DiskOk(d[top + 1 := q], top + 1)
  {
    var d' := d[top + 1 := q];
    FreshPack(d, top);
    hide PackOk;
    forall id | id in d'
      ensures 1 <= id <= top + 1 && PackOk(d'[id], id == top + 1)
    {
      if id != top + 1 { assert PackOk(d[id], id == top); }
    }
  }

  lemma AfterCreate(d: Disk, top: nat)
    requires DiskOk(d, top) && Safe(d, top, Op(top + 1, Create))
    ensures DiskOk(Perform(d, Op(top + 1, Create)), top + 1)
    ensures Packs(Perform(d, Op(top + 1, Create))) == Packs(d)[top + 1 := []]
    ensures top + 1 !in Packs(d)
  {
    FreshPack(d, top);
    CreateOk(d, top, Effect(NO_PACK, Create));
    PacksChanged(d, top + 1, Effect(NO_PACK, Create));
  }

  lemma LastCopyGone(d: Disk, top: nat, op: Op)
    requires DiskOk(d, top) && Safe(d, top, op) && op.act.RemovePack?
    requires d[op.id].copies.Keys <= {op.act.tier}
    ensures DiskOk(Perform(d, op), top) && Packs(Perform(d, op)) == Packs(d) - {op.id}
  {
    var q := Effect(d[op.id], op.act);
    RemovePackOk(d[op.id], op.act.tier);
    PacksChanged(d, op.id, q);
  }

  lemma AfterRemovePack(d: Disk, top: nat, op: Op, k: Key, v: seq<byte>)
    requires DiskOk(d, top) && Safe(d, top, op) && op.act.RemovePack?
    ensures DiskOk(Perform(d, op), top)
    ensures Holds(Packs(d), k, v) && !Disturbs(d, op, k) ==> Holds(Packs(Perform(d, op)), k, v)
  {
    var p := d[op.id];
    RemovePackOk(p, op.act.tier);
    if p.copies.Keys <= {op.act.tier} {
      LastCopyGone(d, top, op);
      if Holds(Packs(d), k, v) && !Disturbs(d, op, k) {
        HoldsEvict(Packs(d), op.id, k, v);
      }
    } else {
      var t :| t in p.copies && t != op.act.tier;
      SamePacks(d, top, op.id, Effect(p, op.act));
    }
  }

  lemma AfterOp(d: Disk, top: nat, op: Op, k: Key, v: seq<byte>)
    requires DiskOk(d, top) && Safe(d, top, op) && !op.act.Append?
    ensures DiskOk(Perform(d, op), NewTop(top, op))
    ensures Holds(Packs(d), k, v) && !Disturbs(d, op, k) ==> Holds(Packs(Perform(d, op)), k, v)
  {
    match op.act
    case Truncate(_) => AfterTruncate(d, top, op, k, v);
    case Create =>
      AfterCreate(d, top);
      if Holds(Packs(d), k, v) { HoldsCreate(Packs(d), top + 1, k, v); }
    case RemovePack(_) => AfterRemovePack(d, top, op, k, v);
    case PutHint(hint) =>
      PutHintOk(d[op.id], hint);
      SamePacks(d, top, op.id, Effect(d[op.id], op.act));
    case CopyPack(tier, linked) =>
      CopyPackOk(d[op.id], tier, linked);
      SamePacks(d, top, op.id, Effect(d[op.id], op.act));
    case CopyHint(tier) =>
      CopyHintOk(d[op.id], tier);
      SamePacks(d, top, op.id, Effect(d[op.id], op.act));
    case RemoveHint(tier) =>
      RemoveHintOk(d[op.id], op.id == top, tier);
      SamePacks(d, top, op.id, Effect(d[op.id], op.act));
  }

  lemma AnyCrash(d: Disk, top: nat, op: Op, d': Disk, k: Key, v: seq<byte>)
    requires DiskOk(d, top) && Safe(d, top, op) && Torn(d, op, d')
    ensures DiskOk(d', top) || DiskOk(d', NewTop(top, op))
    ensures Holds(Packs(d), k, v) && !Disturbs(d, op, k) ==> Holds(Packs(d'), k, v)
    ensures op.act.Append? && op.act.key == k && Holds(Packs(d), k, v) ==>
              Holds(Packs(d'), k, v) || Holds(Packs(d'), k, op.act.value)
  {
    if d' != d {
      if op.act.Append? {
        var r := Record(op.act.key, op.act.value);
        if d' == Perform(d, op) {
          assert r[..|r|] == r;
          CrashInGrow(d, top, op, |r|, k, v);
        } else {
          var n: nat :| n <= |r| && d' == d[op.id := Grow(Dir(d, op.id), r[..n])];
          CrashInGrow(d, top, op, n, k, v);
        }
      } else {
        AfterOp(d, top, op, k, v);
      }
    }
  }

  ghost predicate SameHolds(p: PackMap, q: PackMap) {
    forall k, v :: Holds(p, k, v) <==> Holds(q, k, v)
  }

  /** Truncating a torn pack changes no binding and makes none. */
  lemma TruncateSame(p: PackMap, top: nat)
    requires top in p
    ensures SameHolds(p, p[top := p[top][..ScanEnd(p[top], 0)]])
  {
    hide Holds, Scan, ScanEnd, ValueIn;
    var file, size := p[top], ScanEnd(p[top], 0);
    var q := p[top := file[..size]];
    ScanTruncated(file, 0);
    assert Contents(file[..size]) == Contents(file);
    forall k, v
      ensures Holds(p, k, v) <==> Holds(q, k, v)
    {
      if k in Contents(file) { ValueInCut(file, size, k); }
      if Holds(p, k, v) { HoldsSame(p, top, file[..size], k, v); }
      if Holds(q, k, v) {
        HoldsSame(q, top, file, k, v);
        assert q[top := file] == p;
      }
    }
  }

  // ---------------------------------------------------------------- where values come from

  /** No pack binds a key to anything that was not put under it. */
  ghost predicate Sourced(p: PackMap, ever: set<(Key, seq<byte>)>) {
    forall id, k :: id in p && k in Contents(p[id]) ==> (k, ValueIn(p[id], k)) in ever
  }

  lemma SourcedHolds(p: PackMap, ever: set<(Key, seq<byte>)>, k: Key, v: seq<byte>)
    requires Sourced(p, ever) && Holds(p, k, v)
    ensures (k, v) in ever
  {
  }

  lemma SourcedWith(p: PackMap, ever: set<(Key, seq<byte>)>, more: set<(Key, seq<byte>)>, id: nat, file: File)
    requires Sourced(p, ever)
    requires forall k :: k in Contents(file) ==> (k, ValueIn(file, k)) in ever + more
    ensures Sourced(p[id := file], ever + more)
  {
    hide Contents, ValueIn;
  }

  lemma SourcedAppend(p: PackMap, ever: set<(Key, seq<byte>)>, top: nat, key: Key, value: seq<byte>, n: nat)
    requires Sourced(p, ever) && top in p && Complete(p[top]) && Putable(key, value) && n <= |Record(key, value)|
    ensures Sourced(p[top := p[top] + Record(key, value)[..n]], ever + {(key, value)})
  {
    var file, r := p[top], Record(key, value);
    var g := file + r[..n];
    if n < |r| {
      ScanTorn(file, key, value, n);
    } else {
      assert r[..n] == r;
      ScanAppended(file, key, value);
      ValueInAppended(file, key, value);
    }
    hide Record, Scan, ValueIn;
    forall k | k in Contents(g)
      ensures (k, ValueIn(g, k)) in ever + {(key, value)}
    {
      if n < |r| || k != key { ValueInGrown(file, r[..n], k); }
    }
    SourcedWith(p, ever, {(key, value)}, top, g);
  }

  lemma SourcedTruncate(p: PackMap, ever: set<(Key, seq<byte>)>, top: nat)
    requires Sourced(p, ever) && top in p
    ensures Sourced(p[top := p[top][..ScanEnd(p[top], 0)]], ever)
  {
    var file, size := p[top], ScanEnd(p[top], 0);
    ScanTruncated(file, 0);
    assert Contents(file[..size]) == Contents(file);
    hide Contents, ValueIn, ScanEnd;
    forall k | k in Contents(file[..size])
      ensures (k, ValueIn(file[..size], k)) in ever + {}
    {
      ValueInCut(file, size, k);
    }
    SourcedWith(p, ever, {}, top, file[..size]);
    assert ever + {} == ever;
  }

  lemma TruncatePacks(d: Disk, top: nat, op: Op)
    requires DiskOk(d, top) && Safe(d, top, op) && op.act.Truncate?
    ensures top in Packs(d) && op.act.size == ScanEnd(Packs(d)[top], 0)
    ensures Packs(Perform(d, op)) == Packs(d)[top := Packs(d)[top][..op.act.size]]
  {
    var q := Effect(d[top], op.act);
    assert PackOk(d[top], true) && Present(d[top]) && Present(q);
    TruncateOk(d[top], op.act.size);
    hide Effect, PackOk, Content;
    PacksChanged(d, top, q);
  }

  lemma RemovePacks(d: Disk, top: nat, op: Op)
    requires DiskOk(d, top) && Safe(d, top, op) && op.act.RemovePack?
    ensures Packs(Perform(d, op)) == Packs(d) || Packs(Perform(d, op)) == Packs(d) - {op.id}
  {
    hide DiskOk, PackOk, Content;
    if d[op.id].copies.Keys <= {op.act.tier} {
      LastCopyGone(d, top, op);
    } else {
      var t :| t in d[op.id].copies && t != op.act.tier;
      KnownDir(d, top, op.id);
      RemovePackOk(d[op.id], op.act.tier);
      SamePacks(d, top, op.id, Effect(d[op.id], op.act));
    }
  }

  lemma KnownDir(d: Disk, top: nat, id: nat)
    requires DiskOk(d, top) && id in d
    ensures PackOk(d[id], id == top)
  {
    hide PackOk;
  }

  /** Only an append brings in a value, and only its own. */
  lemma SourcedAfter(d: Disk, top: nat, op: Op, ever: set<(Key, seq<byte>)>)
    requires DiskOk(d, top) && Safe(d, top, op) && !op.act.Append? && Sourced(Packs(d), ever)
    ensures Sourced(Packs(Perform(d, op)), ever)
  {
    hide DiskOk, PackOk, Content, Sourced, HintOf, Complete, ScanEnd;
    match op.act
    case Truncate(_) =>
      TruncatePacks(d, top, op);
      SourcedTruncate(Packs(d), ever, top);
    case Create =>
      AfterCreate(d, top);
      SourcedCreate(Packs(d), ever, top + 1);
    case RemovePack(_) =>
      RemovePacks(d, top, op);
      SourcedLess(Packs(d), ever, op.id);
    case PutHint(hint) =>
      KnownDir(d, top, op.id);
      PutHintOk(d[op.id], hint);
      SamePacks(d, top, op.id, Effect(d[op.id], op.act));
    case CopyPack(tier, linked) =>
      KnownDir(d, top, op.id);
      CopyPackOk(d[op.id], tier, linked);
      SamePacks(d, top, op.id, Effect(d[op.id], op.act));
    case CopyHint(tier) =>
      KnownDir(d, top, op.id);
      CopyHintOk(d[op.id], tier);
      SamePacks(d, top, op.id, Effect(d[op.id], op.act));
    case RemoveHint(tier) =>
      KnownDir(d, top, op.id);
      RemoveHintOk(d[op.id], op.id == top, tier);
      SamePacks(d, top, op.id, Effect(d[op.id], op.act));
  }

  lemma SourcedCreate(p: PackMap, ever: set<(Key, seq<byte>)>, id: nat)
    requires Sourced(p, ever)
    ensures Sourced(p[id := []], ever)
  {
    assert Contents([]) == map[];
  }

  lemma SourcedLess(p: PackMap, ever: set<(Key, seq<byte>)>, id: nat)
    requires Sourced(p, ever)
    ensures Sourced(p - {id}, ever)
  {
    hide Contents, ValueIn;
  }

  lemma SourcedTorn(d: Disk, top: nat, op: Op, d': Disk, ever: set<(Key, seq<byte>)>)
    requires DiskOk(d, top) && Safe(d, top, op) && Torn(d, op, d') && Sourced(Packs(d), ever)
    ensures Sourced(Packs(d'), if op.act.Append? then ever + {(op.act.key, op.act.value)} else ever)
  {
    hide DiskOk, Sourced, Packs;
    if op.act.Append? {
      var r := Record(op.act.key, op.act.value);
      assert r[..|r|] == r && r[..0] == [];
      if d' == d {
        SourcedMore(Packs(d), ever, {(op.act.key, op.act.value)});
      } else if d' == Perform(d, op) {
        SourcedGrow(d, top, op, |r|, ever);
      } else {
        var n: nat :| n <= |r| && d' == d[op.id := Grow(Dir(d, op.id), r[..n])];
        SourcedGrow(d, top, op, n, ever);
      }
    } else if d' != d {
      SourcedAfter(d, top, op, ever);
    }
  }

  lemma SourcedMore(p: PackMap, ever: set<(Key, seq<byte>)>, more: set<(Key, seq<byte>)>)
    requires Sourced(p, ever)
    ensures Sourced(p, ever + more)
  {
    hide Contents, ValueIn;
  }

  lemma SourcedGrow(d: Disk, top: nat, op: Op, n: nat, ever: set<(Key, seq<byte>)>)
    requires DiskOk(d, top) && Safe(d, top, op) && op.act.Append? && n <= |Record(op.act.key, op.act.value)|
    requires Sourced(Packs(d), ever)
    ensures var grown := Grow(Dir(d, op.id), Record(op.act.key, op.act.value)[..n]);
            Sourced(Packs(d[op.id := grown]), ever + {(op.act.key, op.act.value)})
  {
    hide Sourced, HintOf, Complete;
    var r := Record(op.act.key, op.act.value);
    var q := Grow(d[top], r[..n]);
    GrowOk(d[top], op.act.key, op.act.value, n);
    PacksChanged(d, top, q);
    assert PackOk(d[top], true) && Present(d[top]) && Present(q);
    SourcedAppend(Packs(d), ever, top, op.act.key, op.act.value, n);
  }
}
