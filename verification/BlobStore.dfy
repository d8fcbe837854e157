/** The daemon's blob store: the index in memory, packs on disk, one writer at a time. */
module BlobStore {
  import opened Bytes
  import opened PackFile
  import opened PackDisk
  import opened PackSet
  import opened BlobState
  import opened StoreCrash
  import opened StoreOpen
  import opened Demotion

  /** es are the entries for those of the keys in `done` that are bound to pack id. */
  ghost predicate Listed(es: seq<Entry>, index: Index, done: set<Key>, id: nat) {
    && (forall e :: e in es ==> e.Fits())
    && (forall e :: e in es <==>
          e.key in done && e.key in index && index[e.key].pack == id && e == EntryOf(e.key, index[e.key]))
  }

  lemma ListedMore(es: seq<Entry>, index: Index, done: set<Key>, id: nat, key: Key)
    requires key in index && |key| < U32 && index[key].len < U32
    requires Listed(es, index, done, id)
    ensures Listed(if index[key].pack == id then es + [EntryOf(key, index[key])] else es, index, done + {key}, id)
  {
  }

  lemma ListedAll(es: seq<Entry>, index: Index, id: nat)
    requires Listed(es, index, index.Keys, id)
    ensures Lists(HintFile(es), index, id)
  {
    hide EntryOf;
    HintRoundTrip(es);
  }

  lemma HintFileMore(es: seq<Entry>, e: Entry)
    ensures HintFile(es + [e]) == HintFile(es) + HintRecord(e)
  {
    assert (es + [e])[..|es|] == es;
  }

  /** The body of a hint file for pack `id`: the index entries that point at it, in any order. */
  method RenderHint(index: Index, id: nat) returns (hint: File)
    requires forall k :: k in index ==> |k| < U32 && index[k].len < U32
    ensures Lists(hint, index, id)
  {
    hide Listed, HintRecord, EntryOf, Lists;
    hint := [];
    ghost var es: seq<Entry> := [];
    var todo := index.Keys;
    assert Listed(es, index, {}, id) by { NoneListed(index, id); }
    assert index.Keys - todo == {};
    while todo != {}
      invariant todo <= index.Keys
      invariant hint == HintFile(es) && Listed(es, index, index.Keys - todo, id)
      decreases |todo|
    {
      var key :| key in todo;
      ListedMore(es, index, index.Keys - todo, id, key);
      assert index.Keys - todo + {key} == index.Keys - (todo - {key});
      todo := todo - {key};
      if index[key].pack == id {
        var e := EntryOf(key, index[key]);
        HintFileMore(es, e);
        hint := hint + HintRecord(e);
        es := es + [e];
      }
    }
    assert index.Keys - todo == index.Keys;
    ListedAll(es, index, id);
  }

  lemma NoneListed(index: Index, id: nat)
    ensures Listed([], index, {}, id)
  {
  }

  lemma IndexInRange(s: State)
    requires Inv(s)
    ensures forall k :: k in s.index ==> |k| < U32 && s.index[k].len < U32
  {
    hide Inv, Contents, Newest;
    forall k | k in s.index
      ensures |k| < U32 && s.index[k].len < U32
    {
      EntryOfKey(s, k);
    }
  }

  class Store {
    var tiers: seq<Tier>
    var index: Index
    var packs: map<nat, Pack>
    var active: nat
    var closed: bool
    var disk: Disk

    /** What was done to the disk so far, in order. */
    ghost var ops: seq<Op>

    ghost function View(): State
      reads this
    {
      State(tiers, index, packs, active, closed, disk)
    }

    ghost predicate Valid()
      reads this
    {
      Inv(View())
    }

    method Do(op: Op)
      modifies this`disk, this`ops
      ensures disk == Perform(old(disk), op) && ops == old(ops) + [op]
    {
      disk := Perform(disk, op);
      ops := ops + [op];
    }

    // -------------------------------------------------------------- opening

    /** add: what loading does with each record it finds. */
    method Add(key: Key, l: Loc)
      requires l.pack in packs && LiveOk(index, packs) && Known(index, packs)
      modifies this`index, this`packs
      ensures index == AddTo(old(index), key, l)
      ensures LiveOk(index, packs) && Known(index, packs) && OnlyCounters(old(packs), packs)
    {
      hide LiveOk;
      if key in index && index[key].pack > l.pack {
        return;
      }
      ReboundLive(index, packs, key, l);
      ReboundOnlyLive(packs, index, key, l);
      if key in index {
        var was := index[key];
        packs := packs[was.pack := packs[was.pack].(live := packs[was.pack].live - was.len)];
      }
      index := index[key := l];
      packs := packs[l.pack := packs[l.pack].(live := packs[l.pack].live + l.len)];
    }

    method LoadHint(id: nat, hint: File, size: nat)
      requires id in packs && LiveOk(index, packs) && Known(index, packs)
      modifies this`index, this`packs
      ensures index == Merge(old(index), id, Latest(Readable(HintScan(hint, 0), size)))
      ensures LiveOk(index, packs) && OnlyCounters(old(packs), packs)
    {
      hide LiveOk, Merge, LocOf, HintNext, Latest, AddTo, Known;
      var off := 0;
      ghost var es: seq<Entry> := [];
      MergeNothing(index, id);
      assert Latest(Readable([], size)) == map[] by { NothingRead(size); }
      while HintNext(hint, off).Some?
        invariant off <= |hint|
        invariant HintScan(hint, 0) == es + HintScan(hint, off)
        invariant index == Merge(old(index), id, Latest(Readable(es, size)))
        invariant LiveOk(index, packs) && Known(index, packs) && OnlyCounters(old(packs), packs)
        decreases |hint| - off
      {
        var e := HintNext(hint, off).value;
        ReadableAppended(es, e, size);
        assert HintScan(hint, off) == [e] + HintScan(hint, off + HINT_HEADER + |e.key|);
        if e.at + HEADER + |e.key| + e.len > size {
          assert Readable(es + [e], size) == Readable(es, size);
        } else {
          MergeStep(old(index), id, Latest(Readable(es, size)), e);
          LatestAppended(Readable(es, size), e);
          LocPack(id, e);
          Add(e.key, LocOf(id, e));
        }
        es := es + [e];
        off := off + HINT_HEADER + |e.key|;
      }
      assert HintScan(hint, off) == [] && es + [] == es;
    }

    method ScanPack(id: nat, file: File) returns (end: nat)
      requires id in packs && LiveOk(index, packs) && Known(index, packs)
      modifies this`index, this`packs
      ensures end == ScanEnd(file, 0)
      ensures index == Merge(old(index), id, Contents(file))
      ensures LiveOk(index, packs) && OnlyCounters(old(packs), packs)
    {
      hide LiveOk, Merge, LocOf, Next, Latest, AddTo, Known;
      end := 0;
      ghost var es: seq<Entry> := [];
      MergeNothing(index, id);
      assert Latest([]) == map[] by { NothingRead(0); }
      while Next(file, end).Some?
        invariant end <= |file| && ScanEnd(file, 0) == ScanEnd(file, end)
        invariant Scan(file, 0) == es + Scan(file, end)
        invariant index == Merge(old(index), id, Latest(es))
        invariant LiveOk(index, packs) && Known(index, packs) && OnlyCounters(old(packs), packs)
        decreases |file| - end
      {
        var e := Next(file, end).value;
        assert Scan(file, end) == [e] + Scan(file, e.End());
        MergeStep(old(index), id, Latest(es), e);
        LatestAppended(es, e);
        LocPack(id, e);
        Add(e.key, LocOf(id, e));
        es := es + [e];
        end := end + HEADER + |e.key| + e.len;
      }
      assert Scan(file, end) == [] && es + [] == es;
    }

    /** A sealed pack is loaded from its hint. */
    method LoadSealed(t: nat, id: nat, used: int, ghost top: nat)
      requires id in disk && id !in packs && First(disk[id], t) && t in disk[id].hints
      requires Loading(disk, top, index, packs)
      modifies this`index, this`packs
      ensures Loading(disk, top, index, packs)
      ensures packs.Keys == old(packs).Keys + {id} && packs[id].tier == t
      ensures OnlyCounters(old(packs)[id := packs[id]], packs)
    {
      hide DiskOk, AllBacked, Exact, LiveOk, PackOk, Merge, Contents, HintOf, Complete, Content, Part, First, Packs;
      FirstFacts(disk, top, id, t);
      ExactKnown(disk, index, packs);
      ghost var was, before := index, packs;
      var file := disk[id].files[disk[id].copies[t]];
      var p := Pack(t, disk[id].copies[t], |file|, 0, used);
      LiveWithNew(index, packs, id, p);
      packs := packs[id := p];
      HintLoads(disk[id].hints[t], file);
      LoadHint(id, disk[id].hints[t], |file|);
      LoadedSealed(disk, top, was, before, id, p);
      BackedIgnoresLive(disk, before[id := p], packs);
      PartIgnoresLive(disk, before[id := p], packs);
    }

    /** The pack that was being written when the daemon stopped is scanned and cut to its last whole
        record ... */
    method LoadTorn(id: nat, used: int, ghost top: nat, ghost d0: Disk, ghost top0: nat)
      requires id == top && id in disk && id !in packs && First(disk[id], 0) && 0 !in disk[id].hints
      requires Loading(disk, top, index, packs) && Trail(d0, top0, ops, disk, top)
      modifies this`index, this`packs, this`disk, this`ops
      ensures Loading(disk, top, index, packs) && Trail(d0, top0, ops, disk, top)
      ensures packs.Keys == old(packs).Keys + {id} && packs[id].tier == 0
      ensures OnlyCounters(old(packs)[id := packs[id]], packs)
      ensures id in disk && disk == old(disk)[id := disk[id]]
      ensures disk[id] == Effect(old(disk)[id], Truncate(ScanEnd(Content(old(disk)[id]), 0)))
      ensures index == Merge(old(index), id, Contents(Content(old(disk)[id])))
    {
      hide DiskOk, AllBacked, Exact, LiveOk, PackOk, Merge, Contents, HintOf, Complete, Content, Part, First, Packs;
      hide Effect, Trail, ScanEnd, MAX_PACK;
      FirstFacts(disk, top, id, 0);
      ExactKnown(disk, index, packs);
      ghost var was, before, d := index, packs, disk;
      var file := disk[id].files[disk[id].copies[0]];
      var p := Pack(0, disk[id].copies[0], |file|, 0, used);
      LiveWithNew(index, packs, id, p);
      packs := packs[id := p];
      var end := ScanPack(id, file);
      TornDir(d[id], end);
      UntornDir(d[id]);
      if end != |file| {
        TrailGrows(d0, top0, ops, disk, top, Op(id, Truncate(end)));
        Do(Op(id, Truncate(end)));
        LiveIgnoresSize(index, packs, id, end);
        packs := packs[id := packs[id].(size := end)];
      }
      ghost var q := Effect(d[id], Truncate(end));
      assert disk == d[id := q];
      BackedCut(d, id, q, p, packs[id]);
      LoadedTorn(d, top, was, before, id, q, packs[id]);
      BackedIgnoresLive(disk, before[id := packs[id]], packs);
      PartIgnoresLive(disk, before[id := packs[id]], packs);
    }

    /** ... and sealed. */
    method SealTorn(id: nat, ghost top: nat, ghost d0: Disk, ghost top0: nat)
      requires id == top && id in disk && id in packs && packs[id].tier == 0
      requires Mirrors(index, id, Content(disk[id])) && Complete(Content(disk[id]))
      requires forall k :: k in index ==> |k| < U32 && index[k].len < U32
      requires Loading(disk, top, index, packs) && Trail(d0, top0, ops, disk, top)
      modifies this`disk, this`ops
      ensures Loading(disk, top, index, packs) && Trail(d0, top0, ops, disk, top)
      ensures id in disk && disk == old(disk)[id := disk[id]]
      ensures disk[id].copies == old(disk)[id].copies && 0 in disk[id].hints && Packs(disk) == Packs(old(disk))
    {
      hide AllBacked, Exact, LiveOk, PackOk, HintOf, Complete, Content, Part, First, Packs, Trail, Mirrors, Lists;
      hide MAX_PACK;
      ghost var d := disk;
      TopFacts(disk, top);
      hide DiskOk;
      var bytes := RenderHint(index, id);
      ListsIsHint(bytes, index, id, Content(d[id]));
      HintedDir(d[id], bytes);
      TrailGrows(d0, top0, ops, disk, top, Op(id, PutHint(bytes)));
      Do(Op(id, PutHint(bytes)));
      ghost var q := disk[id];
      assert disk == d[id := q];
      BackedHinted(d, packs, id, q);
      DirChanged(d, top, id, q);
      SamePacks(d, top, id, q) by { assert Present(d[id]) by { TopFacts(d, top); } }
      PartOfSame(d, disk, packs);
    }

    /** load: one pack into the index. */
    method Load(t: nat, id: nat, used: int, ghost top: nat, ghost d0: Disk, ghost top0: nat)
      requires id in disk && id !in packs && First(disk[id], t) && t < |tiers|
      requires Loading(disk, top, index, packs) && TotalsOk(tiers, packs) && Trail(d0, top0, ops, disk, top)
      modifies this`index, this`packs, this`disk, this`ops, this`tiers
      ensures Loading(disk, top, index, packs) && TotalsOk(tiers, packs) && Trail(d0, top0, ops, disk, top)
      ensures packs.Keys == old(packs).Keys + {id} && packs[id].tier == t
      ensures OnlyCounters(old(packs)[id := packs[id]], packs)
      ensures id in disk && disk == old(disk)[id := disk[id]] && disk[id].copies == old(disk)[id].copies
              && t in disk[id].hints
      ensures SameHolds(Packs(old(disk)), Packs(disk))
      ensures |tiers| == |old(tiers)| && forall u :: 0 <= u < |tiers| ==> tiers[u].budget == old(tiers)[u].budget
    {
      hide Loading, TotalsOk, Trail, SameHolds, Content, Contents, First, Packs, Effect, Mirrors, Merge, Complete;
      ghost var d, was, before := disk, index, packs;
      if t in disk[id].hints {
        LoadSealed(t, id, used, top);
        SameAsItself(Packs(d));
        assert d[id := d[id]] == d;
      } else {
        UnsealedIsNewest(d, top, was, before, id, t);
        LoadTorn(id, used, top, d0, top0);
        TornLoaded(d, top, was, before, id, index, packs, disk);
        SealTorn(id, top, d0, top0);
      }
      TotalsWithNew(tiers, before, id, packs[id]);
      tiers := tiers[t := tiers[t].(total := tiers[t].total + packs[id].size)];
      TotalsIgnoreLive(tiers, before[id := packs[id]], packs);
    }

    /** A copy of a pack already loaded from a faster tier: a demotion that did not get to its end. */
    method DropDuplicate(t: nat, id: nat, ghost top: nat, ghost d0: Disk, ghost top0: nat)
      requires id in disk && id in packs && packs[id].tier < t && t in disk[id].copies
      requires Loading(disk, top, index, packs) && Trail(d0, top0, ops, disk, top)
      modifies this`disk, this`ops
      ensures Loading(disk, top, index, packs) && Trail(d0, top0, ops, disk, top)
      ensures id in disk && disk == old(disk)[id := disk[id]] && disk[id].copies == old(disk)[id].copies - {t}
      ensures disk[id].hints == old(disk)[id].hints - {t}
      ensures Packs(disk) == Packs(old(disk))
    {
      hide Loading, Trail, Packs, Safe;
      ghost var d := disk;
      DuplicateOps(disk, top, index, packs, t, id);
      TrailGrows(d0, top0, ops, disk, top, Op(id, RemovePack(t)));
      Do(Op(id, RemovePack(t)));
      TrailGrows(d0, top0, ops, disk, top, Op(id, RemoveHint(t)));
      Do(Op(id, RemoveHint(t)));
    }

    /** OpenStore: every tier's packs, the fastest copy of each, then a new pack to write to. */
    constructor Open(budgets: seq<int>, d: Disk, used: map<nat, int>, now: int, ghost top: nat)
      requires budgets != [] && DiskOk(d, top)
      requires forall id, t :: id in d && t in d[id].copies ==> t < |budgets|
      ensures Valid() && Opens(d, View())
      ensures Trail(d, top, ops, disk, active)
      ensures |tiers| == |budgets| && forall t :: 0 <= t < |tiers| ==> tiers[t].budget == budgets[t]
    {
      tiers := Unused(budgets);
      index := map[];
      packs := map[];
      active := 0;
      closed := false;
      disk := d;
      ops := [];
      new;
      LoadTiers(used, now, top);
      hide Inv, DiskOk, Trail, SameHolds, Exact;
      assert Opens(d, View());
    }

    method LoadTiers(used: map<nat, int>, now: int, ghost top: nat)
      requires tiers != [] && (forall t :: 0 <= t < |tiers| ==> tiers[t].total == 0)
      requires index == map[] && packs == map[] && ops == []
      requires forall id, t :: id in disk && t in disk[id].copies ==> t < |tiers|
      requires DiskOk(disk, top)
      modifies this
      ensures Valid() && !closed
      ensures Exact(index, Packs(disk)) && SameHolds(Packs(old(disk)), Packs(disk))
      ensures Trail(old(disk), top, ops, disk, active)
      ensures |tiers| == |old(tiers)| && forall t :: 0 <= t < |tiers| ==> tiers[t].budget == old(tiers)[t].budget
    {
      hide Inv, DiskOk, Loading, Trail, TotalsOk, SameHolds, Packs, Progress, Exact;
      ghost var d, n := disk, |tiers|;
      NothingLoaded(d, top, tiers);
      NothingDone(d, top);
      SameAsItself(Packs(d));
      var last := 0;
      for t := 0 to |tiers|
        invariant Loading(disk, top, index, packs) && TotalsOk(tiers, packs) && Trail(d, top, ops, disk, top)
        invariant SameHolds(Packs(d), Packs(disk))
        invariant Progress(disk, packs, |tiers|, t, InTier(disk, t))
        invariant |tiers| == n && forall u :: 0 <= u < |tiers| ==> tiers[u].budget == old(tiers)[u].budget
        invariant (forall id :: id in packs ==> id <= last) && (last == 0 || last in packs)
      {
        ghost var was := disk;
        last := LoadTier(t, used, last, top, d, top);
        SameTransitive(Packs(d), Packs(was), Packs(disk));
      }
      Begin(last, now, d, top);
    }

    /** The pack to write to, numbered after all there are. */
    method Begin(last: nat, now: int, ghost d: Disk, ghost top: nat)
      requires Loading(disk, top, index, packs) && TotalsOk(tiers, packs) && Trail(d, top, ops, disk, top)
      requires SameHolds(Packs(d), Packs(disk)) && tiers != []
      requires Progress(disk, packs, |tiers|, |tiers|, InTier(disk, |tiers|))
      requires (forall id :: id in packs ==> id <= last) && (last == 0 || last in packs)
      modifies this`packs, this`disk, this`ops, this`active, this`closed
      ensures Valid() && !closed
      ensures Exact(index, Packs(disk)) && SameHolds(Packs(d), Packs(disk)) && Trail(d, top, ops, disk, active)
    {
      hide Inv, DiskOk, Loading, Trail, TotalsOk, SameHolds, Packs, Progress, Exact, Based, Counted, Effect;
      NoMoreTiers(disk, packs, |tiers|);
      ghost var s := View().(active := last);
      AllLoaded(s, top);
      FinishOpen(s, now, d, ops);
      var p := Pack(0, |Dir(disk, last + 1).files|, 0, 0, now);
      Do(Op(last + 1, Create));
      packs := packs[last + 1 := p];
      active := last + 1;
      closed := false;
      assert View() == Started(s, now);
    }

    method LoadTier(t: nat, used: map<nat, int>, max: nat, ghost top: nat, ghost d0: Disk,
                    ghost top0: nat) returns (last: nat)
      requires t < |tiers| && Progress(disk, packs, |tiers|, t, InTier(disk, t))
      requires Loading(disk, top, index, packs) && TotalsOk(tiers, packs) && Trail(d0, top0, ops, disk, top)
      requires (forall id :: id in packs ==> id <= max) && (max == 0 || max in packs)
      modifies this`index, this`packs, this`disk, this`ops, this`tiers
      ensures Loading(disk, top, index, packs) && TotalsOk(tiers, packs) && Trail(d0, top0, ops, disk, top)
      ensures SameHolds(Packs(old(disk)), Packs(disk))
      ensures Progress(disk, packs, |tiers|, t + 1, InTier(disk, t + 1))
      ensures |tiers| == |old(tiers)| && forall u :: 0 <= u < |tiers| ==> tiers[u].budget == old(tiers)[u].budget
      ensures (forall id :: id in packs ==> id <= last) && (last == 0 || last in packs)
    {
      hide Loading, TotalsOk, Trail, SameHolds, Packs, Progress, First;
      SameAsItself(Packs(disk));
      last := max;
      var todo := InTier(disk, t);
      while todo != {}
        invariant Loading(disk, top, index, packs) && TotalsOk(tiers, packs) && Trail(d0, top0, ops, disk, top)
        invariant SameHolds(Packs(old(disk)), Packs(disk))
        invariant Progress(disk, packs, |tiers|, t, todo)
        invariant |tiers| == |old(tiers)| && forall u :: 0 <= u < |tiers| ==> tiers[u].budget == old(tiers)[u].budget
        invariant (forall id :: id in packs ==> id <= last) && (last == 0 || last in packs)
        decreases |todo|
      {
        var id :| id in todo;
        ghost var d, before, left := disk, packs, todo;
        TodoFacts(disk, packs, |tiers|, t, todo, id);
        todo := todo - {id};
        if id in packs {
          DropDuplicate(t, id, top, d0, top0);
          ProgressDrop(d, before, |tiers|, t, left, id, disk);
          continue;
        }
        Load(t, id, if id in used then used[id] else 0, top, d0, top0);
        ProgressLoad(d, before, |tiers|, t, left, id, disk, packs);
        SameTransitive(Packs(old(disk)), Packs(d), Packs(disk));
        last := if id > last then id else last;
      }
      ProgressNext(disk, packs, |tiers|, t);
    }

    /** Get: a reader for the value, or nothing; being read counts as use of the pack. */
    method Get(key: Key, now: int) returns (r: Option<Reader>)
      requires Valid()
      modifies this`packs
      ensures Valid() && Bindings(View()) == old(Bindings(View()))
      ensures r.Some? <==> key in Bindings(View())
      ensures r.Some? && key in Bindings(View()) ==> Read(disk, r.value) == Bindings(View())[key]
      ensures r == BlobState.Get(old(View()), key) && View() == Touched(old(View()), key, now)
    {
      hide Inv, Read;
      GetReads(View(), key);
      TouchedKeeps(View(), key, now);
      if key !in index {
        return None;
      }
      var l := index[key];
      assert l.pack in packs by { EntryOfKey(View(), key); }
      var p := packs[l.pack];
      packs := packs[l.pack := p.(used := now)];
      r := Some(Reader(l.pack, p.file, l.off, l.len));
    }

    method Seal() returns (ghost hint: File)
      requires Valid()
      modifies this`disk, this`ops
      ensures TrueHint(old(View()), hint)
      ensures View() == Sealed(old(View()), hint) && ops == old(ops) + [Op(active, PutHint(hint))]
    {
      hide Inv, TrueHint, Lists, Perform;
      IndexInRange(View());
      var bytes := RenderHint(index, active);
      SealHintIsTrue(View(), bytes);
      Do(Op(active, PutHint(bytes)));
      hint := bytes;
    }

    method Rotate(now: int) returns (ghost hint: File)
      requires Valid()
      modifies this
      ensures Valid() && TrueHint(old(View()), hint)
      ensures View() == Rotated(old(View()), hint, now)
      ensures ops == old(ops) + [Op(old(active), PutHint(hint)), Op(active, Create)]
    {
      hide Inv, TrueHint, Effect;
      ghost var s := View();
      hint := Seal();
      RotatedKeeps(s, hint, now);
      var id := active + 1;
      var p := Pack(0, |Dir(disk, id).files|, 0, 0, now);
      Do(Op(id, Create));
      packs := packs[id := p];
      active := id;
      closed := false;
    }

    /** Put: one record of `size` bytes, the first `size` of what the connection delivers. */
    method Put(key: Key, size: int, body: seq<byte>, now: int) returns (ok: bool, ghost hint: File)
      requires Valid()
      modifies this
      ensures Valid()
      ensures ok <==> Acceptable(key, size) && size <= |body| && !old(closed)
      ensures !ok ==> View() == old(View()) && ops == old(ops)
      ensures ok ==> Puts(old(View()), key, body[..size], hint)
      ensures ok ==> View() == StoreCrash.Put(old(View()), key, body[..size], hint, now)
      ensures ok ==> ops == old(ops) + PutOps(old(View()), key, body[..size], hint)
      ensures ok ==> Bindings(View()) == old(Bindings(View()))[key := body[..size]]
    {
      hide Inv, TrueHint, PutRecord, Bindings, Rotated, Fits, PutOps;
      hint := [];
      if !Acceptable(key, size) || |body| < size || closed {
        ok := false;
        return;
      }
      var value := body[..size];
      ghost var s := View();
      hint := MakeRoom(key, size, value, now);
      PutKeeps(s, key, value, hint, now);
      ActiveKnown(View());
      AppendRecord(key, value);
      PutOpsEnd(s, key, value, hint);
      ok := true;
    }

    /** Rotate when the record would take a pack that has something in it over the limit. */
    method MakeRoom(key: Key, size: int, value: seq<byte>, now: int) returns (ghost hint: File)
      requires Valid() && size == |value|
      modifies this
      ensures Valid() && closed == (old(closed) && Fits(old(View()), key, value))
      ensures Fits(old(View()), key, value) || TrueHint(old(View()), hint)
      ensures View() == if Fits(old(View()), key, value) then old(View()) else Rotated(old(View()), hint, now)
      ensures active == old(active) + if Fits(old(View()), key, value) then 0 else 1
      ensures ops == old(ops) + RoomOps(old(View()), key, value, hint)
    {
      hide Inv, TrueHint, Perform, Bindings, PACK_LIMIT;
      hint := [];
      ActiveKnown(View());
      if packs[active].size + HEADER + |key| + size > PACK_LIMIT && packs[active].size > 0 {
        hint := Rotate(now);
      }
    }

    method AppendRecord(key: Key, value: seq<byte>)
      requires active in packs && tiers != []
      modifies this`index, this`packs, this`tiers, this`disk, this`ops
      ensures View() == PutRecord(old(View()), key, value)
      ensures ops == old(ops) + [Op(active, Append(key, value))]
    {
      hide Perform;
      var a := packs[active];
      var l := Loc(active, (a.size % U32 + HEADER + |key|) % U32, |value| % U32);
      Do(Op(active, Append(key, value)));
      if key in index && index[key].pack in packs {
        var was := index[key];
        packs := packs[was.pack := packs[was.pack].(live := packs[was.pack].live - was.len)];
      }
      index := index[key := l];
      packs := packs[active := packs[active].(live := packs[active].live + l.len)];
      packs := packs[active := packs[active].(size := a.size + HEADER + |key| + |value|)];
      tiers := tiers[0 := tiers[0].(total := tiers[0].total + HEADER + |key| + |value|)];
    }

    /** The pack to leave the first tier that is over budget and has one to give. */
    method Victim() returns (v: Option<nat>)
      ensures v.Some? ==> exists t :: IsVictim(View(), t, v.value)
      ensures v.None? ==> Drained(View())
    {
      for t := 0 to |tiers|
        invariant forall u, j :: 0 <= u < t && Over(View(), u) ==> !Candidate(View(), u, j)
      {
        if tiers[t].budget <= 0 || tiers[t].total <= tiers[t].budget {
          continue;
        }
        v := FirstOut(t);
        if v.Some? {
          assert IsVictim(View(), t, v.value);
          return;
        }
      }
      v := None;
    }

    /** The least pack of tier t in the order of Before, the active one aside. */
    method FirstOut(t: nat) returns (v: Option<nat>)
      ensures v.None? ==> forall j :: !Candidate(View(), t, j)
      ensures v.Some? ==> Candidate(View(), t, v.value)
      ensures v.Some? ==> forall j :: Candidate(View(), t, j) && j != v.value ==>
                            Before(packs[v.value], v.value, packs[j], j)
    {
      v := None;
      var todo := packs.Keys;
      while todo != {}
        invariant todo <= packs.Keys
        invariant v.None? ==> forall j :: Candidate(View(), t, j) ==> j in todo
        invariant v.Some? ==> Candidate(View(), t, v.value) && v.value !in todo
        invariant v.Some? ==> forall j :: Candidate(View(), t, j) && j !in todo && j != v.value ==>
                                Before(packs[v.value], v.value, packs[j], j)
        decreases |todo|
      {
        var id :| id in todo;
        todo := todo - {id};
        if packs[id].tier == t && id != active {
          if v.None? {
            v := Some(id);
          } else if Before(packs[id], id, packs[v.value], v.value) {
            forall j | Candidate(View(), t, j) && j !in todo && j != id && j != v.value
              ensures Before(packs[id], id, packs[j], j)
            {
              BeforeTransitive(packs[id], id, packs[v.value], v.value, packs[j], j);
            }
            v := Some(id);
          } else {
            BeforeTotal(packs[id], id, packs[v.value], v.value);
          }
        }
      }
    }

    /** Forget every key bound to pack id. */
    method DropKeys(id: nat)
      modifies this`index
      ensures index == map k | k in old(index) && old(index)[k].pack != id :: old(index)[k]
    {
      var todo := index.Keys;
      while todo != {}
        invariant todo <= old(index).Keys
        invariant index == map k | k in old(index) && (k in todo || old(index)[k].pack != id) :: old(index)[k]
        decreases |todo|
      {
        var key :| key in todo;
        todo := todo - {key};
        if index[key].pack == id {
          index := index - {key};
        }
      }
    }

    /** moveDown: to the next tier, or out of the last. */
    method MoveDown(id: nat, linked: bool)
      requires id in packs && id != active && packs[id].tier < |tiers| && Valid()
      modifies this`index, this`packs, this`tiers, this`disk, this`ops
      ensures View() == Moved(old(View()), id, linked)
      ensures ops == old(ops) + MoveOps(old(View()), id, linked)
    {
      hide Inv, Perform;
      var p := packs[id];
      var from := p.tier;
      if from + 1 == |tiers| {
        DropKeys(id);
        Do(Op(id, RemovePack(from)));
        Do(Op(id, RemoveHint(from)));
        packs := packs - {id};
        tiers := tiers[from := tiers[from].(total := tiers[from].total - p.size)];
      } else {
        ghost var s := View();
        CopiesReady(s, id, linked);
        Do(Op(id, CopyPack(from, linked)));
        Do(Op(id, CopyHint(from)));
        assert View() == CopiedHint(CopiedPack(s, id, linked), id);
        var file := Dir(disk, id).copies[from + 1];
        DirIs(View(), id);
        packs := packs[id := p.(tier := from + 1, file := file)];
        tiers := tiers[from := tiers[from].(total := tiers[from].total - p.size)];
        tiers := tiers[from + 1 := tiers[from + 1].(total := tiers[from + 1].total + p.size)];
        Do(Op(id, RemovePack(from)));
        Do(Op(id, RemoveHint(from)));
      }
    }

    /** demoter: moves packs down while there is one to move. It ends, and nothing is lost that the
        last tier has no budget for losing. */
    method Demote()
      requires Valid()
      modifies this
      ensures Valid() && Drained(View())
      ensures forall k :: k in Bindings(View()) ==>
            k in old(Bindings(View())) && Bindings(View())[k] == old(Bindings(View()))[k]
      ensures old(tiers != [] && tiers[|tiers| - 1].budget <= 0) ==> Bindings(View()) == old(Bindings(View()))
    {
      hide Inv, Bindings, Moved, IsVictim, Drained;
      var v := Victim();
      while v.Some?
        invariant Valid()
        invariant v.Some? ==> exists t :: IsVictim(View(), t, v.value)
        invariant v.None? ==> Drained(View())
        invariant |tiers| == |old(tiers)| && forall t :: 0 <= t < |tiers| ==> tiers[t].budget == old(tiers)[t].budget
        invariant Retains(Bindings(View()), old(Bindings(View())))
        invariant old(tiers != [] && tiers[|tiers| - 1].budget <= 0) ==> Bindings(View()) == old(Bindings(View()))
        decreases Height(View())
      {
        var linked: bool := *;
        ghost var s := View();
        VictimFacts(s, v.value);
        MoveKeeps(s, v.value, linked);
        MoveDescends(s, v.value, linked);
        MoveLoses(s, v.value, linked);
        MoveDown(v.value, linked);
        v := Victim();
      }
    }

    /** Close seals the active pack so that the next start reads hints only. */
    method Close() returns (ghost hint: File)
      requires Valid()
      modifies this
      ensures Valid() && closed && Bindings(View()) == old(Bindings(View()))
      ensures TrueHint(old(View()), hint) && View() == Closed(old(View()), hint)
      ensures ops == old(ops) + [Op(active, PutHint(hint))]
    {
      hide Inv, Effect;
      ghost var s := View();
      closed := true;
      assert Valid() by { ClosedTakesNoWrites(s); }
      assert Bindings(View()) == Bindings(s);
      hint := Seal();
      ClosedKeeps(s, hint);
    }
  }

  lemma BackedIgnoresLive(d: Disk, packs: map<nat, Pack>, packs': map<nat, Pack>)
    requires AllBacked(d, packs) && OnlyCounters(packs, packs')
    ensures AllBacked(d, packs')
  {
    hide Content, First;
    forall id | id in packs'
      ensures Backed(d, id, packs'[id])
    {
      assert Backed(d, id, packs[id]);
    }
  }

  lemma PartIgnoresLive(d: Disk, packs: map<nat, Pack>, packs': map<nat, Pack>)
    requires packs.Keys == packs'.Keys
    ensures Part(d, packs) == Part(d, packs')
  {
    hide Packs;
    forall id
      ensures id in packs <==> id in packs'
    {
      assert id in packs.Keys <==> id in packs'.Keys;
    }
  }

  lemma NothingRead(size: nat)
    ensures Readable([], size) == [] && Latest([]) == map[]
  {
  }

  function Unused(budgets: seq<int>): (tiers: seq<Tier>)
    ensures |tiers| == |budgets|
    ensures forall t :: 0 <= t < |tiers| ==> tiers[t] == Tier(budgets[t], 0)
  {
    seq(|budgets|, t requires 0 <= t < |budgets| => Tier(budgets[t], 0))
  }

  lemma NothingDone(d: Disk, top: nat)
    ensures Trail(d, top, [], d, top)
  {
  }

  lemma TodoFacts(d: Disk, packs: map<nat, Pack>, tiers: nat, t: nat, todo: set<nat>, id: nat)
    requires Progress(d, packs, tiers, t, todo) && id in todo
    ensures id in d && t in d[id].copies
    ensures id in packs ==> packs[id].tier < t
    ensures id !in packs ==> First(d[id], t)
  {
  }

  lemma SameTransitive(p: PackMap, q: PackMap, r: PackMap)
    requires SameHolds(p, q) && SameHolds(q, r)
    ensures SameHolds(p, r)
  {
    hide Holds;
  }

  lemma NoMoreTiers(d: Disk, packs: map<nat, Pack>, tiers: nat)
    requires Progress(d, packs, tiers, tiers, InTier(d, tiers))
    ensures Progress(d, packs, tiers, tiers, {})
  {
    assert InTier(d, tiers) == {};
  }

  /** The new active pack, on top of everything loaded. */
  lemma FinishOpen(s: State, now: int, d: Disk, ops: seq<Op>)
    requires s.packs.Keys == Packs(s.disk).Keys
    requires s.active > 0 ==> s.active in s.disk && 0 in Dir(s.disk, s.active).hints
    requires Based(s.disk, s.packs, |s.tiers|, s.active) && Exact(s.index, Packs(s.disk))
             && Counted(s.tiers, s.index, s.packs)
    requires SameHolds(Packs(d), Packs(s.disk)) && Trail(d, s.active, ops, s.disk, s.active)
    ensures Inv(Started(s, now)) && Exact(s.index, Packs(Started(s, now).disk))
    ensures SameHolds(Packs(d), Packs(Started(s, now).disk))
    ensures Trail(d, s.active, ops + [Op(s.active + 1, Create)], Started(s, now).disk, s.active + 1)
  {
    hide Counted, SameHolds, Trail, Packs, Based, Inv, NewTop, Exact, Perform;
    ExactPoints(s.index, Packs(s.disk));
    StartedKeeps(s, now);
    NotYetThere(s);
    ExactAfterStart(s.index, Packs(s.disk), s.active + 1);
    HoldsAfterStart(Packs(s.disk), s.active + 1);
    SameTransitive(Packs(d), Packs(s.disk), Packs(s.disk)[s.active + 1 := []]);
    TrailStarts(d, s.active, ops, s.disk, s.active);
  }

  lemma NotYetThere(s: State)
    requires Based(s.disk, s.packs, |s.tiers|, s.active)
    ensures s.active + 1 !in Packs(s.disk)
  {
    hide DiskOk, AllBacked, Homes;
    FreshPack(s.disk, s.active);
  }

  lemma ExactPoints(index: Index, p: PackMap)
    requires Exact(index, p)
    ensures Points(index, p)
  {
    hide Points;
  }

  lemma TrailStarts(d0: Disk, top0: nat, ops: seq<Op>, d: Disk, top: nat)
    requires Trail(d0, top0, ops, d, top) && (top > 0 ==> 0 in Dir(d, top).hints)
    ensures Trail(d0, top0, ops + [Op(top + 1, Create)], Perform(d, Op(top + 1, Create)), top + 1)
  {
    hide Trail;
    TrailGrows(d0, top0, ops, d, top, Op(top + 1, Create));
  }

  lemma DuplicateOps(d: Disk, top: nat, index: Index, packs: map<nat, Pack>, t: nat, id: nat)
    requires id in d && id in packs && packs[id].tier < t && t in d[id].copies && Loading(d, top, index, packs)
    ensures Safe(d, top, Op(id, RemovePack(t))) && Harmless(d, Op(id, RemovePack(t)))
    ensures var d1 := Perform(d, Op(id, RemovePack(t)));
            && Safe(d1, top, Op(id, RemoveHint(t)))
            && var d2 := Perform(d1, Op(id, RemoveHint(t)));
               Loading(d2, top, index, packs) && Packs(d2) == Packs(d)
  {
    hide DiskOk, Exact, LiveOk, Content, PackOk, Packs, AllBacked;
    assert Backed(d, id, packs[id]) by { BackedOne(d, packs, id); }
    var tier := packs[id].tier;
    FirstFacts(d, top, id, tier);
    var p := d[id];
    NewestIsAlone(p, id == top, t);
    var q := Effect(p, RemovePack(t));
    RemovePackOk(p, t);
    assert tier in q.copies;
    var r := Effect(q, RemoveHint(t));
    RemoveHintOk(q, false, t);
    assert First(r, tier) && Linked(r, tier);
    assert packs[id := packs[id]] == packs;
    BackedWith(d, packs, id, r, packs[id]);
    DirChanged(d, top, id, r);
    SamePacks(d, top, id, r);
    PartOfSame(d, d[id := r], packs);
    assert Perform(Perform(d, Op(id, RemovePack(t))), Op(id, RemoveHint(t))) == d[id := r];
  }

  lemma BackedOne(d: Disk, packs: map<nat, Pack>, id: nat)
    requires AllBacked(d, packs) && id in packs
    ensures Backed(d, id, packs[id])
  {
  }

  lemma NewestIsAlone(p: PackDir, newest: bool, t: nat)
    requires PackOk(p, newest) && t in p.copies && t > 0
    ensures !newest
  {
  }

  lemma SameAsItself(p: PackMap)
    ensures SameHolds(p, p)
  {
    hide Holds;
  }

  lemma UnsealedIsNewest(d: Disk, top: nat, index: Index, packs: map<nat, Pack>, id: nat, t: nat)
    requires id in d && First(d[id], t) && t !in d[id].hints && Loading(d, top, index, packs)
    ensures id == top > 0 && t == 0
  {
    hide Content, DiskOk, Exact, LiveOk, AllBacked, First;
    FirstFacts(d, top, id, t);
  }

  lemma LoadedIds(d: Disk, top: nat, packs: map<nat, Pack>)
    requires DiskOk(d, top) && AllBacked(d, packs)
    ensures forall i :: i in packs ==> i <= top
  {
    hide PackOk, Content;
    forall i | i in packs
      ensures i <= top
    {
      assert Backed(d, i, packs[i]);
    }
  }

  lemma LoadingInRange(d: Disk, top: nat, index: Index, packs: map<nat, Pack>)
    requires Loading(d, top, index, packs)
    ensures forall k :: k in index ==> |k| < U32 && index[k].len < U32
  {
    hide DiskOk, Contents, AllBacked, LiveOk;
    forall k | k in index
      ensures |k| < U32 && index[k].len < U32
    {
      var id := index[k].pack;
      assert Newest(Part(d, packs), k, id);
      PackBound(d, top, id);
      ContentsInside(Packs(d)[id]);
    }
  }

  lemma PackBound(d: Disk, top: nat, id: nat)
    requires DiskOk(d, top) && id in Packs(d)
    ensures |Packs(d)[id]| <= MAX_PACK
  {
    hide HintOf, Complete;
    assert PackOk(d[id], id == top);
  }

  /** After LoadTorn: the index mirrors the cut pack and no binding has changed. */
  lemma TornLoaded(d: Disk, top: nat, was: Index, before: map<nat, Pack>, id: nat,
                   index: Index, packs: map<nat, Pack>, d': Disk)
    requires id == top && id in d && id !in before && 0 !in d[id].hints && top > 0
    requires d' == d[id := Effect(d[id], Truncate(ScanEnd(Content(d[id]), 0)))]
    requires index == Merge(was, id, Contents(Content(d[id])))
    requires Loading(d, top, was, before) && Loading(d', top, index, packs)
    ensures Mirrors(index, id, Content(d'[id])) && Complete(Content(d'[id]))
    ensures forall k :: k in index ==> |k| < U32 && index[k].len < U32
    ensures SameHolds(Packs(d), Packs(d'))
    ensures d'[id].copies == d[id].copies
  {
    hide DiskOk, Contents, AllBacked, LiveOk, Exact, Merge, SameHolds, Packs, Content, Effect, PackOk, Complete;
    var end := ScanEnd(Content(d[id]), 0);
    TopFacts(d, top);
    TornDir(d[id], end);
    LoadedIds(d, top, before);
    ExactKnown(d, was, before);
    MergeMirrors(was, before, id, Content(d[id]));
    LoadingInRange(d', top, index, packs);
    PackAt(d, top);
    TruncateSame(Packs(d), id);
    PacksChanged(d, id, d'[id]);
  }

  lemma PackAt(d: Disk, id: nat)
    requires id in d && Present(d[id])
    ensures id in Packs(d) && Packs(d)[id] == Content(d[id])
  {
    hide Content;
  }

  lemma TopFacts(d: Disk, top: nat)
    requires DiskOk(d, top) && top > 0
    ensures top in d && PackOk(d[top], true) && Present(d[top]) && |Content(d[top])| <= MAX_PACK
  {
    hide HintOf, Complete;
  }

  lemma BackedHinted(d: Disk, packs: map<nat, Pack>, id: nat, q: PackDir)
    requires AllBacked(d, packs) && id in d && id in packs
    requires q.copies == d[id].copies && q.files == d[id].files && Content(q) == Content(d[id])
    ensures AllBacked(d[id := q], packs)
  {
    hide Content;
    assert Backed(d, id, packs[id]);
    assert packs[id := packs[id]] == packs;
    BackedWith(d, packs, id, q, packs[id]);
  }

  lemma PartOfSame(d: Disk, d': Disk, packs: map<nat, Pack>)
    requires Packs(d) == Packs(d')
    ensures Part(d, packs) == Part(d', packs)
  {
    hide Packs;
  }

  lemma LiveIgnoresSize(index: Index, packs: map<nat, Pack>, id: nat, size: nat)
    requires LiveOk(index, packs) && id in packs
    ensures LiveOk(index, packs[id := packs[id].(size := size)])
  {
  }

  lemma BackedCut(d: Disk, id: nat, q: PackDir, p: Pack, p': Pack)
    requires id in d && First(d[id], 0) && Linked(d[id], 0) && p.tier == 0 && p.file == d[id].copies[0]
    requires q.copies == d[id].copies && |q.files| == |d[id].files|
    requires p' == p.(size := |Content(q)|, live := p'.live, used := p'.used)
    ensures Backed(d[id := q], id, p')
  {
    hide Content;
  }

  ghost predicate Retains(m: map<Key, seq<byte>>, n: map<Key, seq<byte>>) {
    forall k :: k in m ==> k in n && m[k] == n[k]
  }

  lemma VictimFacts(s: State, id: nat)
    requires exists t :: IsVictim(s, t, id)
    requires Inv(s)
    ensures id in s.packs && id != s.active && s.packs[id].tier < |s.tiers|
    ensures s.tiers[s.packs[id].tier].budget > 0
  {
    hide Inv;
    TiersBound(s);
  }

  lemma MoveLoses(s: State, id: nat, linked: bool)
    requires id in s.packs && id != s.active && s.packs[id].tier < |s.tiers| && Inv(s)
    ensures Retains(Bindings(Moved(s, id, linked)), Bindings(s))
  {
    hide Inv, Moved;
    MoveKeeps(s, id, linked);
  }

  function RoomOps(s: State, key: Key, value: seq<byte>, hint: File): seq<Op> {
    if Fits(s, key, value) then [] else [Op(s.active, PutHint(hint)), Op(s.active + 1, Create)]
  }

  lemma PutOpsEnd(s: State, key: Key, value: seq<byte>, hint: File)
    ensures PutOps(s, key, value, hint) ==
            RoomOps(s, key, value, hint)
            + [Op(if Fits(s, key, value) then s.active else s.active + 1, Append(key, value))]
  {
    hide Fits;
  }

  lemma ClosedTakesNoWrites(s: State)
    requires Inv(s)
    ensures Inv(s.(closed := true))
  {
    hide Based, Points, Counted, Covers, Complete;
  }

  lemma SealHintIsTrue(s: State, hint: File)
    requires Inv(s) && Lists(hint, s.index, s.active)
    ensures TrueHint(s, hint)
  {
    hide Inv, Lists, Mirrors, HintOf;
    ActiveMirrors(s);
    ActiveKnown(s);
    ListsIsHint(hint, s.index, s.active, Content(Dir(s.disk, s.active)));
  }

  lemma ActiveKnown(s: State)
    requires Inv(s)
    ensures s.active in s.packs && s.tiers != [] && s.active in s.disk
    ensures |Content(Dir(s.disk, s.active))| <= MAX_PACK
    ensures DiskOk(s.disk, s.active)
  {
    hide Based, Points, Counted, Covers, Complete, DiskOk, PackOk;
    PackFacts(s, s.active);
  }
}
