/** What a restart builds from the packs it finds, in whatever order it finds them. */
module StoreOpen {
  import opened Bytes
  import opened Sums
  import opened PackFile
  import opened PackDisk
  import opened PackSet
  import opened BlobState

  /** One record found while loading: the newest pack id wins whatever the load order. */
  function AddTo(index: Index, key: Key, l: Loc): Index {
    if key in index && index[key].pack > l.pack then index else index[key := l]
  }

  /** All that one pack has to say. */
  function Merge(index: Index, id: nat, found: map<Key, Entry>): Index {
    map k | k in index.Keys + found.Keys ::
      if k in found && !(k in index && index[k].pack > id) then LocOf(id, found[k]) else index[k]
  }

  lemma MergeNothing(index: Index, id: nat)
    ensures Merge(index, id, map[]) == index
  {
  }

  lemma MergeStep(index: Index, id: nat, found: map<Key, Entry>, e: Entry)
    ensures Merge(index, id, found[e.key := e]) == AddTo(Merge(index, id, found), e.key, LocOf(id, e))
  {
  }

  lemma MergeExact(index: Index, p: PackMap, id: nat, file: File)
    requires Exact(index, p) && id !in p
    ensures Exact(Merge(index, id, Contents(file)), p[id := file])
  {
    hide Contents, LocOf;
    var index', p' := Merge(index, id, Contents(file)), p[id := file];
    forall k | k in index'
      ensures Newest(p', k, index'[k].pack) && index'[k] == LocOf(index'[k].pack, Contents(p'[index'[k].pack])[k])
    {
      if k in index { assert Newest(p, k, index[k].pack); }
      LocPack(id, if k in Contents(file) then Contents(file)[k] else Entry([], 0, 0));
    }
  }

  lemma LocPack(id: nat, e: Entry)
    ensures LocOf(id, e).pack == id
  {
  }

  /** The packs determine the index. */
  lemma ExactIsUnique(i: Index, j: Index, p: PackMap)
    requires Exact(i, p) && Exact(j, p)
    ensures i == j
  {
    hide Contents, LocOf;
    forall k | k in i.Keys + j.Keys
      ensures k in i && k in j && i[k] == j[k]
    {
      var n := if k in i then i[k].pack else j[k].pack;
      assert Newest(p, k, n);
      assert k in i && k in j;
      assert Newest(p, k, i[k].pack) && Newest(p, k, j[k].pack);
    }
  }

  /** Loading the packs named in `order`. */
  function LoadAll(p: PackMap, order: seq<nat>): Index
    requires forall id :: id in order ==> id in p
  {
    if order == [] then map[]
    else Merge(LoadAll(p, order[..|order| - 1]), order[|order| - 1], Contents(p[order[|order| - 1]]))
  }

  predicate Distinct(order: seq<nat>) {
    forall i, j :: 0 <= i < j < |order| ==> order[i] != order[j]
  }

  function Among(p: PackMap, order: seq<nat>): PackMap { map id | id in p && id in order :: p[id] }

  lemma {:induction false} LoadAllExact(p: PackMap, order: seq<nat>)
    requires Distinct(order) && forall id :: id in order ==> id in p
    ensures Exact(LoadAll(p, order), Among(p, order))
  {
    hide Exact, Merge, Contents;
    if order == [] {
      NothingIsExact();
      assert Among(p, order) == map[];
    } else {
      var init, last := order[..|order| - 1], order[|order| - 1];
      assert order == init + [last];
      LoadAllExact(p, init);
      MergeExact(LoadAll(p, init), Among(p, init), last, p[last]);
      assert Among(p, order) == Among(p, init)[last := p[last]];
    }
  }

  lemma NothingIsExact()
    ensures Exact(map[], map[])
  {
  }

  /** The index after OpenStore does not depend on the order the packs were loaded in. */
  lemma LoadOrderIsIrrelevant(p: PackMap, order: seq<nat>, other: seq<nat>)
    requires Distinct(order) && Distinct(other)
    requires forall id :: id in p <==> id in order
    requires forall id :: id in p <==> id in other
    ensures LoadAll(p, order) == LoadAll(p, other)
  {
    hide Exact, Contents;
    LoadAllExact(p, order);
    LoadAllExact(p, other);
    assert Among(p, order) == p == Among(p, other);
    ExactIsUnique(LoadAll(p, order), LoadAll(p, other), p);
  }

  /** ... and so neither do the live counters: two restarts that loaded the packs in different orders agree on them. */
  lemma LiveIsDetermined(p: PackMap, order: seq<nat>, other: seq<nat>, packs: map<nat, Pack>, packs': map<nat, Pack>)
    requires Distinct(order) && Distinct(other)
    requires forall id :: id in p <==> id in order
    requires forall id :: id in p <==> id in other
    requires LiveOk(LoadAll(p, order), packs) && LiveOk(LoadAll(p, other), packs')
    ensures forall id :: id in packs && id in packs' ==> packs[id].live == packs'[id].live
  {
    hide LoadAll;
    LoadOrderIsIrrelevant(p, order, other);
  }

  // ---------------------------------------------------------------- the hint written when sealing

  /** The entry a hint gets for an index entry, in 32-bit arithmetic. */
  function EntryOf(key: Key, l: Loc): Entry {
    Entry(key, (l.off - HEADER - |key|) % U32, l.len)
  }

  lemma EntryOfLoc(id: nat, e: Entry)
    requires e.End() <= MAX_PACK
    ensures EntryOf(e.key, LocOf(id, e)) == e && e.Fits()
  {
  }

  ghost predicate Lists(hint: File, index: Index, id: nat) {
    forall e :: e in HintScan(hint, 0) <==>
      e.key in index && index[e.key].pack == id && e == EntryOf(e.key, index[e.key])
  }

  ghost predicate Mirrors(index: Index, id: nat, file: File) {
    && Covers(index, id, file)
    && (forall k :: k in index && index[k].pack == id ==>
          k in Contents(file) && index[k] == LocOf(id, Contents(file)[k]))
  }

  lemma ListsIsHint(hint: File, index: Index, id: nat, file: File)
    requires Lists(hint, index, id) && Mirrors(index, id, file) && |file| <= MAX_PACK
    ensures HintOf(hint, file)
  {
    hide Contents, LocOf, EntryOf, MAX_PACK;
    ContentsInside(file);
    forall k | k in Contents(file)
      ensures Contents(file)[k] in HintScan(hint, 0)
    {
      EntryOfLoc(id, Contents(file)[k]);
    }
    forall e | e in HintScan(hint, 0)
      ensures e.key in Contents(file) && Contents(file)[e.key] == e
    {
      EntryOfLoc(id, Contents(file)[e.key]);
    }
  }

  lemma ActiveMirrors(s: State)
    requires Inv(s)
    ensures Mirrors(s.index, s.active, Content(Dir(s.disk, s.active)))
  {
    hide Based, Counted, Contents, Packs, Content;
    PackFacts(s, s.active);
    forall k | k in s.index && s.index[k].pack == s.active
      ensures k in Contents(Content(s.disk[s.active]))
              && s.index[k] == LocOf(s.active, Contents(Content(s.disk[s.active]))[k])
    {
      assert Newest(Packs(s.disk), k, s.active);
    }
  }

  // ---------------------------------------------------------------- half-way through a restart

  /** The packs loaded so far. */
  ghost function Part(d: Disk, packs: map<nat, Pack>): PackMap {
    map id | id in packs && id in Packs(d) :: Packs(d)[id]
  }

  ghost predicate Known(index: Index, packs: map<nat, Pack>) {
    forall k :: k in index ==> index[k].pack in packs
  }

  ghost predicate Loading(d: Disk, top: nat, index: Index, packs: map<nat, Pack>) {
    DiskOk(d, top) && AllBacked(d, packs) && Exact(index, Part(d, packs)) && LiveOk(index, packs)
  }

  /** Tiers below t are done, in tier t the ids in todo are not: every other link is the one in use. */
  ghost predicate Progress(d: Disk, packs: map<nat, Pack>, tiers: nat, t: nat, todo: set<nat>) {
    && (forall id, u :: id in d && u in d[id].copies ==>
          u < tiers && ((id in packs && u == packs[id].tier) || u > t || (u == t && id in todo)))
    && (forall id :: id in todo ==> id in d && t in d[id].copies && (id in packs ==> packs[id].tier < t))
    && (forall id :: id in packs ==> packs[id].tier <= t && id in d && packs[id].tier in d[id].hints)
  }

  function InTier(d: Disk, t: nat): set<nat> { set id | id in d && t in d[id].copies }

  lemma ProgressLoad(d: Disk, packs: map<nat, Pack>, tiers: nat, t: nat, todo: set<nat>, id: nat,
                     d': Disk, packs': map<nat, Pack>)
    requires Progress(d, packs, tiers, t, todo) && id in todo && id !in packs
    requires packs'.Keys == packs.Keys + {id} && OnlyCounters(packs[id := packs'[id]], packs') && packs'[id].tier == t
    requires id in d' && d' == d[id := d'[id]] && d'[id].copies == d[id].copies && t in d'[id].hints
    ensures First(d[id], t)
    ensures Progress(d', packs', tiers, t, todo - {id})
  {
    assert forall i :: i in packs ==> i in packs' && packs'[i].tier == packs[i].tier;
  }

  lemma ProgressDrop(d: Disk, packs: map<nat, Pack>, tiers: nat, t: nat, todo: set<nat>, id: nat, d': Disk)
    requires Progress(d, packs, tiers, t, todo) && id in todo && id in packs
    requires id in d' && d' == d[id := d'[id]]
    requires d'[id].copies == d[id].copies - {t} && d'[id].hints == d[id].hints - {t}
    ensures Progress(d', packs, tiers, t, todo - {id})
  {
  }

  lemma ProgressNext(d: Disk, packs: map<nat, Pack>, tiers: nat, t: nat)
    requires Progress(d, packs, tiers, t, {})
    ensures Progress(d, packs, tiers, t + 1, InTier(d, t + 1))
  {
  }

  lemma NothingLoaded(d: Disk, top: nat, tiers: seq<Tier>)
    requires DiskOk(d, top)
    requires forall id, t :: id in d && t in d[id].copies ==> t < |tiers|
    requires forall t :: 0 <= t < |tiers| ==> tiers[t].total == 0
    ensures Loading(d, top, map[], map[]) && TotalsOk(tiers, map[]) && Progress(d, map[], |tiers|, 0, InTier(d, 0))
  {
    hide DiskOk;
    assert Part(d, map[]) == map[];
    NothingIsExact();
    forall t | 0 <= t < |tiers|
      ensures tiers[t].total == Sum(Sizes(map[], t))
    {
      assert Sizes(map[], t) == map[];
    }
  }

  lemma LoadedIsPresent(d: Disk, top: nat, packs: map<nat, Pack>, id: nat)
    requires DiskOk(d, top) && AllBacked(d, packs) && id in packs
    ensures id in d && Present(d[id]) && id in Packs(d) && id <= top
    ensures id == top ==> packs[id].tier == 0
  {
    hide HintOf, Complete, Content;
    assert Backed(d, id, packs[id]);
    assert PackOk(d[id], id == top);
  }

  lemma NewestIsPresent(d: Disk, top: nat)
    requires DiskOk(d, top) && top > 0
    ensures top in d && Present(d[top]) && 0 in d[top].copies
  {
    hide HintOf, Complete, Content;
  }

  /** When all tiers are done every pack on disk is loaded, sealed, and has one copy. */
  lemma AllLoaded(s: State, top: nat)
    requires Loading(s.disk, top, s.index, s.packs) && TotalsOk(s.tiers, s.packs) && s.tiers != []
    requires Progress(s.disk, s.packs, |s.tiers|, |s.tiers|, {})
    requires forall id :: id in s.packs ==> id <= s.active
    requires s.active == 0 || s.active in s.packs
    ensures s.active == top && Based(s.disk, s.packs, |s.tiers|, top)
    ensures Exact(s.index, Packs(s.disk)) && s.packs.Keys == Packs(s.disk).Keys && Counted(s.tiers, s.index, s.packs)
    ensures top > 0 ==> top in s.disk && 0 in Dir(s.disk, top).hints
  {
    hide Exact, LiveOk, TotalsOk, Content, DiskOk, AllBacked;
    forall id | id in s.packs
      ensures id in Packs(s.disk) && id <= top && (id == top ==> s.packs[id].tier == 0)
    {
      LoadedIsPresent(s.disk, top, s.packs, id);
    }
    forall id | id in Packs(s.disk)
      ensures id in s.packs
    {
      var t :| t in s.disk[id].copies;
    }
    hide Packs;
    if top > 0 {
      NewestIsPresent(s.disk, top);
    }
    assert Part(s.disk, s.packs) == Packs(s.disk);
  }

  lemma ExactAfterStart(index: Index, p: PackMap, id: nat)
    requires Exact(index, p) && id !in p
    ensures Exact(index, p[id := []])
  {
    hide LocOf;
    PointsAfterStart(index, p, id);
  }

  lemma HoldsAfterStart(p: PackMap, id: nat)
    requires id !in p
    ensures SameHolds(p, p[id := []])
  {
    hide ValueIn;
    var q := p[id := []];
    assert Contents([]) == map[];
    forall k, v
      ensures Holds(p, k, v) <==> Holds(q, k, v)
    {
      if Holds(p, k, v) { HoldsCreate(p, id, k, v); }
      if Holds(q, k, v) {
        var n :| Newest(q, k, n) && ValueIn(q[n], k) == v;
        assert n != id && forall j :: j in p ==> j in q && q[j] == p[j];
        assert Newest(p, k, n);
      }
    }
  }

  lemma ExactKnown(d: Disk, index: Index, packs: map<nat, Pack>)
    requires Exact(index, Part(d, packs))
    ensures Known(index, packs)
  {
    hide Contents, LocOf, Packs;
    forall k | k in index
      ensures index[k].pack in packs
    {
      assert Newest(Part(d, packs), k, index[k].pack);
    }
  }

  lemma LiveWithNew(index: Index, packs: map<nat, Pack>, id: nat, p: Pack)
    requires LiveOk(index, packs) && Known(index, packs) && id !in packs && p.live == 0
    ensures LiveOk(index, packs[id := p])
  {
    assert Lens(index, id) == map[];
  }

  lemma TotalsWithNew(tiers: seq<Tier>, packs: map<nat, Pack>, id: nat, p: Pack)
    requires TotalsOk(tiers, packs) && id !in packs && p.tier < |tiers|
    ensures TotalsOk(tiers[p.tier := tiers[p.tier].(total := tiers[p.tier].total + p.size)], packs[id := p])
  {
    hide Sizes;
    var tiers' := tiers[p.tier := tiers[p.tier].(total := tiers[p.tier].total + p.size)];
    forall t | 0 <= t < |tiers'|
      ensures tiers'[t].total == Sum(Sizes(packs[id := p], t))
    {
      SizesSet(packs, id, p, t);
    }
  }

  /** A pack whose copy in tier t is the fastest one, as found on disk. */
  lemma FirstFacts(d: Disk, top: nat, id: nat, t: nat)
    requires id in d && First(d[id], t) && DiskOk(d, top)
    ensures Linked(d[id], t) && d[id].files[d[id].copies[t]] == Content(d[id]) && |Content(d[id])| <= MAX_PACK
    ensures id in Packs(d) && Packs(d)[id] == Content(d[id])
    ensures t in d[id].hints ==> Complete(Content(d[id])) && HintOf(d[id].hints[t], Content(d[id]))
    ensures t !in d[id].hints ==> id == top && t == 0
    ensures 1 <= id <= top && PackOk(d[id], id == top)
  {
    hide HintOf, Complete;
    assert PackOk(d[id], id == top);
  }

  lemma PartWith(d: Disk, packs: map<nat, Pack>, id: nat, q: PackDir, p: Pack)
    requires id !in packs && Present(q)
    ensures Part(d[id := q], packs[id := p]) == Part(d, packs)[id := Content(q)]
  {
    hide Content;
  }

  /** A sealed pack: reading its hint is reading the pack. */
  lemma HintLoads(hint: File, file: File)
    requires HintOf(hint, file)
    ensures Latest(Readable(HintScan(hint, 0), |file|)) == Contents(file)
  {
    hide Contents, HintScan;
    HintAgrees(hint, file);
    ContentsInside(file);
    AllReadable(HintScan(hint, 0), |file|);
  }

  /** Everything the newest pack has is bound to it after it is merged in. */
  lemma MergeMirrors(index: Index, packs: map<nat, Pack>, id: nat, file: File)
    requires Known(index, packs) && id !in packs && (forall i :: i in packs ==> i < id)
    ensures Mirrors(Merge(index, id, Contents(file)), id, file)
  {
    hide Contents, LocOf;
    forall k | k in Contents(file)
      ensures LocOf(id, Contents(file)[k]).pack == id
    {
      LocPack(id, Contents(file)[k]);
    }
  }

  lemma LoadedSealed(d: Disk, top: nat, index: Index, packs: map<nat, Pack>, id: nat, p: Pack)
    requires Loading(d, top, index, packs) && id !in packs && Backed(d, id, p)
    ensures var index' := Merge(index, id, Contents(Content(Dir(d, id))));
            Exact(index', Part(d, packs[id := p])) && AllBacked(d, packs[id := p])
  {
    hide DiskOk, LiveOk, Exact, Merge, Contents, Content, First, Packs;
    assert d[id := d[id]] == d;
    BackedWith(d, packs, id, d[id], p);
    PartWith(d, packs, id, d[id], p) by { assert Present(d[id]) by { BackedPresent(d, id, p); } }
    assert id !in Part(d, packs);
    MergeExact(index, Part(d, packs), id, Content(d[id]));
  }

  lemma BackedPresent(d: Disk, id: nat, p: Pack)
    requires Backed(d, id, p)
    ensures id in d && Present(d[id])
  {
  }

  /** The unsealed pack, truncated to q and sealed. */
  lemma LoadedTorn(d: Disk, top: nat, index: Index, packs: map<nat, Pack>, id: nat, q: PackDir, p: Pack)
    requires Loading(d, top, index, packs) && id in d && id !in packs && PackOk(q, id == top) && Present(q)
    requires Backed(d[id := q], id, p) && Contents(Content(q)) == Contents(Content(Dir(d, id)))
    ensures var index' := Merge(index, id, Contents(Content(Dir(d, id))));
            Exact(index', Part(d[id := q], packs[id := p])) && AllBacked(d[id := q], packs[id := p])
            && DiskOk(d[id := q], top)
  {
    hide DiskOk, PackOk, LiveOk, Exact, Merge, Contents, Content, First, Packs;
    BackedWith(d, packs, id, q, p);
    DirChanged(d, top, id, q);
    PartWith(d, packs, id, q, p);
    assert id !in Part(d, packs);
    MergeExact(index, Part(d, packs), id, Content(q));
  }

  /** What becomes of the directory of an unsealed pack: cut to its last whole record ... */
  lemma TornDir(p: PackDir, end: nat)
    requires PackOk(p, true) && 0 !in p.hints && end == ScanEnd(Content(p), 0)
    ensures SafeAct(p, true, Truncate(end))
    ensures var q := Effect(p, Truncate(end));
            && PackOk(q, true) && Present(q) && q.copies == p.copies && q.hints == p.hints && |q.files| == |p.files|
            && Content(q) == Content(p)[..end] && Complete(Content(q)) && Contents(Content(q)) == Contents(Content(p))
  {
    hide HintOf, Complete, Contents, ScanEnd, Content;
    CompleteCut(Content(p));
    TruncateOk(p, end);
  }

  /** Nothing is cut off a pack that is whole. */
  lemma UntornDir(p: PackDir)
    requires PackOk(p, true)
    ensures Effect(p, Truncate(|Content(p)|)) == p
  {
    hide HintOf, Complete, Contents;
    assert Linked(p, 0);
    var file := p.files[p.copies[0]];
    assert file == Content(p) && file[..|file|] == file;
  }

  /** ... and hinted. */
  lemma HintedDir(p: PackDir, hint: File)
    requires PackOk(p, true) && Complete(Content(p)) && HintOf(hint, Content(p))
    ensures SafeAct(p, true, PutHint(hint))
    ensures var q := Effect(p, PutHint(hint));
            PackOk(q, true) && Present(q) && Content(q) == Content(p) && q.copies == p.copies && q.files == p.files
  {
    hide HintOf, Complete;
    PutHintOk(p, hint);
  }

  lemma CompleteCut(file: File)
    ensures Complete(file[..ScanEnd(file, 0)]) && Contents(file[..ScanEnd(file, 0)]) == Contents(file)
  {
    ScanTruncated(file, 0);
  }
}
