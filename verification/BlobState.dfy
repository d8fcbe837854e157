/** The daemon's blob store as a value: what is in memory, what is on disk, what ties the two
    together, and what each step does to them. */
module BlobState {
  import opened Bytes
  import opened Sums
  import opened PackFile
  import opened PackDisk
  import opened PackSet

  const PACK_LIMIT := 256 * 0x10_0000

  /** Where a value lives; off and len are 32 bits wide in the index. */
  datatype Loc = Loc(pack: nat, off: nat, len: nat)

  type Index = map<Key, Loc>

  /** A byte budget of 0 or less is no bound. */
  datatype Tier = Tier(budget: int, total: int)

  /** `file` is the open file, one of the files of this id on disk. */
  datatype Pack = Pack(tier: nat, file: nat, size: nat, live: int, used: int)

  datatype State = State(tiers: seq<Tier>, index: Index, packs: map<nat, Pack>, active: nat, closed: bool, disk: Disk)

  /** The index entry for a record, in the wrapping arithmetic of 32-bit fields. */
  function LocOf(id: nat, e: Entry): Loc {
    Loc(id, (e.at % U32 + HEADER + |e.key|) % U32, e.len % U32)
  }

  lemma NoWrap(id: nat, e: Entry)
    requires e.End() <= MAX_PACK
    ensures LocOf(id, e) == Loc(id, e.Value(), e.len)
  {
  }

  // ---------------------------------------------------------------- invariant

  ghost predicate Points(index: Index, p: PackMap) {
    forall k :: k in index ==>
      Newest(p, k, index[k].pack) && index[k] == LocOf(index[k].pack, Contents(p[index[k].pack])[k])
  }

  /** After a restart the index also misses nothing that is on disk. */
  ghost predicate Exact(index: Index, p: PackMap) {
    && Points(index, p)
    && (forall id, k :: id in p && k in Contents(p[id]) ==> k in index)
  }

  ghost predicate Backed(d: Disk, id: nat, p: Pack) {
    id in d && First(d[id], p.tier) && Linked(d[id], p.tier)
    && d[id].copies[p.tier] == p.file && p.size == |Content(d[id])|
  }

  ghost predicate AllBacked(d: Disk, packs: map<nat, Pack>) {
    forall id :: id in packs ==> Backed(d, id, packs[id])
  }

  /** A pack has at most one copy besides the one in use: the one being made for the next tier. */
  ghost predicate Homes(d: Disk, packs: map<nat, Pack>, tiers: nat) {
    forall id, t :: id in d && t in d[id].copies ==>
      id in packs && (t == packs[id].tier || t == packs[id].tier + 1) && t < tiers
  }

  /** Every pack in memory is a pack on disk and the other way round. */
  ghost predicate Based(d: Disk, packs: map<nat, Pack>, tiers: nat, top: nat) {
    && tiers > 0
    && DiskOk(d, top)
    && AllBacked(d, packs)
    && Homes(d, packs, tiers)
  }

  ghost predicate Stored(s: State) {
    && Based(s.disk, s.packs, |s.tiers|, s.active)
    && s.active in s.packs
    && Complete(Content(Dir(s.disk, s.active)))
    && (!s.closed ==> 0 !in Dir(s.disk, s.active).hints)
  }

  ghost function Lens(index: Index, id: nat): map<Key, int> {
    map k | k in index && index[k].pack == id :: index[k].len
  }

  ghost function Sizes(packs: map<nat, Pack>, tier: nat): map<nat, int> {
    map id | id in packs && packs[id].tier == tier :: packs[id].size
  }

  /** live is what the index points at ... */
  ghost predicate LiveOk(index: Index, packs: map<nat, Pack>) {
    forall id :: id in packs ==> packs[id].live == Sum(Lens(index, id))
  }

  /** ... and total what the tier's packs add up to. */
  ghost predicate TotalsOk(tiers: seq<Tier>, packs: map<nat, Pack>) {
    forall t :: 0 <= t < |tiers| ==> tiers[t].total == Sum(Sizes(packs, t))
  }

  ghost predicate Counted(tiers: seq<Tier>, index: Index, packs: map<nat, Pack>) {
    LiveOk(index, packs) && TotalsOk(tiers, packs)
  }

  /** Whatever the newest pack has is what the index says. */
  ghost predicate Covers(index: Index, id: nat, file: File) {
    forall k :: k in Contents(file) ==> k in index && index[k].pack == id
  }

  ghost predicate Inv(s: State) {
    && Stored(s)
    && Points(s.index, Packs(s.disk))
    && Covers(s.index, s.active, Content(Dir(s.disk, s.active)))
    && Counted(s.tiers, s.index, s.packs)
  }

  /** The plain map the store stands for. */
  ghost function Bindings(s: State): map<Key, seq<byte>> {
    map k | k in s.index :: ValueIn(Content(Dir(s.disk, s.index[k].pack)), k)
  }

  // ---------------------------------------------------------------- reading

  /** A reader: an open file and a section of it. It needs no directory entry. */
  datatype Reader = Reader(pack: nat, file: nat, off: nat, len: nat)

  function Read(d: Disk, r: Reader): seq<byte> {
    if r.pack in d && r.file < |d[r.pack].files| && r.off + r.len <= |d[r.pack].files[r.file]|
    then d[r.pack].files[r.file][r.off..r.off + r.len] else []
  }

  function Get(s: State, key: Key): Option<Reader> {
    if key !in s.index || s.index[key].pack !in s.packs then None
    else Some(Reader(s.index[key].pack, s.packs[s.index[key].pack].file, s.index[key].off, s.index[key].len))
  }

  lemma PackFacts(s: State, id: nat)
    requires Stored(s) && id in s.packs
    ensures id in s.disk && id <= s.active && id in Packs(s.disk) && Packs(s.disk)[id] == Content(s.disk[id])
    ensures s.packs[id].file < |s.disk[id].files| && s.disk[id].files[s.packs[id].file] == Content(s.disk[id])
    ensures s.packs[id].size == |Content(s.disk[id])| <= MAX_PACK
    ensures Complete(Content(s.disk[id]))
    ensures First(s.disk[id], s.packs[id].tier) && s.packs[id].tier < |s.tiers|
    ensures PackOk(s.disk[id], id == s.active)
    ensures Linked(s.disk[id], s.packs[id].tier) && s.disk[id].copies[s.packs[id].tier] == s.packs[id].file
    ensures forall t :: t in s.disk[id].copies ==> (t == s.packs[id].tier || t == s.packs[id].tier + 1) && t < |s.tiers|
    ensures DiskOk(s.disk, s.active)
    ensures id == s.active ==> s.packs[id].tier == 0
    ensures id != s.active ==> s.packs[id].tier in s.disk[id].hints
  {
    hide HintOf, Complete;
    assert Backed(s.disk, id, s.packs[id]);
    assert PackOk(s.disk[id], id == s.active);
  }

  lemma PacksAre(s: State)
    requires Stored(s)
    ensures Packs(s.disk).Keys == s.packs.Keys
  {
    hide DiskOk, AllBacked, Content;
    forall id | id in Packs(s.disk)
      ensures id in s.packs
    {
      var t :| t in s.disk[id].copies;
    }
    hide Homes;
    forall id | id in s.packs
      ensures id in Packs(s.disk)
    {
      PackFacts(s, id);
    }
  }

  lemma EntryOfKey(s: State, key: Key)
    requires Inv(s) && key in s.index
    ensures var l := s.index[key];
            l.pack in s.packs && l.pack in s.disk
            && key in Contents(Content(s.disk[l.pack]))
            && Newest(Packs(s.disk), key, l.pack)
            && var e := Contents(Content(s.disk[l.pack]))[key];
               l == Loc(l.pack, e.Value(), e.len) && e.End() <= |Content(s.disk[l.pack])| <= MAX_PACK && e.key == key
  {
    hide Stored, Counted, Contents, Packs;
    var l := s.index[key];
    assert Newest(Packs(s.disk), key, l.pack);
    PacksAre(s);
    PackFacts(s, l.pack);
    var file := Content(s.disk[l.pack]);
    ContentsInside(file);
    NoWrap(l.pack, Contents(file)[key]);
  }

  /** Get hands out the bytes the map binds the key to, or nothing. */
  lemma GetReads(s: State, key: Key)
    requires Inv(s)
    ensures Get(s, key).Some? <==> key in Bindings(s)
    ensures Get(s, key).Some? ==> Read(s.disk, Get(s, key).value) == Bindings(s)[key]
  {
    hide Stored, Counted, Contents, Packs, Points, PackOk, Complete, First, Content, Newest;
    if key in s.index {
      EntryOfKey(s, key);
      var id := s.index[key].pack;
      PackFacts(s, id);
      var file := Content(s.disk[id]);
      var e := Contents(file)[key];
      assert Get(s, key).value == Reader(id, s.packs[id].file, e.Value(), e.len);
      assert Read(s.disk, Get(s, key).value) == file[e.Value()..e.End()];
    }
  }

  /** A restart would find what is indexed: the index is a part of what the disk says. */
  lemma IndexedIsHeld(s: State, key: Key)
    requires Inv(s) && key in s.index
    ensures Holds(Packs(s.disk), key, Bindings(s)[key])
  {
    EntryOfKey(s, key);
    hide Stored, Counted, Points;
    PackFacts(s, s.index[key].pack);
    assert Newest(Packs(s.disk), key, s.index[key].pack);
  }

  // ---------------------------------------------------------------- counting

  lemma LensSet(index: Index, key: Key, l: Loc, id: nat)
    ensures Sum(Lens(index[key := l], id)) ==
            Sum(Lens(index, id)) - (if key in index && index[key].pack == id then index[key].len else 0)
            + (if l.pack == id then l.len else 0)
  {
    var m := Lens(index, id);
    if l.pack == id {
      assert Lens(index[key := l], id) == m[key := l.len];
      SumSet(m, key, l.len);
    } else {
      assert Lens(index[key := l], id) == m - {key};
      SumDrop(m, key);
    }
  }

  lemma SizesSet(packs: map<nat, Pack>, id: nat, p: Pack, tier: nat)
    ensures Sum(Sizes(packs[id := p], tier)) ==
            Sum(Sizes(packs, tier)) - (if id in packs && packs[id].tier == tier then packs[id].size else 0)
            + (if p.tier == tier then p.size else 0)
  {
    var m := Sizes(packs, tier);
    if p.tier == tier {
      assert Sizes(packs[id := p], tier) == m[id := p.size];
      SumSet(m, id, p.size);
    } else {
      assert Sizes(packs[id := p], tier) == m - {id};
      SumDrop(m, id);
    }
  }

  lemma SizesDrop(packs: map<nat, Pack>, id: nat, tier: nat)
    ensures Sum(Sizes(packs - {id}, tier)) ==
            Sum(Sizes(packs, tier)) - (if id in packs && packs[id].tier == tier then packs[id].size else 0)
  {
    assert Sizes(packs - {id}, tier) == Sizes(packs, tier) - {id};
    SumDrop(Sizes(packs, tier), id);
  }

  lemma SizesAlike(packs: map<nat, Pack>, packs': map<nat, Pack>, tier: nat)
    requires OnlyCounters(packs, packs')
    ensures Sizes(packs', tier) == Sizes(packs, tier)
  {
  }

  // ---------------------------------------------------------------- Put

  predicate Acceptable(key: Key, size: int) {
    0 < |key| <= 4096 && 10 !in key && 32 !in key && 0 <= size <= 0x8000_0000
  }

  /** The value the key had no longer counts for the pack it is in. */
  function Superseded(packs: map<nat, Pack>, index: Index, key: Key): map<nat, Pack> {
    if key in index && index[key].pack in packs then
      var was := index[key];
      packs[was.pack := packs[was.pack].(live := packs[was.pack].live - was.len)]
    else packs
  }

  function Rebound(packs: map<nat, Pack>, index: Index, key: Key, l: Loc): map<nat, Pack> {
    var less := Superseded(packs, index, key);
    if l.pack in less then less[l.pack := less[l.pack].(live := less[l.pack].live + l.len)] else less
  }

  lemma ReboundOnlyLive(packs: map<nat, Pack>, index: Index, key: Key, l: Loc)
    ensures Rebound(packs, index, key, l).Keys == packs.Keys
    ensures forall id :: id in packs ==>
              Rebound(packs, index, key, l)[id] == packs[id].(live := Rebound(packs, index, key, l)[id].live)
  {
  }

  /** Rebinding a key moves its length from the old pack's count to the new one's. */
  lemma ReboundLive(index: Index, packs: map<nat, Pack>, key: Key, l: Loc)
    requires LiveOk(index, packs) && l.pack in packs
    ensures LiveOk(index[key := l], Rebound(packs, index, key, l))
  {
    hide Lens;
    var packs' := Rebound(packs, index, key, l);
    ReboundOnlyLive(packs, index, key, l);
    forall id | id in packs'
      ensures packs'[id].live == Sum(Lens(index[key := l], id))
    {
      LensSet(index, key, l, id);
    }
  }

  function PutRecord(s: State, key: Key, value: seq<byte>): State {
    if s.active !in s.packs || s.tiers == [] then s else
    var a := s.packs[s.active];
    var size := a.size + |Record(key, value)|;
    var l := Loc(s.active, (a.size % U32 + HEADER + |key|) % U32, |value| % U32);
    var packs := Rebound(s.packs, s.index, key, l);
    s.(index := s.index[key := l],
       packs := packs[s.active := packs[s.active].(size := size)],
       tiers := s.tiers[0 := s.tiers[0].(total := s.tiers[0].total + |Record(key, value)|)],
       disk := Perform(s.disk, Op(s.active, Append(key, value))))
  }

  predicate Fits(s: State, key: Key, value: seq<byte>) {
    s.active in s.packs
    && (s.packs[s.active].size == 0 || s.packs[s.active].size + |Record(key, value)| <= PACK_LIMIT)
  }

  /** The append is one of the operations a crash can do nothing to, and the pack stays below 4 GiB. */
  lemma PutIsSafe(s: State, key: Key, value: seq<byte>)
    requires Inv(s) && !s.closed && Fits(s, key, value) && Putable(key, value)
    ensures Safe(s.disk, s.active, Op(s.active, Append(key, value)))
  {
    assert Backed(s.disk, s.active, s.packs[s.active]);
    assert PackOk(s.disk[s.active], true);
  }

  /** What the append does on disk: the active pack has the new record at its end, all else is as before. */
  lemma PutOnDisk(s: State, key: Key, value: seq<byte>)
    requires Inv(s) && !s.closed && Fits(s, key, value) && Putable(key, value)
    ensures var d' := Perform(s.disk, Op(s.active, Append(key, value)));
            && DiskOk(d', s.active) && PackOk(d'[s.active], true)
            && |d'[s.active].files| == |s.disk[s.active].files| && d'[s.active].copies == s.disk[s.active].copies
            && d'[s.active].hints == s.disk[s.active].hints
            && Content(d'[s.active]) == Content(s.disk[s.active]) + Record(key, value)
            && Packs(d') == Packs(s.disk)[s.active := Content(d'[s.active])]
  {
    PutIsSafe(s, key, value);
    var r := Record(key, value);
    assert r[..|r|] == r;
    GrowOk(s.disk[s.active], key, value, |r|);
    DirChanged(s.disk, s.active, s.active, Grow(s.disk[s.active], r));
    PacksChanged(s.disk, s.active, Grow(s.disk[s.active], r));
  }

  lemma PointsAfterPut(index: Index, p: PackMap, top: nat, key: Key, value: seq<byte>)
    requires Points(index, p) && top in p && (forall id :: id in p ==> id <= top)
    requires Complete(p[top]) && Putable(key, value)
    ensures Points(index[key := LocOf(top, Entry(key, |p[top]|, |value|))], p[top := p[top] + Record(key, value)])
  {
    var file := p[top] + Record(key, value);
    var index' := index[key := LocOf(top, Entry(key, |p[top]|, |value|))];
    var p' := p[top := file];
    ScanAppended(p[top], key, value);
    forall k | k in index'
      ensures Newest(p', k, index'[k].pack) && index'[k] == LocOf(index'[k].pack, Contents(p'[index'[k].pack])[k])
    {
      if k != key { assert Newest(p, k, index[k].pack); }
    }
  }

  lemma BackedWith(d: Disk, packs: map<nat, Pack>, id: nat, q: PackDir, p: Pack)
    requires AllBacked(d, packs)
    requires Backed(d[id := q], id, p)
    ensures AllBacked(d[id := q], packs[id := p])
  {
    hide Content, First, Linked;
    var d', packs' := d[id := q], packs[id := p];
    forall i | i in packs'
      ensures Backed(d', i, packs'[i])
    {
      if i != id { assert Backed(d, i, packs[i]); }
    }
  }

  /** One pack changes, in memory and on disk. */
  lemma BasedWith(d: Disk, packs: map<nat, Pack>, tiers: nat, top: nat, id: nat, q: PackDir, p: Pack)
    requires Based(d, packs, tiers, top) && id in d && PackOk(q, id == top)
    requires Backed(d[id := q], id, p)
    requires forall t :: t in q.copies ==> (t == p.tier || t == p.tier + 1) && t < tiers
    ensures Based(d[id := q], packs[id := p], tiers, top)
  {
    hide PackOk, Backed;
    BackedWith(d, packs, id, q, p);
    DirChanged(d, top, id, q);
  }

  ghost predicate OnlyCounters(packs: map<nat, Pack>, packs': map<nat, Pack>) {
    packs'.Keys == packs.Keys
    && forall id :: id in packs ==> packs'[id] == packs[id].(live := packs'[id].live, used := packs'[id].used)
  }

  lemma BasedIgnoresCounters(d: Disk, packs: map<nat, Pack>, packs': map<nat, Pack>, tiers: nat, top: nat)
    requires Based(d, packs, tiers, top) && OnlyCounters(packs, packs')
    ensures Based(d, packs', tiers, top)
  {
    hide DiskOk, Content, First;
    forall id | id in packs'
      ensures Backed(d, id, packs'[id])
    {
      assert Backed(d, id, packs[id]);
    }
  }

  lemma StoredAfterPut(s: State, key: Key, value: seq<byte>)
    requires Inv(s) && !s.closed && Fits(s, key, value) && Putable(key, value)
    ensures Stored(PutRecord(s, key, value))
  {
    hide DiskOk, HintOf, Record, PackOk, Points, Counted, Complete, Rebound, Effect, Packs, AllBacked, Homes, Content;
    var s' := PutRecord(s, key, value);
    var packs := Rebound(s.packs, s.index, key, s'.index[key]);
    ReboundOnlyLive(s.packs, s.index, key, s'.index[key]);
    BasedIgnoresCounters(s.disk, s.packs, packs, |s.tiers|, s.active);
    PackFacts(s, s.active);
    PutOnDisk(s, key, value);
    var q := s'.disk[s.active];
    ScanAppended(Content(s.disk[s.active]), key, value);
    BasedWith(s.disk, packs, |s.tiers|, s.active, s.active, q, s'.packs[s.active]);
  }

  lemma CountedAfterPut(s: State, key: Key, value: seq<byte>)
    requires s.active in s.packs && s.packs[s.active].tier == 0 && s.tiers != []
    requires Counted(s.tiers, s.index, s.packs)
    ensures var s' := PutRecord(s, key, value);
            Counted(s'.tiers, s'.index, s'.packs)
  {
    hide Record, Rebound, Perform, Sizes, Lens;
    var s' := PutRecord(s, key, value);
    var l := s'.index[key];
    var packs := Rebound(s.packs, s.index, key, l);
    ReboundLive(s.index, s.packs, key, l);
    ReboundOnlyLive(s.packs, s.index, key, l);
    forall t | 0 <= t < |s'.tiers|
      ensures s'.tiers[t].total == Sum(Sizes(s'.packs, t))
    {
      assert s.tiers[t].total == Sum(Sizes(s.packs, t));
      SizesAlike(s.packs, packs, t);
      SizesSet(packs, s.active, s'.packs[s.active], t);
    }
    forall id | id in s'.packs
      ensures s'.packs[id].live == Sum(Lens(s'.index, id))
    {
      assert packs[id].live == Sum(Lens(s'.index, id));
    }
  }

  /** Put keeps the invariant ... */
  lemma PutRecordKeeps(s: State, key: Key, value: seq<byte>)
    requires Inv(s) && !s.closed && Fits(s, key, value) && Putable(key, value)
    ensures Inv(PutRecord(s, key, value))
  {
    hide DiskOk, Points, Perform, Record, Counted, Backed, Complete, Content;
    PackFacts(s, s.active);
    PacksAre(s);
    assert forall id :: id in s.packs ==> id <= s.active by {
      forall id | id in s.packs ensures id <= s.active { PackFacts(s, id); }
    }
    StoredAfterPut(s, key, value);
    CountedAfterPut(s, key, value);
    PutOnDisk(s, key, value);
    PointsAfterPut(s.index, Packs(s.disk), s.active, key, value);
    CoversAfterPut(s, key, value);
  }

  lemma CoversAfterPut(s: State, key: Key, value: seq<byte>)
    requires Inv(s) && !s.closed && Fits(s, key, value) && Putable(key, value)
    ensures var s' := PutRecord(s, key, value);
            Covers(s'.index, s.active, Content(Dir(s'.disk, s.active)))
  {
    hide DiskOk, PackOk, Record, Counted, Content, Rebound, Points, Complete, Contents, PACK_LIMIT, Packs, Based;
    PackFacts(s, s.active);
    PutOnDisk(s, key, value);
    ScanAppended(Content(s.disk[s.active]), key, value);
  }

  lemma OtherKeyAfterPut(s: State, key: Key, value: seq<byte>, k: Key)
    requires Inv(s) && !s.closed && Fits(s, key, value) && Putable(key, value) && k in s.index && k != key
    ensures Bindings(PutRecord(s, key, value))[k] == Bindings(s)[k]
  {
    hide DiskOk, PackOk, Stored, Record, Counted, Content, Rebound, Points, Complete, Contents, PACK_LIMIT, Packs;
    hide ValueIn;
    PackFacts(s, s.active);
    PutOnDisk(s, key, value);
    EntryOfKey(s, k);
    if s.index[k].pack == s.active {
      ScanAppended(Content(s.disk[s.active]), key, value);
      ValueInGrown(Content(s.disk[s.active]), Record(key, value), k);
    }
  }

  /** ... and rebinds exactly its key. */
  lemma PutRecordBinds(s: State, key: Key, value: seq<byte>)
    requires Inv(s) && !s.closed && Fits(s, key, value) && Putable(key, value)
    ensures Bindings(PutRecord(s, key, value)) == Bindings(s)[key := value]
  {
    hide DiskOk, PackOk, Record, Counted, Content, Rebound, Points, Complete, Contents, PACK_LIMIT, Packs, ValueIn;
    hide Based;
    var s' := PutRecord(s, key, value);
    PackFacts(s, s.active);
    PutOnDisk(s, key, value);
    ValueInAppended(Content(s.disk[s.active]), key, value);
    forall k | k in s.index && k != key
      ensures Bindings(s')[k] == Bindings(s)[k]
    {
      OtherKeyAfterPut(s, key, value, k);
    }
  }

  // ---------------------------------------------------------------- reading counts as use

  function Touched(s: State, key: Key, now: int): State {
    if key !in s.index || s.index[key].pack !in s.packs then s
    else s.(packs := s.packs[s.index[key].pack := s.packs[s.index[key].pack].(used := now)])
  }

  lemma TotalsIgnoreLive(tiers: seq<Tier>, packs: map<nat, Pack>, packs': map<nat, Pack>)
    requires TotalsOk(tiers, packs) && OnlyCounters(packs, packs')
    ensures TotalsOk(tiers, packs')
  {
    forall t | 0 <= t < |tiers|
      ensures tiers[t].total == Sum(Sizes(packs', t))
    {
      SizesAlike(packs, packs', t);
    }
  }

  lemma TouchedKeeps(s: State, key: Key, now: int)
    requires Inv(s)
    ensures Inv(Touched(s, key, now)) && Bindings(Touched(s, key, now)) == Bindings(s)
  {
    hide Based, Points, Covers, Complete, Content, ValueIn, Lens;
    var s' := Touched(s, key, now);
    assert OnlyCounters(s.packs, s'.packs);
    BasedIgnoresCounters(s.disk, s.packs, s'.packs, |s.tiers|, s.active);
    TotalsIgnoreLive(s.tiers, s.packs, s'.packs);
  }

  // ---------------------------------------------------------------- sealing and rotating

  function Sealed(s: State, hint: File): State {
    s.(disk := Perform(s.disk, Op(s.active, PutHint(hint))))
  }

  /** Close seals the active pack and takes no more writes. */
  function Closed(s: State, hint: File): State { Sealed(s, hint).(closed := true) }

  /** A new, empty active pack in the first tier. */
  function Started(s: State, now: int): State {
    var id := s.active + 1;
    State(s.tiers, s.index, s.packs[id := Pack(0, |Dir(s.disk, id).files|, 0, 0, now)], id, false,
          Perform(s.disk, Op(id, Create)))
  }

  function Rotated(s: State, hint: File, now: int): State { Started(Sealed(s, hint), now) }

  ghost predicate TrueHint(s: State, hint: File) { HintOf(hint, Content(Dir(s.disk, s.active))) }

  lemma SealIsSafe(s: State, hint: File)
    requires Inv(s) && TrueHint(s, hint)
    ensures Safe(s.disk, s.active, Op(s.active, PutHint(hint)))
  {
    hide Points, Counted, Complete, HintOf, PackOk, DiskOk, Based, Content;
    PackFacts(s, s.active);
  }

  lemma ClosedKeeps(s: State, hint: File)
    requires Inv(s) && TrueHint(s, hint)
    ensures Inv(Closed(s, hint)) && Packs(Closed(s, hint).disk) == Packs(s.disk)
    ensures Bindings(Closed(s, hint)) == Bindings(s)
    ensures 0 in Closed(s, hint).disk[s.active].hints
  {
    hide Points, Counted, Complete, HintOf, Packs, DiskOk, PackOk, Based, Content, ValueIn;
    PackFacts(s, s.active);
    PutHintOk(s.disk[s.active], hint);
    var q := Effect(s.disk[s.active], PutHint(hint));
    assert q.copies == s.disk[s.active].copies && q.files == s.disk[s.active].files;
    BasedWith(s.disk, s.packs, |s.tiers|, s.active, s.active, q, s.packs[s.active]);
    assert s.packs[s.active := s.packs[s.active]] == s.packs;
    SamePacks(s.disk, s.active, s.active, q);
  }

  /** What Started does to packs and disk, also when there is no active pack yet. */
  lemma StartedBased(d: Disk, packs: map<nat, Pack>, tiers: nat, top: nat, p: Pack)
    requires Based(d, packs, tiers, top) && (top > 0 ==> top in d && 0 in d[top].hints)
    requires p.tier == 0 && p.file == |Dir(d, top + 1).files| && p.size == 0
    ensures Based(Perform(d, Op(top + 1, Create)), packs[top + 1 := p], tiers, top + 1)
    ensures Packs(Perform(d, Op(top + 1, Create))) == Packs(d)[top + 1 := []]
  {
    hide HintOf, Complete, PackOk, DiskOk, Packs, Content, AllBacked;
    FreshPack(d, top);
    AfterCreate(d, top);
    BackedWith(d, packs, top + 1, Effect(NO_PACK, Create), p);
  }

  lemma PointsAfterStart(index: Index, p: PackMap, id: nat)
    requires Points(index, p) && id !in p
    ensures Points(index, p[id := []])
  {
    forall k | k in index
      ensures Newest(p[id := []], k, index[k].pack)
    {
      assert Newest(p, k, index[k].pack);
    }
  }

  lemma CountedAfterStart(tiers: seq<Tier>, index: Index, packs: map<nat, Pack>, id: nat, p: Pack)
    requires Counted(tiers, index, packs) && id !in packs && p.live == p.size == 0
    requires forall k :: k in index ==> index[k].pack != id
    ensures Counted(tiers, index, packs[id := p])
  {
    var packs' := packs[id := p];
    assert Lens(index, id) == map[];
    forall t | 0 <= t < |tiers|
      ensures tiers[t].total == Sum(Sizes(packs', t))
    {
      SizesSet(packs, id, p, t);
    }
  }

  lemma StartedBinds(s: State, now: int)
    requires forall k :: k in s.index ==> s.index[k].pack != s.active + 1
    ensures Bindings(Started(s, now)) == Bindings(s)
  {
    hide Content, ValueIn, Effect;
  }

  /** Starting a pack after a sealed one, or as the first. */
  lemma StartedKeeps(s: State, now: int)
    requires Based(s.disk, s.packs, |s.tiers|, s.active) && Points(s.index, Packs(s.disk))
             && Counted(s.tiers, s.index, s.packs)
    requires s.packs.Keys == Packs(s.disk).Keys
    requires s.active > 0 ==> s.active in s.disk && 0 in Dir(s.disk, s.active).hints
    ensures Inv(Started(s, now)) && Bindings(Started(s, now)) == Bindings(s)
    ensures Packs(Started(s, now).disk) == Packs(s.disk)[s.active + 1 := []]
  {
    hide Counted, Complete, Packs, DiskOk, PackOk, HintOf, Perform, Content, AllBacked, Homes, Bindings, Contents;
    var id := s.active + 1;
    var p := Pack(0, |Dir(s.disk, id).files|, 0, 0, now);
    FreshPack(s.disk, s.active);
    forall k | k in s.index
      ensures s.index[k].pack != id
    {
      assert Newest(Packs(s.disk), k, s.index[k].pack);
    }
    hide Points, Newest;
    StartedBased(s.disk, s.packs, |s.tiers|, s.active, p);
    PointsAfterStart(s.index, Packs(s.disk), id);
    CountedAfterStart(s.tiers, s.index, s.packs, id, p);
    StartedFresh(s, now);
    StartedBinds(s, now);
  }

  lemma StartedFresh(s: State, now: int)
    requires DiskOk(s.disk, s.active)
    ensures var d := Started(s, now).disk;
            Content(Dir(d, s.active + 1)) == [] && Complete([]) && Contents([]) == map[]
            && Dir(d, s.active + 1).hints == map[]
  {
    FreshPack(s.disk, s.active);
  }

  lemma RotatedKeeps(s: State, hint: File, now: int)
    requires Inv(s) && TrueHint(s, hint)
    ensures Inv(Rotated(s, hint, now)) && Bindings(Rotated(s, hint, now)) == Bindings(s)
  {
    hide Counted, Complete, Points, PackOk, DiskOk, Perform, Based, TrueHint;
    var c := Closed(s, hint);
    ClosedKeeps(s, hint);
    assert Inv(c) && Bindings(c) == Bindings(s);
    PacksAre(c);
    PackFacts(c, c.active);
    assert Started(c, now) == Rotated(s, hint, now);
    StartedKeeps(c, now);
  }
}
