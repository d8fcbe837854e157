/** Packs leaving a tier that is over budget: down to the next one, or out of the last. */
module Demotion {
  import opened Sums
  import opened PackFile
  import opened PackDisk
  import opened PackSet
  import opened BlobState

  // ---------------------------------------------------------------- the choice

  predicate Over(s: State, t: nat) {
    t < |s.tiers| && s.tiers[t].budget > 0 && s.tiers[t].total > s.tiers[t].budget
  }

  predicate Candidate(s: State, t: nat, id: nat) {
    id in s.packs && s.packs[id].tier == t && id != s.active
  }

  /** Less than half of the pack is still pointed at. */
  predicate Stale(p: Pack) { p.live * 2 < p.size }

  /** Mostly superseded packs first, then the one longest without a read, then the older id. */
  predicate Before(p: Pack, id: nat, q: Pack, jd: nat) {
    if Stale(p) != Stale(q) then Stale(p) else p.used < q.used || (p.used == q.used && id < jd)
  }

  ghost predicate IsVictim(s: State, t: nat, id: nat) {
    && Over(s, t) && Candidate(s, t, id)
    && (forall u, j :: 0 <= u < t && Over(s, u) ==> !Candidate(s, u, j))
    && (forall j :: Candidate(s, t, j) && j != id ==> Before(s.packs[id], id, s.packs[j], j))
  }

  /** Nothing left to demote: every bounded tier is within budget or holds nothing but the active pack. */
  ghost predicate Drained(s: State) {
    forall t, id :: Over(s, t) ==> !Candidate(s, t, id)
  }

  // ---------------------------------------------------------------- the moves

  function CopiedPack(s: State, id: nat, linked: bool): State {
    if id !in s.packs then s
    else s.(disk := Perform(s.disk, Op(id, CopyPack(s.packs[id].tier, linked))))
  }

  function CopiedHint(s: State, id: nat): State {
    if id !in s.packs then s
    else s.(disk := Perform(s.disk, Op(id, CopyHint(s.packs[id].tier))))
  }

  /** Under the lock: the pack is now the copy, the old files go. */
  function Switched(s: State, id: nat): State {
    if id !in s.packs || s.packs[id].tier + 1 >= |s.tiers| then s
    else if s.packs[id].tier + 1 !in Dir(s.disk, id).copies then s else
    var p := s.packs[id];
    var from, to := p.tier, p.tier + 1;
    s.(packs := s.packs[id := p.(tier := to, file := s.disk[id].copies[to])],
       tiers := s.tiers[from := s.tiers[from].(total := s.tiers[from].total - p.size)]
                       [to := s.tiers[to].(total := s.tiers[to].total + p.size)],
       disk := Perform(Perform(s.disk, Op(id, RemovePack(from))), Op(id, RemoveHint(from))))
  }

  function Evicted(s: State, id: nat): State {
    if id !in s.packs || s.packs[id].tier >= |s.tiers| then s else
    var p := s.packs[id];
    s.(index := map k | k in s.index && s.index[k].pack != id :: s.index[k],
       packs := s.packs - {id},
       tiers := s.tiers[p.tier := s.tiers[p.tier].(total := s.tiers[p.tier].total - p.size)],
       disk := Perform(Perform(s.disk, Op(id, RemovePack(p.tier))), Op(id, RemoveHint(p.tier))))
  }

  /** A change to the files of one pack that keeps its content and, in memory, its counters. */
  lemma MovedKeeps(s: State, s': State, id: nat, q: PackDir)
    requires id in s.packs && id != s.active && id in s'.packs
    requires s' == s.(tiers := s'.tiers, packs := s.packs[id := s'.packs[id]], disk := s.disk[id := q])
    requires |s'.tiers| == |s.tiers| && Counted(s'.tiers, s.index, s'.packs)
    requires PackOk(q, false) && Present(q) && Content(q) == Content(Dir(s.disk, id))
    requires Backed(s'.disk, id, s'.packs[id])
    requires forall t :: t in q.copies ==> (t == s'.packs[id].tier || t == s'.packs[id].tier + 1) && t < |s.tiers|
    requires Inv(s)
    ensures Inv(s') && Bindings(s') == Bindings(s) && Packs(s'.disk) == Packs(s.disk)
  {
    hide Counted, Points, PackOk, DiskOk, AllBacked, Homes, Backed, Packs, Content, Complete, ValueIn;
    PackFacts(s, id);
    PackFacts(s, s.active);
    BasedWith(s.disk, s.packs, |s.tiers|, s.active, id, q, s'.packs[id]);
    PresentOf(s, id);
    SamePacks(s.disk, s.active, id, q);
  }

  lemma PresentOf(s: State, id: nat)
    requires Stored(s) && id in s.packs
    ensures Present(s.disk[id])
  {
    hide PackOk, DiskOk, Content, Complete;
    PackFacts(s, id);
  }

  lemma CopiedPackKeeps(s: State, id: nat, linked: bool)
    requires Inv(s) && id in s.packs && id != s.active && s.packs[id].tier + 1 < |s.tiers|
    ensures Safe(s.disk, s.active, Op(id, CopyPack(s.packs[id].tier, linked)))
    ensures Inv(CopiedPack(s, id, linked)) && Bindings(CopiedPack(s, id, linked)) == Bindings(s)
    ensures s.packs[id].tier + 1 in CopiedPack(s, id, linked).disk[id].copies
  {
    hide Counted, Points, PackOk, DiskOk, Packs, Content, Complete, Based;
    PackFacts(s, id);
    PresentOf(s, id);
    var tier := s.packs[id].tier;
    CopyPackOk(s.disk[id], tier, linked);
    var q := Effect(s.disk[id], CopyPack(tier, linked));
    assert q.copies[tier] == s.disk[id].copies[tier];
    assert First(q, tier);
    assert s.packs[id := s.packs[id]] == s.packs;
    MovedKeeps(s, CopiedPack(s, id, linked), id, q);
  }

  lemma CopiedHintKeeps(s: State, id: nat)
    requires Inv(s) && id in s.packs && id != s.active
    ensures Safe(s.disk, s.active, Op(id, CopyHint(s.packs[id].tier)))
    ensures Inv(CopiedHint(s, id)) && Bindings(CopiedHint(s, id)) == Bindings(s)
    ensures s.packs[id].tier + 1 in CopiedHint(s, id).disk[id].hints
    ensures CopiedHint(s, id).disk[id].copies == s.disk[id].copies
  {
    hide Counted, Points, PackOk, DiskOk, Packs, Content, Complete, Based;
    PackFacts(s, id);
    PresentOf(s, id);
    var tier := s.packs[id].tier;
    CopyHintOk(s.disk[id], tier);
    var q := Effect(s.disk[id], CopyHint(tier));
    assert First(q, tier);
    assert s.packs[id := s.packs[id]] == s.packs;
    MovedKeeps(s, CopiedHint(s, id), id, q);
  }

  predicate ReadyToSwitch(s: State, id: nat) {
    id in s.packs && id != s.active && s.packs[id].tier + 1 < |s.tiers|
    && s.packs[id].tier + 1 in Dir(s.disk, id).copies && s.packs[id].tier + 1 in Dir(s.disk, id).hints
  }

  /** Removing the old copy and then the old hint leaves the new pair. */
  lemma OldCopyGone(p: PackDir, from: nat)
    requires PackOk(p, false) && First(p, from)
    requires from + 1 in p.copies && from + 1 in p.hints && p.copies.Keys <= {from, from + 1}
    ensures SafeAct(p, false, RemovePack(from))
    ensures var q := Effect(p, RemovePack(from));
            && PackOk(q, false) && SafeAct(q, false, RemoveHint(from))
            && PackOk(Effect(q, RemoveHint(from)), false)
            && Content(q) == Content(Effect(q, RemoveHint(from))) == Content(p)
    ensures var r := Effect(Effect(p, RemovePack(from)), RemoveHint(from));
            r.copies == map[from + 1 := p.copies[from + 1]] && r.files == p.files
            && First(r, from + 1) && Linked(r, from + 1)
  {
    hide HintOf, Complete;
    assert Linked(p, from + 1);
    hide PackOk, Content;
    var q := Effect(p, RemovePack(from));
    RemovePackOk(p, from);
    assert q.copies == map[from + 1 := p.copies[from + 1]];
    RemoveHintOk(q, false, from);
  }

  lemma CountedAfterSwitch(s: State, id: nat)
    requires Counted(s.tiers, s.index, s.packs) && ReadyToSwitch(s, id)
    ensures Counted(Switched(s, id).tiers, s.index, Switched(s, id).packs)
  {
    hide Perform, Sizes, Lens;
    var s' := Switched(s, id);
    forall t | 0 <= t < |s'.tiers|
      ensures s'.tiers[t].total == Sum(Sizes(s'.packs, t))
    {
      assert s.tiers[t].total == Sum(Sizes(s.packs, t));
      SizesSet(s.packs, id, s'.packs[id], t);
      if t == s.packs[id].tier {
      } else if t == s.packs[id].tier + 1 {
      } else {
        assert s'.tiers[t] == s.tiers[t];
      }
    }
    assert forall i :: i in s'.packs ==> s'.packs[i].live == s.packs[i].live;
  }

  lemma SwitchedKeeps(s: State, id: nat)
    requires ReadyToSwitch(s, id) && Inv(s)
    ensures Inv(Switched(s, id)) && Bindings(Switched(s, id)) == Bindings(s)
  {
    hide Counted, Points, PackOk, DiskOk, Packs, Content, Complete, Based;
    PackFacts(s, id);
    CountedAfterSwitch(s, id);
    var s' := Switched(s, id);
    var from := s.packs[id].tier;
    OldCopyGone(s.disk[id], from);
    var r := Effect(Effect(s.disk[id], RemovePack(from)), RemoveHint(from));
    assert s'.disk == s.disk[id := r];
    MovedKeeps(s, s', id, r);
  }

  // ---------------------------------------------------------------- out of the last tier

  lemma PointsAfterEvict(index: Index, p: PackMap, id: nat)
    requires Points(index, p)
    ensures Points(map k | k in index && index[k].pack != id :: index[k], p - {id})
  {
    var index' := map k | k in index && index[k].pack != id :: index[k];
    forall k | k in index'
      ensures Newest(p - {id}, k, index'[k].pack)
    {
      assert Newest(p, k, index[k].pack);
    }
  }

  lemma CountedAfterEvict(s: State, id: nat)
    requires Counted(s.tiers, s.index, s.packs) && id in s.packs && s.packs[id].tier < |s.tiers|
    ensures var s' := Evicted(s, id);
            Counted(s'.tiers, s'.index, s'.packs)
  {
    hide Perform;
    var s' := Evicted(s, id);
    forall i | i in s'.packs
      ensures s'.packs[i].live == Sum(Lens(s'.index, i))
    {
      assert Lens(s'.index, i) == Lens(s.index, i);
    }
    hide Lens, Sizes;
    forall t | 0 <= t < |s'.tiers|
      ensures s'.tiers[t].total == Sum(Sizes(s'.packs, t))
    {
      assert s.tiers[t].total == Sum(Sizes(s.packs, t));
      SizesDrop(s.packs, id, t);
    }
  }

  /** The last copy goes, then its hint. */
  lemma LastCopyOk(p: PackDir, tier: nat)
    requires PackOk(p, false) && First(p, tier) && p.copies.Keys <= {tier}
    ensures SafeAct(p, false, RemovePack(tier))
    ensures var q := Effect(p, RemovePack(tier));
            && PackOk(q, false) && SafeAct(q, false, RemoveHint(tier))
            && PackOk(Effect(q, RemoveHint(tier)), false) && Effect(q, RemoveHint(tier)).copies == map[]
  {
    hide PackOk, Content;
    var q := Effect(p, RemovePack(tier));
    RemovePackOk(p, tier);
    assert q.copies == map[];
    RemoveHintOk(q, false, tier);
  }

  lemma BasedWithout(d: Disk, packs: map<nat, Pack>, tiers: nat, top: nat, id: nat, q: PackDir)
    requires Based(d, packs, tiers, top) && id in d && id != top && PackOk(q, false) && q.copies == map[]
    ensures Based(d[id := q], packs - {id}, tiers, top)
    ensures Packs(d[id := q]) == Packs(d) - {id}
  {
    hide PackOk, DiskOk, Content;
    DirChanged(d, top, id, q);
    PacksChanged(d, id, q);
    var d', packs' := d[id := q], packs - {id};
    forall i | i in packs'
      ensures Backed(d', i, packs'[i])
    {
      assert Backed(d, i, packs[i]);
    }
  }

  lemma EvictedKeeps(s: State, id: nat)
    requires id in s.packs && id != s.active && s.packs[id].tier + 1 == |s.tiers|
    requires Inv(s)
    ensures Inv(Evicted(s, id))
    ensures Packs(Evicted(s, id).disk) == Packs(s.disk) - {id}
  {
    hide Points, PackOk, DiskOk, Packs, Content, Complete, Based, Counted;
    PackFacts(s, id);
    PackFacts(s, s.active);
    var s' := Evicted(s, id);
    var tier := s.packs[id].tier;
    LastCopyOk(s.disk[id], tier);
    var r := Effect(Effect(s.disk[id], RemovePack(tier)), RemoveHint(tier));
    assert s'.disk == s.disk[id := r];
    BasedWithout(s.disk, s.packs, |s.tiers|, s.active, id, r);
    PointsAfterEvict(s.index, Packs(s.disk), id);
    CountedAfterEvict(s, id);
  }

  /** An evicted pack takes exactly the keys bound to it with it. */
  lemma EvictedBinds(s: State, id: nat)
    requires id in s.packs && s.packs[id].tier < |s.tiers|
    ensures Bindings(Evicted(s, id)) == map k | k in s.index && s.index[k].pack != id :: Bindings(s)[k]
  {
    hide Content, ValueIn, Effect;
    var s' := Evicted(s, id);
    assert forall i :: i != id ==> Dir(s'.disk, i) == Dir(s.disk, i);
  }

  // ---------------------------------------------------------------- one demotion as a whole

  function Moved(s: State, id: nat, linked: bool): State {
    if id in s.packs && s.packs[id].tier + 1 == |s.tiers| then Evicted(s, id)
    else Switched(CopiedHint(CopiedPack(s, id, linked), id), id)
  }

  function MoveOps(s: State, id: nat, linked: bool): seq<Op>
    requires id in s.packs
  {
    var tier := s.packs[id].tier;
    (if tier + 1 == |s.tiers| then [] else [Op(id, CopyPack(tier, linked)), Op(id, CopyHint(tier))])
    + [Op(id, RemovePack(tier)), Op(id, RemoveHint(tier))]
  }

  lemma CopiesReady(s: State, id: nat, linked: bool)
    requires id in s.packs && id != s.active && s.packs[id].tier + 1 < |s.tiers| && Inv(s)
    ensures var c := CopiedHint(CopiedPack(s, id, linked), id);
            Inv(c) && ReadyToSwitch(c, id) && Bindings(c) == Bindings(s)
  {
    hide Inv, Bindings, Perform;
    CopiedPackKeeps(s, id, linked);
    var c := CopiedPack(s, id, linked);
    CopiedHintKeeps(c, id);
    hide Stored;
    DirIs(c, id);
    DirIs(CopiedHint(c, id), id);
  }

  lemma DirIs(s: State, id: nat)
    requires id in s.packs && Inv(s)
    ensures id in s.disk && Dir(s.disk, id) == s.disk[id]
  {
    hide Counted, Points, Covers, PackOk, DiskOk, Content, Complete;
    PackFacts(s, id);
  }

  lemma MoveKeeps(s: State, id: nat, linked: bool)
    requires id in s.packs && id != s.active && s.packs[id].tier < |s.tiers| && Inv(s)
    ensures Inv(Moved(s, id, linked))
    ensures s.packs[id].tier + 1 < |s.tiers| ==> Bindings(Moved(s, id, linked)) == Bindings(s)
    ensures s.packs[id].tier + 1 == |s.tiers| ==>
              Bindings(Moved(s, id, linked)) == map k | k in s.index && s.index[k].pack != id :: Bindings(s)[k]
  {
    hide Inv, Bindings, Switched, Evicted, CopiedHint, CopiedPack;
    if s.packs[id].tier + 1 == |s.tiers| {
      EvictedKeeps(s, id);
      EvictedBinds(s, id);
    } else {
      CopiesReady(s, id, linked);
      SwitchedKeeps(CopiedHint(CopiedPack(s, id, linked), id), id);
    }
  }

  /** How far all packs together still are from the way out. */
  ghost function Height(s: State): int {
    Sum(map id | id in s.packs :: |s.tiers| - s.packs[id].tier)
  }

  lemma MovedShape(s: State, id: nat, linked: bool)
    requires id in s.packs && id != s.active && s.packs[id].tier < |s.tiers| && Inv(s)
    ensures var s' := Moved(s, id, linked);
            && s'.active == s.active && |s'.tiers| == |s.tiers|
            && (forall t :: 0 <= t < |s.tiers| ==> s'.tiers[t].budget == s.tiers[t].budget)
            && (if s.packs[id].tier + 1 == |s.tiers| then s'.packs == s.packs - {id}
                else id in s'.packs && s'.packs == s.packs[id := s'.packs[id]]
                     && s'.packs[id].tier == s.packs[id].tier + 1)
  {
    hide Inv, Perform;
    if s.packs[id].tier + 1 < |s.tiers| {
      CopiesReady(s, id, linked);
      var c := CopiedHint(CopiedPack(s, id, linked), id);
      assert c.packs == s.packs && c.tiers == s.tiers;
    }
  }

  lemma MoveDescends(s: State, id: nat, linked: bool)
    requires id in s.packs && id != s.active && s.packs[id].tier < |s.tiers| && Inv(s)
    ensures |Moved(s, id, linked).tiers| == |s.tiers|
    ensures forall t :: 0 <= t < |s.tiers| ==> Moved(s, id, linked).tiers[t].budget == s.tiers[t].budget
    ensures 0 <= Height(Moved(s, id, linked)) < Height(s)
  {
    hide Inv, Moved;
    var s' := Moved(s, id, linked);
    MovedShape(s, id, linked);
    MoveKeeps(s, id, linked);
    TiersBound(s);
    TiersBound(s');
    var m := map i | i in s.packs :: |s.tiers| - s.packs[i].tier;
    var m' := map i | i in s'.packs :: |s'.tiers| - s'.packs[i].tier;
    SumNonNegative(m');
    if s.packs[id].tier + 1 == |s.tiers| {
      assert m' == m - {id};
      SumDrop(m, id);
    } else {
      assert m' == m[id := m[id] - 1];
      SumSet(m, id, m[id] - 1);
    }
  }

  lemma TiersBound(s: State)
    requires Inv(s)
    ensures forall id :: id in s.packs ==> s.packs[id].tier < |s.tiers|
  {
    hide Counted, Points, Covers, PackOk, DiskOk, Content, Complete;
    forall id | id in s.packs
      ensures s.packs[id].tier < |s.tiers|
    {
      PackFacts(s, id);
    }
  }

  lemma BeforeTransitive(p: Pack, i: nat, q: Pack, j: nat, r: Pack, k: nat)
    requires Before(p, i, q, j) && Before(q, j, r, k)
    ensures Before(p, i, r, k)
  {
  }

  lemma BeforeTotal(p: Pack, i: nat, q: Pack, j: nat)
    requires i != j
    ensures Before(p, i, q, j) || Before(q, j, p, i)
    ensures !(Before(p, i, q, j) && Before(q, j, p, i))
  {
  }
}
