/** The first of some places where a thing is, and which lists of places are the same to every such search. */
module Lookup {
  import opened Bytes
  import opened Paths

  /** Whether a thing is at a place. */
  type There = Path -> bool

  function FirstIn(there: There, places: seq<Path>): Option<Path>
    decreases |places|
  {
    if places == [] then None else if there(places[0]) then Some(places[0]) else FirstIn(there, places[1..])
  }

  lemma {:induction false} FirstInMore(there: There, front: seq<Path>, rest: seq<Path>)
    ensures FirstIn(there, front + rest)
            == if FirstIn(there, front).Some? then FirstIn(there, front) else FirstIn(there, rest)
    decreases |front|
  {
    var all := front + rest;
    if front == [] {
      assert all == rest;
    } else {
      assert all[1..] == front[1..] + rest;
      FirstInMore(there, front[1..], rest);
    }
  }

  lemma OneIn(there: There, p: Path)
    ensures FirstIn(there, [p]) == if there(p) then Some(p) else None
  {
  }

  /** The thing is found at p exactly if p is one of the places, has it, and none before has it. */
  ghost predicate FirstAt(there: There, places: seq<Path>, p: Path) {
    there(p) && exists k :: 0 <= k < |places| && places[k] == p && forall i :: 0 <= i < k ==> !there(places[i])
  }

  lemma {:induction false} FirstInIff(there: There, places: seq<Path>, p: Path)
    ensures FirstIn(there, places) == Some(p) <==> FirstAt(there, places, p)
    decreases |places|
  {
    if places != [] {
      var rest := places[1..];
      FirstInIff(there, rest, p);
      if there(places[0]) {
        assert FirstAt(there, places, p) ==> p == places[0];
      } else {
        if FirstAt(there, rest, p) {
          var k :| 0 <= k < |rest| && rest[k] == p && forall i :: 0 <= i < k ==> !there(rest[i]);
          assert forall i :: 1 <= i < k + 1 ==> places[i] == rest[i - 1];
          assert places[k + 1] == p;
        }
        if FirstAt(there, places, p) {
          var k :| 0 <= k < |places| && places[k] == p && forall i :: 0 <= i < k ==> !there(places[i]);
          assert rest[k - 1] == p;
          assert forall i :: 0 <= i < k - 1 ==> rest[i] == places[i + 1];
        }
      }
    }
  }

  lemma {:induction false} FoundIsOne(there: There, places: seq<Path>)
    ensures FirstIn(there, places).Some? ==> FirstIn(there, places).value in places
    decreases |places|
  {
    if places != [] { FoundIsOne(there, places[1..]); }
  }

  lemma {:induction false} IsIn(there: There, places: seq<Path>, p: Path)
    requires p in places && there(p)
    ensures FirstIn(there, places).Some?
    decreases |places|
  {
    if p != places[0] { IsIn(there, places[1..], p); }
  }

  lemma {:induction false} NoneIn(there: There, places: seq<Path>)
    requires forall i :: 0 <= i < |places| ==> !there(places[i])
    ensures FirstIn(there, places) == None
    decreases |places|
  {
    if places != [] { NoneIn(there, places[1..]); }
  }

  lemma {:induction false} SameThere(f: There, g: There, places: seq<Path>)
    requires forall p :: f(p) == g(p)
    ensures FirstIn(f, places) == FirstIn(g, places)
    decreases |places|
  {
    if places != [] { SameThere(f, g, places[1..]); }
  }

  // ---------------------------------------------------------------- which lists are the same

  /** Each place once, where it comes first. */
  function Firsts(places: seq<Path>): seq<Path> {
    if places == [] then [] else
      var n := |places| - 1;
      var front := Firsts(places[..n]);
      if places[n] in front then front else front + [places[n]]
  }

  predicate Once(places: seq<Path>) { forall i, j :: 0 <= i < j < |places| ==> places[i] != places[j] }

  lemma {:induction false} FirstsAreOnce(places: seq<Path>)
    ensures Once(Firsts(places))
    decreases |places|
  {
    if places != [] {
      var front := Firsts(places[..|places| - 1]);
      FirstsAreOnce(places[..|places| - 1]);
      var all := Firsts(places);
      forall i, j | 0 <= i < j < |all|
        ensures all[i] != all[j]
      {
        assert all[i] == front[i];
        if j < |front| { assert all[j] == front[j]; }
      }
    }
  }

  lemma {:induction false} FirstInFirsts(there: There, places: seq<Path>)
    ensures FirstIn(there, Firsts(places)) == FirstIn(there, places)
    decreases |places|
  {
    if places != [] {
      var n := |places| - 1;
      var front, p := places[..n], places[n];
      FirstInFirsts(there, front);
      assert places == front + [p];
      FirstInMore(there, front, [p]);
      FirstInMore(there, Firsts(front), [p]);
      OneIn(there, p);
      if p in Firsts(front) && there(p) { IsIn(there, Firsts(front), p); }
    }
  }

  /** How far two lists are the same. */
  function Alike(a: seq<Path>, b: seq<Path>): (k: nat)
    ensures k <= |a| && k <= |b| && a[..k] == b[..k] && (k < |a| && k < |b| ==> a[k] != b[k])
    ensures a != b ==> k < |a| || k < |b|
    decreases |a|
  {
    if a == [] || b == [] || a[0] != b[0] then 0 else
      var k := Alike(a[1..], b[1..]);
      assert a[..1 + k] == [a[0]] + a[1..][..k] && b[..1 + k] == [b[0]] + b[1..][..k];
      1 + k
  }

  function AllBut(these: seq<Path>): There { (p: Path) => p !in these }

  lemma FirstOther(places: seq<Path>, k: nat)
    requires k <= |places| && Once(places)
    ensures FirstIn(AllBut(places[..k]), places) == if k < |places| then Some(places[k]) else None
  {
    var there := AllBut(places[..k]);
    assert places == places[..k] + places[k..];
    FirstInMore(there, places[..k], places[k..]);
    NoneIn(there, places[..k]);
  }

  /** Lists that have the same places, each once and in order, are the same to every search ... */
  lemma SameLists(there: There, a: seq<Path>, b: seq<Path>)
    requires Firsts(a) == Firsts(b)
    ensures FirstIn(there, a) == FirstIn(there, b)
  {
    hide Firsts, FirstIn;
    FirstInFirsts(there, a);
    FirstInFirsts(there, b);
  }

  /** ... and others are not: some search tells them apart. */
  lemma OtherLists(a: seq<Path>, b: seq<Path>) returns (there: There)
    requires Firsts(a) != Firsts(b)
    ensures FirstIn(there, a) != FirstIn(there, b)
  {
    hide Firsts, FirstIn, AllBut, Once;
    var f, g := Firsts(a), Firsts(b);
    var k := Alike(f, g);
    there := AllBut(f[..k]);
    FirstsAreOnce(a);
    FirstsAreOnce(b);
    FirstOther(f, k);
    FirstOther(g, k);
    FirstInFirsts(there, a);
    FirstInFirsts(there, b);
  }

  lemma SameListsIff(a: seq<Path>, b: seq<Path>)
    ensures (forall there: There :: FirstIn(there, a) == FirstIn(there, b)) <==> Firsts(a) == Firsts(b)
  {
    hide Firsts;
    if Firsts(a) == Firsts(b) {
      forall there: There
        ensures FirstIn(there, a) == FirstIn(there, b)
      {
        SameLists(there, a, b);
      }
    } else {
      var there := OtherLists(a, b);
      assert FirstIn(there, a) != FirstIn(there, b);
    }
  }
}
