/** Searching text: what std::string::find promises. */
module Text {
  import opened Bytes

  predicate At<T(==)>(t: seq<T>, p: seq<T>, i: nat) {
    i + |p| <= |t| && t[i..i + |p|] == p
  }

  predicate Starts<T(==)>(t: seq<T>, p: seq<T>) { At(t, p, 0) }

  /** p begins nowhere in t before n. */
  ghost predicate Free<T(!new)>(t: seq<T>, p: seq<T>, n: nat) {
    forall i: nat :: i < n ==> !At(t, p, i)
  }

  ghost predicate Absent<T(!new)>(t: seq<T>, p: seq<T>) { forall i: nat :: !At(t, p, i) }

  /** The first occurrence of p at or after `from`. */
  method Find<T(==)>(t: seq<T>, p: seq<T>, from: nat) returns (r: Option<nat>)
    ensures r.Some? ==> from <= r.value && At(t, p, r.value) && forall i: nat :: from <= i < r.value ==> !At(t, p, i)
    ensures r.None? ==> forall i: nat :: from <= i ==> !At(t, p, i)
  {
    var i := from;
    while i + |p| <= |t|
      invariant from <= i
      invariant forall j: nat :: from <= j < i ==> !At(t, p, j)
    {
      if t[i..i + |p|] == p {
        return Some(i);
      }
      i := i + 1;
    }
    return None;
  }

  lemma AtShift<T>(t: seq<T>, p: seq<T>, k: nat, i: nat)
    requires k <= |t|
    ensures At(t[k..], p, i) == At(t, p, k + i)
  {
    if k + i + |p| <= |t| {
      assert t[k..][i..i + |p|] == t[k + i..k + i + |p|];
    }
  }

  lemma AtIndex<T>(t: seq<T>, p: seq<T>, i: nat, j: nat)
    requires At(t, p, i) && j < |p|
    ensures t[i + j] == p[j]
  {
    assert t[i..i + |p|][j] == p[j];
  }

  /** Texts that agree over an occurrence share it. */
  lemma AtSame<T>(t: seq<T>, u: seq<T>, p: seq<T>, i: nat)
    requires i + |p| <= |t| && i + |p| <= |u|
    requires forall j :: i <= j < i + |p| ==> t[j] == u[j]
    ensures At(t, p, i) == At(u, p, i)
  {
    assert t[i..i + |p|] == u[i..i + |p|];
  }

  lemma StartsConcat<T>(p: seq<T>, u: seq<T>)
    ensures Starts(p + u, p) && (p + u)[|p|..] == u
  {
    assert (p + u)[0..|p|] == p;
  }

  // ---------------------------------------------------------------- lists in one text

  /** The first c at or after i, or the end. */
  function IndexOf(t: string, c: char, i: nat): (r: nat)
    requires i <= |t|
    ensures i <= r <= |t| && (r < |t| ==> t[r] == c) && forall j :: i <= j < r ==> t[j] != c
    decreases |t| - i
  {
    if i == |t| || t[i] == c then i else IndexOf(t, c, i + 1)
  }

  lemma IndexIs(text: string, c: char, i: nat)
    requires i < |text| && text[i] == c && forall j :: 0 <= j < i ==> text[j] != c
    ensures IndexOf(text, c, 0) == i
  {
    hide IndexOf;
  }

  function Join(parts: seq<string>, c: char): string {
    if parts == [] then "" else if |parts| == 1 then parts[0] else parts[0] + [c] + Join(parts[1..], c)
  }

  function Split(t: string, c: char): seq<string>
    decreases |t|
  {
    var n := IndexOf(t, c, 0);
    if n == |t| then [t] else [t[..n]] + Split(t[n + 1..], c)
  }

  lemma SplitFirst(a: string, rest: string, c: char)
    requires c !in a
    ensures Split(a + [c] + rest, c) == [a] + Split(rest, c)
  {
    var t := a + [c] + rest;
    assert t[|a|] == c && forall i :: 0 <= i < |a| ==> t[i] == a[i];
    IndexIs(t, c, |a|);
    assert t[..|a|] == a && t[|a| + 1..] == rest;
  }

  lemma {:induction false} SplitOfJoin(parts: seq<string>, c: char)
    requires parts != [] && forall i :: 0 <= i < |parts| ==> c !in parts[i]
    ensures Split(Join(parts, c), c) == parts
    decreases |parts|
  {
    if |parts| > 1 {
      SplitOfJoin(parts[1..], c);
      SplitFirst(parts[0], Join(parts[1..], c), c);
      assert parts == [parts[0]] + parts[1..];
    } else {
      assert IndexOf(parts[0], c, 0) == |parts[0]|;
    }
  }

  lemma {:induction false} JoinChars(parts: seq<string>, sep: char, c: char)
    requires c != sep && forall i :: 0 <= i < |parts| ==> c !in parts[i]
    ensures c !in Join(parts, sep)
    decreases |parts|
  {
    if |parts| > 1 { JoinChars(parts[1..], sep, c); }
  }

  // ---------------------------------------------------------------- replacing

  /** Every occurrence replaced, from the left; what was put in is not looked at again. */
  function Replaced(t: string, from: string, into: string): string
    requires from != []
    decreases |t|
  {
    if t == [] then []
    else if Starts(t, from) then into + Replaced(t[|from|..], from, into)
    else [t[0]] + Replaced(t[1..], from, into)
  }

  lemma {:induction false} ReplacedCopies(t: string, from: string, into: string, k: nat)
    requires from != [] && k <= |t| && Free(t, from, k)
    ensures Replaced(t, from, into) == t[..k] + Replaced(t[k..], from, into)
    decreases k
  {
    if k == 0 {
      assert t[0..] == t;
    } else {
      assert !At(t, from, 0);
      forall i: nat | i < k - 1
        ensures !At(t[1..], from, i)
      {
        AtShift(t, from, 1, i);
      }
      ReplacedCopies(t[1..], from, into, k - 1);
      assert t[1..][k - 1..] == t[k..];
      assert t[..k] == [t[0]] + t[1..][..k - 1];
    }
  }

  lemma ReplacedHere(t: string, from: string, into: string, k: nat)
    requires from != [] && At(t, from, k)
    ensures Replaced(t[k..], from, into) == into + Replaced(t[k + |from|..], from, into)
  {
    AtShift(t, from, k, 0);
    assert t[k..][|from|..] == t[k + |from|..];
  }

  /** The first occurrence of `from` becomes `into` where it stands. */
  lemma ReplacedFirst(t: string, from: string, into: string, k: nat)
    requires from != [] && Free(t, from, k) && At(t, from, k)
    ensures Replaced(t, from, into) == t[..k] + into + Replaced(t[k + |from|..], from, into)
  {
    hide Replaced;
    ReplacedCopies(t, from, into, k);
    ReplacedHere(t, from, into, k);
    assert t[..k] + (into + Replaced(t[k + |from|..], from, into))
           == t[..k] + into + Replaced(t[k + |from|..], from, into);
  }

  lemma ReplacedBetween(t: string, from: string, into: string, pos: nat, k: nat)
    requires from != [] && pos <= k <= |t| && forall i: nat :: pos <= i < k ==> !At(t, from, i)
    ensures t[..pos] + Replaced(t[pos..], from, into) == t[..k] + Replaced(t[k..], from, into)
  {
    hide Replaced;
    forall i: nat | i < k - pos
      ensures !At(t[pos..], from, i)
    {
      AtShift(t, from, pos, i);
    }
    ReplacedCopies(t[pos..], from, into, k - pos);
    var mid, end := t[pos..][..k - pos], Replaced(t[k..], from, into);
    assert t[pos..][k - pos..] == t[k..];
    assert t[..k] == t[..pos] + mid;
    assert t[..pos] + (mid + end) == (t[..pos] + mid) + end;
  }
}
