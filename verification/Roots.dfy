/** Masked store paths mapped back to the store paths this build has. */
module Roots {
  import opened Bytes
  import opened Text
  import opened Masking

  const STARRED: string := "/nix/store/*-"

  /** What may follow a store root in a depfile, a response file or a configuration text. */
  predicate Ends(c: char) { c == '/' || c in " \t\n\\:\"';,)]}>" }

  /** The first '/' at or after i, or the end. */
  function SlashAt(t: string, i: nat): (r: nat)
    ensures i <= |t| ==> i <= r <= |t| && (r < |t| ==> t[r] == '/')
    ensures i > |t| ==> r == |t|
    ensures forall j :: i <= j < r ==> t[j] != '/'
    decreases |t| - i
  {
    if i >= |t| then |t| else if t[i] == '/' then i else SlashAt(t, i + 1)
  }

  /** <store>/<hash-name> of a path below it. */
  function Cut(root: string): string { root[..SlashAt(root, 11)] }

  /** The masked name m stands for the store root r. */
  predicate Names(m: string, r: string) {
    Occurs(r, 0) && '/' !in r[44..] && m == STARRED + r[44..]
  }

  // ---------------------------------------------------------------- the table of roots

  function TableOf(roots: seq<string>): map<string, string> {
    if roots == [] then map[] else
      var table := TableOf(roots[..|roots| - 1]);
      var root := Cut(roots[|roots| - 1]);
      if Masked(root) == root || Masked(root) in table then table else table[Masked(root) := root]
  }

  method Table(listed: seq<string>, out: string) returns (table: map<string, string>)
    ensures table == TableOf(listed + [out])
  {
    var roots := listed + [out];
    table := map[];
    for i := 0 to |roots|
      invariant table == TableOf(roots[..i])
    {
      assert roots[..i + 1][..i] == roots[..i];
      var root := Cut(roots[i]);
      var masked := MaskHashes(root);
      if masked != root && masked !in table {
        table := table[masked := root];
      }
    }
    assert roots[..|roots|] == roots;
  }

  lemma CutPrefix(root: string, i: nat)
    requires At(Cut(root), PREFIX, i)
    ensures i == 0
  {
    var c := Cut(root);
    PrefixChars(c, i);
    assert c[i + 10] == root[i + 10];
  }

  lemma MaskedRoot(r: string)
    requires Occurs(r, 0) && forall i: nat :: 0 < i ==> !Occurs(r, i)
    ensures Masked(r) == STARRED + r[44..]
  {
    hide Masked, Occurs;
    MaskedAtHash(r);
    CleanFrom(r, 43);
    CleanIsKept(r[43..]);
    assert r[43..] == "-" + r[44..];
    assert STARRED == PREFIX + "*-";
  }

  lemma RootShape(root: string)
    requires Masked(Cut(root)) != Cut(root)
    ensures Names(Masked(Cut(root)), Cut(root))
  {
    var c := Cut(root);
    forall i: nat | 0 < i
      ensures !Occurs(c, i)
    {
      if Occurs(c, i) { CutPrefix(root, i); }
    }
    if !Occurs(c, 0) {
      assert Clean(c);
      CleanIsKept(c);
    } else {
      MaskedRoot(c);
    }
  }

  /** The table holds exactly the masked names of the roots, each with the first root of that name. */
  lemma {:induction false} FirstWins(roots: seq<string>)
    ensures forall m :: m in TableOf(roots) ==> Names(m, TableOf(roots)[m])
    ensures forall i :: 0 <= i < |roots| && Masked(Cut(roots[i])) != Cut(roots[i]) ==>
          Masked(Cut(roots[i])) in TableOf(roots)
    ensures forall i :: 0 <= i < |roots| && Masked(Cut(roots[i])) != Cut(roots[i])
                        && (forall j :: 0 <= j < i ==> Masked(Cut(roots[j])) != Masked(Cut(roots[i]))) ==>
                          TableOf(roots)[Masked(Cut(roots[i]))] == Cut(roots[i])
    ensures forall m :: m in TableOf(roots) ==> exists i :: 0 <= i < |roots| && m == Masked(Cut(roots[i]))
    decreases |roots|
  {
    hide Masked, Cut, Names;
    if roots != [] {
      var n := |roots| - 1;
      FirstWins(roots[..n]);
      assert forall i :: 0 <= i < n ==> roots[..n][i] == roots[i];
      if Masked(Cut(roots[n])) != Cut(roots[n]) { RootShape(roots[n]); }
      forall m | m in TableOf(roots)
        ensures exists i :: 0 <= i < |roots| && m == Masked(Cut(roots[i]))
      {
        if m in TableOf(roots[..n]) {
          var i :| 0 <= i < n && m == Masked(Cut(roots[..n][i]));
          assert m == Masked(Cut(roots[i]));
        }
      }
    }
  }

  // ---------------------------------------------------------------- one path

  function Resolve(path: string, table: map<string, string>): Option<string> {
    if !Starts(path, STARRED) then Some(path)
    else
      var slash := SlashAt(path, 13);
      if path[..slash] !in table then None else Some(table[path[..slash]] + path[slash..])
  }

  lemma MaskedPath(r: string, tail: string)
    requires Occurs(r, 0) && forall i: nat :: 0 < i ==> !Occurs(r + tail, i)
    ensures Masked(r) == STARRED + r[44..] && Masked(r + tail) == Masked(r) + tail
  {
    var p := r + tail;
    OccursSame(r, p, 0);
    forall i: nat | 0 < i
      ensures !Occurs(r, i)
    {
      if Occurs(r, i) {
        OccursChars(r, i);
        OccursSame(r, p, i);
      }
    }
    MaskedRoot(p);
    MaskedRoot(r);
    assert p[44..] == r[44..] + tail;
    assert STARRED + (r[44..] + tail) == STARRED + r[44..] + tail;
  }

  lemma ResolveStarred(name: string, tail: string, table: map<string, string>)
    requires '/' !in name && (tail == "" || tail[0] == '/')
    ensures var m := STARRED + name;
            Resolve(m + tail, table) == if m in table then Some(table[m] + tail) else None
  {
    var m := STARRED + name;
    var p := m + tail;
    assert p[0..13] == STARRED;
    var slash := SlashAt(p, 13);
    assert forall j :: 13 <= j < |m| ==> p[j] == name[j - 13];
    assert slash >= |m|;
    assert tail != "" ==> p[|m|] == '/';
    assert p[..slash] == m && p[slash..] == tail;
  }

  /** A path below root r, without another store path in it, comes back exactly when r is the root
      the table has under its masked name. */
  lemma ResolveMasked(r: string, tail: string, table: map<string, string>)
    requires Occurs(r, 0) && '/' !in r[44..] && (tail == "" || tail[0] == '/')
    requires forall i: nat :: 0 < i ==> !Occurs(r + tail, i)
    ensures Resolve(Masked(r + tail), table) == Some(r + tail) <==> Masked(r) in table && table[Masked(r)] == r
  {
    hide Masked, Resolve;
    MaskedPath(r, tail);
    ResolveStarred(r[44..], tail, table);
    var m := Masked(r);
    if m in table && table[m] + tail == r + tail {
      assert |table[m]| == |r|;
      assert (table[m] + tail)[..|r|] == table[m] && (r + tail)[..|r|] == r;
    }
  }

  lemma ResolveElsewhere(p: string, table: map<string, string>)
    requires Clean(p) && !Starts(p, STARRED)
    ensures Resolve(Masked(p), table) == Some(p)
  {
    CleanIsKept(p);
  }

  // ---------------------------------------------------------------- all paths of a text

  /** The first character at or after i that ends a root, or the end. */
  function EndAt(t: string, i: nat): (r: nat)
    requires i <= |t|
    ensures i <= r <= |t| && (r < |t| ==> Ends(t[r])) && forall j :: i <= j < r ==> !Ends(t[j])
    decreases |t| - i
  {
    if i == |t| || Ends(t[i]) then i else EndAt(t, i + 1)
  }

  /** The whole root at the front of a text. */
  function Front(t: string): string
    requires Starts(t, STARRED)
  {
    t[..EndAt(t, 13)]
  }

  predicate Hit(t: string, table: map<string, string>) { Starts(t, STARRED) && Front(t) in table }

  /** Every whole root that the table knows replaced, all at once. */
  function Resolved(t: string, table: map<string, string>): string
    decreases |t|
  {
    if t == [] then []
    else if Hit(t, table) then table[Front(t)] + Resolved(t[|Front(t)|..], table)
    else [t[0]] + Resolved(t[1..], table)
  }

  /** Store names hold no character that ends a root (Nix allows letters, digits and +-._?=). */
  ghost predicate Good(table: map<string, string>) {
    forall m :: m in table ==> Names(m, table[m]) && forall j :: 13 <= j < |m| ==> !Ends(m[j])
  }

  lemma StarredChars(t: string, i: nat)
    requires At(t, STARRED, i)
    ensures At(t, PREFIX, i) && t[i] == '/' && t[i + 11] == '*' && t[i + 12] == '-'
  {
    assert t[i..i + 11] == t[i..i + 13][..11] == PREFIX;
    assert t[i..i + 13][0] == '/' && t[i..i + 13][11] == '*' && t[i..i + 13][12] == '-';
  }

  /** No prefix begins inside a masked root. */
  lemma StarredAlone(t: string, d: nat)
    requires Starts(t, STARRED) && At(t, PREFIX, d) && d > 0
    ensures d >= 13
  {
    StarredChars(t, 0);
    PrefixApart(t, 0, d);
    PrefixChars(t, d);
  }

  ghost predicate NoHit(t: string, table: map<string, string>, k: nat)
    requires k <= |t|
  {
    forall j :: 0 <= j < k ==> !Hit(t[j..], table)
  }

  lemma {:induction false} ResolvedCopies(t: string, table: map<string, string>, k: nat)
    requires k <= |t| && NoHit(t, table, k)
    ensures Resolved(t, table) == t[..k] + Resolved(t[k..], table)
    decreases k
  {
    assert t[0..] == t;
    if k > 0 {
      forall j | 0 <= j < k - 1
        ensures !Hit(t[1..][j..], table)
      {
        assert t[1..][j..] == t[j + 1..];
      }
      assert !Hit(t[0..], table);
      ResolvedCopies(t[1..], table, k - 1);
      assert t[1..][k - 1..] == t[k..];
      assert t[..k] == [t[0]] + t[1..][..k - 1];
    }
  }

  lemma HitSlash(t: string, table: map<string, string>, j: nat)
    requires j <= |t| && Hit(t[j..], table)
    ensures At(t, STARRED, j) && At(t, PREFIX, j) && t[j] == '/'
  {
    AtShift(t, STARRED, j, 0);
    StarredChars(t, j);
  }

  // ---------------------------------------------------------------- one root after the other, in any order

  lemma RootChars(r: string)
    requires Occurs(r, 0) && '/' !in r[44..]
    ensures |r| >= 44 && At(r, PREFIX, 0) && r[11] != '*' && r[14] != '/'
    ensures forall j :: 0 <= j < |r| && r[j] == '/' ==> j == 0 || j == 4 || j == 10
    ensures r[5] == 's'
  {
    OccursChars(r, 0);
    assert forall j :: 44 <= j < |r| ==> r[j] == r[44..][j - 44];
  }

  /** No masked root begins inside a real one. */
  lemma NoHitInRoot(m: string, r: string, x: string, table: map<string, string>)
    requires Names(m, r)
    ensures NoHit(r + x, table, |r|)
  {
    RootChars(r);
    var t := r + x;
    forall j | 0 <= j < |r|
      ensures !Hit(t[j..], table)
    {
      if Hit(t[j..], table) {
        HitSlash(t, table, j);
        assert t[j] == r[j];
        if j == 0 { StarredChars(t, 0); } else { PrefixChars(t, j); }
      }
    }
  }

  /** Nor does another one inside a masked root. */
  lemma NoHitInFront(t: string, table: map<string, string>)
    requires Starts(t, STARRED)
    ensures forall j :: 0 < j < |Front(t)| ==> !Hit(t[j..], table)
  {
    forall j | 0 < j < |Front(t)|
      ensures !Hit(t[j..], table)
    {
      if Hit(t[j..], table) {
        HitSlash(t, table, j);
        StarredAlone(t, j);
        assert Ends(t[j]);
      }
    }
  }

  /** Where a text ends a root, so does the resolved text. */
  lemma FrontEnds(t: string, table: map<string, string>)
    requires Good(table)
    ensures t == [] <==> Resolved(t, table) == []
    ensures t != [] ==> Resolved(t, table)[0] == t[0]
  {
    if t != [] && Hit(t, table) {
      StarredChars(t, 0);
      RootChars(table[Front(t)]);
    }
  }

  /** A root left alone is still there. */
  lemma FrontKept(t: string, table: map<string, string>)
    requires Good(table) && Starts(t, STARRED) && Front(t) !in table
    ensures var s := Resolved(t, table);
            && s == Front(t) + Resolved(t[|Front(t)|..], table)
            && Starts(s, STARRED) && Front(s) == Front(t)
  {
    var c, n := Front(t), |Front(t)|;
    assert t[0..] == t;
    NoHitInFront(t, table);
    ResolvedCopies(t, table, n);
    var s := Resolved(t, table);
    var rest := Resolved(t[n..], table);
    assert s[0..13] == t[0..13];
    FrontEnds(t[n..], table);
    assert forall j :: 0 <= j < n ==> s[j] == t[j];
    assert n < |s| ==> Ends(s[n]);
    assert EndAt(s, 13) == n;
    assert s[..n] == c;
  }

  lemma {:induction false} FirstHit(t: string, table: map<string, string>, k: nat) returns (i: nat)
    requires k <= |t| && !NoHit(t, table, k)
    ensures i < k && Hit(t[i..], table) && NoHit(t, table, i)
    decreases k
  {
    i :| 0 <= i < k && Hit(t[i..], table);
    if !NoHit(t, table, i) {
      i := FirstHit(t, table, i);
    }
  }

  lemma HitIsPrefix(t: string, table: map<string, string>)
    requires Good(table) && Hit(t, table)
    ensures At(Resolved(t, table), PREFIX, 0)
  {
    RootChars(table[Front(t)]);
    AtSame(table[Front(t)], Resolved(t, table), PREFIX, 0);
  }

  lemma NoneArisesAtHit(t: string, table: map<string, string>, d: nat)
    requires Good(table) && d < |t| && NoHit(t, table, d) && Hit(t[d..], table) && 0 < d < 13
    ensures !Starts(Resolved(t, table), STARRED)
  {
    hide Resolved, Good, Hit;
    var s := Resolved(t, table);
    ResolvedCopies(t, table, d);
    HitIsPrefix(t[d..], table);
    assert s[d..] == Resolved(t[d..], table);
    AtShift(s, PREFIX, d, 0);
    if Starts(s, STARRED) { StarredAlone(s, d); }
  }

  /** No masked root arises that was not there. */
  lemma NoneArises(t: string, table: map<string, string>)
    requires Good(table) && Starts(Resolved(t, table), STARRED)
    ensures Starts(t, STARRED)
  {
    var s := Resolved(t, table);
    var k := if |t| < 13 then |t| else 13;
    if NoHit(t, table, k) {
      ResolvedCopies(t, table, k);
      hide Resolved, Good;
      ResolvedEmpty(table);
      assert k == |t| ==> t[k..] == [] && s == t;
      AtSame(s, t, STARRED, 0);
    } else {
      hide Resolved, Good;
      var d := FirstHit(t, table, k);
      if d == 0 {
        assert t[0..] == t;
      } else {
        NoneArisesAtHit(t, table, d);
      }
    }
  }

  lemma ResolvedEmpty(table: map<string, string>)
    ensures Resolved([], table) == []
  {
  }

  function One(m: string, r: string): map<string, string> { map[m := r] }

  /** Resolving one root and then the others is resolving all at once. */
  lemma {:induction false} OneThenRest(t: string, m: string, r: string, table: map<string, string>)
    requires m !in table && Good(table[m := r]) && Good(One(m, r)) && Good(table)
    ensures Resolved(Resolved(t, One(m, r)), table) == Resolved(t, table[m := r])
    decreases |t|
  {
    if t != [] {
      var s := Resolved(t, One(m, r));
      if !Starts(t, STARRED) {
        OneThenRest(t[1..], m, r, table);
        if Starts(s, STARRED) { NoneArises(t, One(m, r)); }
        assert s[1..] == Resolved(t[1..], One(m, r));
      } else {
        OneThenRest(t[|Front(t)|..], m, r, table);
        FrontThenRest(t, m, r, table);
      }
    }
  }

  lemma FrontThenRest(t: string, m: string, r: string, table: map<string, string>)
    requires m !in table && Good(table[m := r]) && Good(One(m, r)) && Good(table) && Starts(t, STARRED)
    requires var rest := t[|Front(t)|..]; Resolved(Resolved(rest, One(m, r)), table) == Resolved(rest, table[m := r])
    ensures Resolved(Resolved(t, One(m, r)), table) == Resolved(t, table[m := r])
  {
    var c := Front(t);
    var s := Resolved(t, One(m, r));
    var rest := t[|c|..];
    var rest' := Resolved(rest, One(m, r));
    if c == m {
      assert s == r + rest';
      NoHitInRoot(m, r, rest', table);
      ResolvedCopies(s, table, |r|);
      assert s[..|r|] == r && s[|r|..] == rest';
    } else {
      FrontKept(t, One(m, r));
      assert s[|c|..] == rest';
      if c !in table {
        FrontKept(s, table);
        FrontKept(t, table[m := r]);
      }
    }
  }

  /** The table's entries applied one by one, in some order. */
  function Passes(t: string, order: seq<string>, table: map<string, string>): string
    requires forall m :: m in order ==> m in table
    decreases |order|
  {
    if order == [] then t else Passes(Resolved(t, One(order[0], table[order[0]])), order[1..], table)
  }

  ghost predicate Distinct(order: seq<string>) { forall i, j :: 0 <= i < j < |order| ==> order[i] != order[j] }

  function Part(order: seq<string>, table: map<string, string>): map<string, string> {
    map m | m in table && m in order :: table[m]
  }

  lemma {:induction false} ResolvedNothing(t: string)
    ensures Resolved(t, map[]) == t
    decreases |t|
  {
    if t != [] { ResolvedNothing(t[1..]); }
  }

  lemma {:induction false} PassesAtOnce(t: string, order: seq<string>, table: map<string, string>)
    requires Good(table) && Distinct(order) && forall m :: m in order ==> m in table
    ensures Passes(t, order, table) == Resolved(t, Part(order, table))
    decreases |order|
  {
    hide Resolved, Names;
    if order == [] {
      assert Part(order, table) == map[];
      ResolvedNothing(t);
    } else {
      var m, rest := order[0], order[1..];
      assert m !in rest;
      PassesAtOnce(Resolved(t, One(m, table[m])), rest, table);
      var part := Part(rest, table);
      assert forall k :: k in order <==> k == m || k in rest;
      assert Part(order, table) == part[m := table[m]];
      OneThenRest(t, m, table[m], part);
    }
  }

  /** Whatever order the hash table is walked in, the text is the same. */
  lemma OrderIsIrrelevant(t: string, order: seq<string>, other: seq<string>, table: map<string, string>)
    requires Good(table) && Distinct(order) && Distinct(other)
    requires forall m :: (m in order <==> m in table) && (m in other <==> m in table)
    ensures Passes(t, order, table) == Passes(t, other, table) == Resolved(t, table)
  {
    hide Resolved, Good, Passes;
    PassesAtOnce(t, order, table);
    PassesAtOnce(t, other, table);
    assert Part(order, table) == table && Part(other, table) == table;
  }

  // ---------------------------------------------------------------- in place

  lemma FrontIsWhole(t: string, m: string, r: string)
    requires Good(One(m, r)) && Starts(t, m)
    ensures Starts(t, STARRED) && |m| <= |Front(t)|
    ensures Front(t) == m <==> |t| == |m| || Ends(t[|m|])
  {
    assert Names(m, One(m, r)[m]);
    assert t[0..13] == t[0..|m|][..13] == STARRED;
    assert forall j :: 13 <= j < |m| ==> t[j] == t[0..|m|][j];
    assert t[..|m|] == t[0..|m|];
  }

  lemma CopiesBetween(t: string, table: map<string, string>, pos: nat, k: nat)
    requires pos <= k <= |t| && NoHit(t[pos..], table, k - pos)
    ensures t[..pos] + Resolved(t[pos..], table) == t[..k] + Resolved(t[k..], table)
  {
    hide Resolved, NoHit;
    var u := t[pos..];
    ResolvedCopies(u, table, k - pos);
    var mid, end := u[..k - pos], Resolved(t[k..], table);
    assert u[k - pos..] == t[k..];
    assert t[..k] == t[..pos] + mid;
    assert t[..pos] + (mid + end) == (t[..pos] + mid) + end;
  }

  /** Up to the next occurrence of m nothing changes. */
  lemma PassCopies(t: string, m: string, r: string, pos: nat, k: nat)
    requires pos <= k <= |t| && forall i: nat :: pos <= i < k ==> !At(t, m, i)
    ensures t[..pos] + Resolved(t[pos..], One(m, r)) == t[..k] + Resolved(t[k..], One(m, r))
  {
    var table, u := One(m, r), t[pos..];
    forall j | 0 <= j < k - pos
      ensures !Hit(u[j..], table)
    {
      if Hit(u[j..], table) {
        HitIsRoot(u, m, r, j);
        AtShift(t, m, pos, j);
      }
    }
    CopiesBetween(t, table, pos, k);
  }

  /** Nor does an occurrence that a longer name goes on from. */
  lemma PassSkips(t: string, m: string, r: string, pos: nat)
    requires Good(One(m, r)) && At(t, m, pos) && pos + |m| < |t| && !Ends(t[pos + |m|])
    ensures t[..pos] + Resolved(t[pos..], One(m, r)) == t[..pos + |m|] + Resolved(t[pos + |m|..], One(m, r))
  {
    hide Resolved;
    var table, u := One(m, r), t[pos..];
    AtShift(t, m, pos, 0);
    FrontIsWhole(u, m, r);
    NoHitInFront(u, table);
    assert u[0..] == u;
    assert NoHit(u, table, |m|);
    CopiesBetween(t, table, pos, pos + |m|);
  }

  lemma HitIsRoot(u: string, m: string, r: string, j: nat)
    requires j <= |u| && Hit(u[j..], One(m, r))
    ensures At(u, m, j)
  {
    var v := u[j..];
    assert v[0..|m|] == v[..|m|] == m;
    AtShift(u, m, j, 0);
  }

  lemma ResolvedRoot(t: string, m: string, r: string)
    requires Good(One(m, r)) && Starts(t, m) && (|t| == |m| || Ends(t[|m|]))
    ensures Resolved(t, One(m, r)) == r + Resolved(t[|m|..], One(m, r))
  {
    FrontIsWhole(t, m, r);
  }

  lemma PassReplaces(t: string, m: string, r: string, i: nat)
    requires Good(One(m, r)) && At(t, m, i) && (i + |m| == |t| || Ends(t[i + |m|]))
    ensures var u := t[..i] + r + t[i + |m|..];
            t[..i] + Resolved(t[i..], One(m, r)) == u[..i + |r|] + Resolved(u[i + |r|..], One(m, r))
  {
    hide Resolved, Good;
    AtShift(t, m, i, 0);
    ResolvedRoot(t[i..], m, r);
    var u := t[..i] + r + t[i + |m|..];
    assert t[i..][|m|..] == t[i + |m|..] == u[i + |r|..];
    var end := Resolved(t[i + |m|..], One(m, r));
    assert u[..i + |r|] == t[..i] + r;
    assert t[..i] + (r + end) == (t[..i] + r) + end;
  }

  /** One turn of the outer loop: "*-zlib" does not eat "*-zlib-ng". */
  method Pass(text: string, masked: string, root: string) returns (t: string)
    requires Good(One(masked, root))
    ensures t == Resolved(text, One(masked, root))
  {
    hide Resolved, Good;
    t := text;
    var pos: nat := 0;
    assert t[0..] == t;
    assert masked != [] by { RootNotEmpty(masked, root); }
    var at := Find(t, masked, pos);
    while at.Some?
      invariant pos <= |t|
      invariant t[..pos] + Resolved(t[pos..], One(masked, root)) == Resolved(text, One(masked, root))
      invariant at.Some? ==> pos <= at.value && At(t, masked, at.value)
      invariant at.Some? ==> forall i: nat :: pos <= i < at.value ==> !At(t, masked, i)
      invariant at.None? ==> forall i: nat :: pos <= i ==> !At(t, masked, i)
      decreases |t| - pos
    {
      var i := at.value;
      PassCopies(t, masked, root, pos, i);
      var end := i + |masked|;
      if end < |t| && !Ends(t[end]) {
        PassSkips(t, masked, root, i);
        pos := end;
      } else {
        PassReplaces(t, masked, root, i);
        t := t[..i] + root + t[end..];
        pos := i + |root|;
      }
      at := Find(t, masked, pos);
    }
    PassCopies(t, masked, root, pos, |t|);
    assert t[|t|..] == [];
    ResolvedEmpty(One(masked, root));
  }

  lemma RootNotEmpty(m: string, r: string)
    requires Good(One(m, r))
    ensures m != []
  {
    assert Names(m, One(m, r)[m]);
  }

  lemma GoodOne(table: map<string, string>, m: string)
    requires Good(table) && m in table
    ensures Good(One(m, table[m]))
  {
  }

  /** `order` is how the hash table happens to be walked. */
  method ResolveAll(text: string, table: map<string, string>, order: seq<string>) returns (t: string)
    requires Good(table) && Distinct(order) && forall m :: m in order <==> m in table
    ensures t == Resolved(Masked(text), table)
  {
    hide Resolved, Good, Masked;
    t := MaskHashes(text);
    ghost var start := t;
    for i := 0 to |order|
      invariant Passes(t, order[i..], table) == Passes(start, order, table)
    {
      GoodOne(table, order[i]);
      assert order[i..][1..] == order[i + 1..];
      t := Pass(t, order[i], table[order[i]]);
    }
    OrderIsIrrelevant(start, order, order, table);
  }
}
