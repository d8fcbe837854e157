/** Absolute, lexically normal paths as lists of names, and how one is spelled relative to another. */
module Paths {
  import opened Bytes
  import opened Text

  type Path = seq<string>

  predicate Proper(name: string) { name != "" && name != "." && name != ".." && '/' !in name }

  predicate Normal(p: Path) { forall i :: 0 <= i < |p| ==> Proper(p[i]) }

  /** How many names the two begin with alike. */
  function Common(a: Path, b: Path): (n: nat)
    ensures n <= |a| && n <= |b| && a[..n] == b[..n] && (n < |a| && n < |b| ==> a[n] != b[n])
  {
    if a == [] || b == [] || a[0] != b[0] then 0
    else
      assert a[1..][..Common(a[1..], b[1..])] == b[1..][..Common(a[1..], b[1..])];
      assert a[..1 + Common(a[1..], b[1..])] == [a[0]] + a[1..][..Common(a[1..], b[1..])];
      assert b[..1 + Common(a[1..], b[1..])] == [b[0]] + b[1..][..Common(a[1..], b[1..])];
      1 + Common(a[1..], b[1..])
  }

  function Ups(n: nat): (r: seq<string>)
    ensures |r| == n && forall i :: 0 <= i < n ==> r[i] == ".."
  {
    seq(n, _ => "..")
  }

  /** The way from dir to target: up to the common ancestor and down again. */
  function Relative(dir: Path, target: Path): seq<string> {
    var n := Common(dir, target);
    Ups(|dir| - n) + target[n..]
  }

  /** Where a way leads. Above the root there is only the root. */
  function Walk(from: Path, way: seq<string>): Path
    decreases |way|
  {
    if way == [] then from
    else if way[0] == ".." then Walk(if from == [] then [] else from[..|from| - 1], way[1..])
    else if way[0] == "." || way[0] == "" then Walk(from, way[1..])
    else Walk(from + [way[0]], way[1..])
  }

  lemma {:induction false} WalkUp(from: Path, n: nat, rest: seq<string>)
    requires n <= |from|
    ensures Walk(from, Ups(n) + rest) == Walk(from[..|from| - n], rest)
    decreases n
  {
    if n == 0 {
      assert Ups(0) + rest == rest && from[..|from|] == from;
    } else {
      assert (Ups(n) + rest)[1..] == Ups(n - 1) + rest;
      WalkUp(from[..|from| - 1], n - 1, rest);
      assert from[..|from| - 1][..|from| - n] == from[..|from| - n];
    }
  }

  lemma {:induction false} WalkDown(from: Path, way: seq<string>)
    requires Normal(way)
    ensures Walk(from, way) == from + way
    decreases |way|
  {
    if way != [] {
      WalkDown(from + [way[0]], way[1..]);
      assert from + [way[0]] + way[1..] == from + way;
    }
  }

  /** The relative way leads to the target. */
  lemma WalkRelative(dir: Path, target: Path)
    requires Normal(target)
    ensures Walk(dir, Relative(dir, target)) == target
  {
    var n := Common(dir, target);
    WalkUp(dir, |dir| - n, target[n..]);
    WalkDown(dir[..n], target[n..]);
    assert dir[..n] + target[n..] == target;
  }

  lemma {:induction false} CommonUnder(pre: Path, a: Path, b: Path)
    ensures Common(pre + a, pre + b) == |pre| + Common(a, b)
    decreases |pre|
  {
    if pre == [] {
      assert pre + a == a && pre + b == b;
    } else {
      CommonUnder(pre[1..], a, b);
      assert (pre + a)[1..] == pre[1..] + a && (pre + b)[1..] == pre[1..] + b;
    }
  }

  /** What the two have in common does not enter the way. */
  lemma RelativeUnder(pre: Path, a: Path, b: Path)
    ensures Relative(pre + a, pre + b) == Relative(a, b)
  {
    CommonUnder(pre, a, b);
    var n := Common(a, b);
    assert (pre + b)[|pre| + n..] == b[n..];
  }

  /** Moved together, link and target still find each other. */
  lemma RelativeMoves(pre: Path, moved: Path, a: Path, b: Path)
    requires Normal(moved + b)
    ensures Walk(moved + a, Relative(pre + a, pre + b)) == moved + b
  {
    RelativeUnder(pre, a, b);
    RelativeUnder(moved, a, b);
    WalkRelative(moved + a, moved + b);
  }

  // ---------------------------------------------------------------- as text

  lemma WayParts(dir: Path, target: Path)
    requires Normal(target) && Relative(dir, target) != []
    ensures Split(Join(Relative(dir, target), '/'), '/') == Relative(dir, target)
    ensures Join(Relative(dir, target), '/') != "" && Join(Relative(dir, target), '/') != "."
    ensures Join(Relative(dir, target), '/')[0] != '/'
  {
    var way := Relative(dir, target);
    forall i | 0 <= i < |way|
      ensures '/' !in way[i] && way[i] != "" && way[i] != "."
    {
      if i >= |dir| - Common(dir, target) {
        assert way[i] == target[Common(dir, target)..][i - (|dir| - Common(dir, target))];
      }
    }
    SplitOfJoin(way, '/');
    var t := Join(way, '/');
    assert way[0] != "" && way[0][0] in way[0];
    assert t[0] == way[0][0];
  }

  // ---------------------------------------------------------------- symlinks inside the tree

  /** What a symlink's text leads to from the directory it is in: an empty one nowhere. */
  function Follow(dir: Path, text: string): Option<Path> {
    if text == "" then None
    else if text[0] == '/' then Some(Walk([], Split(text, '/')))
    else Some(Walk(dir, Split(text, '/')))
  }

  /** The text of a link at `from` to `to`. */
  function RelativeLink(from: Path, to: Path): string
    requires from != []
  {
    Join(Relative(from[..|from| - 1], to), '/')
  }

  lemma NoWay(dir: Path, target: Path)
    ensures Relative(dir, target) == [] <==> dir == target
  {
    var n := Common(dir, target);
    if Relative(dir, target) == [] {
      assert |Ups(|dir| - n)| == 0 && |target[n..]| == 0;
      assert dir[..n] == dir && target[..n] == target;
    }
  }

  /** A relative link leads to its target, unless that is the directory the link is in. */
  lemma LinkLeadsHome(from: Path, to: Path)
    requires from != [] && Normal(to)
    ensures Follow(from[..|from| - 1], RelativeLink(from, to)) == Some(to) <==> to != from[..|from| - 1]
  {
    var dir := from[..|from| - 1];
    NoWay(dir, to);
    if dir != to {
      WayParts(dir, to);
      WalkRelative(dir, to);
    }
  }

  /** A link to the directory it is in comes out empty and leads nowhere. */
  lemma LinkToOwnDirectory()
    ensures RelativeLink(["a", "b"], ["a"]) == "" && Follow(["a"], RelativeLink(["a", "b"], ["a"])) == None
  {
    assert ["a", "b"][..1] == ["a"];
    NoWay(["a"], ["a"]);
  }

  /** And still does when the store both are below is put somewhere else. */
  lemma LinkMoves(pre: Path, moved: Path, from: Path, to: Path)
    requires from != [] && Normal(pre) && Normal(moved) && Normal(to) && to != from[..|from| - 1]
    ensures Follow(moved + from[..|from| - 1], RelativeLink(pre + from, pre + to)) == Some(moved + to)
  {
    var dir := from[..|from| - 1];
    assert (pre + from)[..|pre + from| - 1] == pre + dir;
    RelativeUnder(pre, dir, to);
    RelativeUnder(moved, dir, to);
    NoWay(dir, to);
    assert Normal(moved + to);
    WayParts(moved + dir, moved + to);
    WalkRelative(moved + dir, moved + to);
  }
}
