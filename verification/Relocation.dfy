/** Paths as they are spelled in binaries: relative to the file that names them. */
module Relocation {
  import opened Text
  import opened Paths

  /** The tree is at `prefix` while it is worked on and ends up at `dest`. */
  datatype Context = Context(prefix: Path, dest: Path)

  predicate Dotted(name: string) { |name| >= 2 && name[0] == '.' && name[1] == '.' }

  /** `from`/x becomes `to`/x, other paths stay. A name that itself begins with ".." counts as outside. */
  function Moved(path: Path, from: Path, to: Path): Path {
    var way := Relative(from, path);
    if way != [] && Dotted(way[0]) then path else Walk(to, way)
  }

  function Final(ctx: Context, path: Path): Path { Moved(path, ctx.prefix, ctx.dest) }

  function OnDisk(ctx: Context, path: Path): Path { Moved(path, ctx.dest, ctx.prefix) }

  predicate Below(path: Path, dir: Path) { |dir| <= |path| && path[..|dir|] == dir }

  /** Below dir, and not by a name that begins with "..". */
  predicate Within(path: Path, dir: Path) {
    Below(path, dir) && (|path| > |dir| ==> !Dotted(path[|dir|]))
  }

  lemma {:induction false} CommonBelow(dir: Path, rest: Path)
    ensures Common(dir, dir + rest) == |dir|
    decreases |dir|
  {
    if dir != [] {
      CommonBelow(dir[1..], rest);
      assert (dir + rest)[1..] == dir[1..] + rest;
    }
  }

  lemma MovedPath(path: Path, from: Path, to: Path)
    requires Normal(path) && Normal(to)
    ensures Moved(path, from, to) == if Within(path, from) then to + path[|from|..] else path
  {
    var way := Relative(from, path);
    if Below(path, from) {
      assert path == from + path[|from|..];
      CommonBelow(from, path[|from|..]);
      assert way == path[|from|..];
      WalkDown(to, way);
    } else {
      var n := Common(from, path);
      assert from[..|from|] == from;
      assert n < |from|;
      assert way[0] == "..";
    }
  }

  /** Into the final place and back to the disk: what was at the final place all along is not found again. */
  lemma FinalOnDisk(ctx: Context, path: Path)
    requires Normal(path) && Normal(ctx.prefix) && Normal(ctx.dest)
    ensures OnDisk(ctx, Final(ctx, path)) == path <==> Within(path, ctx.prefix) || !Within(path, ctx.dest)
  {
    hide Moved;
    MovedPath(path, ctx.prefix, ctx.dest);
    var final := Final(ctx, path);
    MovedPath(final, ctx.dest, ctx.prefix);
    if Within(path, ctx.prefix) {
      var rest := path[|ctx.prefix|..];
      assert final[|ctx.dest|..] == rest && final[..|ctx.dest|] == ctx.dest;
      assert path == ctx.prefix + rest;
    }
  }

  /** Neither place is inside the other, unless they are the same. */
  predicate PlacesApart(ctx: Context) {
    ctx.prefix == ctx.dest || (!Below(ctx.prefix, ctx.dest) && !Below(ctx.dest, ctx.prefix))
  }

  lemma OnDiskFinal(ctx: Context, p: Path)
    requires PlacesApart(ctx) && Normal(ctx.prefix) && Normal(ctx.dest) && Normal(p)
    ensures OnDisk(ctx, Final(ctx, p)) == OnDisk(ctx, p)
  {
    MovedPath(p, ctx.prefix, ctx.dest);
    MovedPath(p, ctx.dest, ctx.prefix);
    if Within(p, ctx.prefix) {
      FinalOnDisk(ctx, p);
      if Within(p, ctx.dest) {
        BothBelow(p, ctx.prefix, ctx.dest);
        assert p == ctx.prefix + p[|ctx.prefix|..];
      }
    }
  }

  lemma BothBelow(p: Path, a: Path, b: Path)
    requires Below(p, a) && Below(p, b)
    ensures Below(a, b) || Below(b, a)
  {
    if |a| <= |b| {
      assert b[..|a|] == p[..|b|][..|a|] == p[..|a|];
    } else {
      assert a[..|b|] == p[..|a|][..|b|] == p[..|b|];
    }
  }

  // ---------------------------------------------------------------- anchored text

  const ORIGIN: string := "$ORIGIN"

  /** "<anchor>" or "<anchor>/<way>". */
  function RelativeTo(dir: Path, target: Path, anchor: string): string {
    var way := Relative(dir, target);
    var text := if way == [] then "." else Join(way, '/');
    if anchor == "" then text else if text == "." then anchor else anchor + "/" + text
  }

  predicate Anchored(text: string, anchor: string) {
    text == anchor || (|text| > |anchor| && text[..|anchor|] == anchor && text[|anchor|] == '/')
  }

  /** What the dynamic linker makes of a path in a file at `here`. */
  function Expand(here: Path, text: string, anchor: string): Path {
    if text == anchor then here
    else if Anchored(text, anchor) then Walk(here, Split(text[|anchor| + 1..], '/'))
    else Walk([], Split(text, '/'))
  }

  /** A text joined to a directory and normalised: an absolute one takes its place. */
  function Under(dir: Path, text: string): Path {
    Walk(if text != "" && text[0] == '/' then [] else dir, Split(text, '/'))
  }

  lemma {:induction false} WalkIsNormal(from: Path, way: seq<string>)
    requires Normal(from) && forall i :: 0 <= i < |way| ==> '/' !in way[i]
    ensures Normal(Walk(from, way))
    decreases |way|
  {
    if way != [] {
      WalkIsNormal(if way[0] == ".." then (if from == [] then [] else from[..|from| - 1])
                   else if way[0] == "." || way[0] == "" then from else from + [way[0]], way[1..]);
    }
  }

  lemma {:induction false} PartsHaveNone(t: string, c: char)
    ensures forall i :: 0 <= i < |Split(t, c)| ==> c !in Split(t, c)[i]
    decreases |t|
  {
    var n := IndexOf(t, c, 0);
    if n < |t| { PartsHaveNone(t[n + 1..], c); }
  }

  /** Whatever the text, what it denotes is normal. */
  lemma TextIsNormal(from: Path, t: string)
    requires Normal(from)
    ensures Normal(Walk(from, Split(t, '/')))
  {
    PartsHaveNone(t, '/');
    WalkIsNormal(from, Split(t, '/'));
  }

  /** A normalised path of this text ends in '/'. */
  predicate Slashed(text: string) {
    var parts := Split(text, '/');
    parts != [] && parts[|parts| - 1] in ["", ".", ".."]
  }

  /** The spelling denotes the target. */
  lemma ExpandRelative(here: Path, target: Path, anchor: string)
    requires Normal(target) && anchor != ""
    ensures Expand(here, RelativeTo(here, target, anchor), anchor) == target
    ensures Anchored(RelativeTo(here, target, anchor), anchor)
  {
    NoWay(here, target);
    var way := Relative(here, target);
    if way != [] {
      WayParts(here, target);
      WalkRelative(here, target);
      var text := RelativeTo(here, target, anchor);
      assert text == anchor + "/" + Join(way, '/');
      assert text[..|anchor|] == anchor && text[|anchor| + 1..] == Join(way, '/');
    }
  }

  /** A '/' at the end makes no difference. */
  lemma {:induction false} SplitSlash(t: string)
    ensures Split(t + "/", '/') == Split(t, '/') + [""]
    decreases |t|
  {
    var u, n := t + "/", IndexOf(t, '/', 0);
    assert forall i :: 0 <= i < |t| ==> u[i] == t[i];
    IndexIs(u, '/', n);
    if n < |t| {
      assert u[n + 1..] == t[n + 1..] + "/" && u[..n] == t[..n];
      SplitSlash(t[n + 1..]);
      assert [t[..n]] + (Split(t[n + 1..], '/') + [""]) == [t[..n]] + Split(t[n + 1..], '/') + [""];
    } else {
      assert u[..n] == t && u[n + 1..] == "" && Split("", '/') == [""];
    }
  }

  lemma {:induction false} WalkSlash(from: Path, way: seq<string>)
    ensures Walk(from, way + [""]) == Walk(from, way)
    decreases |way|
  {
    var more := way + [""];
    if way == [] {
      assert more[1..] == [];
    } else {
      assert more[0] == way[0] && more[1..] == way[1..] + [""];
      WalkSlash(if way[0] == ".." then (if from == [] then [] else from[..|from| - 1])
                else if way[0] == "." || way[0] == "" then from else from + [way[0]], way[1..]);
    }
  }

  lemma SlashIsNothing(here: Path, t: string, anchor: string)
    requires Anchored(t, anchor) && anchor != ""
    ensures Expand(here, t + "/", anchor) == Expand(here, t, anchor) && Anchored(t + "/", anchor)
  {
    var u := t + "/";
    assert u[..|anchor|] == t[..|anchor|];
    if t == anchor {
      assert u[|anchor|] == '/' && u[|anchor| + 1..] == "" && Split("", '/') == [""];
      WalkSlash(here, []);
      assert [] + [""] == [""];
    } else {
      var rest := t[|anchor| + 1..];
      assert u[|anchor|] == t[|anchor|] && u[|anchor| + 1..] == rest + "/";
      SplitSlash(rest);
      WalkSlash(here, Split(rest, '/'));
    }
  }

  /** The spelling of a place, with the '/' its text ended in. */
  function SpelledFrom(dir: Path, target: Path, slash: bool, anchor: string): string {
    RelativeTo(dir, target, anchor) + (if slash && target != dir then "/" else "")
  }

  lemma SpelledExpands(here: Path, p: Path, slash: bool, anchor: string)
    requires Normal(p) && anchor != ""
    ensures Expand(here, SpelledFrom(here, p, slash, anchor), anchor) == p && SpelledFrom(here, p, slash, anchor) != ""
    ensures Anchored(SpelledFrom(here, p, slash, anchor), anchor)
  {
    hide RelativeTo, Expand, Anchored, Normal;
    var t := RelativeTo(here, p, anchor);
    ExpandRelative(here, p, anchor);
    SlashIsNothing(here, t, anchor);
    AnchoredNotEmpty(t, anchor);
    assert t + "" == t;
  }

  lemma AnchoredNotEmpty(t: string, anchor: string)
    requires Anchored(t, anchor) && anchor != ""
    ensures t != ""
  {
  }

  /** It holds no character that target does not, but for the anchor's, '.' and '/'. */
  lemma RelativeChars(dir: Path, target: Path, anchor: string, c: char)
    requires c != '/' && c != '.' && c !in anchor && forall i :: 0 <= i < |target| ==> c !in target[i]
    ensures c !in RelativeTo(dir, target, anchor)
  {
    JoinChars(Relative(dir, target), '/', c);
  }
}
