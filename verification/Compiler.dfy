/** Compilers as the cache sees them: programs that look at paths and end with a result. */
module Compiler {
  import opened Bytes
  import opened Manifest

  datatype Result = Result(status: int, bytes: string)

  /** A deterministic compiler: what it found at one path decides which path it looks at next. An answer
      it has no plan for ends it with status 1. */
  datatype Tree = Finish(result: Result) | Look(path: string, next: imap<Option<string>, Tree>)

  function Answer(w: World, p: string): Option<string> { if p in w then Some(w[p]) else None }

  ghost function Run(t: Tree, w: World): Result {
    match t
    case Finish(r) => r
    case Look(p, next) => if Answer(w, p) in next then Run(next[Answer(w, p)], w) else Result(1, "")
  }

  /** Every path it looks at, in order. */
  ghost function Looks(t: Tree, w: World): seq<string> {
    match t
    case Finish(_) => []
    case Look(p, next) => [p] + (if Answer(w, p) in next then Looks(next[Answer(w, p)], w) else [])
  }

  /** The paths it found: the depfile. */
  ghost function Read(t: Tree, w: World): seq<string> {
    match t
    case Finish(_) => []
    case Look(p, next) =>
      (if p in w then [p] else []) + (if Answer(w, p) in next then Read(next[Answer(w, p)], w) else [])
  }

  /** And those it did not find. */
  ghost function Sought(t: Tree, w: World): seq<string> {
    match t
    case Finish(_) => []
    case Look(p, next) =>
      (if p in w then [] else [p]) + (if Answer(w, p) in next then Sought(next[Answer(w, p)], w) else [])
  }

  /** What is at the paths in outs makes no difference. */
  ghost predicate Blind(t: Tree, outs: set<string>) {
    match t
    case Finish(_) => true
    case Look(p, next) =>
      && (p in outs ==> forall a, b :: (a in next <==> b in next) && (a in next && b in next ==> next[a] == next[b]))
      && forall a :: a in next ==> Blind(next[a], outs)
  }

  lemma {:induction false} LooksAreBoth(t: Tree, w: World)
    ensures forall p :: p in Read(t, w) <==> p in Looks(t, w) && p in w
    ensures forall p :: p in Sought(t, w) <==> p in Looks(t, w) && p !in w
  {
    if t.Look? && Answer(w, t.path) in t.next {
      LooksAreBoth(t.next[Answer(w, t.path)], w);
    }
  }

  lemma SameAnswer(t: Tree, outs: set<string>, a: Option<string>, b: Option<string>)
    requires t.Look? && Blind(t, outs) && (t.path in outs || a == b)
    ensures (a in t.next <==> b in t.next) && (a in t.next ==> t.next[a] == t.next[b] && Blind(t.next[a], outs))
  {
  }

  lemma RunStep(t: Tree, w: World)
    requires t.Look?
    ensures Run(t, w) == if Answer(w, t.path) in t.next then Run(t.next[Answer(w, t.path)], w) else Result(1, "")
  {
  }

  lemma LooksStep(t: Tree, w: World)
    requires t.Look?
    ensures Looks(t, w) == [t.path] + (if Answer(w, t.path) in t.next then Looks(t.next[Answer(w, t.path)], w) else [])
  {
  }

  /** Some look that matters has another answer in u than in w. */
  ghost predicate Differs(t: Tree, outs: set<string>, w: World, u: World) {
    exists p :: p in Looks(t, w) && p !in outs && Answer(u, p) != Answer(w, p)
  }

  /** The adaptive compile takes the same way where every look that matters has the same answer. */
  lemma {:induction false} RunIsPinned(t: Tree, outs: set<string>, w: World, u: World)
    requires Blind(t, outs) && !Differs(t, outs, w, u)
    ensures Run(t, u) == Run(t, w)
  {
    if t.Look? {
      hide Looks, Blind, Run;
      var a, b := Answer(w, t.path), Answer(u, t.path);
      LooksStep(t, w);
      assert t.path in Looks(t, w);
      SameAnswer(t, outs, a, b);
      RunStep(t, w);
      RunStep(t, u);
      if a in t.next {
        assert forall p :: p in Looks(t.next[a], w) ==> p in Looks(t, w);
        RunIsPinned(t.next[a], outs, w, u);
      }
    }
  }

  // ---------------------------------------------------------------- and only there

  function Other(r: Result): Result { Result(if r.status == 0 then 1 else 0, "") }

  /** The compiler that does what t does in w and ends otherwise at the first look that has another answer in u. */
  ghost function Divert(t: Tree, outs: set<string>, w: World, u: World): Tree
    decreases t
  {
    match t
    case Finish(_) => t
    case Look(p, next) =>
      if p !in outs && Answer(u, p) != Answer(w, p) then Look(p, next[Answer(u, p) := Finish(Other(Run(t, w)))])
      else if Answer(w, p) !in next then t
      else
        var rest := Divert(next[Answer(w, p)], outs, w, u);
        if p in outs then Look(p, imap a | a in next :: rest) else Look(p, next[Answer(w, p) := rest])
  }

  lemma {:induction false} DivertIsTheSame(t: Tree, outs: set<string>, w: World, u: World)
    requires Blind(t, outs)
    ensures var s := Divert(t, outs, w, u);
            Looks(s, w) == Looks(t, w) && Run(s, w) == Run(t, w) && Blind(s, outs)
  {
    if t.Look? {
      var a, b := Answer(w, t.path), Answer(u, t.path);
      if (t.path in outs || a == b) && a in t.next {
        DivertIsTheSame(t.next[a], outs, w, u);
      }
    }
  }

  lemma {:induction false} DivertDiffers(t: Tree, outs: set<string>, w: World, u: World)
    requires Blind(t, outs) && Differs(t, outs, w, u)
    ensures Run(Divert(t, outs, w, u), u) == Other(Run(t, w))
  {
    var p :| p in Looks(t, w) && p !in outs && Answer(u, p) != Answer(w, p);
    var a, b := Answer(w, t.path), Answer(u, t.path);
    LooksStep(t, w);
    if t.path in outs || a == b {
      assert p in Looks(t.next[a], w);
      SameAnswer(t, outs, a, b);
      DivertDiffers(t.next[a], outs, w, u);
    }
  }

  /** s does in w what t does. */
  ghost predicate Alike(s: Tree, t: Tree, outs: set<string>, w: World) {
    Blind(s, outs) && Looks(s, w) == Looks(t, w) && Run(s, w) == Run(t, w)
  }

  /** From its looks in w alone the result in u follows, for every compiler that made them, exactly where every look
      that matters has the same answer. */
  lemma PinnedIff(t: Tree, outs: set<string>, w: World, u: World)
    requires Blind(t, outs)
    ensures (forall s :: Alike(s, t, outs, w) ==> Run(s, u) == Run(t, w)) <==> !Differs(t, outs, w, u)
  {
    if Differs(t, outs, w, u) {
      var s := Divert(t, outs, w, u);
      DivertIsTheSame(t, outs, w, u);
      DivertDiffers(t, outs, w, u);
      assert Alike(s, t, outs, w) && Run(s, u) != Run(t, w);
    } else {
      forall s | Alike(s, t, outs, w)
        ensures Run(s, u) == Run(t, w)
      {
        assert !Differs(s, outs, w, u);
        RunIsPinned(s, outs, w, u);
      }
    }
  }
}
