/** Host-wide admission: at most `limit` tokens out, and among waiters the build holding the fewest
    is served first, first come first served among equals. */
module Slots {
  import opened Sums

  type Build = string

  /** A blocked Acquire. The ticket stands for the identity of its channel. */
  datatype Waiter = Waiter(build: Build, ticket: nat)

  datatype State = State(limit: int, out: int, held: map<Build, int>, waiting: seq<Waiter>)

  function Tokens(held: map<Build, int>, b: Build): int { if b in held then held[b] else 0 }

  ghost predicate Inv(s: State) {
    && 0 <= s.out <= s.limit
    && s.out == Sum(s.held)
    && (forall b :: b in s.held ==> s.held[b] > 0)
    && (s.waiting != [] ==> s.out == s.limit)
  }

  function One(held: map<Build, int>, b: Build): map<Build, int> { held[b := Tokens(held, b) + 1] }

  function Less(held: map<Build, int>, b: Build): map<Build, int> {
    if Tokens(held, b) - 1 <= 0 then held - {b} else held[b := Tokens(held, b) - 1]
  }

  /** The waiter to be served: of a build with the fewest tokens, and the earliest such. */
  predicate IsBest(held: map<Build, int>, waiting: seq<Waiter>, best: nat) {
    && best < |waiting|
    && (forall i :: 0 <= i < |waiting| ==> Tokens(held, waiting[best].build) <= Tokens(held, waiting[i].build))
    && (forall i :: 0 <= i < best ==> Tokens(held, waiting[best].build) < Tokens(held, waiting[i].build))
  }

  function Best(held: map<Build, int>, waiting: seq<Waiter>): (best: nat)
    requires waiting != []
    ensures IsBest(held, waiting, best)
  {
    if |waiting| == 1 then 0 else
      var rest := waiting[..|waiting| - 1];
      var b := Best(held, rest);
      if Tokens(held, waiting[|waiting| - 1].build) < Tokens(held, waiting[b].build) then |waiting| - 1 else b
  }

  lemma BestIsUnique(held: map<Build, int>, waiting: seq<Waiter>, i: nat, j: nat)
    requires IsBest(held, waiting, i) && IsBest(held, waiting, j)
    ensures i == j
  {
    var ti, tj := Tokens(held, waiting[i].build), Tokens(held, waiting[j].build);
    assert ti == tj;
    assert i < j ==> tj < ti;
    assert j < i ==> ti < tj;
  }

  function Without(waiting: seq<Waiter>, i: nat): seq<Waiter>
    requires i < |waiting|
  {
    waiting[..i] + waiting[i + 1..]
  }

  /** One turn of the grant loop. */
  function GrantOne(s: State): State
    requires s.waiting != []
  {
    var w := s.waiting[Best(s.held, s.waiting)];
    s.(out := s.out + 1, held := One(s.held, w.build), waiting := Without(s.waiting, Best(s.held, s.waiting)))
  }

  /** The grant loop, and whom it wakes. */
  function Grant(s: State): State
    decreases |s.waiting|
  {
    if s.out < s.limit && s.waiting != [] then Grant(GrantOne(s)) else s
  }

  function Woken(s: State): seq<Waiter>
    decreases |s.waiting|
  {
    if s.out < s.limit && s.waiting != []
    then [s.waiting[Best(s.held, s.waiting)]] + Woken(GrantOne(s)) else []
  }

  function Acquired(s: State, w: Waiter): State {
    if s.out < s.limit && s.waiting == [] then s.(out := s.out + 1, held := One(s.held, w.build))
    else s.(waiting := s.waiting + [w])
  }

  function Returned(s: State, b: Build): State { s.(out := s.out - 1, held := Less(s.held, b)) }

  function Released(s: State, b: Build): State { Grant(Returned(s, b)) }

  lemma SumOne(held: map<Build, int>, b: Build)
    ensures Sum(One(held, b)) == Sum(held) + 1
  {
    SumSet(held, b, Tokens(held, b) + 1);
  }

  lemma SumLess(held: map<Build, int>, b: Build)
    requires Tokens(held, b) > 0
    ensures Sum(Less(held, b)) == Sum(held) - 1
  {
    if held[b] == 1 {
      SumDrop(held, b);
    } else {
      SumSet(held, b, held[b] - 1);
    }
  }

  /** The same without the waiters' clause, which a return breaks until the loop has run. */
  ghost predicate Counted(s: State) {
    && 0 <= s.out <= s.limit
    && s.out == Sum(s.held)
    && (forall b :: b in s.held ==> s.held[b] > 0)
  }

  lemma GrantOneKeeps(s: State)
    requires Counted(s) && s.out < s.limit && s.waiting != []
    ensures Counted(GrantOne(s)) && GrantOne(s).limit == s.limit && GrantOne(s).out == s.out + 1
  {
    SumOne(s.held, s.waiting[Best(s.held, s.waiting)].build);
  }

  /** The loop ends with no token free that a waiter could have ... */
  lemma {:induction false} GrantKeeps(s: State)
    requires Counted(s)
    ensures Inv(Grant(s)) && Grant(s).limit == s.limit
    ensures Grant(s).out == s.out + |Woken(s)|
    decreases |s.waiting|
  {
    hide GrantOne, Sum;
    if s.out < s.limit && s.waiting != [] {
      GrantOneKeeps(s);
      assert |GrantOne(s).waiting| < |s.waiting| by { GrantOneTakes(s); }
      GrantKeeps(GrantOne(s));
    }
  }

  lemma GrantOneTakes(s: State)
    requires s.waiting != []
    ensures var i := Best(s.held, s.waiting);
            && multiset(s.waiting) == multiset(GrantOne(s).waiting) + multiset{s.waiting[i]}
            && |GrantOne(s).waiting| == |s.waiting| - 1
            && forall b :: Tokens(GrantOne(s).held, b) == Tokens(s.held, b) + if s.waiting[i].build == b then 1 else 0
  {
    hide Best, IsBest;
    var i := Best(s.held, s.waiting);
    assert i < |s.waiting| by { BestInRange(s.held, s.waiting); }
    assert s.waiting == s.waiting[..i] + [s.waiting[i]] + s.waiting[i + 1..];
  }

  lemma BestInRange(held: map<Build, int>, waiting: seq<Waiter>)
    requires waiting != []
    ensures Best(held, waiting) < |waiting|
  {
    assert IsBest(held, waiting, Best(held, waiting));
  }

  /** ... having given each waiter it woke one token, and the others nothing. */
  lemma {:induction false} GrantConserves(s: State)
    ensures multiset(s.waiting) == multiset(Grant(s).waiting) + multiset(Woken(s))
    ensures forall b :: Tokens(Grant(s).held, b) == Tokens(s.held, b) + Count(Woken(s), b)
    decreases |s.waiting|
  {
    hide GrantOne, Tokens, Best;
    if s.out < s.limit && s.waiting != [] {
      GrantOneTakes(s);
      var n := GrantOne(s);
      GrantConserves(n);
      var w := s.waiting[Best(s.held, s.waiting)];
      assert Woken(s) == [w] + Woken(n);
      CountFirst(w, Woken(n));
    }
  }

  lemma CountFirst(w: Waiter, ws: seq<Waiter>)
    ensures forall b :: Count([w] + ws, b) == (if w.build == b then 1 else 0) + Count(ws, b)
  {
    assert ([w] + ws)[1..] == ws;
  }

  function Count(ws: seq<Waiter>, b: Build): nat {
    if ws == [] then 0 else (if ws[0].build == b then 1 else 0) + Count(ws[1..], b)
  }

  lemma AcquiredKeeps(s: State, w: Waiter)
    requires Inv(s)
    ensures Inv(Acquired(s, w))
  {
    SumOne(s.held, w.build);
  }

  lemma ReleasedKeeps(s: State, b: Build)
    requires Inv(s) && Tokens(s.held, b) > 0
    ensures Counted(Returned(s, b))
    ensures Inv(Released(s, b))
  {
    SumLess(s.held, b);
    SumNonNegative(s.held);
    GrantKeeps(Returned(s, b));
  }

  // ---------------------------------------------------------------- the class

  class Scheduler {
    var limit: int
    var out: int
    var held: map<Build, int>
    var waiting: seq<Waiter>

    ghost function View(): State
      reads this
    {
      State(limit, out, held, waiting)
    }

    constructor (n: int)
      requires n >= 0
      ensures View() == State(n, 0, map[], []) && Inv(View())
    {
      limit := n;
      out := 0;
      held := map[];
      waiting := [];
    }

    /** Acquire up to the point where it returns or blocks. */
    method Acquire(build: Build, ticket: nat) returns (admitted: bool)
      requires Inv(View())
      modifies this
      ensures Inv(View()) && View() == Acquired(old(View()), Waiter(build, ticket))
      ensures admitted <==> out == old(out) + 1
      ensures !admitted <==> waiting == old(waiting) + [Waiter(build, ticket)]
    {
      AcquiredKeeps(View(), Waiter(build, ticket));
      if out < limit && waiting == [] {
        out := out + 1;
        held := held[build := Tokens(held, build) + 1];
        admitted := true;
        return;
      }
      waiting := waiting + [Waiter(build, ticket)];
      admitted := false;
    }

    /** Release a token the build holds; returns whom it woke. */
    method Release(build: Build) returns (woken: seq<Waiter>)
      requires Inv(View()) && Tokens(held, build) > 0
      modifies this
      ensures Inv(View()) && View() == Released(old(View()), build)
      ensures woken == Woken(Returned(old(View()), build))
    {
      ReleasedKeeps(View(), build);
      out := out - 1;
      var left := Tokens(held, build) - 1;
      if left <= 0 {
        held := held - {build};
      } else {
        held := held[build := left];
      }
      woken := GrantAll();
    }

    method GrantAll() returns (woken: seq<Waiter>)
      modifies this`out, this`held, this`waiting
      ensures View() == Grant(old(View())) && woken == Woken(old(View()))
    {
      hide Best, Tokens;
      woken := [];
      while out < limit && waiting != []
        invariant Grant(View()) == Grant(old(View()))
        invariant Woken(old(View())) == woken + Woken(View())
        decreases |waiting|
      {
        ghost var s := View();
        var best := FindBest();
        BestIsUnique(held, waiting, best, Best(held, waiting));
        var w := waiting[best];
        waiting := waiting[..best] + waiting[best + 1..];
        out := out + 1;
        held := held[w.build := Tokens(held, w.build) + 1];
        woken := woken + [w];
        assert View() == GrantOne(s);
      }
    }

    method FindBest() returns (best: nat)
      requires waiting != []
      ensures IsBest(held, waiting, best)
    {
      best := 0;
      for i := 0 to |waiting|
        invariant 0 <= best < |waiting| && best <= i
        invariant forall j :: 0 <= j < i ==> Tokens(held, waiting[best].build) <= Tokens(held, waiting[j].build)
        invariant forall j :: 0 <= j < best ==> Tokens(held, waiting[best].build) < Tokens(held, waiting[j].build)
      {
        if Tokens(held, waiting[i].build) < Tokens(held, waiting[best].build) {
          best := i;
        }
      }
    }
  }

  // ---------------------------------------------------------------- how long a waiter waits

  datatype Event = Acquires(w: Waiter) | Releases(build: Build)

  predicate Legal(s: State, e: Event) {
    match e
    case Acquires(w) => w !in s.waiting
    case Releases(b) => Tokens(s.held, b) > 0
  }

  function After(s: State, e: Event): State {
    match e
    case Acquires(w) => Acquired(s, w)
    case Releases(b) => Released(s, b)
  }

  /** Waiters woken by the event. */
  function Grants(s: State, e: Event): nat {
    match e
    case Acquires(_) => 0
    case Releases(b) => |Woken(Returned(s, b))|
  }

  /** w waits at place i, first of its build, and its build holds nothing. */
  predicate FirstInLine(s: State, w: Waiter, i: nat) {
    && i < |s.waiting| && s.waiting[i] == w && Tokens(s.held, w.build) == 0
    && (forall j :: 0 <= j < i ==> s.waiting[j].build != w.build)
  }

  /** A turn of the loop serves w or one before it. */
  lemma GrantOneMoves(s: State, w: Waiter, i: nat)
    requires FirstInLine(s, w, i) && forall b :: b in s.held ==> s.held[b] > 0
    ensures Best(s.held, s.waiting) <= i
    ensures Best(s.held, s.waiting) == i || FirstInLine(GrantOne(s), w, i - 1)
  {
    hide Best;
    var best := Best(s.held, s.waiting);
    assert IsBest(s.held, s.waiting, best);
    var tb, ti := Tokens(s.held, s.waiting[best].build), Tokens(s.held, s.waiting[i].build);
    assert tb >= 0 == ti;
    assert best > i ==> tb < ti;
    if best < i {
      assert GrantOne(s).waiting[i - 1] == w;
    }
  }

  lemma {:induction false} GrantMoves(s: State, w: Waiter, i: nat)
    requires FirstInLine(s, w, i) && Counted(s)
    ensures w in Woken(s) || (|Woken(s)| <= i && FirstInLine(Grant(s), w, i - |Woken(s)|))
    decreases |s.waiting|
  {
    hide FirstInLine, GrantOne, Best, Counted;
    if s.out < s.limit && s.waiting != [] {
      GrantOneMoves(s, w, i) by { Positive(s); }
      PlaceOf(s, w, i);
      if Best(s.held, s.waiting) != i {
        GrantOneTakes(s);
        GrantOneKeeps(s);
        GrantMoves(GrantOne(s), w, i - 1);
      }
    }
  }

  lemma Positive(s: State)
    requires Counted(s)
    ensures forall b :: b in s.held ==> s.held[b] > 0
  {
  }

  lemma PlaceOf(s: State, w: Waiter, i: nat)
    requires FirstInLine(s, w, i)
    ensures i < |s.waiting| && s.waiting[i] == w
  {
  }

  predicate LegalRun(s: State, es: seq<Event>)
    decreases |es|
  {
    es != [] ==> Legal(s, es[0]) && LegalRun(After(s, es[0]), es[1..])
  }

  function End(s: State, es: seq<Event>): State
    decreases |es|
  {
    if es == [] then s else End(After(s, es[0]), es[1..])
  }

  /** How many waiters a run wakes. */
  function AllGrants(s: State, es: seq<Event>): nat
    decreases |es|
  {
    if es == [] then 0 else Grants(s, es[0]) + AllGrants(After(s, es[0]), es[1..])
  }

  predicate Served(s: State, es: seq<Event>, w: Waiter)
    decreases |es|
  {
    es != [] && ((es[0].Releases? && w in Woken(Returned(s, es[0].build))) || Served(After(s, es[0]), es[1..], w))
  }

  lemma EventKeeps(s: State, e: Event)
    requires Inv(s) && Legal(s, e)
    ensures Inv(After(s, e))
  {
    hide Inv, Grant;
    match e
    case Acquires(w) => AcquiredKeeps(s, w);
    case Releases(b) => ReleasedKeeps(s, b);
  }

  lemma EventMoves(s: State, e: Event, w: Waiter, i: nat)
    requires Inv(s) && Legal(s, e) && FirstInLine(s, w, i)
    ensures (e.Releases? && w in Woken(Returned(s, e.build)))
            || (Grants(s, e) <= i && FirstInLine(After(s, e), w, i - Grants(s, e)))
  {
    match e
    case Acquires(_) =>
    case Releases(b) =>
      ReleasedKeeps(s, b);
      assert FirstInLine(Returned(s, b), w, i);
      GrantMoves(Returned(s, b), w, i);
  }

  lemma {:induction false} RunMoves(s: State, es: seq<Event>, w: Waiter, i: nat)
    requires Inv(s) && LegalRun(s, es) && FirstInLine(s, w, i)
    ensures Served(s, es, w) || (AllGrants(s, es) <= i && FirstInLine(End(s, es), w, i - AllGrants(s, es)))
    decreases |es|
  {
    hide Inv, Legal, FirstInLine, After, Grants, Woken;
    if es != [] {
      EventMoves(s, es[0], w, i);
      EventKeeps(s, es[0]);
      if !(es[0].Releases? && w in Woken(Returned(s, es[0].build))) {
        RunMoves(After(s, es[0]), es[1..], w, i - Grants(s, es[0]));
      }
    }
  }

  /** The first waiter of a build that holds nothing, at place i of the queue, is served among the
      next i + 1 grants, whoever else arrives or returns meanwhile. */
  lemma ServedWithin(s: State, es: seq<Event>, w: Waiter, i: nat)
    requires Inv(s) && LegalRun(s, es) && FirstInLine(s, w, i)
    requires AllGrants(s, es) >= i + 1
    ensures Served(s, es, w)
  {
    hide Inv, LegalRun, FirstInLine, AllGrants;
    RunMoves(s, es, w, i);
  }

  /** Whatever the run: never more tokens out than the limit, and no waiter while one is free. */
  lemma {:induction false} RunKeeps(s: State, es: seq<Event>)
    requires Inv(s) && LegalRun(s, es)
    ensures Inv(End(s, es))
    decreases |es|
  {
    hide Inv, Legal, After;
    if es != [] {
      EventKeeps(s, es[0]);
      RunKeeps(After(s, es[0]), es[1..]);
    }
  }
}
