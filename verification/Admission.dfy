/** The daemon's end of the admission protocol: one goroutine per connection, each with a ledger of
    the tokens it holds, and the one scheduler they share. Atomic steps, in any interleaving. */
module Admission {
  import opened Bytes
  import opened Sums
  import opened Slots

  /** What the goroutine of a connection is doing. Between the scheduler handing out a token and the
      ledger saying so it is Waking, between the ledger giving one up and the scheduler getting it
      back it is Returning. */
  datatype Stage = Reading | Blocked(build: Build) | Waking(build: Build) | Returning(build: Build) | Leaving

  /** `owner` is the token broker at the other end, if there is one; `asked` its order, while still
      unread; `open` whether the client has not hung up. */
  datatype Conn = Conn(ledger: map<Build, int>, stage: Stage, owner: Option<nat>, asked: Option<Build>, open: bool)

  datatype Daemon = Daemon(slots: State, conns: map<nat, Conn>)

  // ---------------------------------------------------------------- who owns how many tokens

  /** Tokens of one build (Some) or of all (None). */
  function Measure(s: State, q: Option<Build>): int {
    if q.Some? then Tokens(s.held, q.value) else s.out
  }

  ghost function InLedger(ledger: map<Build, int>, q: Option<Build>): int {
    if q.Some? then Tokens(ledger, q.value) else Sum(ledger)
  }

  function Unit(b: Build, q: Option<Build>): int { if q == None || q == Some(b) then 1 else 0 }

  function InTransit(stage: Stage, q: Option<Build>): int {
    if stage.Waking? || stage.Returning? then Unit(stage.build, q) else 0
  }

  ghost function Owns(c: Conn, q: Option<Build>): int { InLedger(c.ledger, q) + InTransit(c.stage, q) }

  ghost function Shares(conns: map<nat, Conn>, q: Option<Build>): map<nat, int> {
    map c | c in conns :: Owns(conns[c], q)
  }

  ghost function Owned(conns: map<nat, Conn>, q: Option<Build>): int { Sum(Shares(conns, q)) }

  /** Every token out is in some ledger or on its way there or back. */
  ghost predicate Balanced(d: Daemon) {
    forall q :: Measure(d.slots, q) == Owned(d.conns, q)
  }

  /** Exactly the blocked connections are in the queue. */
  ghost predicate Queued(d: Daemon) {
    && (forall b, c :: Waiter(b, c) in d.slots.waiting <==> c in d.conns && d.conns[c].stage == Blocked(b))
    && (forall w :: multiset(d.slots.waiting)[w] <= 1)
  }

  ghost predicate Ledgers(conns: map<nat, Conn>) {
    forall c, b :: c in conns && b in conns[c].ledger ==> conns[c].ledger[b] >= 0
  }

  ghost predicate Ok(d: Daemon) {
    Slots.Inv(d.slots) && Balanced(d) && Queued(d) && Ledgers(d.conns)
  }

  // ---------------------------------------------------------------- steps

  function Wake(conns: map<nat, Conn>, ws: seq<Waiter>): map<nat, Conn> {
    if ws == [] then conns
    else if ws[0].ticket !in conns then Wake(conns, ws[1..])
    else Wake(conns[ws[0].ticket := conns[ws[0].ticket].(stage := Waking(ws[0].build))], ws[1..])
  }

  /** Acquire on behalf of c. */
  function Acquiring(d: Daemon, c: nat, b: Build): Daemon
    requires c in d.conns
  {
    var admitted := d.slots.out < d.slots.limit && d.slots.waiting == [];
    Daemon(Acquired(d.slots, Waiter(b, c)),
           d.conns[c := d.conns[c].(stage := if admitted then Waking(b) else Blocked(b), asked := None)])
  }

  /** Release of one token of b by c, which goes on as x. */
  function Releasing(d: Daemon, c: nat, b: Build, x: Conn): Daemon {
    Daemon(Released(d.slots, b), Wake(d.conns[c := x], Woken(Returned(d.slots, b))))
  }

  datatype Step =
    | Accept(c: nat, owner: Option<nat>, asked: Option<Build>)
    | Slot(c: nat, build: Build)       // serve reads SLOT
    | Book(c: nat)                     // Acquire has returned: the ledger gets the token, OK goes out
    | Done(c: nat, build: Build)       // serve reads DONE
    | Release(c: nat)                  // and hands the token back
    | HangUp(c: nat)                   // the client is gone
    | Leave(c: nat)                    // serve reads no more
    | GiveBack(c: nat, build: Build)   // one turn of the deferred loop
    | Close(c: nat)

  predicate Can(d: Daemon, step: Step) {
    if step.Accept? then step.c !in d.conns else
    step.c in d.conns && var x := d.conns[step.c];
    match step
    case Accept(_, _, _) => false
    case Slot(_, b) => x.stage.Reading? && (x.owner == None || x.asked == Some(b))
    case Book(_) => x.stage.Waking?
    case Done(_, b) => x.stage.Reading? && x.owner == None
    case Release(_) => x.stage.Returning?
    case HangUp(_) => true
    case Leave(_) => x.stage.Reading? && (x.owner == None || !x.open)
    case GiveBack(_, b) => x.stage.Leaving? && Tokens(x.ledger, b) > 0
    case Close(_) => x.stage.Leaving? && forall b :: b in x.ledger ==> x.ledger[b] == 0
  }

  function After(d: Daemon, step: Step): Daemon
    requires Can(d, step)
  {
    match step
    case Accept(c, owner, asked) => d.(conns := d.conns[c := Conn(map[], Reading, owner, asked, true)])
    case Slot(c, b) => Acquiring(d, c, b)
    case Book(c) =>
      var x := d.conns[c];
      d.(conns := d.conns[c := x.(ledger := One(x.ledger, x.stage.build), stage := Reading)])
    case Done(c, b) =>
      var x := d.conns[c];
      if Tokens(x.ledger, b) > 0
      then d.(conns := d.conns[c := x.(ledger := x.ledger[b := Tokens(x.ledger, b) - 1], stage := Returning(b))])
      else d
    case Release(c) => Releasing(d, c, d.conns[c].stage.build, d.conns[c].(stage := Reading))
    case HangUp(c) => d.(conns := d.conns[c := d.conns[c].(open := false)])
    case Leave(c) => d.(conns := d.conns[c := d.conns[c].(stage := Leaving)])
    case GiveBack(c, b) =>
      var x := d.conns[c];
      Releasing(d, c, b, x.(ledger := x.ledger[b := Tokens(x.ledger, b) - 1]))
    case Close(c) => d.(conns := d.conns - {c})
  }

  // ---------------------------------------------------------------- sums over connections

  lemma OwnedSet(conns: map<nat, Conn>, c: nat, x: Conn, q: Option<Build>)
    ensures Owned(conns[c := x], q) == Owned(conns, q) + Owns(x, q) - (if c in conns then Owns(conns[c], q) else 0)
  {
    hide Owns;
    assert Shares(conns[c := x], q) == Shares(conns, q)[c := Owns(x, q)];
    SumSet(Shares(conns, q), c, Owns(x, q));
  }

  lemma OwnedDrop(conns: map<nat, Conn>, c: nat, q: Option<Build>)
    requires c in conns
    ensures Owned(conns - {c}, q) == Owned(conns, q) - Owns(conns[c], q)
  {
    hide Owns;
    assert Shares(conns - {c}, q) == Shares(conns, q) - {c};
    SumDrop(Shares(conns, q), c);
  }

  lemma LedgerSet(ledger: map<Build, int>, b: Build, n: int, q: Option<Build>)
    ensures InLedger(ledger[b := n], q) == InLedger(ledger, q) + (n - Tokens(ledger, b)) * Unit(b, q)
  {
    SumSet(ledger, b, n);
  }

  // ---------------------------------------------------------------- waking

  ghost predicate Sleepers(conns: map<nat, Conn>, ws: seq<Waiter>) {
    && (forall w :: w in ws ==> w.ticket in conns && conns[w.ticket].stage == Blocked(w.build))
    && (forall w :: multiset(ws)[w] <= 1)
  }

  lemma SleepersRest(conns: map<nat, Conn>, ws: seq<Waiter>)
    requires ws != [] && Sleepers(conns, ws)
    ensures ws[0] !in ws[1..]
    ensures Sleepers(conns[ws[0].ticket := conns[ws[0].ticket].(stage := Waking(ws[0].build))], ws[1..])
  {
    var w := ws[0];
    assert ws == [w] + ws[1..];
    assert multiset(ws) == multiset{w} + multiset(ws[1..]);
    assert multiset(ws)[w] <= 1;
    assert w !in multiset(ws[1..]);
    assert forall v :: multiset(ws[1..])[v] <= multiset(ws)[v];
    assert forall v :: v in ws[1..] ==> v.ticket != w.ticket;
  }

  /** Waking touches the sleepers' stages and nothing else. */
  lemma {:induction false} WakeOnly(conns: map<nat, Conn>, ws: seq<Waiter>)
    requires Sleepers(conns, ws)
    ensures Wake(conns, ws).Keys == conns.Keys
    ensures forall c :: c in conns ==>
              Wake(conns, ws)[c] == if Waiter(BuildOf(conns[c]), c) in ws && conns[c].stage.Blocked?
                                    then conns[c].(stage := Waking(conns[c].stage.build)) else conns[c]
    decreases |ws|
  {
    if ws != [] {
      var w := ws[0];
      var next := conns[w.ticket := conns[w.ticket].(stage := Waking(w.build))];
      SleepersRest(conns, ws);
      WakeOnly(next, ws[1..]);
      assert forall v :: v in ws <==> v == w || v in ws[1..];
    }
  }

  function BuildOf(c: Conn): Build { if c.stage.Blocked? then c.stage.build else "" }

  function Ordered(ws: seq<Waiter>, q: Option<Build>): int { if q.Some? then Count(ws, q.value) else |ws| }

  lemma {:induction false} WakeOwns(conns: map<nat, Conn>, ws: seq<Waiter>, q: Option<Build>)
    requires Sleepers(conns, ws)
    ensures Owned(Wake(conns, ws), q) == Owned(conns, q) + Ordered(ws, q)
    decreases |ws|
  {
    hide InLedger;
    if ws != [] {
      var w := ws[0];
      var x := conns[w.ticket].(stage := Waking(w.build));
      SleepersRest(conns, ws);
      OwnedSet(conns, w.ticket, x, q);
      assert Owns(x, q) == Owns(conns[w.ticket], q) + Unit(w.build, q);
      hide Owned, Owns;
      WakeOwns(conns[w.ticket := x], ws[1..], q);
    }
  }

  // ---------------------------------------------------------------- each step keeps the balance

  lemma BalancedOne(d: Daemon, c: nat, x: Conn, slots: State, q: Option<Build>)
    requires Balanced(d) && c in d.conns
    requires Measure(slots, q) - Measure(d.slots, q) == Owns(x, q) - Owns(d.conns[c], q)
    ensures Measure(slots, q) == Owned(d.conns[c := x], q)
  {
    hide Owns, Owned;
    OwnedSet(d.conns, c, x, q);
  }

  lemma AcquiringKeeps(d: Daemon, c: nat, b: Build)
    requires Ok(d) && c in d.conns && d.conns[c].stage.Reading?
    ensures Ok(Acquiring(d, c, b))
  {
    hide Slots.Inv, InLedger, Owned;
    var d' := Acquiring(d, c, b);
    AcquiredKeeps(d.slots, Waiter(b, c));
    forall q
      ensures Measure(d'.slots, q) == Owned(d'.conns, q)
    {
      BalancedOne(d, c, d'.conns[c], d'.slots, q);
    }
    hide Balanced;
    QueuedAcquiring(d, c, b);
  }

  lemma QueuedAcquiring(d: Daemon, c: nat, b: Build)
    requires Queued(d) && c in d.conns && d.conns[c].stage.Reading?
    ensures Queued(Acquiring(d, c, b))
  {
    var d' := Acquiring(d, c, b);
    assert Waiter(b, c) !in multiset(d.slots.waiting);
    assert multiset(d.slots.waiting + [Waiter(b, c)]) == multiset(d.slots.waiting) + multiset{Waiter(b, c)};
  }

  /** The scheduler's half of a release. */
  lemma ReleasedMeasure(s: State, b: Build, q: Option<Build>)
    requires Slots.Inv(s) && Tokens(s.held, b) > 0
    ensures Measure(Released(s, b), q) == Measure(s, q) - Unit(b, q) + Ordered(Woken(Returned(s, b)), q)
    ensures multiset(s.waiting) == multiset(Released(s, b).waiting) + multiset(Woken(Returned(s, b)))
  {
    ReleasedKeeps(s, b);
    hide Slots.Inv, Grant, Woken;
    GrantKeeps(Returned(s, b));
    GrantConserves(Returned(s, b));
  }

  lemma SleepersWoken(d: Daemon, conns: map<nat, Conn>, b: Build)
    requires Queued(d) && conns.Keys == d.conns.Keys
    requires forall i :: i in conns ==> conns[i].stage == d.conns[i].stage || !d.conns[i].stage.Blocked?
    requires multiset(d.slots.waiting) == multiset(Released(d.slots, b).waiting) + multiset(Woken(Returned(d.slots, b)))
    ensures Sleepers(conns, Woken(Returned(d.slots, b)))
  {
    hide Released, Woken;
    var ws := Woken(Returned(d.slots, b));
    forall w | w in ws
      ensures w.ticket in conns && conns[w.ticket].stage == Blocked(w.build)
    {
      assert w in multiset(ws) && w in multiset(d.slots.waiting);
      assert Waiter(w.build, w.ticket) in d.slots.waiting;
    }
    forall w
      ensures multiset(ws)[w] <= 1
    {
      assert multiset(d.slots.waiting)[w] <= 1;
    }
  }

  /** c gives up one token of b, as x, and the scheduler passes it on. */
  ghost predicate GivesUp(d: Daemon, c: nat, b: Build, x: Conn) {
    && c in d.conns && Tokens(d.slots.held, b) > 0
    && !x.stage.Blocked? && !d.conns[c].stage.Blocked?
    && (forall q :: Owns(x, q) == Owns(d.conns[c], q) - Unit(b, q))
    && (forall i :: i in x.ledger ==> x.ledger[i] >= 0)
  }

  lemma ReleasingKeeps(d: Daemon, c: nat, b: Build, x: Conn)
    requires Ok(d) && GivesUp(d, c, b, x)
    ensures Ok(Releasing(d, c, b, x))
  {
    hide Slots.Inv, Owned, Owns, Released, Woken, Measure, Ordered, Unit;
    var d' := Releasing(d, c, b, x);
    var ws := Woken(Returned(d.slots, b));
    var conns := d.conns[c := x];
    ReleasedKeeps(d.slots, b);
    ReleasedMeasure(d.slots, b, None);
    SleepersWoken(d, conns, b);
    WakeOnly(conns, ws);
    forall q
      ensures Measure(d'.slots, q) == Owned(d'.conns, q)
    {
      ReleasedMeasure(d.slots, b, q);
      OwnedSet(d.conns, c, x, q);
      WakeOwns(conns, ws, q);
    }
    hide Balanced, Wake;
    QueuedReleasing(d, conns, d');
  }

  lemma QueuedReleasing(d: Daemon, conns: map<nat, Conn>, d': Daemon)
    requires Queued(d) && conns.Keys == d.conns.Keys && d'.conns.Keys == conns.Keys
    requires forall i :: i in conns ==>
               (conns[i].stage.Blocked? || d.conns[i].stage.Blocked? ==> conns[i].stage == d.conns[i].stage)
    requires exists ws: seq<Waiter> ::
               && multiset(d.slots.waiting) == multiset(d'.slots.waiting) + multiset(ws)
               && (forall i :: i in conns ==>
                     d'.conns[i] == if Waiter(BuildOf(conns[i]), i) in ws && conns[i].stage.Blocked?
                                    then conns[i].(stage := Waking(conns[i].stage.build)) else conns[i])
    ensures Queued(d')
  {
    var ws: seq<Waiter> :|
      && multiset(d.slots.waiting) == multiset(d'.slots.waiting) + multiset(ws)
      && (forall i :: i in conns ==>
            d'.conns[i] == if Waiter(BuildOf(conns[i]), i) in ws && conns[i].stage.Blocked?
                           then conns[i].(stage := Waking(conns[i].stage.build)) else conns[i]);
    forall b, c
      ensures Waiter(b, c) in d'.slots.waiting <==> c in d'.conns && d'.conns[c].stage == Blocked(b)
    {
      var w := Waiter(b, c);
      assert multiset(d.slots.waiting)[w] <= 1;
      assert w in d.slots.waiting <==> w in multiset(d.slots.waiting);
      assert w in d'.slots.waiting <==> w in multiset(d'.slots.waiting);
      assert w in ws <==> w in multiset(ws);
    }
    forall w
      ensures multiset(d'.slots.waiting)[w] <= 1
    {
      assert multiset(d.slots.waiting)[w] <= 1;
    }
  }

  lemma OwnsNatural(x: Conn, q: Option<Build>)
    requires forall b :: b in x.ledger ==> x.ledger[b] >= 0
    ensures Owns(x, q) >= 0 && InLedger(x.ledger, q) >= 0
    ensures forall b :: Unit(b, q) == 1 ==> Tokens(x.ledger, b) <= InLedger(x.ledger, q)
  {
    SumNonNegative(x.ledger);
  }

  /** No connection owns more than the scheduler has handed out. */
  lemma OwnsAtMost(d: Daemon, c: nat, q: Option<Build>)
    requires Balanced(d) && Ledgers(d.conns) && c in d.conns
    ensures 0 <= Owns(d.conns[c], q) <= Measure(d.slots, q)
  {
    hide Owns;
    forall i | i in d.conns
      ensures Shares(d.conns, q)[i] >= 0
    {
      OwnsNatural(d.conns[i], q);
    }
    SumNonNegative(Shares(d.conns, q));
    assert Shares(d.conns, q)[c] == Owns(d.conns[c], q);
    assert Measure(d.slots, q) == Owned(d.conns, q);
  }

  /** A step that only moves tokens between a ledger and its own transit. */
  lemma LocalKeeps(d: Daemon, c: nat, x: Conn)
    requires Ok(d) && c in d.conns && !x.stage.Blocked? && !d.conns[c].stage.Blocked?
    requires forall q :: Owns(x, q) == Owns(d.conns[c], q)
    requires forall b :: b in x.ledger ==> x.ledger[b] >= 0
    ensures Ok(d.(conns := d.conns[c := x]))
  {
    hide Slots.Inv, Owns, Owned;
    var d' := d.(conns := d.conns[c := x]);
    forall q
      ensures Measure(d'.slots, q) == Owned(d'.conns, q)
    {
      BalancedOne(d, c, x, d.slots, q);
    }
  }

  lemma BookKeeps(d: Daemon, c: nat)
    requires Ok(d) && Can(d, Book(c))
    ensures Ok(After(d, Book(c)))
  {
    hide Ok;
    var x := d.conns[c];
    var y := x.(ledger := One(x.ledger, x.stage.build), stage := Reading);
    forall q
      ensures Owns(y, q) == Owns(x, q)
    {
      LedgerSet(x.ledger, x.stage.build, Tokens(x.ledger, x.stage.build) + 1, q);
    }
    LedgersOf(d, c);
    LocalKeeps(d, c, y);
  }

  lemma LedgersOf(d: Daemon, c: nat)
    requires Ok(d) && c in d.conns
    ensures forall b :: b in d.conns[c].ledger ==> d.conns[c].ledger[b] >= 0
  {
  }

  lemma DoneKeeps(d: Daemon, c: nat, b: Build)
    requires Ok(d) && Can(d, Done(c, b))
    ensures Ok(After(d, Done(c, b)))
  {
    hide Ok;
    var x := d.conns[c];
    if Tokens(x.ledger, b) > 0 {
      var y := x.(ledger := x.ledger[b := Tokens(x.ledger, b) - 1], stage := Returning(b));
      forall q
        ensures Owns(y, q) == Owns(x, q)
      {
        LedgerSet(x.ledger, b, Tokens(x.ledger, b) - 1, q);
      }
      LedgersOf(d, c);
      LocalKeeps(d, c, y);
    }
  }

  lemma ReleaseKeeps(d: Daemon, c: nat)
    requires Ok(d) && Can(d, Release(c))
    ensures Ok(After(d, Release(c)))
  {
    var x := d.conns[c];
    var b := x.stage.build;
    OwnsAtMost(d, c, Some(b));
    LedgersOf(d, c);
    OwnsNatural(x, Some(b));
    hide Ok, InLedger;
    assert GivesUp(d, c, b, x.(stage := Reading));
    ReleasingKeeps(d, c, b, x.(stage := Reading));
  }

  lemma GiveBackKeeps(d: Daemon, c: nat, b: Build)
    requires Ok(d) && Can(d, GiveBack(c, b))
    ensures Ok(After(d, GiveBack(c, b)))
  {
    var x := d.conns[c];
    var y := x.(ledger := x.ledger[b := Tokens(x.ledger, b) - 1]);
    OwnsAtMost(d, c, Some(b));
    LedgersOf(d, c);
    hide Ok;
    forall q
      ensures Owns(y, q) == Owns(x, q) - Unit(b, q)
    {
      LedgerSet(x.ledger, b, Tokens(x.ledger, b) - 1, q);
    }
    assert GivesUp(d, c, b, y);
    ReleasingKeeps(d, c, b, y);
  }

  lemma AcceptKeeps(d: Daemon, c: nat, x: Conn)
    requires Ok(d) && c !in d.conns && x.ledger == map[] && x.stage.Reading?
    ensures Ok(d.(conns := d.conns[c := x]))
  {
    hide Slots.Inv;
    var d' := d.(conns := d.conns[c := x]);
    forall q
      ensures Measure(d'.slots, q) == Owned(d'.conns, q)
    {
      assert Owns(x, q) == 0;
      OwnedSet(d.conns, c, x, q);
    }
  }

  lemma CloseKeeps(d: Daemon, c: nat)
    requires Ok(d) && Can(d, Close(c))
    ensures Ok(After(d, Close(c)))
  {
    hide Slots.Inv;
    var d' := After(d, Close(c));
    forall q
      ensures Measure(d'.slots, q) == Owned(d'.conns, q)
    {
      SumZero(d.conns[c].ledger);
      assert Owns(d.conns[c], q) == 0;
      OwnedDrop(d.conns, c, q);
    }
  }

  lemma HangUpKeeps(d: Daemon, c: nat)
    requires Ok(d) && c in d.conns
    ensures Ok(After(d, HangUp(c)))
  {
    hide Slots.Inv, Owned;
    var x := d.conns[c].(open := false);
    var d' := d.(conns := d.conns[c := x]);
    forall q
      ensures Measure(d'.slots, q) == Owned(d'.conns, q)
    {
      BalancedOne(d, c, x, d.slots, q);
    }
  }

  /** Every step of every connection keeps the books. */
  lemma StepKeeps(d: Daemon, step: Step)
    requires Ok(d) && Can(d, step)
    ensures Ok(After(d, step))
  {
    hide Ok, Acquiring, Releasing, Owns;
    match step
    case Accept(c, owner, asked) => AcceptKeeps(d, c, Conn(map[], Reading, owner, asked, true));
    case Slot(c, b) => AcquiringKeeps(d, c, b);
    case Book(c) => BookKeeps(d, c);
    case Done(c, b) => DoneKeeps(d, c, b);
    case Release(c) => ReleaseKeeps(d, c);
    case HangUp(c) => HangUpKeeps(d, c);
    case Leave(c) => LeaveKeeps(d, c);
    case GiveBack(c, b) => GiveBackKeeps(d, c, b);
    case Close(c) => CloseKeeps(d, c);
  }

  lemma LeaveKeeps(d: Daemon, c: nat)
    requires Ok(d) && Can(d, Leave(c))
    ensures Ok(After(d, Leave(c)))
  {
    hide Ok;
    LedgersOf(d, c);
    LocalKeeps(d, c, d.conns[c].(stage := Leaving));
  }

  ghost predicate Runs(d: Daemon, steps: seq<Step>, d': Daemon)
    decreases |steps|
  {
    if steps == [] then d' == d else Can(d, steps[0]) && Runs(After(d, steps[0]), steps[1..], d')
  }

  lemma {:induction false} RunKeeps(d: Daemon, steps: seq<Step>, d': Daemon)
    requires Ok(d) && Runs(d, steps, d')
    ensures Ok(d')
    decreases |steps|
  {
    hide Ok, Can, After;
    if steps != [] {
      StepKeeps(d, steps[0]);
      RunKeeps(After(d, steps[0]), steps[1..], d');
    }
  }

  lemma StartOk(limit: nat)
    ensures Ok(Daemon(State(limit, 0, map[], []), map[]))
  {
    assert Shares(map[], None) == map[];
  }

  lemma WaiterHasConn(d: Daemon, i: nat)
    requires Queued(d) && i < |d.slots.waiting|
    ensures d.slots.waiting[i].ticket in d.conns
  {
    var w := d.slots.waiting[i];
    assert Waiter(w.build, w.ticket) in d.slots.waiting;
  }

  /** Whatever clients do and in whatever order: at most `limit` tokens are out, each build's count is
      what its connections hold or are about to, and when all connections are gone every token is back. */
  lemma TokensAreAccounted(limit: nat, steps: seq<Step>, d: Daemon)
    requires Runs(Daemon(State(limit, 0, map[], []), map[]), steps, d)
    ensures 0 <= d.slots.out <= d.slots.limit
    ensures forall b :: Tokens(d.slots.held, b) == Owned(d.conns, Some(b))
    ensures d.slots.out == Owned(d.conns, None)
    ensures d.conns == map[] ==> d.slots.out == 0 && d.slots.held == map[] && d.slots.waiting == []
  {
    hide Runs, Owns;
    StartOk(limit);
    RunKeeps(Daemon(State(limit, 0, map[], []), map[]), steps, d);
    forall b
      ensures Tokens(d.slots.held, b) == Owned(d.conns, Some(b))
    {
      assert Measure(d.slots, Some(b)) == Owned(d.conns, Some(b));
    }
    assert Measure(d.slots, None) == Owned(d.conns, None);
    if d.conns == map[] {
      forall q ensures Shares(d.conns, q) == map[] {}
      forall b ensures b !in d.slots.held {
        assert Tokens(d.slots.held, b) == Owned(d.conns, Some(b)) == 0;
      }
      if d.slots.waiting != [] { WaiterHasConn(d, 0); }
    }
  }
}
