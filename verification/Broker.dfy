/** GHC's job semaphore backed by daemon slots: what the broker posts is what it holds. */
module Broker {
  import opened Bytes
  import opened Sums
  import opened Slots
  import opened Admission

  // ---------------------------------------------------------------- one tick

  /** What the token source answered. */
  datatype Answer<T> = Nothing | Granted(token: T)

  /** The answers of sem_trywait when it succeeds n times and then fails. */
  function Emptied(n: nat): seq<bool> { seq(n, _ => true) + [false] }

  /** The broker's half. `sem` is the semaphore's count and `ghc` the tokens ghc has taken; ghc takes
      and returns them at any moment, which is all that Interfere does. `waits` are the answers
      sem_trywait has given so far. */
  class SemBroker<T> {
    var sem: nat
    var ghc: nat
    var held: seq<T>
    ghost var waits: seq<bool>

    constructor ()
      ensures sem == 0 && ghc == 0 && held == [] && waits == []
    {
      sem := 0;
      ghc := 0;
      held := [];
      waits := [];
    }

    method Interfere()
      modifies this`sem, this`ghc
      ensures sem + ghc == old(sem + ghc)
    {
      var n: nat :| n <= sem + ghc;
      sem, ghc := n, sem + ghc - n;
    }

    method TryWait() returns (ok: bool)
      modifies this`sem, this`ghc, this`waits
      ensures sem + ghc == old(sem + ghc) - (if ok then 1 else 0) && waits == old(waits) + [ok]
    {
      Interfere();
      ok := sem > 0;
      if ok {
        sem := sem - 1;
      }
      waits := waits + [ok];
      Interfere();
    }

    /** Drain the semaphore: it takes as many tokens out as there are, whatever ghc returns meanwhile,
        and so ends after at most |held| of them. */
    method Drain() returns (idle: nat)
      requires sem + ghc == |held|
      modifies this`sem, this`ghc, this`waits
      ensures idle <= |held| && sem + ghc == |held| - idle && waits == old(waits) + Emptied(idle)
    {
      idle := 0;
      var more := TryWait();
      while more
        invariant sem + ghc + idle + (if more then 1 else 0) == |held|
        invariant waits == old(waits) + (if more then seq(idle + 1, _ => true) else Emptied(idle))
        decreases |held| - idle
      {
        idle := idle + 1;
        more := TryWait();
      }
    }

    /** Tick: keep one idle token, return the rest, order one if there is none. `answer` is what the
        source has when asked for a token, `idle` how many tokens the semaphore gave before it was empty. */
    method Tick(answer: Answer<T>) returns (asked: bool, dropped: seq<T>, ghost idle: nat)
      requires sem + ghc == |held|
      modifies this
      ensures sem + ghc == |held| && waits == old(waits) + Emptied(idle)
      ensures asked <==> idle == 0
      ensures !asked ==> held + dropped == old(held) && held != [] && |dropped| == idle - 1
      ensures asked ==> dropped == [] && held == old(held) + (if answer.Granted? then [answer.token] else [])
    {
      var drained := Drain();
      idle := drained;
      var inUse := |held| - (if |held| < drained then |held| else drained);
      var keep := if |held| < inUse + 1 then |held| else inUse + 1;
      dropped := held[keep..];
      held := held[..keep];
      var spare := |held| == inUse + 1;
      asked := !spare;
      if asked && answer.Granted? {
        held := held + [answer.token];
      }
      if |held| > inUse {
        Interfere();
        sem := sem + 1;
      }
    }
  }

  // ---------------------------------------------------------------- brokers, ghcs and the daemon together

  /** Where a broker is in its tick: the places between which ghc and the daemon may act. */
  datatype Phase = Rest | Draining(idle: nat) | Polling(inUse: nat) | Posting(inUse: nat)

  /** held and order are the broker's connections to the daemon. */
  datatype Agent = Agent(build: Build, sem: nat, ghc: nat, held: seq<nat>, order: Option<nat>, phase: Phase)

  datatype System = System(daemon: Daemon, agents: map<nat, Agent>)

  datatype Move =
    | Serve(step: Step)          // the daemon, or a client that is no broker
    | Spawn(k: nat, build: Build)
    | GhcTakes(k: nat)
    | GhcReturns(k: nat)
    | StartTick(k: nat)
    | Waits(k: nat)              // sem_trywait succeeds
    | Drained(k: nat)            // and fails: spare slots are given up
    | Cancel(k: nat)             // one idle token is there: no order
    | Place(k: nat, c: nat)      // SLOT on a new connection
    | NotYet(k: nat)             // no answer, or no connection
    | Take(k: nat)               // OK: the slot is ours
    | Refused(k: nat)            // the daemon hung up
    | Post(k: nat)

  function HungUp(conns: map<nat, Conn>, cs: seq<nat>): map<nat, Conn> {
    map c | c in conns :: if c in cs then conns[c].(open := false) else conns[c]
  }

  /** The daemon has answered OK: the ledger says so before the answer is written. */
  predicate Answered(conns: map<nat, Conn>, c: nat, build: Build) {
    c in conns && conns[c].stage.Reading? && conns[c].asked == None && conns[c].open
    && Tokens(conns[c].ledger, build) >= 1
  }

  predicate Spare(a: Agent) { a.phase.Polling? && |a.held| == a.phase.inUse + 1 }

  predicate Public(d: Daemon, step: Step) {
    match step
    case Accept(_, owner, asked) => owner == None && asked == None
    case HangUp(c) => c in d.conns && d.conns[c].owner == None
    case _ => true
  }

  predicate Possible(s: System, m: Move) {
    if m.Serve? then Can(s.daemon, m.step) && Public(s.daemon, m.step)
    else if m.Spawn? then m.k !in s.agents
    else m.k in s.agents && var a := s.agents[m.k];
    match m
    case Serve(_) => false
    case Spawn(_, _) => false
    case GhcTakes(_) => a.sem > 0
    case GhcReturns(_) => a.ghc > 0
    case StartTick(_) => a.phase.Rest?
    case Waits(_) => a.phase.Draining? && a.sem > 0
    case Drained(_) => a.phase.Draining? && a.sem == 0
    case Cancel(_) => Spare(a)
    case Place(_, c) => a.phase.Polling? && !Spare(a) && a.order == None && c !in s.daemon.conns
    case NotYet(_) => a.phase.Polling? && !Spare(a)
    case Take(_) => a.phase.Polling? && !Spare(a) && a.order.Some? && Answered(s.daemon.conns, a.order.value, a.build)
    case Refused(_) => a.phase.Polling? && !Spare(a) && a.order.Some?
    case Post(_) => a.phase.Posting?
  }

  function Min(x: nat, y: nat): nat { if x < y then x else y }

  function InUse(a: Agent): nat
    requires a.phase.Draining?
  {
    |a.held| - Min(|a.held|, a.phase.idle)
  }

  function OrderOf(a: Agent): seq<nat> { if a.order.Some? then [a.order.value] else [] }

  function Then(s: System, m: Move): System
    requires Possible(s, m)
  {
    if m.Serve? then s.(daemon := Admission.After(s.daemon, m.step))
    else if m.Spawn? then s.(agents := s.agents[m.k := Agent(m.build, 0, 0, [], None, Rest)])
    else
      var a := s.agents[m.k];
      match m
      case GhcTakes(k) => s.(agents := s.agents[k := a.(sem := a.sem - 1, ghc := a.ghc + 1)])
      case GhcReturns(k) => s.(agents := s.agents[k := a.(sem := a.sem + 1, ghc := a.ghc - 1)])
      case StartTick(k) => s.(agents := s.agents[k := a.(phase := Draining(0))])
      case Waits(k) => s.(agents := s.agents[k := a.(sem := a.sem - 1, phase := Draining(a.phase.idle + 1))])
      case Drained(k) =>
        var keep := Min(|a.held|, InUse(a) + 1);
        System(s.daemon.(conns := HungUp(s.daemon.conns, a.held[keep..])),
               s.agents[k := a.(held := a.held[..keep], phase := Polling(InUse(a)))])
      case Cancel(k) =>
        System(s.daemon.(conns := HungUp(s.daemon.conns, OrderOf(a))),
               s.agents[k := a.(order := None, phase := Posting(a.phase.inUse))])
      case Place(k, c) =>
        System(s.daemon.(conns := s.daemon.conns[c := Conn(map[], Reading, Some(k), Some(a.build), true)]),
               s.agents[k := a.(order := Some(c))])
      case NotYet(k) => s.(agents := s.agents[k := a.(phase := Posting(a.phase.inUse))])
      case Take(k) =>
        var b := a.(held := a.held + [a.order.value], order := None, phase := Posting(a.phase.inUse));
        s.(agents := s.agents[k := b])
      case Refused(k) =>
        System(s.daemon.(conns := HungUp(s.daemon.conns, OrderOf(a))),
               s.agents[k := a.(order := None, phase := Posting(a.phase.inUse))])
      case Post(k) =>
        s.(agents := s.agents[k := a.(sem := a.sem + (if |a.held| > a.phase.inUse then 1 else 0), phase := Rest)])
  }

  // ---------------------------------------------------------------- invariant

  /** A token the broker holds is a token the daemon has booked for it. */
  predicate Token(conns: map<nat, Conn>, h: nat, k: nat, build: Build) {
    Answered(conns, h, build) && conns[h].owner == Some(k)
  }

  predicate Distinct(held: seq<nat>) { forall i, j :: 0 <= i < j < |held| ==> held[i] != held[j] }

  /** What is in the semaphore or in ghc's hands is backed by a slot, at every point of the tick. */
  predicate Backed(a: Agent) {
    match a.phase
    case Rest => a.sem + a.ghc == |a.held|
    case Draining(idle) => a.sem + a.ghc + idle == |a.held|
    case Polling(n) => a.sem + a.ghc == n <= |a.held| <= n + 1
    case Posting(n) => a.sem + a.ghc == n <= |a.held| <= n + 1
  }

  ghost predicate AgentOk(conns: map<nat, Conn>, k: nat, a: Agent) {
    && Backed(a)
    && Distinct(a.held) && (forall h :: h in a.held ==> Token(conns, h, k, a.build))
    && (a.order.Some? ==> a.order.value !in a.held && a.order.value in conns && conns[a.order.value].owner == Some(k)
                          && conns[a.order.value].open && !conns[a.order.value].stage.Leaving?)
  }

  ghost predicate SystemOk(s: System) {
    Ok(s.daemon) && forall k :: k in s.agents ==> AgentOk(s.daemon.conns, k, s.agents[k])
  }

  // ---------------------------------------------------------------- the daemon leaves tokens alone

  /** An answered, open connection of a broker has nothing for the daemon to do. */
  ghost predicate Quiet(conns: map<nat, Conn>, c: nat) {
    c in conns && conns[c].owner.Some? && conns[c].open && conns[c].asked == None && conns[c].stage.Reading?
  }

  lemma WakeSpares(d: Daemon, c: nat, b: Build, x: Conn, h: nat)
    requires Ok(d) && GivesUp(d, c, b, x) && h in d.conns && h != c && !d.conns[h].stage.Blocked?
    ensures h in Releasing(d, c, b, x).conns && Releasing(d, c, b, x).conns[h] == d.conns[h]
  {
    hide Slots.Inv, Balanced, Woken, Released, Owns;
    ReleasedMeasure(d.slots, b, None);
    SleepersWoken(d, d.conns[c := x], b);
    WakeOnly(d.conns[c := x], Woken(Returned(d.slots, b)));
  }

  /** Waking changes a blocked connection's stage and no connection's owner or openness. */
  lemma WakeKeepsOwner(d: Daemon, c: nat, b: Build, x: Conn, h: nat)
    requires Ok(d) && GivesUp(d, c, b, x) && h in d.conns && x.owner == d.conns[c].owner && x.open == d.conns[c].open
    ensures var conns := Releasing(d, c, b, x).conns;
            h in conns && conns[h].owner == d.conns[h].owner && conns[h].open == d.conns[h].open
            && (conns[h].stage.Leaving? ==> d.conns[h].stage.Leaving? || (h == c && x.stage.Leaving?))
  {
    hide Slots.Inv, Balanced, Woken, Released, Owns;
    ReleasedMeasure(d.slots, b, None);
    SleepersWoken(d, d.conns[c := x], b);
    WakeOnly(d.conns[c := x], Woken(Returned(d.slots, b)));
  }

  lemma ReleaseGivesUp(d: Daemon, step: Step)
    requires Ok(d) && Can(d, step) && (step.Release? || step.GiveBack?)
    ensures var x := d.conns[step.c];
            if step.Release? then GivesUp(d, step.c, x.stage.build, x.(stage := Reading))
            else GivesUp(d, step.c, step.build, x.(ledger := x.ledger[step.build := Tokens(x.ledger, step.build) - 1]))
  {
    var x := d.conns[step.c];
    var b := if step.Release? then x.stage.build else step.build;
    OwnsAtMost(d, step.c, Some(b));
    LedgersOf(d, step.c);
    OwnsNatural(x, Some(b));
    hide Ok;
    if step.GiveBack? {
      forall q ensures Owns(x.(ledger := x.ledger[b := Tokens(x.ledger, b) - 1]), q) == Owns(x, q) - Unit(b, q) {
        LedgerSet(x.ledger, b, Tokens(x.ledger, b) - 1, q);
      }
    }
  }

  lemma StepSpares(d: Daemon, step: Step, h: nat)
    requires Ok(d) && Can(d, step) && Public(d, step) && Quiet(d.conns, h)
    ensures h in Admission.After(d, step).conns && Admission.After(d, step).conns[h] == d.conns[h]
  {
    hide Ok, GivesUp;
    if step.Release? || step.GiveBack? {
      ReleaseGivesUp(d, step);
      var x := d.conns[step.c];
      if step.Release? {
        WakeSpares(d, step.c, x.stage.build, x.(stage := Reading), h);
      } else {
        WakeSpares(d, step.c, step.build, x.(ledger := x.ledger[step.build := Tokens(x.ledger, step.build) - 1]), h);
      }
    }
  }

  lemma StepKeepsOwner(d: Daemon, step: Step, h: nat)
    requires Ok(d) && Can(d, step) && Public(d, step) && h in d.conns && d.conns[h].owner.Some? && d.conns[h].open
    requires !d.conns[h].stage.Leaving?
    ensures var conns := Admission.After(d, step).conns;
            h in conns && conns[h].owner == d.conns[h].owner && conns[h].open && !conns[h].stage.Leaving?
  {
    hide Ok, GivesUp;
    if step.Release? || step.GiveBack? {
      ReleaseGivesUp(d, step);
      var x := d.conns[step.c];
      if step.Release? {
        WakeKeepsOwner(d, step.c, x.stage.build, x.(stage := Reading), h);
      } else {
        var less := x.ledger[step.build := Tokens(x.ledger, step.build) - 1];
        WakeKeepsOwner(d, step.c, step.build, x.(ledger := less), h);
      }
    }
  }

  // ---------------------------------------------------------------- every move keeps the invariant

  lemma HungUpOk(d: Daemon, cs: seq<nat>)
    requires Ok(d)
    ensures Ok(d.(conns := HungUp(d.conns, cs)))
  {
    hide Slots.Inv, Sum;
    var d' := d.(conns := HungUp(d.conns, cs));
    forall q
      ensures Measure(d'.slots, q) == Owned(d'.conns, q)
    {
      assert Shares(d'.conns, q) == Shares(d.conns, q);
    }
  }

  lemma ServeKeepsAgent(d: Daemon, step: Step, k: nat, a: Agent)
    requires Ok(d) && Can(d, step) && Public(d, step) && AgentOk(d.conns, k, a)
    ensures AgentOk(Admission.After(d, step).conns, k, a)
  {
    hide Ok, Can, Admission.After, Public;
    forall h | h in a.held
      ensures Token(Admission.After(d, step).conns, h, k, a.build)
    {
      assert Token(d.conns, h, k, a.build);
      StepSpares(d, step, h);
    }
    if a.order.Some? {
      StepKeepsOwner(d, step, a.order.value);
    }
  }

  /** What other brokers do to their own connections does not touch this one's. */
  lemma Apart(conns: map<nat, Conn>, conns': map<nat, Conn>, k: nat, a: Agent)
    requires AgentOk(conns, k, a)
    requires forall c :: c in conns && conns[c].owner == Some(k) ==> c in conns' && conns'[c] == conns[c]
    ensures AgentOk(conns', k, a)
  {
    forall h | h in a.held
      ensures Token(conns', h, k, a.build)
    {
      assert Token(conns, h, k, a.build);
    }
  }

  lemma OwnMove(s: System, m: Move)
    requires Possible(s, m) && !m.Serve? && !m.Spawn? && AgentOk(s.daemon.conns, m.k, s.agents[m.k])
    ensures var t := Then(s, m); m.k in t.agents && AgentOk(t.daemon.conns, m.k, t.agents[m.k])
  {
    var a := s.agents[m.k];
    var t := Then(s, m);
    forall h | h in t.agents[m.k].held
      ensures Token(t.daemon.conns, h, m.k, a.build)
    {
      assert h in a.held ==> Token(s.daemon.conns, h, m.k, a.build);
      if m.Drained? {
        var keep := |t.agents[m.k].held|;
        assert a.held == a.held[..keep] + a.held[keep..];
      }
    }
  }

  /** The connections a broker closes with a move. */
  function Dropped(a: Agent, m: Move): seq<nat> {
    if m.Drained? && a.phase.Draining? then a.held[Min(|a.held|, InUse(a) + 1)..]
    else if m.Cancel? || m.Refused? then OrderOf(a)
    else []
  }

  lemma DroppedIsOwn(conns: map<nat, Conn>, k: nat, a: Agent, m: Move, c: nat)
    requires AgentOk(conns, k, a) && c in Dropped(a, m)
    ensures c in conns && conns[c].owner == Some(k)
  {
    if m.Drained? && a.phase.Draining? {
      var keep := Min(|a.held|, InUse(a) + 1);
      assert a.held == a.held[..keep] + a.held[keep..];
      assert c in a.held && Token(conns, c, k, a.build);
    }
  }

  lemma MoveIsApart(s: System, m: Move, j: nat)
    requires Possible(s, m) && !m.Serve? && j in s.agents
    requires m.Spawn? || (m.k != j && AgentOk(s.daemon.conns, m.k, s.agents[m.k]))
    requires AgentOk(s.daemon.conns, j, s.agents[j])
    ensures AgentOk(Then(s, m).daemon.conns, j, s.agents[j])
  {
    hide AgentOk, Spare, Answered, InUse, Min;
    var conns, conns' := s.daemon.conns, Then(s, m).daemon.conns;
    forall c | c in conns && conns[c].owner == Some(j)
      ensures c in conns' && conns'[c] == conns[c]
    {
      if !m.Spawn? && c in Dropped(s.agents[m.k], m) {
        DroppedIsOwn(conns, m.k, s.agents[m.k], m, c);
      }
    }
    Apart(conns, conns', j, s.agents[j]);
  }

  lemma MoveKeepsDaemon(s: System, m: Move)
    requires Ok(s.daemon) && Possible(s, m)
    ensures Ok(Then(s, m).daemon)
  {
    hide Ok, Admission.After, Admission.Can, HungUp;
    match m {
      case Serve(step) => StepKeeps(s.daemon, step);
      case Drained(k) => var a := s.agents[k]; HungUpOk(s.daemon, a.held[Min(|a.held|, InUse(a) + 1)..]);
      case Cancel(k) => HungUpOk(s.daemon, OrderOf(s.agents[k]));
      case Refused(k) => HungUpOk(s.daemon, OrderOf(s.agents[k]));
      case Place(k, c) => PlaceKeeps(s.daemon, k, c, s.agents[k].build);
      case _ =>
    }
  }

  lemma PlaceKeeps(d: Daemon, k: nat, c: nat, b: Build)
    requires Ok(d) && c !in d.conns
    ensures Ok(d.(conns := d.conns[c := Conn(map[], Reading, Some(k), Some(b), true)]))
  {
    hide Ok;
    StepKeeps(d, Accept(c, Some(k), Some(b)));
  }

  /** Every move of every broker, of ghc, of the daemon and of its other clients keeps the invariant. */
  lemma MoveKeeps(s: System, m: Move)
    requires SystemOk(s) && Possible(s, m)
    ensures SystemOk(Then(s, m))
  {
    MoveKeepsDaemon(s, m);
    hide Ok, Admission.After, Admission.Can;
    var t := Then(s, m);
    forall j | j in t.agents
      ensures AgentOk(t.daemon.conns, j, t.agents[j])
    {
      if m.Serve? {
        ServeKeepsAgent(s.daemon, m.step, j, s.agents[j]);
      } else if m.k != j {
        MoveIsApart(s, m, j);
      } else if !m.Spawn? {
        OwnMove(s, m);
      }
    }
  }

  // ---------------------------------------------------------------- conservation over the whole system

  /** 1 for a connection that is in its broker's hands. */
  function Used(agents: map<nat, Agent>, c: nat, x: Conn): int {
    if x.owner.Some? && x.owner.value in agents && c in agents[x.owner.value].held then 1 else 0
  }

  ghost function Uses(agents: map<nat, Agent>, conns: map<nat, Conn>): map<nat, int> {
    map c | c in conns :: Used(agents, c, conns[c])
  }

  ghost function Listed(held: seq<nat>, conns: map<nat, Conn>): map<nat, int> {
    map c | c in conns :: if c in held then 1 else 0
  }

  ghost function HeldBy(agents: map<nat, Agent>): map<nat, int> { map k | k in agents :: |agents[k].held| }

  ghost function InFlight(agents: map<nat, Agent>): map<nat, int> {
    map k | k in agents :: agents[k].sem + agents[k].ghc
  }

  lemma {:induction false} ListedSum(held: seq<nat>, conns: map<nat, Conn>)
    requires Distinct(held) && forall h :: h in held ==> h in conns
    ensures Sum(Listed(held, conns)) == |held|
  {
    if held == [] {
      SumZero(Listed(held, conns));
    } else {
      var n := |held| - 1;
      assert held == held[..n] + [held[n]];
      ListedSum(held[..n], conns);
      assert held[n] !in held[..n];
      assert Listed(held, conns) == Listed(held[..n], conns)[held[n] := 1];
      SumSet(Listed(held[..n], conns), held[n], 1);
    }
  }

  lemma UsesSplit(agents: map<nat, Agent>, conns: map<nat, Conn>, k: nat)
    requires k in agents && AgentOk(conns, k, agents[k])
    ensures Sum(Uses(agents, conns)) == Sum(Uses(agents - {k}, conns)) + |agents[k].held|
  {
    var held := agents[k].held;
    assert forall h :: h in held ==> Token(conns, h, k, agents[k].build);
    ListedSum(held, conns);
    var rest := Uses(agents - {k}, conns);
    var mine := Listed(held, conns);
    SumPlus(rest, mine);
    assert Uses(agents, conns) == map c | c in rest :: rest[c] + mine[c];
  }

  lemma {:induction false} UsesSum(agents: map<nat, Agent>, conns: map<nat, Conn>)
    requires forall k :: k in agents ==> AgentOk(conns, k, agents[k])
    ensures Sum(Uses(agents, conns)) == Sum(HeldBy(agents))
    decreases |agents|
  {
    if agents == map[] {
      SumZero(Uses(agents, conns));
    } else {
      var k :| k in agents;
      UsesSplit(agents, conns, k);
      UsesSum(agents - {k}, conns);
      assert HeldBy(agents) - {k} == HeldBy(agents - {k});
      SumTake(HeldBy(agents), k);
    }
  }

  lemma UsedIsOwned(s: System, c: nat)
    requires SystemOk(s) && c in s.daemon.conns
    ensures Used(s.agents, c, s.daemon.conns[c]) <= Owns(s.daemon.conns[c], None)
  {
    var x := s.daemon.conns[c];
    LedgersOf(s.daemon, c);
    OwnsNatural(x, None);
    hide Ok, Owns;
    if x.owner.Some? && x.owner.value in s.agents && c in s.agents[x.owner.value].held {
      var a := s.agents[x.owner.value];
      assert AgentOk(s.daemon.conns, x.owner.value, a);
      assert Token(s.daemon.conns, c, x.owner.value, a.build);
      assert Unit(a.build, None) == 1;
      LedgerOwned(x);
    }
  }

  lemma LedgerOwned(x: Conn)
    ensures InLedger(x.ledger, None) <= Owns(x, None)
  {
  }

  /** What the ghcs of a machine can have running, plus what lies ready in their semaphores, is at most
      what the brokers hold, which is at most what the daemon has given out, which is at most its limit. */
  lemma TokensNeverExceedSlots(s: System)
    requires SystemOk(s)
    ensures Sum(InFlight(s.agents)) <= Sum(HeldBy(s.agents)) <= s.daemon.slots.out <= s.daemon.slots.limit
    ensures (forall k :: k in s.agents ==> s.agents[k].phase.Rest?) ==> Sum(InFlight(s.agents)) == Sum(HeldBy(s.agents))
  {
    forall k | k in s.agents
      ensures InFlight(s.agents)[k] <= HeldBy(s.agents)[k]
    {
      assert AgentOk(s.daemon.conns, k, s.agents[k]);
    }
    SumAtMost(InFlight(s.agents), HeldBy(s.agents));
    UsesSum(s.agents, s.daemon.conns);
    forall c | c in s.daemon.conns
      ensures Uses(s.agents, s.daemon.conns)[c] <= Shares(s.daemon.conns, None)[c]
    {
      UsedIsOwned(s, c);
    }
    SumAtMost(Uses(s.agents, s.daemon.conns), Shares(s.daemon.conns, None));
    assert Measure(s.daemon.slots, None) == Owned(s.daemon.conns, None);
    if forall k :: k in s.agents ==> s.agents[k].phase.Rest? {
      assert forall k :: k in s.agents ==> AgentOk(s.daemon.conns, k, s.agents[k]);
      assert InFlight(s.agents) == HeldBy(s.agents);
    }
  }

  predicate Moves(s: System, ms: seq<Move>)
    decreases |ms|
  {
    ms == [] || (Possible(s, ms[0]) && Moves(Then(s, ms[0]), ms[1..]))
  }

  function Outcome(s: System, ms: seq<Move>): System
    requires Moves(s, ms)
    decreases |ms|
  {
    if ms == [] then s else Outcome(Then(s, ms[0]), ms[1..])
  }

  lemma {:induction false} GrantLimit(s: State)
    ensures Grant(s).limit == s.limit
    decreases |s.waiting|
  {
    if s.out < s.limit && s.waiting != [] {
      GrantLimit(GrantOne(s));
    }
  }

  lemma LimitStays(s: System, m: Move)
    requires Possible(s, m)
    ensures Then(s, m).daemon.slots.limit == s.daemon.slots.limit
  {
    if m.Serve? && (m.step.Release? || m.step.GiveBack?) {
      var b := if m.step.Release? then s.daemon.conns[m.step.c].stage.build else m.step.build;
      GrantLimit(Returned(s.daemon.slots, b));
    }
  }

  /** Over every run from a fresh daemon no schedule of brokers, ghcs, crashes of clients and other
      builds lets more be used than the limit. */
  lemma EveryRunIsBounded(limit: nat, ms: seq<Move>)
    requires Moves(System(Daemon(State(limit, 0, map[], []), map[]), map[]), ms)
    ensures var s := Outcome(System(Daemon(State(limit, 0, map[], []), map[]), map[]), ms);
            && SystemOk(s)
            && Sum(InFlight(s.agents)) <= Sum(HeldBy(s.agents)) <= s.daemon.slots.out <= limit
            && (forall k :: k in s.agents && s.agents[k].phase.Rest? ==>
                  s.agents[k].sem + s.agents[k].ghc == |s.agents[k].held|)
  {
    var first := System(Daemon(State(limit, 0, map[], []), map[]), map[]);
    StartOk(limit);
    assert SystemOk(first);
    hide Ok, Moves, Outcome;
    RunIsOk(first, ms);
    TokensNeverExceedSlots(Outcome(first, ms));
    var s := Outcome(first, ms);
    assert forall k :: k in s.agents ==> AgentOk(s.daemon.conns, k, s.agents[k]);
  }

  lemma {:induction false} RunIsOk(s: System, ms: seq<Move>)
    requires SystemOk(s) && Moves(s, ms)
    ensures SystemOk(Outcome(s, ms))
    ensures Outcome(s, ms).daemon.slots.limit == s.daemon.slots.limit
    decreases |ms|
  {
    if ms != [] {
      hide SystemOk, Then, Possible;
      MoveKeeps(s, ms[0]);
      LimitStays(s, ms[0]);
      RunIsOk(Then(s, ms[0]), ms[1..]);
    }
  }
}
