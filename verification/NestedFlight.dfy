/**
  Singleflight calls that nest (backend/database/cache_manager.py, `get_or_fetch`): a `fetch_fn` may itself ask the
  cache, directly or through threads it waits for. A thread of the flat protocol is here one call, and every call
  made from inside a `fetch_fn` remembers its caller.
*/
module NestedFlight {
  import opened Counting
  import opened Singleflight

  type Call = Thread

  /** `callers` maps each unfinished nested call to the call whose `fetch_fn` waits for it. */
  datatype Nest = Nest(flight: Flight, callers: map<Call, Call>)
  datatype NestOp = Own(op: Op) | Nested(t: Call, key: Key, caller: Call)

  ghost predicate AwaitsCallee(n: Nest, t: Call) { exists c :: c in n.callers && n.callers[c] == t }

  /** A fetch cannot finish before the calls it made; a nested call is made by a call that is fetching. */
  ghost predicate CanStep(n: Nest, step: NestOp) {
    match step
    case Own(op) => Enabled(n.flight, op) && (op.Finish? ==> !AwaitsCallee(n, op.t))
    case Nested(t, key, caller) => Enabled(n.flight, Enter(t, key)) && PhaseOf(n.flight, caller).Fetching?
  }

  /** What a step is to the flat protocol. */
  function Flat(step: NestOp): Op {
    match step
    case Own(op) => op
    case Nested(t, key, _) => Enter(t, key)
  }

  ghost function Next(n: Nest, step: NestOp): Nest
    requires CanStep(n, step)
  {
    var callers :=
      match step
      case Own(op) => if op.Leave? then n.callers - {op.t} else n.callers
      case Nested(t, _, caller) => n.callers[t := caller];
    Nest(Step(n.flight, Flat(step)), callers)
  }

  ghost predicate CanRun(n: Nest, steps: seq<NestOp>)
    decreases |steps|
  {
    steps == [] || (CanStep(n, steps[0]) && CanRun(Next(n, steps[0]), steps[1..]))
  }

  ghost function Reach(n: Nest, steps: seq<NestOp>): Nest
    requires CanRun(n, steps)
    decreases |steps|
  {
    if steps == [] then n else Reach(Next(n, steps[0]), steps[1..])
  }

  const QUIET := Nest(EMPTY, map[])

  ghost predicate CallersInv(n: Nest) {
    forall c | c in n.callers :: !PhaseOf(n.flight, c).Outside? && PhaseOf(n.flight, n.callers[c]).Fetching?
  }

  ghost predicate NestInv(n: Nest) { Inv(n.flight) && CallersInv(n) }

  lemma StepKeepsCallers(n: Nest, step: NestOp)
    requires CallersInv(n) && CanStep(n, step)
    ensures CallersInv(Next(n, step))
  {
    var u := Next(n, step);
    forall c | c in u.callers ensures !PhaseOf(u.flight, c).Outside? && PhaseOf(u.flight, u.callers[c]).Fetching? {
      if step.Own? { assert c in n.callers; }
    }
  }

  lemma {:induction false} RunKeepsNestInv(n: Nest, steps: seq<NestOp>)
    requires NestInv(n) && CanRun(n, steps)
    ensures NestInv(Reach(n, steps))
    decreases |steps|
  {
    if steps != [] {
      StepKeepsCallers(n, steps[0]);
      StepKeepsInv(n.flight, Flat(steps[0]));
      RunKeepsNestInv(Next(n, steps[0]), steps[1..]);
    }
  }

  /** Nesting only restricts: every nested run is a run of the flat protocol, with all the guarantees of one. */
  lemma {:induction false} NestedRunsAreFlat(n: Nest, steps: seq<NestOp>) returns (ops: seq<Op>)
    requires CanRun(n, steps)
    ensures |ops| == |steps| && (forall i | 0 <= i < |steps| :: ops[i] == Flat(steps[i]))
    ensures Runs(n.flight, ops) && After(n.flight, ops) == Reach(n, steps).flight
    decreases |steps|
  {
    ops := [];
    if steps != [] {
      var rest := NestedRunsAreFlat(Next(n, steps[0]), steps[1..]);
      ops := [Flat(steps[0])] + rest;
      assert ops[1..] == rest;
    }
  }

  // ----- deadlock, exactly -----

  /** A waiting call whose lock is held within `stuck`, or a fetching one that awaits a call within `stuck`. */
  ghost predicate Blocked(n: Nest, t: Call, stuck: set<Call>) {
    match PhaseOf(n.flight, t)
    case Waiting(_, lock) => lock in n.flight.held && n.flight.held[lock] in stuck
    case Fetching(_, _) => exists c :: c in stuck && c in n.callers && n.callers[c] == t
    case _ => false
  }

  /** Calls that wait for one another only. */
  ghost predicate Deadlocked(n: Nest, stuck: set<Call>) {
    forall t | t in stuck :: Blocked(n, t, stuck)
  }

  ghost predicate DeadlockFree(n: Nest) {
    forall stuck: set<Call> :: Deadlocked(n, stuck) ==> stuck == {}
  }

  predicate Moves(op: Op, t: Call) { !op.Store? && !op.Lose? && op.t == t }

  /** A step moves one call only, and only that call's hold on its lock. */
  lemma OthersStay(s: Flight, op: Op, t: Call)
    requires Enabled(s, op) && !Moves(op, t)
    ensures PhaseOf(Step(s, op), t) == PhaseOf(s, t)
  {
  }

  lemma HoldsStay(s: Flight, op: Op, lock: Lock, t: Call)
    requires HeldInv(s) && Enabled(s, op) && !Moves(op, t)
    ensures (lock in s.held && s.held[lock] == t) <==> (lock in Step(s, op).held && Step(s, op).held[lock] == t)
  {
  }

  lemma CalleesStay(n: Nest, step: NestOp, c: Call)
    requires CanStep(n, step) && !Moves(Flat(step), c)
    ensures c in Next(n, step).callers <==> c in n.callers
    ensures c in n.callers ==> Next(n, step).callers[c] == n.callers[c]
  {
  }

  /** A step is never one of a blocked call. */
  lemma BlockedCannotStep(n: Nest, step: NestOp, t: Call, stuck: set<Call>)
    requires CanStep(n, step) && Blocked(n, t, stuck)
    ensures !Moves(Flat(step), t)
  {
  }

  /** What blocks a call is not touched by the steps of others. */
  lemma BlockingIsStable(n: Nest, step: NestOp, t: Call, stuck: set<Call>)
    requires HeldInv(n.flight) && CanStep(n, step) && t in stuck && (forall c | c in stuck :: !Moves(Flat(step), c))
    ensures PhaseOf(Next(n, step).flight, t) == PhaseOf(n.flight, t)
    ensures Blocked(Next(n, step), t, stuck) <==> Blocked(n, t, stuck)
  {
    OthersStay(n.flight, Flat(step), t);
    match PhaseOf(n.flight, t)
    case Waiting(_, lock) =>
      forall holder | holder in stuck
        ensures (lock in n.flight.held && n.flight.held[lock] == holder) <==>
                (lock in Next(n, step).flight.held && Next(n, step).flight.held[lock] == holder)
      {
        HoldsStay(n.flight, Flat(step), lock, holder);
      }
    case Fetching(_, _) =>
      forall c | c in stuck
        ensures (c in n.callers && n.callers[c] == t) <==> (c in Next(n, step).callers && Next(n, step).callers[c] == t)
      {
        CalleesStay(n, step, c);
      }
    case _ =>
  }

  /** Nobody else's step frees a deadlocked call. */
  lemma StepKeepsDeadlock(n: Nest, step: NestOp, stuck: set<Call>)
    requires NestInv(n) && CanStep(n, step) && Deadlocked(n, stuck)
    ensures Deadlocked(Next(n, step), stuck)
    ensures forall t | t in stuck :: PhaseOf(Next(n, step).flight, t) == PhaseOf(n.flight, t)
  {
    forall t | t in stuck ensures !Moves(Flat(step), t) { BlockedCannotStep(n, step, t, stuck); }
    forall t | t in stuck ensures PhaseOf(Next(n, step).flight, t) == PhaseOf(n.flight, t) && Blocked(Next(n, step), t, stuck) {
      BlockingIsStable(n, step, t, stuck);
    }
  }

  lemma {:induction false} DeadlockLasts(n: Nest, steps: seq<NestOp>, stuck: set<Call>)
    requires NestInv(n) && CanRun(n, steps) && Deadlocked(n, stuck)
    ensures Deadlocked(Reach(n, steps), stuck)
    ensures forall t | t in stuck :: PhaseOf(Reach(n, steps).flight, t) == PhaseOf(n.flight, t)
    decreases |steps|
  {
    if steps != [] {
      StepKeepsDeadlock(n, steps[0], stuck);
      StepKeepsCallers(n, steps[0]);
      StepKeepsInv(n.flight, Flat(steps[0]));
      DeadlockLasts(Next(n, steps[0]), steps[1..], stuck);
    }
  }

  ghost function Unfinished(n: Nest): set<Call> {
    Where(n.flight.threads, (p: Phase) => !p.Outside?)
  }

  /** A call that cannot take its next step waits for a held lock or for a call it made. */
  lemma HaltedHasReason(n: Nest, t: Call)
    requires NestInv(n) && t in Unfinished(n) && !CanStep(n, Own(NextStep(PhaseOf(n.flight, t), t)))
    ensures if PhaseOf(n.flight, t).Waiting? then PhaseOf(n.flight, t).lock in n.flight.held
            else PhaseOf(n.flight, t).Fetching? && AwaitsCallee(n, t)
  {
    InsideIsPositive(n.flight, t);
  }

  lemma HaltedIsBlocked(n: Nest, t: Call)
    requires NestInv(n) && t in Unfinished(n) && !CanStep(n, Own(NextStep(PhaseOf(n.flight, t), t)))
    ensures Blocked(n, t, Unfinished(n))
  {
    HaltedHasReason(n, t);
    if PhaseOf(n.flight, t).Waiting? {
      HolderIsInside(n.flight, t);
    } else {
      var c :| c in n.callers && n.callers[c] == t;
      assert c in Unfinished(n);
    }
  }

  lemma SomeCallCanMove(n: Nest) returns (t: Call)
    requires NestInv(n) && DeadlockFree(n) && Unfinished(n) != {}
    ensures t in Unfinished(n) && CanStep(n, Own(NextStep(PhaseOf(n.flight, t), t)))
  {
    if t' :| t' in Unfinished(n) && CanStep(n, Own(NextStep(PhaseOf(n.flight, t'), t'))) {
      t := t';
    } else {
      forall x | x in Unfinished(n) ensures Blocked(n, x, Unfinished(n)) { HaltedIsBlocked(n, x); }
      assert Deadlocked(n, Unfinished(n));
      assert false;
    }
  }

  lemma MovedIsNotBlocked(n: Nest, op: Op, stuck: set<Call>)
    requires NestInv(n) && CanStep(n, Own(op)) && MovesOn(op)
    ensures !Blocked(Next(n, Own(op)), op.t, stuck)
  {
    var u := Next(n, Own(op));
    if op.Recheck? && PhaseOf(u.flight, op.t).Fetching? {
      forall c | c in n.callers ensures n.callers[c] != op.t { assert PhaseOf(n.flight, n.callers[c]).Fetching?; }
    }
  }

  /** A call that moves on deadlocks nobody: calls deadlocked after its step were so before. */
  lemma DeadlockWasThere(n: Nest, op: Op, stuck: set<Call>)
    requires NestInv(n) && CanStep(n, Own(op)) && MovesOn(op) && Deadlocked(Next(n, Own(op)), stuck)
    ensures Deadlocked(n, stuck)
  {
    MovedIsNotBlocked(n, op, stuck);
    assert op.t !in stuck;
    forall t | t in stuck ensures Blocked(n, t, stuck) { BlockingIsStable(n, Own(op), t, stuck); }
  }

  lemma MovingOnStaysFree(n: Nest, op: Op)
    requires NestInv(n) && DeadlockFree(n) && CanStep(n, Own(op)) && MovesOn(op)
    ensures DeadlockFree(Next(n, Own(op)))
  {
    forall stuck: set<Call> | Deadlocked(Next(n, Own(op)), stuck) ensures stuck == {} {
      DeadlockWasThere(n, op, stuck);
    }
  }

  // ----- draining -----

  ghost function CallsAtLeast(s: Flight, k: nat): nat { |Where(s.threads, (p: Phase) => Rank(p) >= k)| }

  /** The steps left to all unfinished calls, counted rank by rank. */
  ghost function AllStepsLeft(s: Flight): nat {
    CallsAtLeast(s, 1) + CallsAtLeast(s, 2) + CallsAtLeast(s, 3) + CallsAtLeast(s, 4) + CallsAtLeast(s, 5)
  }

  lemma CallsAtLeastAfter(s: Flight, u: Flight, t: Call, p: Phase, k: nat)
    requires u.threads == s.threads[t := p]
    ensures k > 0 ==> CallsAtLeast(u, k) == CallsAtLeast(s, k) - Bit(Rank(PhaseOf(s, t)) >= k) + Bit(Rank(p) >= k)
  {
    WhereAfter(s.threads, t, p, (q: Phase) => Rank(q) >= k);
  }

  lemma MovingOnLeavesLess(s: Flight, op: Op)
    requires Enabled(s, op) && MovesOn(op)
    ensures AllStepsLeft(Step(s, op)) < AllStepsLeft(s)
  {
    var u := Step(s, op);
    var p := u.threads[op.t];
    assert u.threads == s.threads[op.t := p] && Rank(p) < Rank(PhaseOf(s, op.t));
    CallsAtLeastAfter(s, u, op.t, p, 1);
    CallsAtLeastAfter(s, u, op.t, p, 2);
    CallsAtLeastAfter(s, u, op.t, p, 3);
    CallsAtLeastAfter(s, u, op.t, p, 4);
    CallsAtLeastAfter(s, u, op.t, p, 5);
  }

  /** Without a deadlock every call can return by the calls' own steps alone. */
  lemma {:induction false} FreeCallsDrain(n: Nest) returns (steps: seq<NestOp>)
    requires NestInv(n) && DeadlockFree(n)
    ensures CanRun(n, steps) && (forall step | step in steps :: step.Own? && MovesOn(step.op))
    ensures Unfinished(Reach(n, steps)) == {}
    decreases AllStepsLeft(n.flight)
  {
    steps := [];
    if Unfinished(n) != {} {
      var t := SomeCallCanMove(n);
      var op := NextStep(PhaseOf(n.flight, t), t);
      MovingOnStaysFree(n, op);
      MovingOnLeavesLess(n.flight, op);
      StepKeepsCallers(n, Own(op));
      StepKeepsInv(n.flight, op);
      var rest := FreeCallsDrain(Next(n, Own(op)));
      steps := [Own(op)] + rest;
      assert steps[1..] == rest;
    }
  }

  ghost predicate Drains(n: Nest, steps: seq<NestOp>) { CanRun(n, steps) && Unfinished(Reach(n, steps)) == {} }

  /** In every reachable state, all calls can still return if and only if no set of calls waits for itself. */
  lemma DrainsExactlyWhenDeadlockFree(before: seq<NestOp>)
    requires CanRun(QUIET, before)
    ensures var n := Reach(QUIET, before);
            (exists steps :: Drains(n, steps)) <==> DeadlockFree(n)
  {
    EmptyInv();
    RunKeepsNestInv(QUIET, before);
    var n := Reach(QUIET, before);
    if steps :| Drains(n, steps) {
      forall stuck: set<Call> | Deadlocked(n, stuck) ensures stuck == {} {
        DeadlockLasts(n, steps, stuck);
        forall t | t in stuck ensures t in Unfinished(Reach(n, steps)) { assert Blocked(Reach(n, steps), t, stuck); }
      }
    }
    if DeadlockFree(n) {
      var steps := FreeCallsDrain(n);
      assert Drains(n, steps);
    }
  }

  // ----- orders that keep calls apart -----

  /** Every nested call asks for a key of a higher rank than the one being fetched. */
  ghost predicate Ranked(n: Nest, rank: Key -> nat) {
    forall c | c in n.callers && !PhaseOf(n.flight, c).Outside? && !PhaseOf(n.flight, n.callers[c]).Outside? ::
      rank(PhaseOf(n.flight, n.callers[c]).key) < rank(PhaseOf(n.flight, c).key)
  }

  ghost predicate RankedStep(n: Nest, step: NestOp, rank: Key -> nat) {
    step.Nested? && PhaseOf(n.flight, step.caller).Fetching? ==> rank(PhaseOf(n.flight, step.caller).key) < rank(step.key)
  }

  ghost predicate RankedRun(n: Nest, steps: seq<NestOp>, rank: Key -> nat)
    requires CanRun(n, steps)
    decreases |steps|
  {
    steps == [] || (RankedStep(n, steps[0], rank) && RankedRun(Next(n, steps[0]), steps[1..], rank))
  }

  lemma KeyStays(s: Flight, op: Op, t: Call)
    requires Enabled(s, op) && !PhaseOf(s, t).Outside? && !PhaseOf(Step(s, op), t).Outside?
    ensures PhaseOf(Step(s, op), t).key == PhaseOf(s, t).key
  {
  }

  lemma StepKeepsRanked(n: Nest, step: NestOp, rank: Key -> nat)
    requires CallersInv(n) && Ranked(n, rank) && CanStep(n, step) && RankedStep(n, step, rank)
    ensures Ranked(Next(n, step), rank)
  {
    var u := Next(n, step);
    forall c | c in u.callers && !PhaseOf(u.flight, c).Outside? && !PhaseOf(u.flight, u.callers[c]).Outside?
      ensures rank(PhaseOf(u.flight, u.callers[c]).key) < rank(PhaseOf(u.flight, c).key)
    {
      if step.Own? || c != step.t {
        assert c in n.callers && n.callers[c] == u.callers[c];
        KeyStays(n.flight, Flat(step), c);
        KeyStays(n.flight, Flat(step), n.callers[c]);
      } else {
        KeyStays(n.flight, Flat(step), step.caller);
      }
    }
  }

  lemma {:induction false} RunKeepsRanked(n: Nest, steps: seq<NestOp>, rank: Key -> nat)
    requires NestInv(n) && Ranked(n, rank) && CanRun(n, steps) && RankedRun(n, steps, rank)
    ensures Ranked(Reach(n, steps), rank)
    decreases |steps|
  {
    if steps != [] {
      StepKeepsRanked(n, steps[0], rank);
      StepKeepsCallers(n, steps[0]);
      StepKeepsInv(n.flight, Flat(steps[0]));
      RunKeepsRanked(Next(n, steps[0]), steps[1..], rank);
    }
  }

  /** From any member of a deadlock one can reach a member of a higher rank. */
  lemma HigherStuck(n: Nest, stuck: set<Call>, t: Call, rank: Key -> nat) returns (c: Call)
    requires NestInv(n) && Ranked(n, rank) && Deadlocked(n, stuck) && t in stuck
    ensures c in stuck && !PhaseOf(n.flight, t).Outside? && !PhaseOf(n.flight, c).Outside?
    ensures rank(PhaseOf(n.flight, t).key) < rank(PhaseOf(n.flight, c).key)
  {
    var owner := t;
    if PhaseOf(n.flight, t).Waiting? {
      HolderIsInside(n.flight, t);
      owner := n.flight.held[PhaseOf(n.flight, t).lock];
    }
    assert Blocked(n, owner, stuck);
    c :| c in stuck && c in n.callers && n.callers[c] == owner;
  }

  lemma {:induction false} NobodyIsHighest(n: Nest, stuck: set<Call>, rest: set<Call>, t: Call, rank: Key -> nat)
    requires NestInv(n) && Ranked(n, rank) && Deadlocked(n, stuck) && rest <= stuck && t in stuck && !PhaseOf(n.flight, t).Outside?
    requires forall c | c in stuck && !PhaseOf(n.flight, c).Outside? && rank(PhaseOf(n.flight, c).key) > rank(PhaseOf(n.flight, t).key) :: c in rest
    ensures false
    decreases rest
  {
    var c := HigherStuck(n, stuck, t, rank);
    NobodyIsHighest(n, stuck, rest - {c}, c, rank);
  }

  /** Nesting along any ranking of the keys never deadlocks: from every reachable state all calls can return. */
  lemma RankedNestingDrains(before: seq<NestOp>, rank: Key -> nat) returns (steps: seq<NestOp>)
    requires CanRun(QUIET, before) && RankedRun(QUIET, before, rank)
    ensures DeadlockFree(Reach(QUIET, before)) && Drains(Reach(QUIET, before), steps)
  {
    EmptyInv();
    RunKeepsNestInv(QUIET, before);
    RunKeepsRanked(QUIET, before, rank);
    var n := Reach(QUIET, before);
    forall stuck: set<Call> | Deadlocked(n, stuck) ensures stuck == {} {
      if t :| t in stuck {
        assert Blocked(n, t, stuck);
        NobodyIsHighest(n, stuck, stuck, t, rank);
      }
    }
    steps := FreeCallsDrain(n);
  }

  /** A call nested on the key of its own caller waits for the lock its caller holds. */
  lemma SameKeyNestingDeadlocks(n: Nest, t: Call, caller: Call)
    requires NestInv(n) && PhaseOf(n.flight, caller).Fetching? && CanStep(n, Nested(t, PhaseOf(n.flight, caller).key, caller))
    ensures var u := Next(n, Nested(t, PhaseOf(n.flight, caller).key, caller));
            && NestInv(u) && Deadlocked(u, {t, caller})
            && PhaseOf(u.flight, caller) == PhaseOf(n.flight, caller) && PhaseOf(u.flight, t).Waiting?
  {
    var step := Nested(t, PhaseOf(n.flight, caller).key, caller);
    var u := Next(n, step);
    StepKeepsCallers(n, step);
    StepKeepsInv(n.flight, Flat(step));
    assert u.callers[t] == caller;
    assert Blocked(u, caller, {t, caller}) && Blocked(u, t, {t, caller});
  }

  /** A `fetch_fn` that asks for the very key it is fetching never returns, whatever happens afterwards. */
  lemma SameKeyNestingNeverReturns(n: Nest, t: Call, caller: Call, later: seq<NestOp>)
    requires NestInv(n) && PhaseOf(n.flight, caller).Fetching?
    requires var step := Nested(t, PhaseOf(n.flight, caller).key, caller); CanStep(n, step) && CanRun(Next(n, step), later)
    ensures var u := Reach(Next(n, Nested(t, PhaseOf(n.flight, caller).key, caller)), later);
            PhaseOf(u.flight, caller) == PhaseOf(n.flight, caller) && PhaseOf(u.flight, t).Waiting?
  {
    SameKeyNestingDeadlocks(n, t, caller);
    DeadlockLasts(Next(n, Nested(t, PhaseOf(n.flight, caller).key, caller)), later, {t, caller});
  }
}
