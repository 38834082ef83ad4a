/**
  The singleflight protocol of the cache (backend/database/cache_manager.py, `get_or_fetch`): per-key lock
  objects that are created on first use and deleted by the last thread out, as a state machine over threads.
*/
module Singleflight {
  import opened Counting

  type Key = string
  type Thread = nat
  type Lock = nat   // a lock object; a new one is made each time a key comes back

  /** Where a thread stands inside `get_or_fetch`, and the lock object it took from the table. */
  datatype Phase =
    | Outside
    | Waiting(key: Key, lock: Lock)     // counted, has not acquired the lock
    | Holding(key: Key, lock: Lock)     // acquired, has not looked again
    | Fetching(key: Key, lock: Lock)    // inside fetch_fn
    | Finished(key: Key, lock: Lock)    // value stored or returned, lock not yet released
    | Leaving(key: Key, lock: Lock)     // lock released, not yet discounted

  datatype Flight = Flight(
    threads: map<Thread, Phase>, locks: map<Key, Lock>, counts: map<Key, int>,
    held: map<Lock, Thread>, nextLock: Lock, cached: set<Key>)

  function PhaseOf(s: Flight, t: Thread): Phase { if t in s.threads then s.threads[t] else Outside }

  predicate Counted(p: Phase, key: Key) { !p.Outside? && p.key == key }
  predicate Owns(p: Phase) { p.Holding? || p.Fetching? || p.Finished? }

  /** The threads between the increment and the decrement of the refcount of `key`. */
  ghost function Inside(s: Flight, key: Key): set<Thread> {
    Where(s.threads, (p: Phase) => Counted(p, key))
  }

  datatype Op =
    | Enter(t: Thread, key: Key)        // get or create the lock, count up
    | Acquire(t: Thread)
    | Recheck(t: Thread)                // second lookup: a hit finishes, a miss starts the fetch
    | Finish(t: Thread, stored: bool)   // fetch_fn returned (a value is stored) or returned None or raised
    | Release(t: Thread)
    | Leave(t: Thread)                  // count down, delete the lock when nobody is left
    | Store(stored_key: Key)            // some other caller sets the key
    | Lose(lost: Key)                   // expiry, eviction or deletion

  predicate Enabled(s: Flight, op: Op) {
    match op
    case Enter(t, _) => PhaseOf(s, t).Outside?
    case Acquire(t) => PhaseOf(s, t).Waiting? && PhaseOf(s, t).lock !in s.held
    case Recheck(t) => PhaseOf(s, t).Holding?
    case Finish(t, _) => PhaseOf(s, t).Fetching?
    case Release(t) => PhaseOf(s, t).Finished?
    case Leave(t) => PhaseOf(s, t).Leaving? && PhaseOf(s, t).key in s.counts
    case Store(_) => true
    case Lose(key) => key in s.cached
  }

  function At(s: Flight, t: Thread, p: Phase): Flight { s.(threads := s.threads[t := p]) }

  function EnterTxn(s: Flight, t: Thread, key: Key): Flight {
    var lock := if key in s.locks then s.locks[key] else s.nextLock;
    var count := if key in s.locks && key in s.counts then s.counts[key] else 0;
    At(s, t, Waiting(key, lock)).(
      locks := s.locks[key := lock],
      counts := s.counts[key := count + 1],
      nextLock := if key in s.locks then s.nextLock else s.nextLock + 1)
  }

  function LeaveTxn(s: Flight, t: Thread): Flight
    requires PhaseOf(s, t).Leaving? && PhaseOf(s, t).key in s.counts
  {
    var key := PhaseOf(s, t).key;
    var count := s.counts[key] - 1;
    if count == 0 then At(s, t, Outside).(locks := s.locks - {key}, counts := s.counts - {key})
    else At(s, t, Outside).(counts := s.counts[key := count])
  }

  function Step(s: Flight, op: Op): Flight
    requires Enabled(s, op)
  {
    match op
    case Enter(t, key) => EnterTxn(s, t, key)
    case Acquire(t) =>
      var p := PhaseOf(s, t);
      At(s, t, Holding(p.key, p.lock)).(held := s.held[p.lock := t])
    case Recheck(t) =>
      var p := PhaseOf(s, t);
      At(s, t, if p.key in s.cached then Finished(p.key, p.lock) else Fetching(p.key, p.lock))
    case Finish(t, stored) =>
      var p := PhaseOf(s, t);
      At(s, t, Finished(p.key, p.lock)).(cached := if stored then s.cached + {p.key} else s.cached)
    case Release(t) =>
      var p := PhaseOf(s, t);
      At(s, t, Leaving(p.key, p.lock)).(held := s.held - {p.lock})
    case Leave(t) => LeaveTxn(s, t)
    case Store(key) => s.(cached := s.cached + {key})
    case Lose(key) => s.(cached := s.cached - {key})
  }

  ghost predicate Runs(s: Flight, ops: seq<Op>)
    decreases |ops|
  {
    ops == [] || (Enabled(s, ops[0]) && Runs(Step(s, ops[0]), ops[1..]))
  }

  ghost function After(s: Flight, ops: seq<Op>): Flight
    requires Runs(s, ops)
    decreases |ops|
  {
    if ops == [] then s else After(Step(s, ops[0]), ops[1..])
  }

  const EMPTY := Flight(map[], map[], map[], map[], 0, {})

  // ----- the invariant -----

  /** Both tables have the same keys, and the refcount of a key is the number of threads inside it: never zero. */
  ghost predicate CountInv(s: Flight) {
    && s.locks.Keys == s.counts.Keys
    && (forall key :: (if key in s.counts then s.counts[key] else 0) == |Inside(s, key)|)
    && (forall key | key in s.counts :: s.counts[key] > 0)
  }

  /** Every thread inside a key carries the lock object that the table holds for it now. */
  ghost predicate LockInv(s: Flight) {
    forall t | t in s.threads && !s.threads[t].Outside? ::
      s.threads[t].key in s.locks && s.locks[s.threads[t].key] == s.threads[t].lock
  }

  /** A lock is held by exactly the thread whose phase owns it. */
  ghost predicate HeldInv(s: Flight) {
    && (forall t | t in s.threads && Owns(s.threads[t]) :: s.threads[t].lock in s.held && s.held[s.threads[t].lock] == t)
    && (forall l | l in s.held :: s.held[l] in s.threads && Owns(s.threads[s.held[l]]) && s.threads[s.held[l]].lock == l)
  }

  /** Lock objects of different keys are different, and a new one is new. */
  ghost predicate FreshInv(s: Flight) {
    && (forall key | key in s.locks :: s.locks[key] < s.nextLock)
    && (forall a, b | a in s.locks && b in s.locks && s.locks[a] == s.locks[b] :: a == b)
  }

  ghost predicate Inv(s: Flight) {
    CountInv(s) && LockInv(s) && HeldInv(s) && FreshInv(s)
  }

  lemma InsideAfter(s: Flight, t: Thread, p: Phase, key: Key)
    ensures |Inside(At(s, t, p), key)| ==
              |Inside(s, key)| - Bit(Counted(PhaseOf(s, t), key)) + Bit(Counted(p, key))
  {
    WhereAfter(s.threads, t, p, (q: Phase) => Counted(q, key));
  }

  /** A thread that is inside a key is one of those counted, so the count is positive. */
  lemma InsideIsPositive(s: Flight, t: Thread)
    requires CountInv(s) && !PhaseOf(s, t).Outside?
    ensures PhaseOf(s, t).key in s.counts
  {
    var key := PhaseOf(s, t).key;
    assert t in Inside(s, key);
  }

  /** Moving a thread between phases of the same key leaves every count. */
  lemma SamePlaceKeepsCounts(s: Flight, t: Thread, p: Phase)
    requires CountInv(s) && !p.Outside? && !PhaseOf(s, t).Outside? && p.key == PhaseOf(s, t).key
    ensures CountInv(At(s, t, p))
  {
    forall key ensures (if key in s.counts then s.counts[key] else 0) == |Inside(At(s, t, p), key)| {
      InsideAfter(s, t, p, key);
    }
  }

  lemma CountsIgnoreHeld(s: Flight, held: map<Lock, Thread>, cached: set<Key>)
    requires CountInv(s)
    ensures CountInv(s.(held := held, cached := cached))
  {
    forall key ensures Inside(s.(held := held, cached := cached), key) == Inside(s, key) {
    }
  }

  lemma EnterKeepsCounts(s: Flight, t: Thread, key: Key)
    requires CountInv(s) && PhaseOf(s, t).Outside?
    ensures CountInv(EnterTxn(s, t, key))
  {
    var u := EnterTxn(s, t, key);
    forall k ensures (if k in u.counts then u.counts[k] else 0) == |Inside(u, k)| {
      InsideAfter(s, t, u.threads[t], k);
      assert Inside(u, k) == Inside(At(s, t, u.threads[t]), k);
    }
    assert u.counts[key] > 0;
  }

  lemma LeaveKeepsCounts(s: Flight, t: Thread)
    requires CountInv(s) && PhaseOf(s, t).Leaving? && PhaseOf(s, t).key in s.counts
    ensures CountInv(LeaveTxn(s, t))
  {
    var u := LeaveTxn(s, t);
    forall k ensures (if k in u.counts then u.counts[k] else 0) == |Inside(u, k)| {
      InsideAfter(s, t, Outside, k);
      assert Inside(u, k) == Inside(At(s, t, Outside), k);
    }
    assert s.counts[PhaseOf(s, t).key] > 0;
  }

  /** When the last thread leaves, no other thread was inside that key. */
  lemma LastOneOut(s: Flight, t: Thread, other: Thread)
    requires CountInv(s) && PhaseOf(s, t).Leaving? && PhaseOf(s, t).key in s.counts && s.counts[PhaseOf(s, t).key] == 1
    requires Counted(PhaseOf(s, other), PhaseOf(s, t).key)
    ensures other == t
  {
    var inside := Inside(s, PhaseOf(s, t).key);
    assert t in inside && other in inside;
    SizeWithout(inside, t);
    assert inside - {t} == {};
    assert other !in inside - {t};
  }

  lemma EnterKeepsLocks(s: Flight, t: Thread, key: Key)
    requires LockInv(s) && PhaseOf(s, t).Outside?
    ensures LockInv(EnterTxn(s, t, key))
  {
    var u := EnterTxn(s, t, key);
    forall x | x in u.threads && !u.threads[x].Outside?
      ensures u.threads[x].key in u.locks && u.locks[u.threads[x].key] == u.threads[x].lock
    {
      if x != t { assert s.threads[x] == u.threads[x]; }
    }
  }

  /** Threads that own nothing may enter and leave without touching who holds what. */
  lemma BystanderKeepsHeld(s: Flight, t: Thread, p: Phase)
    requires HeldInv(s) && !Owns(PhaseOf(s, t)) && !Owns(p)
    ensures HeldInv(At(s, t, p))
  {
  }

  lemma EnterKeepsFresh(s: Flight, t: Thread, key: Key)
    requires FreshInv(s)
    ensures FreshInv(EnterTxn(s, t, key))
  {
  }

  lemma EnterKeepsInv(s: Flight, t: Thread, key: Key)
    requires Inv(s) && PhaseOf(s, t).Outside?
    ensures Inv(EnterTxn(s, t, key))
  {
    EnterKeepsCounts(s, t, key);
    EnterKeepsLocks(s, t, key);
    EnterKeepsFresh(s, t, key);
    BystanderKeepsHeld(s, t, EnterTxn(s, t, key).threads[t]);
  }

  lemma LeaveKeepsLocks(s: Flight, t: Thread)
    requires CountInv(s) && LockInv(s) && PhaseOf(s, t).Leaving? && PhaseOf(s, t).key in s.counts
    ensures LockInv(LeaveTxn(s, t))
  {
    var u := LeaveTxn(s, t);
    forall x | x in u.threads && !u.threads[x].Outside?
      ensures u.threads[x].key in u.locks && u.locks[u.threads[x].key] == u.threads[x].lock
    {
      assert x != t && s.threads[x] == u.threads[x];
      if u.threads[x].key == PhaseOf(s, t).key && s.counts[PhaseOf(s, t).key] == 1 {
        LastOneOut(s, t, x);
        assert false;
      }
    }
  }

  lemma LeaveKeepsInv(s: Flight, t: Thread)
    requires Inv(s) && PhaseOf(s, t).Leaving? && PhaseOf(s, t).key in s.counts
    ensures Inv(LeaveTxn(s, t))
  {
    LeaveKeepsCounts(s, t);
    LeaveKeepsLocks(s, t);
    BystanderKeepsHeld(s, t, Outside);
  }

  lemma SamePlaceKeepsLocks(s: Flight, t: Thread, p: Phase)
    requires LockInv(s) && !p.Outside? && !PhaseOf(s, t).Outside? && p.key == PhaseOf(s, t).key && p.lock == PhaseOf(s, t).lock
    ensures LockInv(At(s, t, p))
  {
  }

  /** Recheck and finish: the owner of a lock moves on, still owning it. */
  lemma OwnerMovesKeepsInv(s: Flight, t: Thread, p: Phase, cached: set<Key>)
    requires Inv(s) && Owns(PhaseOf(s, t)) && Owns(p) && p.key == PhaseOf(s, t).key && p.lock == PhaseOf(s, t).lock
    ensures Inv(At(s, t, p).(cached := cached))
  {
    SamePlaceKeepsCounts(s, t, p);
    CountsIgnoreHeld(At(s, t, p), s.held, cached);
    SamePlaceKeepsLocks(s, t, p);
  }

  lemma AcquireKeepsInv(s: Flight, t: Thread)
    requires Inv(s) && Enabled(s, Acquire(t))
    ensures Inv(Step(s, Acquire(t)))
  {
    var p := PhaseOf(s, t);
    var held := s.held[p.lock := t];
    var u := At(s, t, Holding(p.key, p.lock));
    SamePlaceKeepsCounts(s, t, Holding(p.key, p.lock));
    CountsIgnoreHeld(u, held, s.cached);
    SamePlaceKeepsLocks(s, t, Holding(p.key, p.lock));
    AcquireKeepsHeld(s, t);
  }

  lemma AcquireKeepsHeld(s: Flight, t: Thread)
    requires HeldInv(s) && Enabled(s, Acquire(t))
    ensures HeldInv(Step(s, Acquire(t)))
  {
  }

  lemma ReleaseKeepsInv(s: Flight, t: Thread)
    requires Inv(s) && Enabled(s, Release(t))
    ensures Inv(Step(s, Release(t)))
  {
    var p := PhaseOf(s, t);
    var held := s.held - {p.lock};
    var u := At(s, t, Leaving(p.key, p.lock));
    SamePlaceKeepsCounts(s, t, Leaving(p.key, p.lock));
    CountsIgnoreHeld(u, held, s.cached);
    SamePlaceKeepsLocks(s, t, Leaving(p.key, p.lock));
    ReleaseKeepsHeld(s, t);
  }

  lemma ReleaseKeepsHeld(s: Flight, t: Thread)
    requires HeldInv(s) && Enabled(s, Release(t))
    ensures HeldInv(Step(s, Release(t)))
  {
  }

  lemma StepKeepsInv(s: Flight, op: Op)
    requires Inv(s) && Enabled(s, op)
    ensures Inv(Step(s, op))
  {
    match op
    case Enter(t, key) => EnterKeepsInv(s, t, key);
    case Leave(t) => LeaveKeepsInv(s, t);
    case Store(key) => CountsIgnoreHeld(s, s.held, s.cached + {key});
    case Lose(key) => CountsIgnoreHeld(s, s.held, s.cached - {key});
    case Acquire(t) => AcquireKeepsInv(s, t);
    case Release(t) => ReleaseKeepsInv(s, t);
    case Recheck(t) =>
      var p := PhaseOf(s, t);
      OwnerMovesKeepsInv(s, t, if p.key in s.cached then Finished(p.key, p.lock) else Fetching(p.key, p.lock), s.cached);
    case Finish(t, stored) =>
      var p := PhaseOf(s, t);
      OwnerMovesKeepsInv(s, t, Finished(p.key, p.lock), if stored then s.cached + {p.key} else s.cached);
  }

  lemma EmptyInv()
    ensures Inv(EMPTY)
  {
    forall key ensures |Inside(EMPTY, key)| == 0 { assert Inside(EMPTY, key) == {}; }
  }

  lemma {:induction false} RunKeepsInv(s: Flight, ops: seq<Op>)
    requires Inv(s) && Runs(s, ops)
    ensures Inv(After(s, ops))
    decreases |ops|
  {
    if ops != [] {
      StepKeepsInv(s, ops[0]);
      RunKeepsInv(Step(s, ops[0]), ops[1..]);
    }
  }

  // ----- the theorems -----

  lemma OneOwnerPerKey(s: Flight, t: Thread, u: Thread)
    requires Inv(s) && Owns(PhaseOf(s, t)) && Owns(PhaseOf(s, u)) && PhaseOf(s, t).key == PhaseOf(s, u).key
    ensures t == u
  {
  }

  /** No two threads are ever inside `fetch_fn` for one key, even across deletion and recreation of its lock. */
  lemma FetchIsExclusive(ops: seq<Op>, t: Thread, u: Thread)
    requires Runs(EMPTY, ops)
    ensures var s := After(EMPTY, ops);
            PhaseOf(s, t).Fetching? && PhaseOf(s, u).Fetching? && PhaseOf(s, t).key == PhaseOf(s, u).key ==> t == u
  {
    EmptyInv();
    RunKeepsInv(EMPTY, ops);
    var s := After(EMPTY, ops);
    if PhaseOf(s, t).Fetching? && PhaseOf(s, u).Fetching? && PhaseOf(s, t).key == PhaseOf(s, u).key {
      OneOwnerPerKey(s, t, u);
    }
  }

  /** In every reachable state the tables agree, refcounts are exact and never leak, and no thread holds a stale lock. */
  lemma TablesAreExact(ops: seq<Op>, key: Key)
    requires Runs(EMPTY, ops)
    ensures var s := After(EMPTY, ops);
            && (key in s.locks <==> key in s.counts)
            && (key in s.counts <==> Inside(s, key) != {})
            && (key in s.counts ==> s.counts[key] == |Inside(s, key)|)
            && (forall t | t in Inside(s, key) :: key in s.locks && s.threads[t].lock == s.locks[key])
  {
    EmptyInv();
    RunKeepsInv(EMPTY, ops);
    var s := After(EMPTY, ops);
    if Inside(s, key) != {} {
      var t :| t in Inside(s, key);
      InsideIsPositive(s, t);
    }
  }

  /** The decrement never misses its key: a thread on its way out always finds its counter. */
  lemma LeaveIsAlwaysEnabled(ops: seq<Op>, t: Thread)
    requires Runs(EMPTY, ops)
    ensures PhaseOf(After(EMPTY, ops), t).Leaving? ==> Enabled(After(EMPTY, ops), Leave(t))
  {
    EmptyInv();
    RunKeepsInv(EMPTY, ops);
    if PhaseOf(After(EMPTY, ops), t).Leaving? { InsideIsPositive(After(EMPTY, ops), t); }
  }

  // ----- progress -----

  /** A step of a thread that is already inside. */
  predicate MovesOn(op: Op) { op.Acquire? || op.Recheck? || op.Finish? || op.Release? || op.Leave? }

  /** The thread that holds a lock that some thread inside `key` waits for is inside `key` as well. */
  lemma HolderIsInside(s: Flight, t: Thread)
    requires Inv(s) && PhaseOf(s, t).Waiting? && PhaseOf(s, t).lock in s.held
    ensures var holder := s.held[PhaseOf(s, t).lock];
            Owns(PhaseOf(s, holder)) && PhaseOf(s, holder).key == PhaseOf(s, t).key
  {
    var holder := s.held[PhaseOf(s, t).lock];
    assert s.locks[PhaseOf(s, holder).key] == s.locks[PhaseOf(s, t).key];
  }

  /** No deadlock: as long as any thread is inside a key, some thread inside that key can take its next step. */
  lemma SomeoneCanMove(s: Flight, key: Key) returns (op: Op)
    requires Inv(s) && Inside(s, key) != {}
    ensures MovesOn(op) && Enabled(s, op) && op.t in Inside(s, key)
  {
    var t :| t in Inside(s, key);
    if PhaseOf(s, t).Waiting? && PhaseOf(s, t).lock in s.held {
      HolderIsInside(s, t);
      t := s.held[PhaseOf(s, t).lock];
    }
    InsideIsPositive(s, t);
    op := NextStep(PhaseOf(s, t), t);
  }

  function NextStep(p: Phase, t: Thread): Op
    requires !p.Outside?
  {
    match p
    case Waiting(_, _) => Acquire(t)
    case Holding(_, _) => Recheck(t)
    case Fetching(_, _) => Finish(t, false)
    case Finished(_, _) => Release(t)
    case Leaving(_, _) => Leave(t)
  }

  lemma NoDeadlock(ops: seq<Op>, key: Key) returns (op: Op)
    requires Runs(EMPTY, ops) && Inside(After(EMPTY, ops), key) != {}
    ensures MovesOn(op) && Enabled(After(EMPTY, ops), op) && op.t in Inside(After(EMPTY, ops), key)
  {
    EmptyInv();
    RunKeepsInv(EMPTY, ops);
    op := SomeoneCanMove(After(EMPTY, ops), key);
  }

  /** How many steps a thread is from having left. */
  function Rank(p: Phase): nat {
    match p
    case Outside => 0
    case Waiting(_, _) => 5
    case Holding(_, _) => 4
    case Fetching(_, _) => 3
    case Finished(_, _) => 2
    case Leaving(_, _) => 1
  }

  ghost function AtLeast(s: Flight, key: Key, k: nat): nat {
    |Where(s.threads, (p: Phase) => Counted(p, key) && Rank(p) >= k)|
  }

  /** The steps left to all threads inside a key, counted rank by rank. */
  ghost function StepsLeft(s: Flight, key: Key): nat {
    AtLeast(s, key, 1) + AtLeast(s, key, 2) + AtLeast(s, key, 3) + AtLeast(s, key, 4) + AtLeast(s, key, 5)
  }

  lemma AtLeastAfter(s: Flight, t: Thread, p: Phase, key: Key, k: nat)
    ensures AtLeast(At(s, t, p), key, k) ==
              AtLeast(s, key, k) - Bit(Counted(PhaseOf(s, t), key) && Rank(PhaseOf(s, t)) >= k) + Bit(Counted(p, key) && Rank(p) >= k)
  {
    WhereAfter(s.threads, t, p, (q: Phase) => Counted(q, key) && Rank(q) >= k);
  }

  /** A thread inside a key that moves on brings the key closer to being empty. */
  lemma RankFallsShrinks(s: Flight, t: Thread, p: Phase, key: Key)
    requires Counted(PhaseOf(s, t), key) && Rank(p) < Rank(PhaseOf(s, t)) && (p.Outside? || p.key == key)
    ensures StepsLeft(At(s, t, p), key) < StepsLeft(s, key)
  {
    AtLeastAfter(s, t, p, key, 1);
    AtLeastAfter(s, t, p, key, 2);
    AtLeastAfter(s, t, p, key, 3);
    AtLeastAfter(s, t, p, key, 4);
    AtLeastAfter(s, t, p, key, 5);
  }

  lemma StepsLeftIsOfThreads(s: Flight, u: Flight, key: Key)
    requires s.threads == u.threads
    ensures StepsLeft(s, key) == StepsLeft(u, key)
  {
  }

  lemma MovingOnShrinks(s: Flight, op: Op, key: Key)
    requires Enabled(s, op) && MovesOn(op) && op.t in Inside(s, key)
    ensures StepsLeft(Step(s, op), key) < StepsLeft(s, key)
  {
    var u := Step(s, op);
    var p := u.threads[op.t];
    assert u.threads == At(s, op.t, p).threads;
    StepsLeftIsOfThreads(u, At(s, op.t, p), key);
    RankFallsShrinks(s, op.t, p, key);
  }

  /**
    Nobody is stranded: from every reachable state, the threads inside a key can all leave by their own steps alone,
    after which both tables have forgotten the key.
  */
  lemma {:induction false} EveryKeyDrains(s: Flight, key: Key) returns (ops: seq<Op>)
    requires Inv(s)
    ensures Runs(s, ops) && (forall op | op in ops :: MovesOn(op)) && |ops| <= StepsLeft(s, key)
    ensures Inside(After(s, ops), key) == {} && key !in After(s, ops).locks && key !in After(s, ops).counts
    decreases StepsLeft(s, key)
  {
    if Inside(s, key) == {} {
      ops := [];
      assert key !in s.counts;
    } else {
      var op := SomeoneCanMove(s, key);
      StepKeepsInv(s, op);
      MovingOnShrinks(s, op, key);
      var rest := EveryKeyDrains(Step(s, op), key);
      ops := [op] + rest;
      assert ops[1..] == rest;
    }
  }

  // ----- how often fetch_fn runs -----

  /** A value is cached exactly from the fetch or store that brought it until it is lost; a fetch without a value caches nothing. */
  lemma CachedExactlyWhen(s: Flight, op: Op, key: Key)
    requires Enabled(s, op)
    ensures key in Step(s, op).cached <==>
              || (op.Store? && op.stored_key == key)
              || (op.Finish? && op.stored && PhaseOf(s, op.t).key == key)
              || (key in s.cached && !(op.Lose? && op.lost == key))
  {
  }

  /** A thread enters `fetch_fn` for `key`. */
  ghost predicate StartsFetch(s: Flight, op: Op, key: Key)
    requires Enabled(s, op)
  {
    op.Recheck? && PhaseOf(Step(s, op), op.t).Fetching? && PhaseOf(Step(s, op), op.t).key == key
  }

  ghost function Starts(s: Flight, ops: seq<Op>, key: Key): nat
    requires Runs(s, ops)
    decreases |ops|
  {
    if ops == [] then 0
    else Bit(StartsFetch(s, ops[0], key)) + Starts(Step(s, ops[0]), ops[1..], key)
  }

  /** Occasions to fetch again: the value was lost, or a fetch brought none. */
  ghost function Setbacks(s: Flight, ops: seq<Op>, key: Key): nat
    requires Runs(s, ops)
    decreases |ops|
  {
    if ops == [] then 0
    else
      Bit(|| (ops[0].Lose? && ops[0].lost == key)
          || (ops[0].Finish? && !ops[0].stored && PhaseOf(s, ops[0].t).key == key))
      + Setbacks(Step(s, ops[0]), ops[1..], key)
  }

  ghost predicate BusyOn(s: Flight, key: Key) {
    exists t :: PhaseOf(s, t).Fetching? && PhaseOf(s, t).key == key
  }

  /** One credit exists when nothing is cached and nobody fetches; only a setback restores it. */
  ghost function Credit(s: Flight, key: Key): nat { if key in s.cached || BusyOn(s, key) then 0 else 1 }

  lemma BusyElsewhere(s: Flight, op: Op, key: Key, t: Thread)
    requires Enabled(s, op) && PhaseOf(s, t).Fetching? && PhaseOf(s, t).key == key
    requires op.Store? || op.Lose? || op.t != t
    ensures BusyOn(Step(s, op), key)
  {
    assert PhaseOf(Step(s, op), t) == PhaseOf(s, t);
  }

  lemma StepPaysForFetch(s: Flight, op: Op, key: Key)
    requires Inv(s) && Enabled(s, op)
    ensures Bit(StartsFetch(s, op, key)) + Credit(Step(s, op), key) <=
              Credit(s, key) + Bit((op.Lose? && op.lost == key) || (op.Finish? && !op.stored && PhaseOf(s, op.t).key == key))
  {
    var u := Step(s, op);
    if StartsFetch(s, op, key) {
      assert PhaseOf(u, op.t).Fetching? && PhaseOf(u, op.t).key == key;
      if BusyOn(s, key) {
        var t :| PhaseOf(s, t).Fetching? && PhaseOf(s, t).key == key;
        OneOwnerPerKey(s, t, op.t);
        assert false;
      }
    } else if BusyOn(s, key) && key !in u.cached {
      var t :| PhaseOf(s, t).Fetching? && PhaseOf(s, t).key == key;
      if op.Store? || op.Lose? || op.t != t { BusyElsewhere(s, op, key, t); }
    }
  }

  /** Over any run, `fetch_fn` starts at most once more than the value was lost or not obtained: no thundering herd. */
  lemma {:induction false} FetchesArePaidFor(s: Flight, ops: seq<Op>, key: Key)
    requires Inv(s) && Runs(s, ops)
    ensures Starts(s, ops, key) + Credit(After(s, ops), key) <= Credit(s, key) + Setbacks(s, ops, key)
    decreases |ops|
  {
    if ops != [] {
      StepKeepsInv(s, ops[0]);
      StepPaysForFetch(s, ops[0], key);
      FetchesArePaidFor(Step(s, ops[0]), ops[1..], key);
    }
  }

  lemma NoThunderingHerd(ops: seq<Op>, key: Key)
    requires Runs(EMPTY, ops)
    ensures Starts(EMPTY, ops, key) <= 1 + Setbacks(EMPTY, ops, key)
  {
    EmptyInv();
    FetchesArePaidFor(EMPTY, ops, key);
  }
}
