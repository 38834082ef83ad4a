/**
  The sharded projection counters. `Counters` is what a shard document stores; `Population` is what it
  is supposed to mean: how many stamped jobs of that shard a gauge measures.
*/
module FinalizationProjection {
  import opened Wrappers
  import opened Counting
  import opened FinalizationJob

  datatype Counters = Counters(
    accepted: int, queued: int, leased: int, blockedByok: int, completed: int, deadLetter: int,
    success: int, failure: int, stale: int)
  {
    function Plus(d: Counters): Counters {
      Counters(accepted + d.accepted, queued + d.queued, leased + d.leased, blockedByok + d.blockedByok,
               completed + d.completed, deadLetter + d.deadLetter,
               success + d.success, failure + d.failure, stale + d.stale)
    }

    function Minus(d: Counters): Counters {
      Counters(accepted - d.accepted, queued - d.queued, leased - d.leased, blockedByok - d.blockedByok,
               completed - d.completed, deadLetter - d.deadLetter,
               success - d.success, failure - d.failure, stale - d.stale)
    }

    function At(g: Gauge): int {
      match g
      case Accepted => accepted
      case InStatus(s) =>
        (match s
         case Queued => queued
         case Leased => leased
         case BlockedByok => blockedByok
         case Completed => completed
         case DeadLetter => deadLetter)
      case WithOutcome(o) =>
        (match o
         case Success => success
         case Failure => failure
         case Stale => stale)
    }
  }

  const NONE: Counters := Counters(0, 0, 0, 0, 0, 0, 0, 0, 0)

  datatype Gauge = Accepted | InStatus(status: JobStatus) | WithOutcome(outcome: TerminalOutcome)

  predicate Measures(j: Job, g: Gauge) {
    match g
    case Accepted => true
    case InStatus(s) => j.status == s
    case WithOutcome(o) => j.outcome == Some(o)
  }

  /** What one job contributes to its shard. */
  function Unit(j: Job): Counters {
    var one := match j.status
      case Queued => NONE.(accepted := 1, queued := 1)
      case Leased => NONE.(accepted := 1, leased := 1)
      case BlockedByok => NONE.(accepted := 1, blockedByok := 1)
      case Completed => NONE.(accepted := 1, completed := 1)
      case DeadLetter => NONE.(accepted := 1, deadLetter := 1);
    match j.outcome
    case None => one
    case Some(Success) => one.(success := 1)
    case Some(Failure) => one.(failure := 1)
    case Some(Stale) => one.(stale := 1)
  }

  /** The shards after the increments `delta` of one transaction on a job stamped `shard`. */
  function Bumped(shards: seq<Counters>, shard: Option<nat>, delta: Counters): seq<Counters> {
    if shard.Some? && shard.value < |shards| then shards[shard.value := shards[shard.value].Plus(delta)] else shards
  }

  /** The increments of the transactions: one row per status move that some transaction makes. */
  function Increments(before: JobStatus, after: Job): Counters {
    match before
    case Queued =>
      (match after.status
       case Leased => NONE.(queued := -1, leased := 1)
       case DeadLetter => NONE.(queued := -1, deadLetter := 1, failure := 1)
       case _ => NONE)
    case Leased =>
      (match after.status
       case Queued => NONE.(leased := -1, queued := 1)
       case Completed =>
         if after.outcome == Some(Success) then NONE.(leased := -1, completed := 1, success := 1)
         else NONE.(leased := -1, completed := 1, stale := 1)
       case DeadLetter => NONE.(leased := -1, deadLetter := 1, failure := 1)
       case _ => NONE)
    case BlockedByok => if after.status == Queued then NONE.(blockedByok := -1, queued := 1) else NONE
    case _ => NONE
  }

  /** What a creation writes: the job is accepted and either queued or blocked on its owner's key. */
  function Opening(after: Job): Counters {
    if after.status == BlockedByok then NONE.(accepted := 1, blockedByok := 1) else NONE.(accepted := 1, queued := 1)
  }

  /** The increments written together with one job document. */
  function Delta(before: Option<Job>, after: Job): Counters {
    if before.None? then Opening(after) else Increments(before.value.status, after)
  }

  /** The moves the transactions make: an open job is leased, requeued or ended; a blocked one is only resumed. */
  predicate Moves(before: JobStatus, after: JobStatus) {
    match before
    case Queued => after in {Queued, Leased, DeadLetter}
    case Leased => after in {Queued, Leased, Completed, DeadLetter}
    case BlockedByok => after in {BlockedByok, Queued}
    case _ => after == before
  }

  /** Status, terminal outcome and dead-letter agree on a job: what makes the gauges add up. */
  predicate OutcomeMatchesStatus(j: Job) {
    match j.status
    case Completed => j.outcome == Some(Success) || j.outcome == Some(Stale)
    case DeadLetter => j.outcome == Some(Failure)
    case _ => j.outcome == None
  }

  /** A write the counters follow: a creation opens a job, and any other write is one of the moves. */
  predicate Followed(before: Option<Job>, after: Job) {
    && OutcomeMatchesStatus(after)
    && (before.None? ==> after.status == Queued || after.status == BlockedByok)
    && (before.Some? ==>
          && OutcomeMatchesStatus(before.value) && Moves(before.value.status, after.status)
          && (before.value.status == after.status ==> before.value.outcome == after.outcome))
  }

  /** A write that leaves status and outcome alone has no increments. */
  lemma SameStatusContributesSame(j: Job, after: Job)
    requires j.status == after.status && j.outcome == after.outcome
    ensures Unit(after).Minus(Unit(j)) == NONE && Increments(j.status, after) == NONE
  {
  }

  lemma OpenMoveDifference(j: Job, after: Job)
    requires j.outcome.None? && OutcomeMatchesStatus(after)
    requires Moves(j.status, after.status) && j.status != after.status
    ensures Unit(after).Minus(Unit(j)) == Increments(j.status, after)
  {
    match j.status
    case Queued =>
      assert Unit(j) == NONE.(accepted := 1, queued := 1);
      if after.status == Leased {
        assert Unit(after) == NONE.(accepted := 1, leased := 1);
      } else {
        assert Unit(after) == NONE.(accepted := 1, deadLetter := 1, failure := 1);
      }
    case Leased =>
      assert Unit(j) == NONE.(accepted := 1, leased := 1);
      LeavingLease(Unit(j), after);
    case BlockedByok =>
      assert Unit(j) == NONE.(accepted := 1, blockedByok := 1);
      assert Unit(after) == NONE.(accepted := 1, queued := 1);
  }

  lemma LeavingLease(was: Counters, after: Job)
    requires was == Counters(1, 0, 1, 0, 0, 0, 0, 0, 0)
    requires OutcomeMatchesStatus(after) && after.status in {Queued, Completed, DeadLetter}
    ensures Unit(after).Minus(was) == Increments(Leased, after)
  {
    match after.status
    case Queued => assert Unit(after) == NONE.(accepted := 1, queued := 1);
    case DeadLetter => assert Unit(after) == NONE.(accepted := 1, deadLetter := 1, failure := 1);
    case Completed =>
      if after.outcome == Some(Success) {
        assert Unit(after) == NONE.(accepted := 1, completed := 1, success := 1);
      } else {
        assert Unit(after) == NONE.(accepted := 1, completed := 1, stale := 1);
      }
  }

  /** Those increments are exactly the difference between what the job contributed and what it now contributes. */
  lemma IncrementsAreUnitDifferences(j: Job, after: Job)
    requires Followed(Some(j), after)
    ensures Unit(after).Minus(Unit(j)) == Increments(j.status, after)
  {
    if j.status == after.status {
      SameStatusContributesSame(j, after);
    } else {
      OpenMoveDifference(j, after);
    }
  }

  lemma MinusNone(c: Counters)
    ensures c.Minus(NONE) == c
  {
  }

  lemma OpeningIsContribution(after: Job)
    requires (after.status == Queued || after.status == BlockedByok) && after.outcome.None?
    ensures Unit(after) == Opening(after)
  {
    match after.status
    case Queued =>
    case BlockedByok =>
  }

  predicate Belongs(j: Job, k: nat, g: Gauge) {
    j.shard == Some(k) && Measures(j, g)
  }

  ghost function Members(jobs: map<JobId, Job>, k: nat, g: Gauge): set<JobId> {
    set id | id in jobs && Belongs(jobs[id], k, g)
  }

  ghost function Population(jobs: map<JobId, Job>, k: nat, g: Gauge): nat {
    |Members(jobs, k, g)|
  }

  /** Counters mean what they say, for every shard and every gauge. */
  ghost predicate Faithful(shards: seq<Counters>, jobs: map<JobId, Job>) {
    forall k: nat, g: Gauge :: k < |shards| ==> shards[k].At(g) == Population(jobs, k, g)
  }

  lemma UnitAt(j: Job, g: Gauge)
    ensures Unit(j).At(g) == Bit(Measures(j, g))
  {
  }

  lemma PopulationAfter(jobs: map<JobId, Job>, id: JobId, after: Job, k: nat, g: Gauge)
    requires id in jobs ==> jobs[id].shard == after.shard
    ensures Population(jobs[id := after], k, g) ==
              Population(jobs, k, g) - Bit(id in jobs && Belongs(jobs[id], k, g)) + Bit(Belongs(after, k, g))
  {
    var p := (j: Job) => Belongs(j, k, g);
    assert Members(jobs, k, g) == Where(jobs, p);
    assert Members(jobs[id := after], k, g) == Where(jobs[id := after], p);
    WhereAfter(jobs, id, after, p);
  }

  ghost function Contribution(before: Option<Job>): Counters {
    if before.Some? then Unit(before.value) else NONE
  }

  lemma OpeningDifference(after: Job, was: Counters)
    requires (after.status == Queued || after.status == BlockedByok) && after.outcome.None? && was == NONE
    ensures Opening(after) == Unit(after).Minus(was)
  {
    OpeningIsContribution(after);
    MinusNone(Unit(after));
  }

  lemma DeltaIsUnitDifference(before: Option<Job>, after: Job, was: Counters)
    requires Followed(before, after) && was == Contribution(before)
    ensures Delta(before, after) == Unit(after).Minus(was)
  {
    if before.Some? {
      IncrementsAreUnitDifferences(before.value, after);
    } else {
      OpeningDifference(after, was);
    }
  }

  lemma ContributionAt(before: Option<Job>, g: Gauge)
    ensures Contribution(before).At(g) == Bit(before.Some? && Measures(before.value, g))
  {
    if before.Some? { UnitAt(before.value, g); }
  }

  lemma DifferenceAt(becomes: Counters, was: Counters, delta: Counters, g: Gauge)
    requires delta == becomes.Minus(was)
    ensures delta.At(g) == becomes.At(g) - was.At(g)
  {
    PlusAt(becomes, was, g);
  }

  /** One gauge of one shard, before and after. */
  lemma BumpedAt(shards: seq<Counters>, jobs: map<JobId, Job>, id: JobId, after: Job, delta: Counters, k: nat, g: Gauge)
    requires k < |shards| && shards[k].At(g) == Population(jobs, k, g)
    requires id in jobs ==> jobs[id].shard == after.shard
    requires after.shard == Some(k) ==> delta.At(g) == Bit(Measures(after, g)) - Bit(id in jobs && Measures(jobs[id], g))
    ensures Bumped(shards, after.shard, delta)[k].At(g) == Population(jobs[id := after], k, g)
  {
    PopulationAfter(jobs, id, after, k, g);
    if after.shard == Some(k) { PlusAt(shards[k], delta, g); }
  }

  /** Adding the difference of a job's contributions to its shard keeps every counter of every shard. */
  lemma BumpKeepsFaithful(shards: seq<Counters>, jobs: map<JobId, Job>, id: JobId, after: Job, delta: Counters)
    requires Faithful(shards, jobs) && (id in jobs ==> jobs[id].shard == after.shard)
    requires after.shard.None? || delta == Unit(after).Minus(Contribution(Lookup(jobs, id)))
    ensures Faithful(Bumped(shards, after.shard, delta), jobs[id := after])
  {
    forall k: nat, g: Gauge | k < |shards|
      ensures Bumped(shards, after.shard, delta)[k].At(g) == Population(jobs[id := after], k, g)
    {
      if after.shard.Some? {
        DifferenceAt(Unit(after), Contribution(Lookup(jobs, id)), delta, g);
        UnitAt(after, g);
        ContributionAt(Lookup(jobs, id), g);
      }
      BumpedAt(shards, jobs, id, after, delta, k, g);
    }
  }

  /** The literal increments of a transaction keep the counters equal to the population. */
  lemma DeltaKeepsFaithful(shards: seq<Counters>, jobs: map<JobId, Job>, id: JobId, after: Job)
    requires Faithful(shards, jobs) && (id in jobs ==> jobs[id].shard == after.shard)
    requires after.shard.None? || Followed(Lookup(jobs, id), after)
    ensures Faithful(Bumped(shards, after.shard, Delta(Lookup(jobs, id), after)), jobs[id := after])
  {
    var before := Lookup(jobs, id);
    if after.shard.Some? { DeltaIsUnitDifference(before, after, Contribution(before)); }
    BumpKeepsFaithful(shards, jobs, id, after, Delta(Lookup(jobs, id), after));
  }

  // ----- the fan-in of the fixed shard set -----

  predicate BelongsBelow(j: Job, below: nat, g: Gauge) {
    j.shard.Some? && j.shard.value < below && Measures(j, g)
  }

  ghost function Counted(jobs: map<JobId, Job>, below: nat, g: Gauge): set<JobId> {
    set id | id in jobs && BelongsBelow(jobs[id], below, g)
  }

  lemma CountedSplits(jobs: map<JobId, Job>, n: nat, g: Gauge)
    ensures |Counted(jobs, n + 1, g)| == |Counted(jobs, n, g)| + |Members(jobs, n, g)|
  {
    assert Counted(jobs, n + 1, g) == Counted(jobs, n, g) + Members(jobs, n, g);
    assert Counted(jobs, n, g) !! Members(jobs, n, g);
  }

  lemma PlusAt(c: Counters, d: Counters, g: Gauge)
    ensures c.Plus(d).At(g) == c.At(g) + d.At(g)
    ensures c.Minus(d).At(g) == c.At(g) - d.At(g)
  {
  }

  function Sum(shards: seq<Counters>): Counters {
    if shards == [] then NONE else Sum(shards[..|shards| - 1]).Plus(shards[|shards| - 1])
  }

  /** Adding up faithful shards counts exactly the stamped jobs, each once. */
  lemma {:induction false} SumCountsStampedJobs(shards: seq<Counters>, jobs: map<JobId, Job>, g: Gauge)
    requires Faithful(shards, jobs)
    ensures Sum(shards).At(g) == |Counted(jobs, |shards|, g)|
  {
    if shards == [] {
      assert Counted(jobs, 0, g) == {};
    } else {
      var n := |shards| - 1;
      var init := shards[..n];
      assert Faithful(init, jobs) by {
        forall k: nat, h: Gauge | k < n ensures init[k].At(h) == Population(jobs, k, h) {
          assert shards[k].At(h) == Population(jobs, k, h);
        }
      }
      SumCountsStampedJobs(init, jobs, g);
      CountedSplits(jobs, n, g);
      PlusAt(Sum(init), shards[n], g);
      assert shards[n].At(g) == Population(jobs, n, g);
    }
  }

  /** The arithmetic identities of the dashboard. */
  predicate Balanced(c: Counters) {
    && c.accepted == c.queued + c.leased + c.blockedByok + c.completed + c.deadLetter
    && c.completed == c.success + c.stale
    && c.deadLetter == c.failure
  }

  /** The identities hold of any population of consistent jobs, hence of any faithful counters. */
  lemma FaithfulIsBalanced(shards: seq<Counters>, jobs: map<JobId, Job>, k: nat)
    requires Faithful(shards, jobs) && k < |shards|
    requires forall id | id in jobs :: OutcomeMatchesStatus(jobs[id])
    ensures Balanced(shards[k])
  {
    StatusesPartition(jobs, k);
    OutcomesPartition(jobs, k);
    var c := shards[k];
    assert c.accepted == c.At(Accepted) && c.queued == c.At(InStatus(Queued)) && c.leased == c.At(InStatus(Leased));
    assert c.blockedByok == c.At(InStatus(BlockedByok)) && c.completed == c.At(InStatus(Completed));
    assert c.deadLetter == c.At(InStatus(DeadLetter)) && c.success == c.At(WithOutcome(Success));
    assert c.failure == c.At(WithOutcome(Failure)) && c.stale == c.At(WithOutcome(Stale));
  }

  lemma StatusesPartition(jobs: map<JobId, Job>, k: nat)
    ensures Population(jobs, k, Accepted) ==
              Population(jobs, k, InStatus(Queued)) + Population(jobs, k, InStatus(Leased))
              + Population(jobs, k, InStatus(BlockedByok)) + Population(jobs, k, InStatus(Completed))
              + Population(jobs, k, InStatus(DeadLetter))
  {
    var all := Members(jobs, k, Accepted);
    var a, b := Members(jobs, k, InStatus(Queued)), Members(jobs, k, InStatus(Leased));
    var c, d := Members(jobs, k, InStatus(BlockedByok)), Members(jobs, k, InStatus(Completed));
    var e := Members(jobs, k, InStatus(DeadLetter));
    forall id | id in all ensures id in a + b + c + d + e {
      var st := jobs[id].status;
      assert st.Queued? || st.Leased? || st.BlockedByok? || st.Completed? || st.DeadLetter?;
    }
    assert all == a + b + c + d + e;
    assert a !! b !! c !! d !! e;
    DisjointSizes(a, b, c, d, e);
  }

  lemma DisjointSizes<T>(a: set<T>, b: set<T>, c: set<T>, d: set<T>, e: set<T>)
    requires a !! b !! c !! d !! e
    ensures |a + b + c + d + e| == |a| + |b| + |c| + |d| + |e|
  {
    assert |a + b| == |a| + |b| && |a + b + c| == |a + b| + |c| && |a + b + c + d| == |a + b + c| + |d|;
  }

  lemma OutcomesPartition(jobs: map<JobId, Job>, k: nat)
    requires forall id | id in jobs :: OutcomeMatchesStatus(jobs[id])
    ensures Population(jobs, k, InStatus(Completed)) ==
              Population(jobs, k, WithOutcome(Success)) + Population(jobs, k, WithOutcome(Stale))
    ensures Population(jobs, k, InStatus(DeadLetter)) == Population(jobs, k, WithOutcome(Failure))
  {
    var done := Members(jobs, k, InStatus(Completed));
    var success, stale := Members(jobs, k, WithOutcome(Success)), Members(jobs, k, WithOutcome(Stale));
    assert done == success + stale && success !! stale;
    assert Members(jobs, k, InStatus(DeadLetter)) == Members(jobs, k, WithOutcome(Failure));
  }

  lemma {:induction false} SumBalanced(shards: seq<Counters>)
    requires forall k :: 0 <= k < |shards| ==> Balanced(shards[k])
    ensures Balanced(Sum(shards))
  {
    if shards != [] {
      SumBalanced(shards[..|shards| - 1]);
      assert Balanced(shards[|shards| - 1]);
    }
  }
}
