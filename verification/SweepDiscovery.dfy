/**
  Which waiting rows the recovery sweep (backend/database/conversation_finalization_jobs.py) eventually returns, while
  its caller (backend/services/conversation_finalization.py) and everybody else keep changing the swept collection
  between sweeps: rows arrive, leave, gain and lose eligibility, and cursor documents may be deleted.
*/
module SweepDiscovery {
  import opened Wrappers
  import opened RecoverySweep

  /** An endless sequence of sweeps: the collection each one reads and the documents that exist when it resolves its cursor. */
  datatype Sweeps = Sweeps(worlds: nat -> seq<Row>, present: nat -> nat -> bool, first: Option<nat>, limit: int, maxScan: int)

  ghost function Paths(rows: seq<Row>): set<nat> { set r | r in rows :: r.path }

  /** The rows still waiting to be recovered. */
  ghost function Waiting(rows: seq<Row>): set<nat> { set r | r in rows && r.eligible :: r.path }

  /** What one sweep from `resume` returns. */
  ghost function Returned(rows: seq<Row>, resume: Option<nat>, present: nat -> bool, limit: int, maxScan: int): set<nat> {
    var s := Start(rows, resume, present);
    set r | r in Eligible(rows, s, Stop(rows, s, limit, maxScan)) :: r.path
  }

  /** Where sweep `k` resumes. */
  ghost function ResumeAt(k: nat, s: Sweeps): Option<nat> {
    if k == 0 then s.first else NextResume(s.worlds(k - 1), ResumeAt(k - 1, s), s.present(k - 1), s.limit, s.maxScan)
  }

  ghost function ReturnedAt(k: nat, s: Sweeps): set<nat> {
    Returned(s.worlds(k), ResumeAt(k, s), s.present(k), s.limit, s.maxScan)
  }

  /** Rows may leave or lose eligibility, but none arrives, none becomes eligible, and no returned row stays so. */
  ghost predicate Settles(rows: seq<Row>, returned: set<nat>, next: seq<Row>) {
    Ordered(next) && Paths(next) <= Paths(rows) && Waiting(next) <= Waiting(rows) - returned
  }

  // ----- one sweep -----

  lemma {:induction false} EligibleIsSound(rows: seq<Row>, i: nat, e: nat, r: Row)
    requires i <= e <= |rows|
    ensures r in Eligible(rows, i, e) <==> exists k :: i <= k < e && rows[k] == r && r.eligible
    decreases e
  {
    if e > i {
      EligibleIsSound(rows, i, e - 1, r);
      if r in Eligible(rows, i, e) && r !in Eligible(rows, i, e - 1) { assert rows[e - 1] == r; }
      if k :| i <= k < e && rows[k] == r && r.eligible {
        assert k == e - 1 || r in Eligible(rows, i, e - 1);
      }
    }
  }

  /** `After` splits an ordered collection at a path. */
  lemma {:induction false} AfterSplits(rows: seq<Row>, path: nat, i: nat, x: nat)
    requires Ordered(rows) && i <= |rows| && x < |rows| && (forall y | 0 <= y < i :: rows[y].path <= path)
    ensures rows[x].path <= path <==> x < After(rows, path, i)
    decreases |rows| - i
  {
    if i < |rows| && rows[i].path <= path {
      AfterSplits(rows, path, i + 1, x);
    } else if x >= i && i < |rows| {
      assert x == i || rows[i].path < rows[x].path;
    }
  }

  /** The paths a sweep from `resume` can still reach before it wraps. */
  ghost function Ahead(rows: seq<Row>, resume: Option<nat>, present: nat -> bool): set<nat> {
    set i | Start(rows, resume, present) <= i < |rows| :: rows[i].path
  }

  /** Everything behind the cursor has been dealt with. */
  ghost predicate Clean(rows: seq<Row>, resume: Option<nat>, present: nat -> bool) {
    forall i | 0 <= i < Start(rows, resume, present) :: !rows[i].eligible
  }

  lemma OrderIsStrict(rows: seq<Row>, i: nat, j: nat)
    requires Ordered(rows) && i < |rows| && j < |rows|
    ensures i < j <==> rows[i].path < rows[j].path
    ensures i == j <==> rows[i].path == rows[j].path
  {
  }

  lemma EligibleIsReturned(rows: seq<Row>, resume: Option<nat>, present: nat -> bool, limit: int, maxScan: int, r: Row)
    ensures var s := Start(rows, resume, present);
            r in Eligible(rows, s, Stop(rows, s, limit, maxScan)) ==> r.path in Returned(rows, resume, present, limit, maxScan)
  {
  }

  lemma NothingReturned(rows: seq<Row>, resume: Option<nat>, present: nat -> bool, limit: int, maxScan: int)
    ensures var s := Start(rows, resume, present);
            Returned(rows, resume, present, limit, maxScan) == {} ==> Eligible(rows, s, Stop(rows, s, limit, maxScan)) == []
  {
    var s := Start(rows, resume, present);
    var found := Eligible(rows, s, Stop(rows, s, limit, maxScan));
    if found != [] { EligibleIsReturned(rows, resume, present, limit, maxScan, found[0]); }
  }

  /** A sweep that returns nothing found nothing eligible in the rows it examined, and if it wraps it reached the end. */
  lemma EmptySweep(rows: seq<Row>, resume: Option<nat>, present: nat -> bool, limit: int, maxScan: int)
    requires limit >= 1 && maxScan >= 1 && Returned(rows, resume, present, limit, maxScan) == {}
    ensures var s := Start(rows, resume, present);
            var e := Stop(rows, s, limit, maxScan);
            && (forall i | s <= i < e :: !rows[i].eligible)
            && (if Exhausts(rows, s, limit, maxScan) then e == |rows| else s < e)
  {
    var s := Start(rows, resume, present);
    var e := Stop(rows, s, limit, maxScan);
    NothingReturned(rows, resume, present, limit, maxScan);
    forall i | s <= i < e ensures !rows[i].eligible {
      EligibleIsSound(rows, s, e, rows[i]);
    }
    StopReason(rows, s, limit, maxScan);
    if !Exhausts(rows, s, limit, maxScan) { SweepProgresses(rows, s, limit, maxScan); }
  }

  /** What the next sweep has ahead of it, after an empty sweep that did not wrap: strictly less, and still clean behind. */
  lemma EmptySweepMovesOn(rows: seq<Row>, resume: Option<nat>, present: nat -> bool, limit: int, maxScan: int,
                          next: seq<Row>, later: nat -> bool)
    requires limit >= 1 && maxScan >= 1 && Ordered(rows) && (forall p | p in Paths(rows) :: later(p))
    requires Returned(rows, resume, present, limit, maxScan) == {} && !Exhausts(rows, Start(rows, resume, present), limit, maxScan)
    requires Settles(rows, {}, next)
    ensures var r := NextResume(rows, resume, present, limit, maxScan);
            && Ahead(next, r, later) < Ahead(rows, resume, present)
            && (Clean(rows, resume, present) ==> Clean(next, r, later))
  {
    EmptySweep(rows, resume, present, limit, maxScan);
    var s := Start(rows, resume, present);
    var e := Stop(rows, s, limit, maxScan);
    var last := rows[e - 1].path;
    var r := NextResume(rows, resume, present, limit, maxScan);
    assert rows[e - 1] in rows && last in Paths(rows) && r == Some(last);
    forall p | p in Ahead(next, r, later) ensures p in Ahead(rows, resume, present) && p != last {
      var i :| Start(next, r, later) <= i < |next| && next[i].path == p;
      AfterSplits(next, last, 0, i);
      assert next[i] in next && p in Paths(next) && p in Paths(rows);
      var x :| 0 <= x < |rows| && rows[x].path == p;
      OrderIsStrict(rows, x, e - 1);
    }
    assert last in Ahead(rows, resume, present);
    if Clean(rows, resume, present) { BehindStaysClean(rows, e, last, next, later); }
  }

  /** If the first `e` rows hold nothing eligible, neither do the next collection's rows up to the same path. */
  lemma BehindStaysClean(rows: seq<Row>, e: nat, last: nat, next: seq<Row>, present: nat -> bool)
    requires Ordered(rows) && 0 < e <= |rows| && last == rows[e - 1].path && present(last)
    requires (forall i | 0 <= i < e :: !rows[i].eligible) && Ordered(next) && Waiting(next) <= Waiting(rows)
    ensures Clean(next, Some(last), present)
  {
    forall r | r in rows && r.path <= last ensures !r.eligible {
      var x :| 0 <= x < |rows| && rows[x] == r;
      OrderIsStrict(rows, e - 1, x);
    }
    forall i | 0 <= i < Start(next, Some(last), present) ensures !next[i].eligible {
      AfterSplits(next, last, 0, i);
      var r := next[i];
      assert r in next && (!r.eligible || r.path in Waiting(next));
    }
  }

  lemma SmallerSet(a: set<nat>, b: set<nat>)
    requires a <= b
    ensures |a| <= |b| && (a != b ==> |a| < |b|)
  {
    if a != b {
      var x :| x in b && x !in a;
      assert a <= b - {x};
      SmallerSet(a, b - {x});
    }
  }

  // ----- discovery while the collection changes freely -----

  /** Where sweep `k` really starts: after this path, or before every row when its cursor is unset or its document gone. */
  ghost function Position(k: nat, s: Sweeps): int {
    match ResumeAt(k, s)
    case None => -1
    case Some(c) => if s.present(k)(c) then c else -1
  }

  /** The sweep reports the tail although `p` still waits at or beyond the row where it stopped. */
  ghost predicate PassesOver(p: nat, rows: seq<Row>, resume: Option<nat>, present: nat -> bool, limit: int, maxScan: int) {
    var i := Start(rows, resume, present);
    && Exhausts(rows, i, limit, maxScan)
    && exists x :: Stop(rows, i, limit, maxScan) <= x < |rows| && rows[x] == Row(p, true)
  }

  /** The sweep starts over because the cursor document is gone, although it had not reached the waiting row `p` yet. */
  ghost predicate LosesPlace(p: nat, rows: seq<Row>, resume: Option<nat>, present: nat -> bool) {
    p in Waiting(rows) && resume.Some? && resume.value < p && !present(resume.value)
  }

  ghost predicate Misses(p: nat, k: nat, s: Sweeps) {
    || PassesOver(p, s.worlds(k), ResumeAt(k, s), s.present(k), s.limit, s.maxScan)
    || LosesPlace(p, s.worlds(k), ResumeAt(k, s), s.present(k))
  }

  /** What the collections are: read in path order, and with no path beyond `top`. Nothing else is fixed about them. */
  ghost predicate OpenSweeps(s: Sweeps, top: nat) {
    && s.limit >= 1 && s.maxScan >= 1
    && (forall k: nat :: Ordered(s.worlds(k)))
    && (forall k: nat, r :: r in s.worlds(k) ==> r.path <= top)
  }

  ghost predicate NotReturned(p: nat, from: nat, to: nat, s: Sweeps) {
    forall k: nat :: from <= k < to ==> p !in ReturnedAt(k, s)
  }

  /** From sweep `from` on, `p` waits at least until a sweep returns it. */
  ghost predicate Patient(p: nat, from: nat, s: Sweeps) {
    forall k: nat :: k >= from && NotReturned(p, from, k, s) ==> p in Waiting(s.worlds(k))
  }

  /** And once returned it never waits again. */
  ghost predicate SettledOnce(p: nat, from: nat, s: Sweeps) {
    forall j: nat, k: nat :: from <= j < k && p in ReturnedAt(j, s) ==> p !in Waiting(s.worlds(k))
  }

  ghost predicate MissedNoMore(p: nat, from: nat, s: Sweeps) {
    forall k: nat :: k >= from ==> !Misses(p, k, s)
  }

  /** A waiting row the sweep does not return lies behind its start or beyond its stop. */
  lemma UnreturnedLiesOutside(p: nat, rows: seq<Row>, resume: Option<nat>, present: nat -> bool, limit: int, maxScan: int)
    returns (x: nat)
    requires p in Waiting(rows) && p !in Returned(rows, resume, present, limit, maxScan)
    ensures x < |rows| && rows[x] == Row(p, true)
    ensures var i := Start(rows, resume, present); x < i || Stop(rows, i, limit, maxScan) <= x
  {
    var i := Start(rows, resume, present);
    var r :| r in rows && r.eligible && r.path == p;
    x :| 0 <= x < |rows| && rows[x] == r;
    EligibleIsSound(rows, i, Stop(rows, i, limit, maxScan), r);
    EligibleIsReturned(rows, resume, present, limit, maxScan, r);
  }

  /** `from` is the path after which the sweep starts, or -1 for the top. */
  ghost predicate StartsAfter(from: int, resume: Option<nat>, present: nat -> bool) {
    if resume.Some? && present(resume.value) then from == resume.value else from == -1
  }

  lemma StartSplits(rows: seq<Row>, from: int, resume: Option<nat>, present: nat -> bool, x: nat)
    requires Ordered(rows) && x < |rows| && StartsAfter(from, resume, present)
    ensures rows[x].path <= from <==> x < Start(rows, resume, present)
  {
    if resume.Some? && present(resume.value) { AfterSplits(rows, resume.value, 0, x); }
  }

  /** A sweep that neither returns nor misses a waiting row moves on towards it, or wraps once it is past it. */
  lemma SweepApproaches(p: nat, from: int, rows: seq<Row>, resume: Option<nat>, present: nat -> bool, limit: int, maxScan: int)
    requires limit >= 1 && maxScan >= 1 && Ordered(rows) && p in Waiting(rows) && StartsAfter(from, resume, present)
    requires p !in Returned(rows, resume, present, limit, maxScan) && !PassesOver(p, rows, resume, present, limit, maxScan)
    ensures match NextResume(rows, resume, present, limit, maxScan)
            case None => p <= from
            case Some(c) => from < c && (from < p ==> c < p) && exists r :: r in rows && r.path == c
  {
    var i := Start(rows, resume, present);
    var e := Stop(rows, i, limit, maxScan);
    var x := UnreturnedLiesOutside(p, rows, resume, present, limit, maxScan);
    StartSplits(rows, from, resume, present, x);
    if !Exhausts(rows, i, limit, maxScan) {
      SweepProgresses(rows, i, limit, maxScan);
      assert rows[e - 1] in rows;
      StartSplits(rows, from, resume, present, e - 1);
      OrderIsStrict(rows, e - 1, x);
    }
  }

  ghost function Distance(p: nat, top: nat, position: int): nat {
    if position < p then p - (if position < 0 then -1 else position)
    else if position < top then top - position else 0
  }

  /** A patient row is returned, or some sweep misses it. */
  lemma {:induction false} ReturnedOrMissed(p: nat, k: nat, s: Sweeps, top: nat) returns (found: nat)
    requires OpenSweeps(s, top) && Patient(p, k, s)
    ensures found >= k && (p in ReturnedAt(found, s) || Misses(p, found, s))
    decreases if p <= Position(k, s) then 1 else 0, Distance(p, top, Position(k, s))
  {
    found := k;
    assert NotReturned(p, k, k, s) && p in Waiting(s.worlds(k));
    if p !in ReturnedAt(k, s) && !Misses(p, k, s) {
      SweepApproaches(p, Position(k, s), s.worlds(k), ResumeAt(k, s), s.present(k), s.limit, s.maxScan);
      StaysPatient(p, k, k + 1, s);
      assert NotReturned(p, k + 1, k + 1, s) && p in Waiting(s.worlds(k + 1));
      if Misses(p, k + 1, s) {
        found := k + 1;
      } else {
        found := ReturnedOrMissed(p, k + 1, s, top);
      }
    }
  }

  lemma StaysPatient(p: nat, from: nat, to: nat, s: Sweeps)
    requires from <= to && Patient(p, from, s) && NotReturned(p, from, to, s)
    ensures Patient(p, to, s)
  {
    forall k: nat | k >= to && NotReturned(p, to, k, s) ensures p in Waiting(s.worlds(k)) {
      assert NotReturned(p, from, k, s);
    }
  }

  lemma MissedRowsWait(p: nat, k: nat, s: Sweeps)
    requires Misses(p, k, s)
    ensures p in Waiting(s.worlds(k))
  {
    if PassesOver(p, s.worlds(k), ResumeAt(k, s), s.present(k), s.limit, s.maxScan) {
      assert Row(p, true) in s.worlds(k);
    }
  }

  /**
    Eventual discovery, while rows arrive, leave and change eligibility at will: a row that waits until it is returned
    is returned by some sweep if and only if from some sweep on none misses it.
  */
  lemma ReturnedExactlyWhenMissedNoMore(p: nat, from: nat, s: Sweeps, top: nat)
    requires OpenSweeps(s, top) && Patient(p, from, s) && SettledOnce(p, from, s)
    ensures (exists k: nat :: k >= from && p in ReturnedAt(k, s)) <==> (exists n: nat :: n >= from && MissedNoMore(p, n, s))
  {
    if k: nat :| k >= from && p in ReturnedAt(k, s) {
      forall j: nat | j >= k + 1 ensures !Misses(p, j, s) {
        if Misses(p, j, s) { MissedRowsWait(p, j, s); }
      }
      assert MissedNoMore(p, k + 1, s);
    }
    if n: nat :| n >= from && MissedNoMore(p, n, s) {
      var k := ReturnedUnlessMissed(p, from, n, s, top);
    }
  }

  /** The half that asks nothing of the row once it has been returned. */
  lemma ReturnedUnlessMissed(p: nat, from: nat, n: nat, s: Sweeps, top: nat) returns (found: nat)
    requires OpenSweeps(s, top) && Patient(p, from, s) && n >= from && MissedNoMore(p, n, s)
    ensures found >= from && p in ReturnedAt(found, s)
  {
    if NotReturned(p, from, n, s) {
      StaysPatient(p, from, n, s);
      found := ReturnedOrMissed(p, n, s, top);
    } else {
      found :| from <= found < n && p in ReturnedAt(found, s);
    }
  }

  /** The sweeps a fleet of pods commits are such a sequence, so all of this holds of a fleet as it does of one pod. */
  lemma {:induction false} FleetFollowsTheSweeps(k: nat, swept: seq<Visit>, s: Sweeps)
    requires s.first == None && k <= |swept|
    requires forall j | 0 <= j < k :: swept[j] == Visit(s.worlds(j), s.present(j))
    ensures Sequential(k, swept, s.limit, s.maxScan) == ResumeAt(k, s)
  {
    if k > 0 {
      FleetFollowsTheSweeps(k - 1, swept, s);
      assert swept[k - 1] == Visit(s.worlds(k - 1), s.present(k - 1));
    }
  }

  // ----- guards that rule a miss out beforehand -----

  /** The waiting rows of a stretch are different rows, so there are at most as many as wait in the whole collection. */
  lemma {:induction false} StretchPaths(rows: seq<Row>, i: nat, e: nat) returns (paths: set<nat>)
    requires Ordered(rows) && i <= e <= |rows|
    ensures |paths| == |Eligible(rows, i, e)|
    ensures forall q | q in paths :: exists k :: i <= k < e && rows[k] == Row(q, true)
    decreases e
  {
    paths := {};
    if i < e {
      paths := StretchPaths(rows, i, e - 1);
      if rows[e - 1].eligible {
        var q := rows[e - 1].path;
        assert rows[e - 1] == Row(q, true);
        paths := paths + {q};
      }
    }
  }

  lemma FewWaitingNeverSkips(rows: seq<Row>, i: nat, limit: int, maxScan: int)
    requires Ordered(rows) && i <= |rows| && limit >= 1 && maxScan >= 1 && |Waiting(rows)| < limit
    ensures !SkipsTail(rows, i, limit, maxScan)
  {
    var e := Stop(rows, i, limit, maxScan);
    var paths := StretchPaths(rows, i, e);
    forall q | q in paths ensures q in Waiting(rows) {
      var k :| i <= k < e && rows[k] == Row(q, true);
      assert rows[k] in rows;
    }
    SmallerSet(paths, Waiting(rows));
    SkipsTailExactlyWhen(rows, i, limit, maxScan);
  }

  /** No sweep from `n` on skips a tail or loses its cursor document. */
  ghost predicate SteadyFrom(n: nat, s: Sweeps) {
    forall k: nat :: k >= n ==>
      && !SkipsTail(s.worlds(k), Start(s.worlds(k), ResumeAt(k, s), s.present(k)), s.limit, s.maxScan)
      && (ResumeAt(k, s).Some? ==> s.present(k)(ResumeAt(k, s).value))
  }

  /** With steady sweeps every patient row is returned, whatever else happens to the collection. */
  lemma SteadySweepsReturnEveryRow(p: nat, from: nat, n: nat, s: Sweeps, top: nat) returns (found: nat)
    requires OpenSweeps(s, top) && Patient(p, from, s) && n >= from && SteadyFrom(n, s)
    ensures found >= from && p in ReturnedAt(found, s)
  {
    forall k: nat | k >= n ensures !Misses(p, k, s) {
    }
    found := ReturnedUnlessMissed(p, from, n, s, top);
  }

  /** A guard on the backlog alone: fewer rows wait at each sweep than it may return, and cursor documents stay. */
  lemma SmallBacklogIsDiscovered(p: nat, from: nat, n: nat, s: Sweeps, top: nat) returns (found: nat)
    requires OpenSweeps(s, top) && Patient(p, from, s) && n >= from
    requires forall k: nat :: k >= n ==> |Waiting(s.worlds(k))| < s.limit
    requires forall k: nat :: k >= n && ResumeAt(k, s).Some? ==> s.present(k)(ResumeAt(k, s).value)
    ensures found >= from && p in ReturnedAt(found, s)
  {
    forall k: nat | k >= n
      ensures !SkipsTail(s.worlds(k), Start(s.worlds(k), ResumeAt(k, s), s.present(k)), s.limit, s.maxScan)
    {
      FewWaitingNeverSkips(s.worlds(k), Start(s.worlds(k), ResumeAt(k, s), s.present(k)), s.limit, s.maxScan);
    }
    found := SteadySweepsReturnEveryRow(p, from, n, s, top);
  }

  // ----- a row no sweep ever returns -----

  function FiveRows(a: nat, b: nat, c: nat): seq<Row> {
    [Row(0, false), Row(a, true), Row(b, true), Row(c, true), Row(10, true)]
  }

  /** Every returned row leaves before the next sweep and three new ones arrive; row 10 waits all along. */
  function Arrivals(k: nat): seq<Row> {
    FiveRows(1 + k % 2, 3 + k % 2, 5 + k % 2)
  }

  function Starving(): Sweeps {
    Sweeps(Arrivals, (k: nat) => (path: nat) => true, None, 3, 100)
  }

  lemma FiveRowsStop(a: nat, b: nat, c: nat)
    ensures var rows := FiveRows(a, b, c);
            && Stop(rows, 0, 3, 100) == 4 && Eligible(rows, 0, 4) == [Row(a, true), Row(b, true), Row(c, true)]
            && Exhausts(rows, 0, 3, 100)
  {
    var rows := FiveRows(a, b, c);
    assert Stop(rows, 3, 1, 97) == Stop(rows, 4, 0, 96) == 4;
    assert Stop(rows, 1, 3, 99) == Stop(rows, 2, 2, 98) == Stop(rows, 3, 1, 97);
    assert Stop(rows, 0, 3, 100) == 4;
    assert Eligible(rows, 0, 1) == [] && Eligible(rows, 0, 2) == [Row(a, true)];
    assert Eligible(rows, 0, 3) == [Row(a, true), Row(b, true)];
    assert PageStart(0, 4, 3) == PageStart(3, 4, 3) == 3;
  }

  /** From the top, a sweep of such rows returns the three arrivals, wraps, and passes over row 10. */
  lemma FiveRowsSkipTheLast(a: nat, b: nat, c: nat, present: nat -> bool)
    requires 0 < a < b < c < 10
    ensures var rows := FiveRows(a, b, c);
            && Ordered(rows) && (forall r | r in rows :: r.path <= 10) && 10 in Waiting(rows)
            && Returned(rows, None, present, 3, 100) == {a, b, c}
            && NextResume(rows, None, present, 3, 100) == None && PassesOver(10, rows, None, present, 3, 100)
  {
    var rows := FiveRows(a, b, c);
    FiveRowsStop(a, b, c);
    assert rows[4] == Row(10, true) && rows[3] == Row(c, true) && rows[2] == Row(b, true) && rows[1] == Row(a, true) && rows[0] == Row(0, false);
  }

  lemma ArrivalsSkipTheLast(k: nat, present: nat -> bool)
    ensures var rows := Arrivals(k);
            && Ordered(rows) && (forall r | r in rows :: r.path <= 10) && 10 in Waiting(rows)
            && NextResume(rows, None, present, 3, 100) == None && PassesOver(10, rows, None, present, 3, 100)
    ensures Returned(Arrivals(k), None, present, 3, 100) == {1 + k % 2, 3 + k % 2, 5 + k % 2}
  {
    FiveRowsSkipTheLast(1 + k % 2, 3 + k % 2, 5 + k % 2, present);
  }

  lemma ArrivalsLeave(k: nat, q: nat)
    requires q in Paths(Arrivals(k + 1))
    ensures q !in {1 + k % 2, 3 + k % 2, 5 + k % 2}
  {
    var r :| r in Arrivals(k + 1) && r.path == q;
  }

  /** A sweep from the top that passes over `p`, and whose rows are all gone from the next collection. */
  ghost predicate Starves(p: nat, rows: seq<Row>, next: seq<Row>, present: nat -> bool, limit: int, maxScan: int) {
    && PassesOver(p, rows, None, present, limit, maxScan) && NextResume(rows, None, present, limit, maxScan) == None
    && p in Waiting(rows) && p !in Returned(rows, None, present, limit, maxScan)
    && Returned(rows, None, present, limit, maxScan) !! Paths(next)
  }

  lemma ArrivalsStarve(k: nat, present: nat -> bool)
    ensures Starves(10, Arrivals(k), Arrivals(k + 1), present, 3, 100)
  {
    ArrivalsSkipTheLast(k, present);
    var returned := Returned(Arrivals(k), None, present, 3, 100);
    forall q | q in Paths(Arrivals(k + 1)) ensures q !in returned { ArrivalsLeave(k, q); }
  }

  /** Sweep `k` starts at the top, misses the waiting row `p`, and what it returns leaves before the next sweep. */
  ghost predicate StarvedAt(p: nat, k: nat, s: Sweeps) {
    && ResumeAt(k, s) == None && Misses(p, k, s)
    && p in Waiting(s.worlds(k)) && p !in ReturnedAt(k, s) && ReturnedAt(k, s) !! Paths(s.worlds(k + 1))
  }

  lemma StarvesAt(p: nat, k: nat, s: Sweeps)
    requires Starves(p, s.worlds(k), s.worlds(k + 1), s.present(k), s.limit, s.maxScan) && ResumeAt(k, s) == None
    ensures StarvedAt(p, k, s) && ResumeAt(k + 1, s) == None
  {
  }

  lemma {:induction false} StarvedForever(p: nat, k: nat, s: Sweeps)
    requires s.first == None
    requires forall j: nat :: Starves(p, s.worlds(j), s.worlds(j + 1), s.present(j), s.limit, s.maxScan)
    ensures StarvedAt(p, k, s) && ResumeAt(k + 1, s) == None
  {
    if k > 0 { StarvedForever(p, k - 1, s); }
    StarvesAt(p, k, s);
  }

  /**
    The promise that repeated sweeps reach every row is false of the code even when the rows of every sweep are
    settled at once: here each sweep hits its limit inside the short last page, wraps, and never returns row 10.
  */
  lemma SettledArrivalsStarveARow(k: nat)
    ensures StarvedAt(10, k, Starving())
  {
    var s := Starving();
    forall j: nat ensures Starves(10, s.worlds(j), s.worlds(j + 1), s.present(j), s.limit, s.maxScan) {
      ArrivalsStarve(j, s.present(j));
    }
    StarvedForever(10, k, s);
  }

  /** Rows 0 and 1 take turns: the one a sweep has just examined is deleted, and the other one created. */
  function Turns(k: nat): seq<Row> { [Row(k % 2, false), Row(2, true)] }

  function Vanishing(): Sweeps {
    Sweeps(Turns, (k: nat) => (path: nat) => path == k % 2 || path == 2, None, 3, 1)
  }

  lemma OneRowSweep(rows: seq<Row>, resume: Option<nat>, present: nat -> bool)
    requires |rows| == 2 && !rows[0].eligible && (resume.None? || !present(resume.value))
    ensures Returned(rows, resume, present, 3, 1) == {} && NextResume(rows, resume, present, 3, 1) == Some(rows[0].path)
    ensures !Exhausts(rows, 0, 3, 1)
  {
    assert Stop(rows, 0, 3, 1) == Stop(rows, 1, 3, 0) == 1;
    assert Eligible(rows, 0, 1) == [];
  }

  /** An ineligible row is in front, and it is gone when the next sweep looks for it. */
  ghost predicate FrontVanishes(k: nat, s: Sweeps) {
    && |s.worlds(k)| == 2 && !s.worlds(k)[0].eligible
    && !s.present(k + 1)(s.worlds(k)[0].path)
  }

  lemma {:induction false} VanishingResumes(k: nat, s: Sweeps)
    requires s.limit == 3 && s.maxScan == 1 && s.first == None && (forall j: nat :: FrontVanishes(j, s))
    ensures if k == 0 then ResumeAt(k, s) == None else |s.worlds(k - 1)| == 2 && ResumeAt(k, s) == Some(s.worlds(k - 1)[0].path)
  {
    if k > 0 {
      VanishingResumes(k - 1, s);
      assert FrontVanishes(k - 1, s);
      if k > 1 { assert FrontVanishes(k - 2, s); }
      OneRowSweep(s.worlds(k - 1), ResumeAt(k - 1, s), s.present(k - 1));
    }
  }

  /**
    Nor is starting over always a safe re-scan: here no sweep ever reports the tail, but the cursor document is gone
    each time, and row 2 is never reached.
  */
  lemma LostPlacesStarveARow(k: nat)
    ensures 2 in Waiting(Vanishing().worlds(k)) && ReturnedAt(k, Vanishing()) == {}
    ensures Start(Turns(k), ResumeAt(k, Vanishing()), Vanishing().present(k)) == 0 && !Exhausts(Turns(k), 0, 3, 1)
    ensures k > 0 ==> Misses(2, k, Vanishing())
  {
    assert Row(2, true) in Turns(k);
    forall j: nat ensures FrontVanishes(j, Vanishing()) { assert Vanishing().worlds(j) == Turns(j); }
    VanishingResumes(k, Vanishing());
    OneRowSweep(Turns(k), ResumeAt(k, Vanishing()), Vanishing().present(k));
  }

  // ----- discovery in a collection that only shrinks -----

  /** No row arrives or becomes eligible between sweeps, each sweep's rows are settled, and cursor documents stay. */
  ghost predicate SettledSweeps(s: Sweeps) {
    && s.limit >= 1 && s.maxScan >= 1 && Ordered(s.worlds(0))
    && (forall k: nat, p :: p in Paths(s.worlds(0)) ==> s.present(k)(p))
    && (forall k: nat :: Settles(s.worlds(k), ReturnedAt(k, s), s.worlds(k + 1)))
  }

  lemma WorldsStayOrdered(k: nat, s: Sweeps)
    requires SettledSweeps(s)
    ensures Ordered(s.worlds(k)) && Paths(s.worlds(k)) <= Paths(s.worlds(0))
  {
    if k > 0 {
      WorldsStayOrdered(k - 1, s);
      assert Settles(s.worlds(k - 1), ReturnedAt(k - 1, s), s.worlds(k));
    }
  }

  lemma ReturnedWereWaiting(rows: seq<Row>, resume: Option<nat>, present: nat -> bool, limit: int, maxScan: int)
    ensures Returned(rows, resume, present, limit, maxScan) <= Waiting(rows)
  {
    var s := Start(rows, resume, present);
    var e := Stop(rows, s, limit, maxScan);
    forall q | q in Returned(rows, resume, present, limit, maxScan) ensures q in Waiting(rows) {
      var r :| r in Eligible(rows, s, e) && r.path == q;
      EligibleIsSound(rows, s, e, r);
    }
  }

  /** An empty sweep that wraps while a row waits left that row behind its cursor. */
  lemma WrapWasNotClean(p: nat, rows: seq<Row>, resume: Option<nat>, present: nat -> bool, limit: int, maxScan: int)
    requires limit >= 1 && maxScan >= 1 && p in Waiting(rows)
    requires Returned(rows, resume, present, limit, maxScan) == {} && Exhausts(rows, Start(rows, resume, present), limit, maxScan)
    ensures !Clean(rows, resume, present)
  {
    EmptySweep(rows, resume, present, limit, maxScan);
    var r :| r in rows && r.eligible && r.path == p;
    var i :| 0 <= i < |rows| && rows[i] == r;
    assert i < Start(rows, resume, present);
  }

  /** One sweep that does not return `p`: fewer rows wait, or else a clean lap begins, or else less lies ahead. */
  lemma SweepShrinks(p: nat, rows: seq<Row>, resume: Option<nat>, present: nat -> bool, limit: int, maxScan: int,
                     next: seq<Row>, later: nat -> bool, clean: bool)
    returns (clean': bool)
    requires limit >= 1 && maxScan >= 1 && Ordered(rows) && (forall q | q in Paths(rows) :: later(q))
    requires Settles(rows, Returned(rows, resume, present, limit, maxScan), next)
    requires p in Waiting(rows) && (clean ==> Clean(rows, resume, present))
    ensures var r := NextResume(rows, resume, present, limit, maxScan);
            && (clean' ==> Clean(next, r, later))
            && |Waiting(next)| <= |Waiting(rows)|
            && (|| |Waiting(next)| < |Waiting(rows)|
                || (clean' && !clean)
                || (clean' == clean && |Ahead(next, r, later)| < |Ahead(rows, resume, present)|))
  {
    var returned := Returned(rows, resume, present, limit, maxScan);
    var r := NextResume(rows, resume, present, limit, maxScan);
    SmallerSet(Waiting(next), Waiting(rows));
    if returned != {} {
      ReturnedWereWaiting(rows, resume, present, limit, maxScan);
      var q :| q in returned;
      assert q in Waiting(rows) && q !in Waiting(next);
      clean' := false;
    } else if Exhausts(rows, Start(rows, resume, present), limit, maxScan) {
      WrapWasNotClean(p, rows, resume, present, limit, maxScan);
      clean' := true;
    } else {
      EmptySweepMovesOn(rows, resume, present, limit, maxScan, next, later);
      SmallerSet(Ahead(next, r, later), Ahead(rows, resume, present));
      clean' := clean;
    }
  }

  lemma {:induction false} DiscoveredFrom(p: nat, k: nat, s: Sweeps, clean: bool) returns (found: nat)
    requires SettledSweeps(s) && Patient(p, k, s)
    requires clean ==> Clean(s.worlds(k), ResumeAt(k, s), s.present(k))
    ensures p in ReturnedAt(found, s)
    decreases |Waiting(s.worlds(k))|, if clean then 0 else 1, |Ahead(s.worlds(k), ResumeAt(k, s), s.present(k))|
  {
    found := k;
    assert NotReturned(p, k, k, s) && p in Waiting(s.worlds(k));
    if p !in ReturnedAt(k, s) {
      WorldsStayOrdered(k, s);
      assert Settles(s.worlds(k), ReturnedAt(k, s), s.worlds(k + 1));
      var clean' := SweepShrinks(p, s.worlds(k), ResumeAt(k, s), s.present(k), s.limit, s.maxScan,
                                 s.worlds(k + 1), s.present(k + 1), clean);
      StaysPatient(p, k, k + 1, s);
      found := DiscoveredFrom(p, k + 1, s, clean');
    }
  }

  /**
    Where no row arrives and none becomes eligible, discovery needs no guard: although a sweep may skip a tail, every
    row that stays eligible is returned by some sweep, provided each sweep's rows are settled before the next.
  */
  lemma EveryWaitingRowIsReturned(p: nat, s: Sweeps) returns (found: nat)
    requires SettledSweeps(s) && Patient(p, 0, s)
    ensures p in ReturnedAt(found, s)
  {
    found := DiscoveredFrom(p, 0, s, false);
  }
}
