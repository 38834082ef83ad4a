/**
  The bounded recovery sweeps (stale `processing` conversations and abandoned BYOK jobs share one loop)
  and the compare-and-swap cursor that several pods use to share them.
*/
module RecoverySweep {
  import opened Wrappers

  /** A row of the swept collection: its position in path order and whether the sweep's filter accepts it. */
  datatype Row = Row(path: nat, eligible: bool)

  ghost predicate Ordered(rows: seq<Row>) {
    forall i, j :: 0 <= i < j < |rows| ==> rows[i].path < rows[j].path
  }

  function PageSize(limit: int): (size: nat)
    ensures 1 <= size <= 100 && (1 <= limit <= 100 ==> size == limit) && (limit > 100 ==> size == 100)
  {
    if limit < 1 then 1 else if limit < 100 then limit else 100
  }

  /** The eligible rows of `rows[i..e]`, in order. */
  function Eligible(rows: seq<Row>, i: nat, e: nat): (r: seq<Row>)
    requires i <= e <= |rows|
    ensures |r| <= e - i
  {
    if e == i then [] else Eligible(rows, i, e - 1) + (if rows[e - 1].eligible then [rows[e - 1]] else [])
  }

  /** Where a cursor resumes: right after its document, or at the top when the document is gone. */
  function Start(rows: seq<Row>, resume: Option<nat>, present: nat -> bool): (i: nat)
    ensures i <= |rows|
  {
    if resume.None? || !present(resume.value) then 0 else After(rows, resume.value, 0)
  }

  function After(rows: seq<Row>, path: nat, i: nat): (k: nat)
    requires i <= |rows|
    ensures i <= k <= |rows|
    decreases |rows| - i
  {
    if i < |rows| && rows[i].path <= path then After(rows, path, i + 1) else i
  }

  lemma {:induction false} AfterFinds(rows: seq<Row>, k: nat, i: nat)
    requires Ordered(rows) && i <= k < |rows|
    ensures After(rows, rows[k].path, i) == k + 1
    decreases |rows| - i
  {
    if i < k {
      AfterFinds(rows, k, i + 1);
    } else if k + 1 < |rows| {
      assert rows[k].path < rows[k + 1].path;
    }
  }

  /** One past the last row examined from `i` while `want` candidates and `budget` rows remain. */
  function Stop(rows: seq<Row>, i: nat, want: int, budget: int): (e: nat)
    requires i <= |rows|
    ensures i <= e <= |rows|
    ensures e - i <= if budget < 0 then 0 else budget
    decreases |rows| - i
  {
    if i == |rows| || want <= 0 || budget <= 0 then i
    else Stop(rows, i + 1, if rows[i].eligible then want - 1 else want, budget - 1)
  }

  /** First row of the page that holds the last examined row, for pages of `size` rows counted from `i`. */
  function PageStart(i: nat, e: nat, size: nat): (b: nat)
    requires size >= 1
    ensures i <= b
    decreases e - i
  {
    if e <= i + size then i else PageStart(i + size, e, size)
  }

  /** `b` is a page boundary of the pages of `size` rows counted from `i`. */
  ghost predicate Boundary(i: nat, b: nat, size: nat)
    requires size >= 1
    decreases b - i
  {
    b == i || (i + size <= b && Boundary(i + size, b, size))
  }

  lemma {:induction false} NextBoundary(i: nat, b: nat, size: nat)
    requires size >= 1 && Boundary(i, b, size)
    ensures Boundary(i, b + size, size)
    decreases b - i
  {
    if b != i { NextBoundary(i + size, b, size); }
  }

  lemma {:induction false} PageOf(i: nat, b: nat, e: nat, size: nat)
    requires size >= 1 && Boundary(i, b, size) && b < e <= b + size
    ensures PageStart(i, e, size) == b
    decreases b - i
  {
    if b != i { PageOf(i + size, b, e, size); }
  }

  /** When a sweep that examined `rows[i..e]` reports the tail, so that the next one starts from the top. */
  predicate Tail(rows: seq<Row>, i: nat, e: nat, found: nat, limit: int, maxScan: int) {
    var short := |rows| - PageStart(i, e, PageSize(limit)) < PageSize(limit);
    && limit >= 1 && maxScan >= 1
    && if found >= limit then short
       else if e - i >= maxScan then e == |rows| && short
       else true
  }

  /** The tail test, for a sweep that stopped in the page starting at `b`. */
  lemma TailInPage(rows: seq<Row>, i: nat, b: nat, e: nat, found: nat, limit: int, maxScan: int)
    requires limit >= 1 && maxScan >= 1 && Boundary(i, b, PageSize(limit)) && b < e <= b + PageSize(limit)
    ensures var short := |rows| - b < PageSize(limit);
            Tail(rows, i, e, found, limit, maxScan) <==>
              if found >= limit then short else e - i < maxScan || (e == |rows| && short)
  {
    PageOf(i, b, e, PageSize(limit));
  }

  predicate Exhausts(rows: seq<Row>, i: nat, limit: int, maxScan: int)
    requires i <= |rows|
  {
    var e := Stop(rows, i, limit, maxScan);
    Tail(rows, i, e, |Eligible(rows, i, e)|, limit, maxScan)
  }

  /** Examine one page `rows[from..to]`: stop at its end, at the candidate limit, or when the scan budget is spent. */
  method ExaminePage(rows: seq<Row>, ghost start: nat, from: nat, to: nat, found: seq<Row>, scannedBefore: nat, limit: int, maxScan: int)
    returns (candidates: seq<Row>, scanned: nat, e: nat, overrun: bool)
    requires start <= from < to <= |rows|
    requires found == Eligible(rows, start, from)
    requires |found| < limit && scannedBefore < maxScan
    ensures from < e <= to && scanned == scannedBefore + (e - from) + (if overrun then 1 else 0)
    ensures candidates == Eligible(rows, start, e)
    ensures Stop(rows, from, limit - |found|, maxScan - scannedBefore) ==
              Stop(rows, e, limit - |candidates|, maxScan - (scannedBefore + (e - from)))
    ensures scannedBefore + (e - from) <= maxScan
    ensures overrun <==> e < to && |candidates| < limit
    ensures overrun ==> scannedBefore + (e - from) == maxScan
  {
    candidates, scanned, e, overrun := found, scannedBefore, from, false;
    while e < to
      invariant from <= e <= to && scanned == scannedBefore + (e - from) && !overrun
      invariant candidates == Eligible(rows, start, e)
      invariant Stop(rows, from, limit - |found|, maxScan - scannedBefore) ==
                  Stop(rows, e, limit - |candidates|, maxScan - scanned)
      invariant |candidates| < limit && scanned <= maxScan
    {
      scanned := scanned + 1;
      if scanned > maxScan {
        overrun := true;
        break;
      }
      if rows[e].eligible {
        candidates := candidates + [rows[e]];
      }
      e := e + 1;
      if |candidates| >= limit { break; }
    }
  }

  /** The sweep loop, from position `start` on: pages of rows until the limit, the budget or the end is reached. */
  method SweepFrom(rows: seq<Row>, start: nat, limit: int, maxScan: int)
    returns (candidates: seq<Row>, lastPath: Option<nat>, exhausted: bool)
    requires start <= |rows|
    ensures var e := Stop(rows, start, limit, maxScan);
            && candidates == Eligible(rows, start, e)
            && lastPath == if e == start then None else Some(rows[e - 1].path)
    ensures exhausted == Exhausts(rows, start, limit, maxScan)
  {
    var pageSize := PageSize(limit);
    candidates, lastPath, exhausted := [], None, false;
    var scanned := 0;
    var cursor := start;
    ghost var done := start;          // rows[start..done] have been examined
    ghost var target := Stop(rows, start, limit, maxScan);
    while |candidates| < limit && scanned < maxScan
      invariant start <= done <= |rows| && scanned == done - start && !exhausted
      invariant candidates == Eligible(rows, start, done)
      invariant target == Stop(rows, done, limit - |candidates|, maxScan - scanned)
      invariant lastPath == if done == start then None else Some(rows[done - 1].path)
      invariant |candidates| < limit && scanned < maxScan ==> cursor == done && Boundary(start, cursor, pageSize)
      invariant start < done && (|candidates| >= limit || scanned >= maxScan) ==> !Tail(rows, start, done, |candidates|, limit, maxScan)
      decreases |rows| - done
    {
      var to := if cursor + pageSize <= |rows| then cursor + pageSize else |rows|;
      if to == cursor {
        exhausted := true;
        break;
      }
      var e, overrun;
      candidates, scanned, e, overrun := ExaminePage(rows, start, cursor, to, candidates, scanned, limit, maxScan);
      lastPath := Some(rows[e - 1].path);
      done := e;
      TailInPage(rows, start, cursor, done, |candidates|, limit, maxScan);
      NextBoundary(start, cursor, pageSize);
      if overrun { break; }
      if to - cursor < pageSize {
        exhausted := true;
        break;
      }
      cursor := to;
    }
    assert target == done && exhausted == Tail(rows, start, done, |candidates|, limit, maxScan);
  }

  /**
    One sweep. It examines the contiguous run of rows right after its cursor, returns exactly the
    eligible ones, and resumes after the last row examined unless it reports the tail.
  */
  method Sweep(rows: seq<Row>, resume: Option<nat>, present: nat -> bool, limit: int, maxScan: int)
    returns (candidates: seq<Row>, resumeAfter: Option<nat>, exhausted: bool)
    ensures var s := Start(rows, resume, present);
            var e := Stop(rows, s, limit, maxScan);
            && candidates == Eligible(rows, s, e)
            && exhausted == Exhausts(rows, s, limit, maxScan)
            && resumeAfter == if exhausted || e == s then None else Some(rows[e - 1].path)
  {
    var lastPath;
    candidates, lastPath, exhausted := SweepFrom(rows, Start(rows, resume, present), limit, maxScan);
    resumeAfter := if exhausted then None else lastPath;
  }

  // ----- chained sweeps over a fixed collection -----

  /** Rows strictly after the last examined one are dropped by a wrap exactly in this case. */
  predicate SkipsTail(rows: seq<Row>, i: nat, limit: int, maxScan: int)
    requires i <= |rows|
  {
    Exhausts(rows, i, limit, maxScan) && Stop(rows, i, limit, maxScan) < |rows|
  }

  lemma {:induction false} StopReason(rows: seq<Row>, i: nat, want: int, budget: int)
    requires i <= |rows|
    ensures var e := Stop(rows, i, want, budget);
            || e == |rows|
            || e - i >= budget
            || |Eligible(rows, i, e)| >= want
    decreases |rows| - i
  {
    if i < |rows| && want > 0 && budget > 0 {
      var want' := if rows[i].eligible then want - 1 else want;
      StopReason(rows, i + 1, want', budget - 1);
      EligibleSplit(rows, i, Stop(rows, i, want, budget));
    }
  }

  lemma {:induction false} EligibleSplit(rows: seq<Row>, i: nat, e: nat)
    requires i < e <= |rows|
    ensures |Eligible(rows, i, e)| == |Eligible(rows, i + 1, e)| + (if rows[i].eligible then 1 else 0)
    decreases e
  {
    if i + 1 < e { EligibleSplit(rows, i, e - 1); }
  }

  /**
    The documented promise that repeated sweeps cover the collection fails exactly when the candidate
    limit is hit strictly inside a short last page: the sweep then reports the tail and wraps.
  */
  lemma SkipsTailExactlyWhen(rows: seq<Row>, i: nat, limit: int, maxScan: int)
    requires i <= |rows| && limit >= 1 && maxScan >= 1
    ensures var e := Stop(rows, i, limit, maxScan);
            SkipsTail(rows, i, limit, maxScan) <==>
              && |Eligible(rows, i, e)| >= limit
              && e < |rows| < PageStart(i, e, PageSize(limit)) + PageSize(limit)
  {
    StopReason(rows, i, limit, maxScan);
  }

  /**
    When a sweep tells its caller to start over: it ran out of rows, or the page it stopped in was short and it had not
    merely spent its scan budget inside that page. A sweep asked for nothing never does.
  */
  lemma TailReportedExactlyWhen(rows: seq<Row>, i: nat, limit: int, maxScan: int)
    requires i <= |rows|
    ensures var e := Stop(rows, i, limit, maxScan);
            var found, size := |Eligible(rows, i, e)|, PageSize(limit);
            && (Exhausts(rows, i, limit, maxScan) <==>
                  && limit >= 1 && maxScan >= 1
                  && (|| (found < limit && e - i < maxScan)
                      || (|rows| < PageStart(i, e, size) + size && (found >= limit || e == |rows|))))
            && (Exhausts(rows, i, limit, maxScan) && found < limit ==> e == |rows|)
  {
    StopReason(rows, i, limit, maxScan);
  }

  /** A concrete collection of five rows whose fifth is skipped. */
  lemma WrapSkipsARow()
    ensures var rows := [Row(0, true), Row(1, true), Row(2, false), Row(3, true), Row(4, true)];
            SkipsTail(rows, 0, 3, 2000) && Stop(rows, 0, 3, 2000) == 4
  {
    var rows := [Row(0, true), Row(1, true), Row(2, false), Row(3, true), Row(4, true)];
    assert Stop(rows, 3, 1, 1997) == Stop(rows, 4, 0, 1996) == 4;
    assert Stop(rows, 1, 2, 1999) == Stop(rows, 2, 1, 1998) == Stop(rows, 3, 1, 1997);
    assert Stop(rows, 0, 3, 2000) == 4;
    assert Eligible(rows, 0, 1) == [rows[0]] && Eligible(rows, 0, 2) == [rows[0], rows[1]];
    assert Eligible(rows, 0, 3) == Eligible(rows, 0, 2) && |Eligible(rows, 0, 4)| == 3;
    assert PageStart(0, 4, 3) == PageStart(3, 4, 3) == 3;
  }

  lemma SweepProgresses(rows: seq<Row>, i: nat, limit: int, maxScan: int)
    requires i <= |rows| && limit >= 1 && maxScan >= 1 && !Exhausts(rows, i, limit, maxScan)
    ensures i < Stop(rows, i, limit, maxScan)
  {
    assert Eligible(rows, i, i) == [];
  }

  /** The rows examined by sweeping from `i` until a sweep reports the tail. */
  function Lap(rows: seq<Row>, i: nat, limit: int, maxScan: int): seq<Row>
    requires i <= |rows| && limit >= 1 && maxScan >= 1
    decreases |rows| - i
  {
    var e := Stop(rows, i, limit, maxScan);
    if Exhausts(rows, i, limit, maxScan) then rows[i..e]
    else SweepProgresses(rows, i, limit, maxScan); rows[i..e] + Lap(rows, e, limit, maxScan)
  }

  ghost predicate NeverSkips(rows: seq<Row>, i: nat, limit: int, maxScan: int)
    requires i <= |rows| && limit >= 1 && maxScan >= 1
    decreases |rows| - i
  {
    var e := Stop(rows, i, limit, maxScan);
    if Exhausts(rows, i, limit, maxScan) then !SkipsTail(rows, i, limit, maxScan)
    else SweepProgresses(rows, i, limit, maxScan); NeverSkips(rows, e, limit, maxScan)
  }

  /** Sweep coverage: a lap examines a contiguous run, each row once and in order, and the whole tail iff no sweep skips. */
  lemma {:induction false} LapCoversEveryRowOnce(rows: seq<Row>, i: nat, limit: int, maxScan: int)
    requires i <= |rows| && limit >= 1 && maxScan >= 1
    ensures Lap(rows, i, limit, maxScan) <= rows[i..]
    ensures Lap(rows, i, limit, maxScan) == rows[i..] <==> NeverSkips(rows, i, limit, maxScan)
    decreases |rows| - i
  {
    var e := Stop(rows, i, limit, maxScan);
    assert rows[i..] == rows[i..e] + rows[e..];
    if !Exhausts(rows, i, limit, maxScan) {
      SweepProgresses(rows, i, limit, maxScan);
      LapCoversEveryRowOnce(rows, e, limit, maxScan);
      var rest := Lap(rows, e, limit, maxScan);
      if rows[i..e] + rest == rows[i..] {
        assert rest == (rows[i..e] + rest)[e - i..] == rows[e..];
      }
    } else if e < |rows| {
      assert |rows[i..e]| < |rows[i..]|;
    }
  }

  /** In particular every row is examined when each sweep of the lap collects fewer candidates than its limit. */
  lemma {:induction false} UnderLimitNeverSkips(rows: seq<Row>, i: nat, limit: int, maxScan: int)
    requires i <= |rows| && limit >= 1 && maxScan >= 1
    requires forall a, b :: i <= a <= b <= |rows| ==> |Eligible(rows, a, b)| < limit
    ensures NeverSkips(rows, i, limit, maxScan)
    decreases |rows| - i
  {
    SkipsTailExactlyWhen(rows, i, limit, maxScan);
    if !Exhausts(rows, i, limit, maxScan) {
      SweepProgresses(rows, i, limit, maxScan);
      UnderLimitNeverSkips(rows, Stop(rows, i, limit, maxScan), limit, maxScan);
    }
  }

  // ----- the shared cursor -----

  datatype Cursor = Cursor(generation: nat, resume: Option<nat>)

  class CursorDocument {
    var cursor: Cursor

    constructor ()
      ensures cursor == Cursor(0, None)
    {
      cursor := Cursor(0, None);
    }

    /** Compare-and-swap on the generation: only the first advance of a generation wins. */
    method Advance(expected: int, resume: Option<nat>) returns (ok: bool)
      modifies this
      ensures ok <==> old(cursor).generation == expected
      ensures cursor == if ok then Cursor(old(cursor).generation + 1, resume) else old(cursor)
    {
      if cursor.generation != expected { return false; }
      cursor := Cursor(cursor.generation + 1, resume);
      ok := true;
    }
  }

  /** What a pod finds while it sweeps: the rows in path order and which cursor documents exist. */
  datatype Visit = Visit(rows: seq<Row>, present: nat -> bool)

  function NextResume(rows: seq<Row>, resume: Option<nat>, present: nat -> bool, limit: int, maxScan: int): Option<nat> {
    var s := Start(rows, resume, present);
    var e := Stop(rows, s, limit, maxScan);
    if Exhausts(rows, s, limit, maxScan) || e == s then None else Some(rows[e - 1].path)
  }

  /**
    Pods read the cursor (a failed read sweeps from the top as of generation 0), sweep from what they read, and try to
    advance. `held` is what each pod last read, `swept` what the pods that won an advance had found, in the order of
    their advances.
  */
  datatype Fleet = Fleet(cursor: Cursor, held: map<nat, Cursor>, swept: seq<Visit>)
  datatype PodStep = Read(pod: nat) | ReadFails(pod: nat) | Commit(pod: nat, found: Visit)

  const IDLE := Fleet(Cursor(0, None), map[], [])

  function PodMove(f: Fleet, step: PodStep, limit: int, maxScan: int): Fleet {
    match step
    case Read(p) => f.(held := f.held[p := f.cursor])
    case ReadFails(p) => f.(held := f.held[p := Cursor(0, None)])
    case Commit(p, found) =>
      if p in f.held && f.held[p].generation == f.cursor.generation then
        var resume := NextResume(found.rows, f.held[p].resume, found.present, limit, maxScan);
        Fleet(Cursor(f.cursor.generation + 1, resume), f.held, f.swept + [found])
      else f
  }

  function FleetAfter(f: Fleet, steps: seq<PodStep>, limit: int, maxScan: int): Fleet {
    if steps == [] then f else PodMove(FleetAfter(f, steps[..|steps| - 1], limit, maxScan), steps[|steps| - 1], limit, maxScan)
  }

  /** Where a single pod would leave the cursor after `k` sweeps that find what `swept` says. */
  function Sequential(k: nat, swept: seq<Visit>, limit: int, maxScan: int): Option<nat>
    requires k <= |swept|
  {
    if k == 0 then None
    else NextResume(swept[k - 1].rows, Sequential(k - 1, swept, limit, maxScan), swept[k - 1].present, limit, maxScan)
  }

  lemma {:induction false} SequentialIgnoresLater(k: nat, swept: seq<Visit>, found: Visit, limit: int, maxScan: int)
    requires k <= |swept|
    ensures Sequential(k, swept + [found], limit, maxScan) == Sequential(k, swept, limit, maxScan)
  {
    if k > 0 { SequentialIgnoresLater(k - 1, swept, found, limit, maxScan); }
  }

  /** A cursor is where the sweeps counted by its generation put it. */
  ghost predicate Follows(c: Cursor, swept: seq<Visit>, limit: int, maxScan: int) {
    c.generation <= |swept| && c.resume == Sequential(c.generation, swept, limit, maxScan)
  }

  ghost predicate FleetInv(f: Fleet, limit: int, maxScan: int) {
    && f.cursor.generation == |f.swept| && Follows(f.cursor, f.swept, limit, maxScan)
    && forall p | p in f.held :: Follows(f.held[p], f.swept, limit, maxScan)
  }

  lemma StillFollows(c: Cursor, swept: seq<Visit>, found: Visit, limit: int, maxScan: int)
    requires Follows(c, swept, limit, maxScan)
    ensures Follows(c, swept + [found], limit, maxScan)
  {
    SequentialIgnoresLater(c.generation, swept, found, limit, maxScan);
  }

  lemma AdvanceFollows(c: Cursor, swept: seq<Visit>, found: Visit, limit: int, maxScan: int)
    requires c.generation == |swept| && Follows(c, swept, limit, maxScan)
    ensures var resume := NextResume(found.rows, c.resume, found.present, limit, maxScan);
            Follows(Cursor(c.generation + 1, resume), swept + [found], limit, maxScan)
  {
    SequentialIgnoresLater(|swept|, swept, found, limit, maxScan);
    assert (swept + [found])[|swept|] == found;
  }

  /** An advance wins only from the current cursor, and leaves every cursor already read where it was. */
  lemma CommitKeepsInv(f: Fleet, p: nat, found: Visit, limit: int, maxScan: int)
    requires FleetInv(f, limit, maxScan)
    ensures FleetInv(PodMove(f, Commit(p, found), limit, maxScan), limit, maxScan)
  {
    if p in f.held && f.held[p].generation == f.cursor.generation {
      AdvanceFollows(f.held[p], f.swept, found, limit, maxScan);
      forall q | q in f.held ensures Follows(f.held[q], f.swept + [found], limit, maxScan) {
        StillFollows(f.held[q], f.swept, found, limit, maxScan);
      }
    }
  }

  /**
    Whatever the interleaving of reads, failed reads, sweeps and late commits, and however the collection changes meanwhile, the
    shared cursor is exactly where one pod making the winning sweeps in order would have put it: no advance is lost,
    repeated or rewound.
  */
  lemma {:induction false} FleetSweepsLikeOnePod(steps: seq<PodStep>, limit: int, maxScan: int)
    ensures FleetInv(FleetAfter(IDLE, steps, limit, maxScan), limit, maxScan)
  {
    if steps != [] {
      FleetSweepsLikeOnePod(steps[..|steps| - 1], limit, maxScan);
      match steps[|steps| - 1]
      case Read(p) =>
      case ReadFails(p) =>
      case Commit(p, found) => CommitKeepsInv(FleetAfter(IDLE, steps[..|steps| - 1], limit, maxScan), p, found, limit, maxScan);
    }
  }

  lemma FleetTakes(steps: seq<PodStep>, step: PodStep, limit: int, maxScan: int)
    ensures FleetAfter(IDLE, steps + [step], limit, maxScan) == PodMove(FleetAfter(IDLE, steps, limit, maxScan), step, limit, maxScan)
  {
    assert (steps + [step])[..|steps|] == steps;
  }

  /** Nor is the cursor ever stuck: whatever happened before, a pod that reads it and commits next advances it by its own sweep. */
  lemma ReadThenCommitAdvances(steps: seq<PodStep>, p: nat, found: Visit, limit: int, maxScan: int)
    ensures var before := FleetAfter(IDLE, steps, limit, maxScan);
            var after := FleetAfter(IDLE, steps + [Read(p)] + [Commit(p, found)], limit, maxScan);
            && after.cursor.generation == before.cursor.generation + 1
            && after.cursor.resume == NextResume(found.rows, before.cursor.resume, found.present, limit, maxScan)
            && after.swept == before.swept + [found]
  {
    FleetTakes(steps, Read(p), limit, maxScan);
    FleetTakes(steps + [Read(p)], Commit(p, found), limit, maxScan);
  }

  /** Rows examined by the first `k` sequential sweeps that start at `resume`. */
  function Examined(k: nat, resume: Option<nat>, rows: seq<Row>, present: nat -> bool, limit: int, maxScan: int): seq<Row> {
    if k == 0 then []
    else
      var s := Start(rows, resume, present);
      rows[s..Stop(rows, s, limit, maxScan)]
      + Examined(k - 1, NextResume(rows, resume, present, limit, maxScan), rows, present, limit, maxScan)
  }

  /**
    A tail that a sweep from the top skips stays unexamined by every later sweep for as long as the collection does
    not change, that is, for as long as the rows it keeps returning stay eligible.
  */
  lemma {:induction false} SkippedWhileUnchanged(k: nat, rows: seq<Row>, present: nat -> bool, limit: int, maxScan: int, i: nat)
    requires Ordered(rows) && limit >= 1 && maxScan >= 1 && SkipsTail(rows, 0, limit, maxScan)
    requires Stop(rows, 0, limit, maxScan) <= i < |rows|
    ensures rows[i] !in Examined(k, None, rows, present, limit, maxScan)
  {
    if k > 0 {
      SkippedWhileUnchanged(k - 1, rows, present, limit, maxScan, i);
      var e := Stop(rows, 0, limit, maxScan);
      assert NextResume(rows, None, present, limit, maxScan) == None;
      assert rows[i] !in rows[0..e] by {
        forall x | 0 <= x < e ensures rows[0..e][x] != rows[i] { assert rows[x].path < rows[i].path; }
      }
    }
  }

  ghost function ResumeAfter(k: nat, resume: Option<nat>, rows: seq<Row>, present: nat -> bool, limit: int, maxScan: int): Option<nat> {
    if k == 0 then resume
    else ResumeAfter(k - 1, NextResume(rows, resume, present, limit, maxScan), rows, present, limit, maxScan)
  }

  /** `k` sweeps from `resume` examine exactly one lap and leave the cursor at the top. */
  ghost predicate MakesLap(k: nat, s: nat, resume: Option<nat>, rows: seq<Row>, present: nat -> bool, limit: int, maxScan: int)
    requires s <= |rows| && limit >= 1 && maxScan >= 1
  {
    && ResumeAfter(k, resume, rows, present, limit, maxScan) == None
    && Examined(k, resume, rows, present, limit, maxScan) == Lap(rows, s, limit, maxScan)
  }

  lemma LastSweep(s: nat, resume: Option<nat>, rows: seq<Row>, present: nat -> bool, limit: int, maxScan: int)
    requires limit >= 1 && maxScan >= 1 && s == Start(rows, resume, present) && Exhausts(rows, s, limit, maxScan)
    ensures MakesLap(1, s, resume, rows, present, limit, maxScan)
  {
    var next := NextResume(rows, resume, present, limit, maxScan);
    assert Examined(0, next, rows, present, limit, maxScan) == [];
    assert ResumeAfter(0, next, rows, present, limit, maxScan) == next;
  }

  lemma OneMoreSweep(j: nat, s: nat, e: nat, resume: Option<nat>, rows: seq<Row>, present: nat -> bool, limit: int, maxScan: int)
    requires limit >= 1 && maxScan >= 1 && s == Start(rows, resume, present) && !Exhausts(rows, s, limit, maxScan)
    requires e == Stop(rows, s, limit, maxScan)
    requires MakesLap(j, e, NextResume(rows, resume, present, limit, maxScan), rows, present, limit, maxScan)
    ensures MakesLap(j + 1, s, resume, rows, present, limit, maxScan)
  {
  }

  /** Following persisted paths is following positions: some number of sweeps makes exactly one lap and wraps. */
  lemma {:induction false} SweepsMakeALap(s: nat, resume: Option<nat>, rows: seq<Row>, present: nat -> bool, limit: int, maxScan: int)
    returns (k: nat)
    requires Ordered(rows) && limit >= 1 && maxScan >= 1
    requires forall r | r in rows :: present(r.path)
    requires s == Start(rows, resume, present)
    ensures k >= 1 && MakesLap(k, s, resume, rows, present, limit, maxScan)
    decreases |rows| - s
  {
    if Exhausts(rows, s, limit, maxScan) {
      k := 1;
      LastSweep(s, resume, rows, present, limit, maxScan);
    } else {
      var e, next := NextStartsAfter(s, resume, rows, present, limit, maxScan);
      var j := SweepsMakeALap(e, next, rows, present, limit, maxScan);
      OneMoreSweep(j, s, e, resume, rows, present, limit, maxScan);
      k := j + 1;
    }
  }

  /** The persisted path leads back to the position right after the last examined row. */
  lemma NextStartsAfter(s: nat, resume: Option<nat>, rows: seq<Row>, present: nat -> bool, limit: int, maxScan: int)
    returns (e: nat, next: Option<nat>)
    requires Ordered(rows) && limit >= 1 && maxScan >= 1
    requires forall r | r in rows :: present(r.path)
    requires s == Start(rows, resume, present) && !Exhausts(rows, s, limit, maxScan)
    ensures e == Stop(rows, s, limit, maxScan) && s < e
    ensures next == NextResume(rows, resume, present, limit, maxScan) && Start(rows, next, present) == e
  {
    SweepProgresses(rows, s, limit, maxScan);
    e := Stop(rows, s, limit, maxScan);
    next := NextResume(rows, resume, present, limit, maxScan);
    assert rows[e - 1] in rows;
    AfterFinds(rows, e - 1, 0);
  }
}
