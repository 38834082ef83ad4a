/**
  Reading the chat journal (backend/database/chat.py): the reconcile page with its bounded scan, and the
  cache-aligned history window. `rows` is one scope of messages, newest first.
*/
module ChatPaging {
  import opened Wrappers

  datatype Row = Row(id: string, reported: bool)

  ghost predicate DistinctIds(rows: seq<Row>) {
    forall i, j :: 0 <= i < j < |rows| ==> rows[i].id != rows[j].id
  }

  function Unreported(rows: seq<Row>): (visible: seq<Row>)
    ensures |visible| <= |rows|
  {
    if rows == [] then [] else (if rows[0].reported then [] else [rows[0]]) + Unreported(rows[1..])
  }

  lemma {:induction false} UnreportedConcat(a: seq<Row>, b: seq<Row>)
    ensures Unreported(a + b) == Unreported(a) + Unreported(b)
  {
    if a == [] {
      assert a + b == b;
    } else {
      var head := if a[0].reported then [] else [a[0]];
      assert (a + b)[0] == a[0] && (a + b)[1..] == a[1..] + b;
      UnreportedConcat(a[1..], b);
      assert Unreported(a + b) == head + Unreported(a[1..] + b);
      assert Unreported(a) == head + Unreported(a[1..]);
    }
  }

  /** The unreported ones among `n` rows from `p` on, collected one row at a time. */
  function Found(rows: seq<Row>, p: nat, n: nat): seq<Row>
    requires p + n <= |rows|
  {
    if n == 0 then [] else Found(rows, p, n - 1) + if rows[p + n - 1].reported then [] else [rows[p + n - 1]]
  }

  lemma {:induction false} FoundIsUnreported(rows: seq<Row>, p: nat, n: nat)
    requires p + n <= |rows|
    ensures Found(rows, p, n) == Unreported(rows[p..p + n])
  {
    if n > 0 {
      FoundIsUnreported(rows, p, n - 1);
      assert rows[p..p + n] == rows[p..p + n - 1] + [rows[p + n - 1]];
      UnreportedConcat(rows[p..p + n - 1], [rows[p + n - 1]]);
    }
  }

  lemma SplitAt(rows: seq<Row>, p: nat, n: nat)
    requires p + n <= |rows|
    ensures Unreported(rows[p..]) == Found(rows, p, n) + Unreported(rows[p + n..])
  {
    assert rows[p..] == rows[p..p + n] + rows[p + n..];
    UnreportedConcat(rows[p..p + n], rows[p + n..]);
    FoundIsUnreported(rows, p, n);
  }

  // ----- one page -----

  const BATCH: nat := 100

  function Min(a: int, b: int): int { if a < b then a else b }
  function Max(a: int, b: int): int { if a < b then b else a }

  function ScanBudget(limit: nat): nat { Min(1000, Max(100, limit * 4)) }

  /** How many rows from `p` on are inspected before `limit` messages are found, the budget is spent or the rows end. */
  function Scan(rows: seq<Row>, p: nat, limit: nat, budget: nat): (n: nat)
    ensures p <= |rows| ==> p + n <= |rows|
    ensures n <= budget
    decreases budget
  {
    if p >= |rows| || limit == 0 || budget == 0 then 0
    else 1 + Scan(rows, p + 1, if rows[p].reported then limit else limit - 1, budget - 1)
  }

  datatype Page = Page(messages: seq<Row>, cursor: Option<string>, hasMore: bool)

  /** The page that starts at row `p`. */
  function PageAt(rows: seq<Row>, p: nat, limit: nat): Page
    requires p <= |rows|
  {
    var n := Scan(rows, p, limit, ScanBudget(limit));
    var messages := Found(rows, p, n);
    Page(messages, if n == 0 then None else Some(rows[p + n - 1].id), |messages| == limit || n == ScanBudget(limit))
  }

  datatype PageError = InvalidLimit | UnknownCursor
  datatype PageResult = PageOf(page: Page) | Refused(error: PageError)

  function IndexFrom(rows: seq<Row>, id: string, k: nat): (i: nat)
    requires k <= |rows|
    ensures k <= i <= |rows| && (i < |rows| ==> rows[i].id == id)
    ensures forall j | k <= j < i :: rows[j].id != id
    decreases |rows| - k
  {
    if k == |rows| || rows[k].id == id then k else IndexFrom(rows, id, k + 1)
  }

  /** Where the page after `cursor` starts. */
  function StartOf(rows: seq<Row>, cursor: Option<string>): Option<nat> {
    if cursor.None? then Some(0)
    else
      var i := IndexFrom(rows, cursor.value, 0);
      if i == |rows| then None else Some(i + 1)
  }

  function Reconcile(rows: seq<Row>, cursor: Option<string>, limit: int): PageResult {
    if limit < 1 || limit > 100 then Refused(InvalidLimit)
    else
      var p := StartOf(rows, cursor);
      if p.None? || p.value > |rows| then Refused(UnknownCursor) else PageOf(PageAt(rows, p.value, limit))
  }

  /** Why a scan stops, and how much it found. */
  lemma {:induction false} ScanStops(rows: seq<Row>, p: nat, limit: nat, budget: nat)
    requires p <= |rows|
    ensures var n := Scan(rows, p, limit, budget);
            && |Unreported(rows[p..p + n])| <= limit
            && (n == budget || p + n == |rows| || |Unreported(rows[p..p + n])| == limit)
    decreases budget
  {
    if p < |rows| && limit > 0 && budget > 0 {
      var left := if rows[p].reported then limit else limit - 1;
      ScanStops(rows, p + 1, left, budget - 1);
      var n := Scan(rows, p, limit, budget);
      assert rows[p..p + n][1..] == rows[p + 1..p + n];
    } else {
      assert rows[p..p] == [];
    }
  }

  lemma ScanStep(rows: seq<Row>, p: nat, limit: nat, budget: nat)
    requires p < |rows| && limit > 0 && budget > 0
    ensures Scan(rows, p, limit, budget) == 1 + Scan(rows, p + 1, if rows[p].reported then limit else limit - 1, budget - 1)
  {
  }

  /** One batch of documents: scan them in order until the page is full. */
  method ScanBatch(rows: seq<Row>, p: nat, scanned: nat, size: nat, found: seq<Row>, limit: nat, ghost budget: nat)
    returns (seen: nat, messages: seq<Row>, full: bool)
    requires |found| < limit && p + scanned + size <= |rows| && found == Found(rows, p, scanned) && scanned + size <= budget
    ensures scanned <= seen <= scanned + size && messages == Found(rows, p, seen) && |messages| <= limit
    ensures if full then |messages| == limit && seen > scanned else |messages| < limit && seen == scanned + size
    ensures seen + Scan(rows, p + seen, limit - |messages|, budget - seen) ==
              scanned + Scan(rows, p + scanned, limit - |found|, budget - scanned)
  {
    seen, messages, full := scanned, found, false;
    while seen < scanned + size
      invariant scanned <= seen <= scanned + size
      invariant messages == Found(rows, p, seen) && |messages| < limit
      invariant seen + Scan(rows, p + seen, limit - |messages|, budget - seen) ==
                  scanned + Scan(rows, p + scanned, limit - |found|, budget - scanned)
    {
      var row := rows[p + seen];
      ScanStep(rows, p + seen, limit - |messages|, budget - seen);
      seen := seen + 1;
      if !row.reported {
        messages := messages + [row];
        if |messages| == limit {
          full := true;
          return;
        }
      }
    }
  }

  /** The scan of one page: batches of at most 100 documents, within the budget. */
  method ScanPage(rows: seq<Row>, p: nat, limit: nat, budget: nat) returns (scanned: nat, messages: seq<Row>, hasMore: bool)
    requires p <= |rows| && limit > 0 && budget > 0
    ensures scanned == Scan(rows, p, limit, budget) && messages == Found(rows, p, scanned)
    ensures hasMore <==> |messages| == limit || scanned == budget
  {
    scanned, messages, hasMore := 0, [], false;
    while scanned < budget && |messages| < limit
      invariant 0 <= scanned <= budget && p + scanned <= |rows|
      invariant messages == Found(rows, p, scanned) && |messages| < limit
      invariant Scan(rows, p, limit, budget) == scanned + Scan(rows, p + scanned, limit - |messages|, budget - scanned)
      decreases budget - scanned
    {
      var batchLimit := Min(BATCH, budget - scanned);
      var size := Min(batchLimit, |rows| - p - scanned);
      if size == 0 {
        hasMore := false;
        break;
      }
      var full;
      scanned, messages, full := ScanBatch(rows, p, scanned, size, messages, limit, budget);
      if full {
        hasMore := true;
        break;
      }
      if size < batchLimit {
        hasMore := false;
        break;
      }
      hasMore := true;
    }
    if scanned >= budget && |messages| < limit { hasMore := true; }
  }

  /** The page behind row `p - 1`, which is the one the cursor names; a page that did not move on has no cursor to give. */
  method PageBehind(rows: seq<Row>, p: nat, cursor: Option<string>, limit: nat) returns (page: Page)
    requires DistinctIds(rows) && p <= |rows| && 1 <= limit <= 100
    requires if cursor.Some? then p > 0 && rows[p - 1].id == cursor.value else p == 0
    ensures page == PageAt(rows, p, limit)
  {
    var scanned, messages, hasMore := ScanPage(rows, p, limit, ScanBudget(limit));
    var nextCursor := if scanned == 0 then cursor else Some(rows[p + scanned - 1].id);
    if nextCursor == cursor && messages == [] { nextCursor := None; }
    page := Page(messages, nextCursor, hasMore);
  }

  /** The reconcile page. */
  method ReconcilePage(rows: seq<Row>, cursor: Option<string>, limit: int) returns (result: PageResult)
    requires DistinctIds(rows)
    ensures result == Reconcile(rows, cursor, limit)
  {
    if limit < 1 || limit > 100 { return Refused(InvalidLimit); }
    var p := 0;
    if cursor.Some? {
      var i := IndexFrom(rows, cursor.value, 0);
      if i == |rows| { return Refused(UnknownCursor); }
      p := i + 1;
    }
    var page := PageBehind(rows, p, cursor, limit);
    return PageOf(page);
  }

  // ----- following the cursors -----

  /** A page that promises more has moved on: paging terminates. */
  lemma MoreMeansProgress(rows: seq<Row>, p: nat, limit: nat)
    requires p <= |rows| && 1 <= limit <= 100
    ensures var page := PageAt(rows, p, limit);
            && (page.hasMore ==> Scan(rows, p, limit, ScanBudget(limit)) > 0 && page.cursor.Some?)
            && (!page.hasMore ==> p + Scan(rows, p, limit, ScanBudget(limit)) == |rows|)
            && |page.messages| <= limit
  {
    ScanStops(rows, p, limit, ScanBudget(limit));
    FoundIsUnreported(rows, p, Scan(rows, p, limit, ScanBudget(limit)));
  }

  /** The cursor of a page, looked up again after new messages arrived, is right behind the last row inspected. */
  lemma CursorSurvivesArrivals(rows: seq<Row>, p: nat, limit: nat, newer: seq<Row>)
    requires p <= |rows| && 1 <= limit <= 100 && DistinctIds(newer + rows) && PageAt(rows, p, limit).cursor.Some?
    ensures StartOf(newer + rows, PageAt(rows, p, limit).cursor) == Some(|newer| + p + Scan(rows, p, limit, ScanBudget(limit)))
  {
    var n := Scan(rows, p, limit, ScanBudget(limit));
    var all := newer + rows;
    var at := |newer| + p + n - 1;
    assert all[at] == rows[p + n - 1];
    var i := IndexFrom(all, all[at].id, 0);
    assert i <= at;
  }

  function Newer(arrivals: seq<seq<Row>>): seq<Row> { if arrivals == [] then [] else arrivals[0] }
  function Later(arrivals: seq<seq<Row>>): seq<seq<Row>> { if arrivals == [] then [] else arrivals[1..] }

  /** The scope after everything in `arrivals` came in at its head, batch by batch. */
  function Grown(rows: seq<Row>, arrivals: seq<seq<Row>>): seq<Row>
    decreases |arrivals|
  {
    if arrivals == [] then rows else Grown(arrivals[0] + rows, arrivals[1..])
  }

  ghost predicate EndsWith(all: seq<Row>, rows: seq<Row>) {
    |rows| <= |all| && forall i | 0 <= i < |rows| :: rows[i] == all[|all| - |rows| + i]
  }

  lemma EndIsDistinct(all: seq<Row>, rows: seq<Row>)
    requires EndsWith(all, rows) && DistinctIds(all)
    ensures DistinctIds(rows)
  {
    var d := |all| - |rows|;
    forall i, j | 0 <= i < j < |rows| ensures rows[i].id != rows[j].id {
      assert rows[i] == all[d + i] && rows[j] == all[d + j];
    }
  }

  lemma ArrivalKeepsEnd(all: seq<Row>, newer: seq<Row>, rows: seq<Row>)
    requires EndsWith(all, newer + rows)
    ensures EndsWith(all, rows)
  {
    var next := newer + rows;
    forall i | 0 <= i < |rows| ensures rows[i] == all[|all| - |rows| + i] {
      assert next[|newer| + i] == rows[i];
    }
  }

  lemma {:induction false} GrownEndsWith(rows: seq<Row>, arrivals: seq<seq<Row>>)
    ensures EndsWith(Grown(rows, arrivals), rows)
    decreases |arrivals|
  {
    if arrivals != [] {
      GrownEndsWith(arrivals[0] + rows, arrivals[1..]);
      ArrivalKeepsEnd(Grown(rows, arrivals), arrivals[0], rows);
    }
  }

  lemma GrowthGoesOn(rows: seq<Row>, arrivals: seq<seq<Row>>)
    ensures Grown(Newer(arrivals) + rows, Later(arrivals)) == Grown(rows, arrivals)
  {
    if arrivals == [] { assert Newer(arrivals) + rows == rows; }
  }

  /** Distinct ids in the final scope are distinct ids in every scope on the way. */
  lemma DistinctOnTheWay(rows: seq<Row>, arrivals: seq<seq<Row>>)
    requires DistinctIds(Grown(rows, arrivals))
    ensures DistinctIds(rows) && DistinctIds(Newer(arrivals) + rows)
    ensures DistinctIds(Grown(Newer(arrivals) + rows, Later(arrivals)))
  {
    GrowthGoesOn(rows, arrivals);
    GrownEndsWith(Newer(arrivals) + rows, Later(arrivals));
    EndIsDistinct(Grown(rows, arrivals), Newer(arrivals) + rows);
    GrownEndsWith(rows, arrivals);
    EndIsDistinct(Grown(rows, arrivals), rows);
  }

  /** A page that promises more without being full has inspected its whole budget: 100 rows, or four for each message asked for. */
  lemma ShortPageSpentBudget(rows: seq<Row>, p: nat, limit: nat)
    requires p <= |rows| && 1 <= limit <= 100
    requires PageAt(rows, p, limit).hasMore && |PageAt(rows, p, limit).messages| < limit
    ensures Scan(rows, p, limit, ScanBudget(limit)) == if limit <= 25 then 100 else 4 * limit
  {
  }

  function Remaining(rows: seq<Row>, cursor: Option<string>): nat {
    var p := StartOf(rows, cursor);
    if p.None? || p.value > |rows| then 0 else |rows| - p.value
  }

  /** A page that promises more leaves less to read behind its cursor, whatever arrives at the head. */
  lemma NextPageHasLess(rows: seq<Row>, cursor: Option<string>, limit: int, newer: seq<Row>)
    requires DistinctIds(newer + rows) && Reconcile(rows, cursor, limit).PageOf? && Reconcile(rows, cursor, limit).page.hasMore
    ensures Remaining(newer + rows, Reconcile(rows, cursor, limit).page.cursor) < Remaining(rows, cursor)
  {
    var p := StartOf(rows, cursor).value;
    MoreMeansProgress(rows, p, limit);
    CursorSurvivesArrivals(rows, p, limit, newer);
  }

  /**
    What a client collects: it asks for a page, and while the answer says there is more it asks again with the
    cursor it was given. Between two pages a batch of `arrivals` appears at the head of the scope. None if any
    page is refused.
  */
  ghost function Follow(rows: seq<Row>, cursor: Option<string>, limit: int, arrivals: seq<seq<Row>>): Option<seq<Row>>
    requires DistinctIds(Grown(rows, arrivals))
    decreases Remaining(rows, cursor)
  {
    match Reconcile(rows, cursor, limit)
    case Refused(_) => None
    case PageOf(page) =>
      if !page.hasMore then Some(page.messages)
      else
        DistinctOnTheWay(rows, arrivals);
        NextPageHasLess(rows, cursor, limit, Newer(arrivals));
        var rest := Follow(Newer(arrivals) + rows, page.cursor, limit, Later(arrivals));
        if rest.None? then None else Some(page.messages + rest.value)
  }

  /** The unreported messages from row `p` on. */
  function VisibleFrom(rows: seq<Row>, p: nat): seq<Row>
    decreases |rows| - p
  {
    if p >= |rows| then [] else (if rows[p].reported then [] else [rows[p]]) + VisibleFrom(rows, p + 1)
  }

  lemma {:induction false} VisibleFromIsUnreported(rows: seq<Row>, p: nat)
    requires p <= |rows|
    ensures VisibleFrom(rows, p) == Unreported(rows[p..])
    decreases |rows| - p
  {
    if p < |rows| {
      assert rows[p..][1..] == rows[p + 1..];
      VisibleFromIsUnreported(rows, p + 1);
    }
  }

  /** Rows that only moved by `d` places show the same messages. */
  lemma {:induction false} ShiftedVisible(all: seq<Row>, rows: seq<Row>, d: nat, k: nat)
    requires |all| == d + |rows| && k <= |rows| && (forall i | 0 <= i < |rows| :: all[d + i] == rows[i])
    ensures VisibleFrom(all, d + k) == VisibleFrom(rows, k)
    decreases |rows| - k
  {
    if k < |rows| {
      var row := rows[k];
      assert all[d + k] == row;
      ShiftedVisible(all, rows, d, k + 1);
    }
  }

  lemma BehindArrivals(newer: seq<Row>, rows: seq<Row>, k: nat)
    requires k <= |rows|
    ensures VisibleFrom(newer + rows, |newer| + k) == VisibleFrom(rows, k)
  {
    ShiftedVisible(newer + rows, rows, |newer|, k);
  }

  /** A page and what lies behind it are all that lies behind its start; a last page is all of it. */
  lemma PageThenRest(rows: seq<Row>, p: nat, limit: int)
    requires p <= |rows| && 1 <= limit <= 100
    ensures var n := Scan(rows, p, limit, ScanBudget(limit));
            var page := PageAt(rows, p, limit);
            && VisibleFrom(rows, p) == page.messages + VisibleFrom(rows, p + n)
            && (!page.hasMore ==> VisibleFrom(rows, p) == page.messages)
  {
    var n := Scan(rows, p, limit, ScanBudget(limit));
    MoreMeansProgress(rows, p, limit);
    SplitAt(rows, p, n);
    VisibleFromIsUnreported(rows, p);
    VisibleFromIsUnreported(rows, p + n);
  }

  /** One round of following: a last page ends it, and any other page is put before the rest. */
  lemma FollowUnfolds(rows: seq<Row>, cursor: Option<string>, p: nat, limit: int, arrivals: seq<seq<Row>>)
    requires DistinctIds(Grown(rows, arrivals)) && 1 <= limit <= 100 && StartOf(rows, cursor) == Some(p) && p <= |rows|
    ensures var page := PageAt(rows, p, limit);
            && DistinctIds(Grown(Newer(arrivals) + rows, Later(arrivals)))
            && (!page.hasMore ==> Follow(rows, cursor, limit, arrivals) == Some(page.messages))
            && (page.hasMore ==>
                  var rest := Follow(Newer(arrivals) + rows, page.cursor, limit, Later(arrivals));
                  rest.Some? ==> Follow(rows, cursor, limit, arrivals) == Some(page.messages + rest.value))
  {
    DistinctOnTheWay(rows, arrivals);
    assert Reconcile(rows, cursor, limit) == PageOf(PageAt(rows, p, limit));
  }

  /**
    Following the cursors is never refused, and collects every unreported message behind the first cursor exactly
    once and in order, whatever arrives meanwhile.
  */
  lemma {:induction false} FollowCollectsAll(rows: seq<Row>, cursor: Option<string>, p: nat, limit: int, arrivals: seq<seq<Row>>)
    requires DistinctIds(Grown(rows, arrivals)) && 1 <= limit <= 100 && StartOf(rows, cursor) == Some(p) && p <= |rows|
    ensures Follow(rows, cursor, limit, arrivals) == Some(VisibleFrom(rows, p))
    decreases |rows| - p
  {
    FollowUnfolds(rows, cursor, p, limit, arrivals);
    PageThenRest(rows, p, limit);
    var page := PageAt(rows, p, limit);
    if page.hasMore {
      NextPage(rows, p, limit, arrivals);
      var n, newer := Scan(rows, p, limit, ScanBudget(limit)), Newer(arrivals);
      var rest := Follow(newer + rows, page.cursor, limit, Later(arrivals));
      assert rest == Some(VisibleFrom(rows, p + n)) by {
        FollowCollectsAll(newer + rows, page.cursor, |newer| + p + n, limit, Later(arrivals));
        BehindArrivals(newer, rows, p + n);
      }
    }
  }

  lemma NextPage(rows: seq<Row>, p: nat, limit: int, arrivals: seq<seq<Row>>)
    requires DistinctIds(Grown(rows, arrivals)) && p <= |rows| && 1 <= limit <= 100 && PageAt(rows, p, limit).hasMore
    ensures var n := Scan(rows, p, limit, ScanBudget(limit));
            n > 0 && StartOf(Newer(arrivals) + rows, PageAt(rows, p, limit).cursor) == Some(|Newer(arrivals)| + p + n)
  {
    DistinctOnTheWay(rows, arrivals);
    MoreMeansProgress(rows, p, limit);
    CursorSurvivesArrivals(rows, p, limit, Newer(arrivals));
  }

  /** Paging from the start yields the whole visible scope. */
  lemma PagingIsComplete(rows: seq<Row>, limit: int, arrivals: seq<seq<Row>>)
    requires DistinctIds(Grown(rows, arrivals)) && 1 <= limit <= 100
    ensures Follow(rows, None, limit, arrivals) == Some(Unreported(rows))
  {
    FollowCollectsAll(rows, None, 0, limit, arrivals);
    VisibleFromIsUnreported(rows, 0);
    assert rows[0..] == rows;
  }

  /** A client is refused exactly on its first request: for a bad limit or a cursor that is not in the scope. */
  lemma RefusedOnlyAtTheStart(rows: seq<Row>, cursor: Option<string>, limit: int, arrivals: seq<seq<Row>>)
    requires DistinctIds(Grown(rows, arrivals))
    ensures Follow(rows, cursor, limit, arrivals).None? <==> !(1 <= limit <= 100) || StartOf(rows, cursor).None?
  {
    if 1 <= limit <= 100 && StartOf(rows, cursor).Some? {
      FollowCollectsAll(rows, cursor, StartOf(rows, cursor).value, limit, arrivals);
    }
  }

  // ----- the cache-aligned history window -----

  const BASE_MESSAGES: nat := 10
  const EPOCH_MESSAGES: nat := 8
  const REPORTED_SCAN_CAP: nat := 50

  function HistoryLimit(total: nat): nat {
    if total <= BASE_MESSAGES then total else BASE_MESSAGES + (total - BASE_MESSAGES) % EPOCH_MESSAGES
  }

  /** The window holds 10 to 17 messages and its start moves only when an epoch of eight is full. */
  lemma WindowStartsOnEpochs(total: nat)
    ensures total < 10 ==> HistoryLimit(total) == total
    ensures total >= 10 ==> 10 <= HistoryLimit(total) < 18 && total - HistoryLimit(total) == (total - 10) / 8 * 8
    ensures total >= 10 ==> HistoryLimit(total + 1) == HistoryLimit(total) + 1 || HistoryLimit(total + 1) == 10
    ensures total >= 10 ==>
              (HistoryLimit(total + 1) == HistoryLimit(total) + 1 <==>
               total + 1 - HistoryLimit(total + 1) == total - HistoryLimit(total))
  {
  }

  function ReportedCount(rows: seq<Row>): nat { |rows| - |Unreported(rows)| }

  function RawLimit(rows: seq<Row>): nat {
    Min(|rows|, HistoryLimit(|Unreported(rows)|) + Min(ReportedCount(rows), REPORTED_SCAN_CAP))
  }

  /** The history read: over-fetch by the reported count, capped, then drop reported rows. */
  function AlignedHistory(rows: seq<Row>): seq<Row> {
    var visible := HistoryLimit(|Unreported(rows)|);
    var page := Unreported(rows[..RawLimit(rows)]);
    if visible == 0 then [] else if |page| <= visible then page else page[..visible]
  }

  lemma HistoryFits(total: nat)
    ensures HistoryLimit(total) <= total
  {
  }

  lemma {:induction false} UnreportedPrefix(page: seq<Row>, rest: seq<Row>)
    ensures Unreported(page) <= Unreported(page + rest)
  {
    UnreportedConcat(page, rest);
  }

  /** A raw page shows a prefix of the visible scope. */
  lemma {:induction false} PageIsPrefix(rows: seq<Row>, raw: nat)
    requires raw <= |rows|
    ensures Unreported(rows[..raw]) <= Unreported(rows)
  {
    UnreportedPrefix(rows[..raw], rows[raw..]);
    assert rows[..raw] + rows[raw..] == rows;
  }

  /** The window is the newest visible messages exactly when the raw page has no more reported rows than its slack. */
  lemma HistoryIsFullIff(rows: seq<Row>)
    ensures var visible := HistoryLimit(|Unreported(rows)|);
            && visible <= |Unreported(rows)|
            && (AlignedHistory(rows) == Unreported(rows)[..visible] <==>
                ReportedCount(rows[..RawLimit(rows)]) <= RawLimit(rows) - visible)
  {
    var all := Unreported(rows);
    var visible, page := HistoryLimit(|all|), Unreported(rows[..RawLimit(rows)]);
    HistoryFits(|all|);
    PageIsPrefix(rows, RawLimit(rows));
    assert page == all[..|page|];
    if |page| >= visible {
      assert page[..visible] == all[..visible];
    }
  }

  /** Up to 50 reported rows in the scope, the over-fetch always suffices. */
  lemma FewReportsMeanFullHistory(rows: seq<Row>)
    requires ReportedCount(rows) <= REPORTED_SCAN_CAP
    ensures AlignedHistory(rows) == Unreported(rows)[..HistoryLimit(|Unreported(rows)|)]
  {
    var raw := RawLimit(rows);
    assert rows == rows[..raw] + rows[raw..];
    UnreportedConcat(rows[..raw], rows[raw..]);
    HistoryIsFullIff(rows);
  }

  function AllReported(n: nat): seq<Row> { seq(n, i => Row("r", true)) }

  lemma {:induction false} AllReportedIsInvisible(rows: seq<Row>)
    requires forall i | 0 <= i < |rows| :: rows[i].reported
    ensures Unreported(rows) == []
  {
    if rows != [] { AllReportedIsInvisible(rows[1..]); }
  }

  /** Beyond that it does not: 60 reported rows above one visible message hide it from the window. */
  lemma ManyReportsHideHistory(visible: Row)
    requires !visible.reported
    ensures var rows := AllReported(60) + [visible];
            Unreported(rows) == [visible] && AlignedHistory(rows) == [] && HistoryLimit(|Unreported(rows)|) == 1
  {
    var rows := AllReported(60) + [visible];
    AllReportedIsInvisible(AllReported(60));
    UnreportedConcat(AllReported(60), [visible]);
    assert Unreported([visible]) == [visible];
    assert RawLimit(rows) == 51;
    AllReportedIsInvisible(rows[..51]);
  }
}
