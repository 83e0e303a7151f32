/**
 The resumable keyset scan behind dueMessages: each call examines one page of eligible rows in
 (created_at, key) order behind a cursor that is kept across calls.
 */
module RecoveryScan {
  import opened Common
  import opened CanonicalJson

  /** created_at and row key; keys are compared by code unit. */
  datatype Position = Position(createdAt: int, key: Text)

  predicate Before(a: Position, b: Position) {
    a.createdAt < b.createdAt || (a.createdAt == b.createdAt && Less(a.key, b.key))
  }

  predicate AtMost(a: Position, b: Position) {
    a == b || Before(a, b)
  }

  predicate Behind(after: Option<Position>, p: Position) {
    after.None? || Before(after.value, p)
  }

  lemma BeforeIsStrict(a: Position, b: Position)
    ensures !(Before(a, b) && Before(b, a))
    ensures Before(a, b) || Before(b, a) || a == b
  {
    LessIsAsymmetric(a.key, b.key);
  }

  lemma BeforeIsTransitive(a: Position, b: Position, c: Position)
    requires Before(a, b) && Before(b, c)
    ensures Before(a, c)
  {
    if a.createdAt == b.createdAt == c.createdAt {
      LessIsTransitive(a.key, b.key, c.key);
    }
  }

  /** An eligible row as the scan sees it: where it is, and whether it is returned when reached. */
  datatype Item = Item(pos: Position, due: bool)

  datatype Scan = Scan(after: Option<Position>, through: Position)

  /** What the page query returns: eligible rows behind the cursor, in order, at most budget of them. */
  ghost predicate IsPage(scan: Scan, page: seq<Item>, budget: nat) {
    && |page| <= budget
    && (forall i | 0 <= i < |page| :: Behind(scan.after, page[i].pos) && AtMost(page[i].pos, scan.through))
    && (forall i, j | 0 <= i < j < |page| :: Before(page[i].pos, page[j].pos))
  }

  /** The positions returned: the first limit due rows of the page. */
  function TakeDue(page: seq<Item>, limit: nat): seq<Position> {
    if page == [] || limit == 0 then []
    else if page[0].due then [page[0].pos] + TakeDue(page[1..], limit - 1)
    else TakeDue(page[1..], limit)
  }

  /** The index of the first due row, or the length of the page. */
  function FirstDue(page: seq<Item>): (n: nat)
    ensures n <= |page|
    ensures forall i | 0 <= i < n :: !page[i].due
    ensures n < |page| ==> page[n].due
  {
    if page == [] || page[0].due then 0 else 1 + FirstDue(page[1..])
  }

  /** The cursor after examining the first n rows of the page. */
  function CursorAfter(scan: Scan, page: seq<Item>, n: nat): Option<Position>
    requires n <= |page|
  {
    if n == 0 then scan.after else Some(page[n - 1].pos)
  }

  /** The scan kept for the next call, or None when it is finished. */
  function NextScan(scan: Scan, page: seq<Item>, budget: nat): Option<Scan> {
    var n := FirstDue(page);
    if n == |page| && |page| < budget then None else Some(scan.(after := CursorAfter(scan, page, n)))
  }

  lemma {:induction false} TakeDueTakes(page: seq<Item>, limit: nat)
    requires limit > 0
    ensures |TakeDue(page, limit)| <= limit
    ensures TakeDue(page, limit) == [] <==> FirstDue(page) == |page|
    ensures TakeDue(page, limit) != [] ==> TakeDue(page, limit)[0] == page[FirstDue(page)].pos
    ensures forall p | p in TakeDue(page, limit) :: Item(p, true) in page
  {
    if page != [] {
      if !page[0].due {
        TakeDueTakes(page[1..], limit);
      } else if limit > 1 {
        TakeDueTakes(page[1..], limit - 1);
      }
      assert page == [page[0]] + page[1..];
    }
  }

  /** The cursor never moves past a row that was due when it was examined, and never moves back. */
  lemma CursorNeverPassesDueRow(scan: Scan, page: seq<Item>, budget: nat, i: nat)
    requires IsPage(scan, page, budget) && i < |page| && page[i].due
    ensures NextScan(scan, page, budget).Some?
    ensures Behind(NextScan(scan, page, budget).value.after, page[i].pos)
    ensures NextScan(scan, page, budget).value.through == scan.through
  {
    assert FirstDue(page) <= i;
  }

  /** A call that returns nothing has either finished the scan or passed exactly budget rows, none of them due. */
  lemma EmptyCallFinishesOrPassesBudget(scan: Scan, page: seq<Item>, budget: nat, limit: nat)
    requires IsPage(scan, page, budget) && 0 < limit <= budget
    requires TakeDue(page, limit) == []
    ensures forall i | 0 <= i < |page| :: !page[i].due
    ensures NextScan(scan, page, budget).None? <==> |page| < budget
    ensures |page| == budget ==> NextScan(scan, page, budget) == Some(scan.(after := Some(page[budget - 1].pos)))
  {
    TakeDueTakes(page, limit);
  }

  // ---------------------------------------------------------------- progress over many calls

  /** One call: the scan it started from, the page it saw and what it left behind. */
  datatype Call = Call(scan: Scan, page: seq<Item>, budget: nat, limit: nat)
  {
    function Returned(): seq<Position> {
      TakeDue(page, limit)
    }

    function Next(): Option<Scan> {
      NextScan(scan, page, budget)
    }

    ghost predicate Valid() {
      IsPage(scan, page, budget) && 0 < limit <= budget
    }

    /** Row p is eligible and due at this call: the query offers it unless the page fills up before it. */
    ghost predicate Offers(p: Position) {
      Behind(scan.after, p) && AtMost(p, scan.through) ==>
        || Item(p, true) in page
        || (|page| == budget > 0 && Before(page[budget - 1].pos, p))
    }

    ghost predicate Sees(p: Position) {
      exists i :: 0 <= i < |page| && page[i].pos == p
    }
  }

  /**
   Successive calls of one scan over finitely many rows. A returned row may be seen again, for instance
   once its handler has failed and its next attempt lies in the future, but it is not returned again.
   */
  ghost predicate Continues(calls: seq<Call>, rows: set<Position>) {
    && (forall i | 0 <= i < |calls| :: calls[i].Valid())
    && (forall i, p | 0 <= i < |calls| && calls[i].Sees(p) :: p in rows)
    && (forall i | 0 <= i < |calls| - 1 :: calls[i].Next() == Some(calls[i + 1].scan))
    && (forall i, j, p | 0 <= i < j < |calls| && p in calls[i].Returned() :: p !in calls[j].Returned())
  }

  /** The rows the call can still have ahead of it. */
  function Remaining(call: Call, rows: set<Position>): set<Position> {
    set p | p in rows && Behind(call.scan.after, p)
  }

  /** A due row that is not returned is not passed either. */
  lemma UnreturnedStaysAhead(call: Call, p: Position)
    requires call.Valid() && call.Offers(p) && p !in call.Returned()
    requires Behind(call.scan.after, p) && AtMost(p, call.scan.through)
    ensures call.Next().Some?
    ensures Behind(call.Next().value.after, p) && call.Next().value.through == call.scan.through
  {
    var page := call.page;
    TakeDueTakes(page, call.limit);
    var n := FirstDue(page);
    if Item(p, true) in page {
      var i :| 0 <= i < |page| && page[i] == Item(p, true);
      CursorNeverPassesDueRow(call.scan, page, call.budget, i);
    } else if 0 < n < |page| {
      BeforeIsTransitive(page[n - 1].pos, page[|page| - 1].pos, p);
    }
  }

  /** Every row still ahead after the call was ahead before it. */
  lemma CursorMovesForward(call: Call, p: Position)
    requires call.Valid() && call.Next().Some? && Behind(call.Next().value.after, p)
    ensures Behind(call.scan.after, p)
  {
    var n := FirstDue(call.page);
    if n > 0 && call.scan.after.Some? {
      BeforeIsTransitive(call.scan.after.value, call.page[n - 1].pos, p);
    }
  }

  /** Some row of the page is used up by the call: returned, or passed by the cursor. */
  lemma CallUsesUpARow(call: Call, p: Position)
    requires call.Valid() && call.Offers(p) && p !in call.Returned()
    requires Behind(call.scan.after, p) && AtMost(p, call.scan.through)
    ensures exists u :: call.Sees(u) && Behind(call.scan.after, u) &&
                        (u in call.Returned() || (call.Next().Some? && !Behind(call.Next().value.after, u)))
  {
    var page := call.page;
    TakeDueTakes(page, call.limit);
    if call.Returned() != [] {
      var u := page[FirstDue(page)].pos;
      assert call.Sees(u) && u in call.Returned();
    } else {
      var u := page[call.budget - 1].pos;
      BeforeIsStrict(u, u);
      assert call.Sees(u);
    }
  }

  /** Rows that have not been returned before call i. */
  ghost function Unreturned(calls: seq<Call>, rows: set<Position>, i: nat): set<Position>
    requires i < |calls|
  {
    set p | p in rows && forall j | 0 <= j < i :: p !in calls[j].Returned()
  }

  /** Every call lowers this: it returns a row for the first time, or its cursor passes one. */
  ghost function Work(calls: seq<Call>, rows: set<Position>, i: nat): nat
    requires i < |calls|
  {
    |Remaining(calls[i], rows)| + |Unreturned(calls, rows, i)|
  }

  lemma StepShrinksWork(calls: seq<Call>, rows: set<Position>, i: nat, p: Position)
    requires Continues(calls, rows) && i + 1 < |calls|
    requires calls[i].Offers(p) && p !in calls[i].Returned()
    requires Behind(calls[i].scan.after, p) && AtMost(p, calls[i].scan.through)
    ensures Work(calls, rows, i + 1) < Work(calls, rows, i)
  {
    assert calls[i].Next() == Some(calls[i + 1].scan);
    var a, b := Remaining(calls[i + 1], rows), Remaining(calls[i], rows);
    var c, d := Unreturned(calls, rows, i + 1), Unreturned(calls, rows, i);
    forall q | q in a
      ensures q in b
    {
      CursorMovesForward(calls[i], q);
    }
    SubsetIsSmaller(a, b);
    SubsetIsSmaller(c, d);
    CallUsesUpARow(calls[i], p);
    var u :| calls[i].Sees(u) && Behind(calls[i].scan.after, u) &&
             (u in calls[i].Returned() || !Behind(calls[i].Next().value.after, u));
    if u in calls[i].Returned() {
      assert u in d && u !in c;
    } else {
      assert u in b && u !in a;
    }
  }

  lemma {:induction false} StillAhead(calls: seq<Call>, rows: set<Position>, p: Position, i: nat)
    requires Continues(calls, rows) && i < |calls| && p in rows
    requires Behind(calls[0].scan.after, p) && AtMost(p, calls[0].scan.through)
    requires forall j | 0 <= j < |calls| :: calls[j].Offers(p) && p !in calls[j].Returned()
    ensures Behind(calls[i].scan.after, p) && AtMost(p, calls[i].scan.through)
    ensures 0 < Work(calls, rows, i) <= 2 * |rows| - i
  {
    if i == 0 {
      SubsetIsSmaller(Remaining(calls[0], rows), rows);
      SubsetIsSmaller(Unreturned(calls, rows, 0), rows);
    } else {
      StillAhead(calls, rows, p, i - 1);
      assert calls[i - 1].Next() == Some(calls[i].scan);
      UnreturnedStaysAhead(calls[i - 1], p);
      StepShrinksWork(calls, rows, i - 1, p);
    }
    assert p in Remaining(calls[i], rows);
  }

  /**
   Progress: as long as a row stays eligible and due, it is returned within twice as many calls as there
   are rows, because every other call returns a row for the first time or passes one for good.
   */
  lemma EveryDueRowIsReturned(calls: seq<Call>, rows: set<Position>, p: Position)
    requires Continues(calls, rows) && |calls| > 2 * |rows| && p in rows
    requires Behind(calls[0].scan.after, p) && AtMost(p, calls[0].scan.through)
    requires forall i | 0 <= i < |calls| :: calls[i].Offers(p)
    ensures exists i :: 0 <= i < |calls| && p in calls[i].Returned()
  {
    if forall i | 0 <= i < |calls| :: p !in calls[i].Returned() {
      StillAhead(calls, rows, p, |calls| - 1);
    }
  }
}
