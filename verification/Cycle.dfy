/** Billing-cycle windows of one card account, computed one statement at a time.
    A date is a day number, a moment a number of seconds; `due` is the parsed due date. */
module Cycle {
  import opened Rows

  datatype Upload = Upload(id: int, created: Option<int>, due: Option<int>)

  /** A half-open range of days; no `end` means open. */
  datatype Window = Window(start: int, end: Option<int>)

  const DAY := 86400

  function DayOf(moment: int): int {
    moment / DAY
  }

  predicate InWindow(w: Window, day: int) {
    w.start <= day && (w.end.Some? ==> day < w.end.value)
  }

  /******* The neighbours of a due date *******/

  predicate HasDue(rows: seq<Upload>, due: int) {
    exists row :: row in rows && row.due == Some(due)
  }

  /** The latest due date before `due`. */
  function DueBefore(rows: seq<Upload>, due: int): (r: Option<int>)
    ensures r.Some? ==> HasDue(rows, r.value) && r.value < due
    ensures forall row :: row in rows && row.due.Some? && row.due.value < due ==> r.Some? && row.due.value <= r.value
  {
    if rows == [] then None
    else
      var front, last := rows[..|rows| - 1], rows[|rows| - 1];
      assert rows == front + [last];
      var best := DueBefore(front, due);
      if last.due.Some? && last.due.value < due && (best.None? || best.value < last.due.value) then last.due else best
  }

  predicate DueAfter(rows: seq<Upload>, due: int) {
    exists row :: row in rows && row.due.Some? && row.due.value > due
  }

  function Earlier(a: Option<int>, b: Option<int>): Option<int> {
    if a.None? then b else if b.None? then a else if a.value <= b.value then a else b
  }

  /** The first ingestion among the statements that share a due date. */
  function FirstIngestion(rows: seq<Upload>, due: int): (r: Option<int>)
    ensures r.Some? ==> exists row :: row in rows && row.due == Some(due) && row.created == r
    ensures forall row :: row in rows && row.due == Some(due) && row.created.Some? ==>
              r.Some? && r.value <= row.created.value
  {
    if rows == [] then None
    else
      var front, last := rows[..|rows| - 1], rows[|rows| - 1];
      assert rows == front + [last];
      var best := FirstIngestion(front, due);
      assert best.Some? ==> exists row :: row in front && row.due == Some(due) && row.created == best;
      if last.due == Some(due) then Earlier(best, last.created) else best
  }

  /** The first ingestion after a moment, among all statements of the account. */
  function IngestedAfter(rows: seq<Upload>, moment: int): Option<int> {
    if rows == [] then None
    else
      var best, last := IngestedAfter(rows[..|rows| - 1], moment), rows[|rows| - 1];
      if last.created.Some? && last.created.value > moment then Earlier(best, last.created) else best
  }

  /** The window of a statement of the account. `now` stands in for a missing ingestion time. */
  function WindowOf(rows: seq<Upload>, upload: Upload, now: int): Window {
    var createdStart := DayOf(if upload.created.Some? then upload.created.value else now);
    if upload.due.None? then
      var later := if upload.created.Some? then IngestedAfter(rows, upload.created.value) else None;
      Window(createdStart, if later.Some? then Some(DayOf(later.value)) else None)
    else
      var due := upload.due.value;
      var prev := DueBefore(rows, due);
      var ingested := Fill(FirstIngestion(rows, due), upload.created);
      Window(if prev.Some? then prev.value + 1 else if ingested.Some? then DayOf(ingested.value) else createdStart,
             if DueAfter(rows, due) then Some(due + 1) else None)
  }

  /******* The computation of the program *******/

  datatype Anchor = Anchor(due: int, id: int, created: Option<int>)

  predicate AnchorLess(a: Anchor, b: Anchor) {
    a.due < b.due || (a.due == b.due && a.id <= b.id)
  }

  predicate Sorted(anchors: seq<Anchor>) {
    forall i, j :: 0 <= i < j < |anchors| ==> AnchorLess(anchors[i], anchors[j])
  }

  function InsertAnchor(a: Anchor, sorted: seq<Anchor>): seq<Anchor> {
    if sorted == [] || AnchorLess(a, sorted[0]) then [a] + sorted
    else [sorted[0]] + InsertAnchor(a, sorted[1..])
  }

  lemma {:induction false} InsertKeepsOrder(a: Anchor, sorted: seq<Anchor>)
    requires Sorted(sorted)
    ensures Sorted(InsertAnchor(a, sorted))
    ensures forall b :: b in InsertAnchor(a, sorted) <==> b == a || b in sorted
  {
    if sorted != [] && !AnchorLess(a, sorted[0]) {
      var tail := sorted[1..];
      forall i, j | 0 <= i < j < |tail| ensures AnchorLess(tail[i], tail[j]) {
        assert AnchorLess(sorted[i + 1], sorted[j + 1]);
      }
      InsertKeepsOrder(a, tail);
      var inserted := InsertAnchor(a, tail);
      forall k | 0 <= k < |inserted| ensures AnchorLess(sorted[0], inserted[k]) {
        assert inserted[k] in inserted;
        if inserted[k] != a {
          var i :| 0 <= i < |tail| && tail[i] == inserted[k];
          assert AnchorLess(sorted[0], sorted[i + 1]);
        }
      }
    }
  }

  predicate HasAnchor(anchors: seq<Anchor>, due: int, created: Option<int>) {
    exists a :: a in anchors && a.due == due && a.created == created
  }

  predicate HasUpload(rows: seq<Upload>, due: int, created: Option<int>) {
    exists row :: row in rows && row.due == Some(due) && row.created == created
  }

  /** The anchors are the due dates and ingestion times of the dated statements. */
  ghost predicate AnchorsOf(anchors: seq<Anchor>, rows: seq<Upload>) {
    forall due, created :: HasAnchor(anchors, due, created) <==> HasUpload(rows, due, created)
  }

  lemma AnchorsOfNext(anchors: seq<Anchor>, rows: seq<Upload>, row: Upload, after: seq<Anchor>)
    requires AnchorsOf(anchors, rows)
    requires if row.due.Some?
             then forall b :: b in after <==> b == Anchor(row.due.value, row.id, row.created) || b in anchors
             else after == anchors
    ensures AnchorsOf(after, rows + [row])
  {
    forall due, created ensures HasAnchor(after, due, created) <==> HasUpload(rows + [row], due, created) {
      var isNew := row.due == Some(due) && row.created == created;
      assert HasUpload(rows + [row], due, created) <==> HasUpload(rows, due, created) || isNew by {
        if HasUpload(rows, due, created) {
          var r :| r in rows && r.due == Some(due) && r.created == created;
          assert r in rows + [row];
        }
        if isNew { assert row in rows + [row]; }
      }
      assert HasAnchor(after, due, created) <==> HasAnchor(anchors, due, created) || isNew by {
        if isNew { assert Anchor(row.due.value, row.id, row.created) in after; }
      }
    }
  }

  method CollectAnchors(rows: seq<Upload>) returns (anchors: seq<Anchor>)
    ensures Sorted(anchors) && AnchorsOf(anchors, rows)
  {
    anchors := [];
    for i := 0 to |rows|
      invariant Sorted(anchors) && AnchorsOf(anchors, rows[..i])
    {
      assert rows[..i + 1] == rows[..i] + [rows[i]];
      ghost var before := anchors;
      if rows[i].due.Some? {
        var a := Anchor(rows[i].due.value, rows[i].id, rows[i].created);
        InsertKeepsOrder(a, anchors);
        anchors := InsertAnchor(a, anchors);
      }
      AnchorsOfNext(before, rows[..i], rows[i], anchors);
    }
    assert rows[..|rows|] == rows;
  }

  /** The day that separates two neighbouring cycles. */
  function Boundary(earlierDue: Option<int>, laterCreated: Option<int>): Option<int> {
    if earlierDue.Some? then Some(earlierDue.value + 1)
    else if laterCreated.Some? then Some(DayOf(laterCreated.value))
    else None
  }

  method FirstLater(rows: seq<Upload>, moment: int) returns (later: Option<int>)
    ensures later == IngestedAfter(rows, moment)
  {
    later := None;
    for i := 0 to |rows|
      invariant later == IngestedAfter(rows[..i], moment)
    {
      assert rows[..i + 1][..i] == rows[..i];
      if rows[i].created.Some? && rows[i].created.value > moment {
        later := Earlier(later, rows[i].created);
      }
    }
    assert rows[..|rows|] == rows;
  }

  method CycleWindow(rows: seq<Upload>, upload: Upload, now: int) returns (w: Window)
    ensures w == WindowOf(rows, upload, now)
  {
    var createdStart := DayOf(if upload.created.Some? then upload.created.value else now);
    if upload.due.None? {
      var later: Option<int> := None;
      if upload.created.Some? {
        later := FirstLater(rows, upload.created.value);
      }
      return Window(createdStart, if later.Some? then Some(DayOf(later.value)) else None);
    }
    var due := upload.due.value;
    var anchors := CollectAnchors(rows);
    var prev := LastBefore(anchors, due);
    var hasNext, nextCreated := FirstAfter(anchors, due);
    var group := GroupStart(anchors, due);
    SamePrevious(anchors, rows, due, prev);
    SameNext(anchors, rows, due);
    SameGroup(anchors, rows, due, group);
    var start := Boundary(prev, Fill(group, upload.created));
    var end := if hasNext then Boundary(Some(due), nextCreated) else None;
    return Window(if start.Some? then start.value else createdStart, end);
  }

  ghost predicate IsLastBefore(anchors: seq<Anchor>, due: int, r: Option<int>) {
    && (r.Some? ==> r.value < due && exists a :: a in anchors && a.due == r.value)
    && (forall a :: a in anchors && a.due < due ==> r.Some? && a.due <= r.value)
  }

  /** The anchors are sorted, so the last earlier one is the latest. */
  method LastBefore(anchors: seq<Anchor>, due: int) returns (prev: Option<int>)
    requires Sorted(anchors)
    ensures IsLastBefore(anchors, due, prev)
  {
    prev := None;
    for i := 0 to |anchors|
      invariant IsLastBefore(anchors[..i], due, prev)
    {
      assert anchors[..i + 1] == anchors[..i] + [anchors[i]];
      if anchors[i].due < due {
        forall a | a in anchors[..i] ensures a.due <= anchors[i].due {
          var k :| 0 <= k < i && anchors[k] == a;
          assert AnchorLess(anchors[k], anchors[i]);
        }
        assert anchors[i] in anchors[..i + 1];
        prev := Some(anchors[i].due);
      } else if prev.Some? {
        var a :| a in anchors[..i] && a.due == prev.value;
        assert a in anchors[..i + 1];
      }
    }
    assert anchors[..|anchors|] == anchors;
  }

  method FirstAfter(anchors: seq<Anchor>, due: int) returns (hasNext: bool, created: Option<int>)
    ensures hasNext <==> exists a :: a in anchors && a.due > due
  {
    for i := 0 to |anchors|
      invariant forall k :: 0 <= k < i ==> anchors[k].due <= due
    {
      if anchors[i].due > due {
        assert anchors[i] in anchors;
        return true, anchors[i].created;
      }
    }
    return false, None;
  }

  ghost predicate IsGroupStart(anchors: seq<Anchor>, due: int, r: Option<int>) {
    && (r.Some? ==> exists a :: a in anchors && a.due == due && a.created == r)
    && (forall a :: a in anchors && a.due == due && a.created.Some? ==> r.Some? && r.value <= a.created.value)
  }

  method GroupStart(anchors: seq<Anchor>, due: int) returns (group: Option<int>)
    ensures IsGroupStart(anchors, due, group)
  {
    group := None;
    for i := 0 to |anchors|
      invariant IsGroupStart(anchors[..i], due, group)
    {
      assert anchors[..i + 1] == anchors[..i] + [anchors[i]];
      ghost var before := group;
      if anchors[i].due == due {
        group := Earlier(group, anchors[i].created);
      }
      if group.Some? {
        if group == before {
          var a :| a in anchors[..i] && a.due == due && a.created == group;
          assert a in anchors[..i + 1];
        } else {
          assert anchors[i] in anchors[..i + 1];
        }
      }
    }
    assert anchors[..|anchors|] == anchors;
  }

  lemma SamePrevious(anchors: seq<Anchor>, rows: seq<Upload>, due: int, prev: Option<int>)
    requires AnchorsOf(anchors, rows) && IsLastBefore(anchors, due, prev)
    ensures prev == DueBefore(rows, due)
  {
    var before := DueBefore(rows, due);
    if prev.Some? {
      var a :| a in anchors && a.due == prev.value;
      assert HasAnchor(anchors, a.due, a.created);
    }
    if before.Some? {
      var row :| row in rows && row.due == Some(before.value);
      assert HasUpload(rows, before.value, row.created);
    }
  }

  lemma SameNext(anchors: seq<Anchor>, rows: seq<Upload>, due: int)
    requires AnchorsOf(anchors, rows)
    ensures (exists a :: a in anchors && a.due > due) <==> DueAfter(rows, due)
  {
    if a :| a in anchors && a.due > due {
      assert HasAnchor(anchors, a.due, a.created);
    }
    if DueAfter(rows, due) {
      var row :| row in rows && row.due.Some? && row.due.value > due;
      assert HasUpload(rows, row.due.value, row.created);
    }
  }

  lemma SameGroup(anchors: seq<Anchor>, rows: seq<Upload>, due: int, group: Option<int>)
    requires AnchorsOf(anchors, rows) && IsGroupStart(anchors, due, group)
    ensures group == FirstIngestion(rows, due)
  {
    var first := FirstIngestion(rows, due);
    if group.Some? {
      assert HasAnchor(anchors, due, group);
    }
    if first.Some? {
      assert HasUpload(rows, due, first);
    }
  }

  /******* The windows of one account partition time *******/

  /** The day the first group opens: its first ingestion, or today when no ingestion time is known. */
  function FirstDay(rows: seq<Upload>, due: int, now: int): int {
    var ingested := FirstIngestion(rows, due);
    DayOf(if ingested.Some? then ingested.value else now)
  }

  /** Exactly which days a statement's window holds. */
  lemma WindowExact(rows: seq<Upload>, upload: Upload, now: int, day: int)
    requires upload in rows && upload.due.Some?
    ensures var due := upload.due.value;
            InWindow(WindowOf(rows, upload, now), day)
            <==> && (if DueBefore(rows, due).Some? then DueBefore(rows, due).value < day else FirstDay(rows, due, now) <= day)
                 && (DueAfter(rows, due) ==> day <= due)
  {
  }

  /** Statements that share a due date share one window. */
  lemma SharedDueSharedWindow(rows: seq<Upload>, a: Upload, b: Upload, now: int)
    requires a in rows && b in rows && a.due.Some? && a.due == b.due
    ensures WindowOf(rows, a, now) == WindowOf(rows, b, now)
  {
  }

  predicate IsEarliest(rows: seq<Upload>, due: int) {
    HasDue(rows, due) && DueBefore(rows, due).None?
  }

  /** The due date a payment of `day` clears: the smallest one on or after it, or else the latest. */
  predicate Clears(rows: seq<Upload>, due: int, day: int) {
    && HasDue(rows, due)
    && if day <= due then (DueBefore(rows, due).Some? ==> DueBefore(rows, due).value < day)
       else !DueAfter(rows, due)
  }

  lemma ClearsOnlyOne(rows: seq<Upload>, a: int, b: int, day: int)
    requires Clears(rows, a, day) && Clears(rows, b, day)
    ensures a == b
  {
  }

  lemma ClearsSome(rows: seq<Upload>, due: int, day: int)
    requires HasDue(rows, due)
    ensures exists d :: Clears(rows, d, day)
  {
    var row :| row in rows && row.due == Some(due);
    var d := BestDue(rows, day);
    assert Clears(rows, d.value, day);
  }

  /** The smallest due date on or after `day`, or else the largest. */
  function BestDue(rows: seq<Upload>, day: int): (r: Option<int>)
    ensures r.Some? ==> HasDue(rows, r.value)
    ensures forall row :: row in rows && row.due.Some? ==>
              r.Some? && if day <= r.value then row.due.value < day || r.value <= row.due.value
                         else row.due.value <= r.value
  {
    if rows == [] then None
    else
      var front, last := rows[..|rows| - 1], rows[|rows| - 1];
      assert rows == front + [last];
      assert last in rows;
      var best := BestDue(front, day);
      assert best.Some? ==> HasDue(rows, best.value) by {
        if best.Some? {
          var row :| row in front && row.due == Some(best.value);
          assert row in rows;
        }
      }
      if last.due.None? then best
      else if best.None? then last.due
      else if day <= best.value then if day <= last.due.value < best.value then last.due else best
      else if last.due.value > best.value then last.due else best
  }

  /** A day after the earliest due date lies in the window of a statement exactly when the statement
      is due on the date the day clears, and, for an account with a single due date, the statement
      was ingested by then. */
  lemma LaterDaysPartition(rows: seq<Upload>, upload: Upload, now: int, first: int, day: int)
    requires upload in rows && upload.due.Some? && IsEarliest(rows, first) && day > first
    ensures InWindow(WindowOf(rows, upload, now), day)
            <==> Clears(rows, upload.due.value, day) && (DueAfter(rows, first) || FirstDay(rows, first, now) <= day)
  {
    var due := upload.due.value;
    WindowExact(rows, upload, now, day);
    var row :| row in rows && row.due == Some(first);
    assert HasDue(rows, due);
    if DueBefore(rows, due).None? {
      assert due == first;
    } else {
      assert first <= DueBefore(rows, due).value;
      assert DueAfter(rows, first);
    }
  }

  /** An earlier day is at most in the first window, exactly from its first ingestion on. */
  lemma EarlyDaysPartition(rows: seq<Upload>, upload: Upload, now: int, first: int, day: int)
    requires upload in rows && upload.due.Some? && IsEarliest(rows, first) && day <= first
    ensures InWindow(WindowOf(rows, upload, now), day)
            <==> upload.due.value == first && FirstDay(rows, first, now) <= day
  {
    var due := upload.due.value;
    WindowExact(rows, upload, now, day);
    var row :| row in rows && row.due == Some(first);
    if DueBefore(rows, due).Some? {
      assert first <= DueBefore(rows, due).value;
    } else {
      assert due == first;
    }
  }

  /** No day lies in the windows of two due dates. */
  lemma WindowsNeverOverlap(rows: seq<Upload>, a: Upload, b: Upload, now: int, day: int)
    requires a in rows && b in rows && a.due.Some? && b.due.Some?
    requires InWindow(WindowOf(rows, a, now), day) && InWindow(WindowOf(rows, b, now), day)
    ensures a.due == b.due
  {
  }

  /** The gap: a single statement due on day 10 and ingested on day 20 leaves day 15 in no window,
      although it is after the earliest due date. */
  lemma LateSingleStatementLeavesGap()
    ensures var upload := Upload(1, Some(20 * DAY), Some(10));
            IsEarliest([upload], 10) && !InWindow(WindowOf([upload], upload, 0), 15)
  {
  }

  /******* A new due date splits one window *******/

  /** Adding a statement with a new due date, not the earliest, leaves every window alone except the
      one that held its due date. */
  lemma NewDueLeavesOthers(rows: seq<Upload>, added: Upload, upload: Upload, first: int, now: int)
    requires added.due.Some? && !HasDue(rows, added.due.value) && IsEarliest(rows, first) && first < added.due.value
    requires upload in rows && upload.due.Some? && !Clears(rows, upload.due.value, added.due.value)
    ensures WindowOf(rows + [added], upload, now) == WindowOf(rows, upload, now)
  {
    var due := upload.due.value;
    assert HasDue(rows, due);
    SameIngestion(rows, added, due);
    NeighboursAfter(rows, added, due);
    FirstHasNoneBefore(rows, first, due);
    if DueBefore(rows, due).Some? {
      assert HasDue(rows, DueBefore(rows, due).value);
    }
  }

  /** The window that held the new due date becomes two windows that share no day and cover the same
      days, save that a first group ingested after its due date only gains days. */
  lemma NewDueSplitsOne(rows: seq<Upload>, added: Upload, upload: Upload, first: int, now: int, day: int)
    requires added.due.Some? && !HasDue(rows, added.due.value) && IsEarliest(rows, first) && first < added.due.value
    requires upload in rows && upload.due.Some? && Clears(rows, upload.due.value, added.due.value)
    ensures var after, due := rows + [added], upload.due.value;
            var whole, host, extra := WindowOf(rows, upload, now), WindowOf(after, upload, now), WindowOf(after, added, now);
            && !(InWindow(host, day) && InWindow(extra, day))
            && (InWindow(whole, day) ==> InWindow(host, day) || InWindow(extra, day))
            && (InWindow(host, day) || InWindow(extra, day) ==>
                  InWindow(whole, day) || (DueBefore(rows, due).None? && due < day < FirstDay(rows, due, now)))
  {
    var after, due, newDue := rows + [added], upload.due.value, added.due.value;
    assert added in after && upload in after;
    WindowExact(rows, upload, now, day);
    WindowExact(after, upload, now, day);
    WindowExact(after, added, now, day);
    SplitNeighbours(rows, added, due, first);
  }

  /** Before and after, around the group whose window holds the new due date. */
  lemma SplitNeighbours(rows: seq<Upload>, added: Upload, due: int, first: int)
    requires added.due.Some? && !HasDue(rows, added.due.value) && IsEarliest(rows, first) && first < added.due.value
    requires Clears(rows, due, added.due.value)
    ensures var after, newDue := rows + [added], added.due.value;
            && due != newDue
            && FirstIngestion(after, due) == FirstIngestion(rows, due)
            && if newDue < due
               then && DueBefore(rows, due).Some? && DueBefore(rows, due).value < newDue
                    && DueBefore(after, due) == Some(newDue) && DueBefore(after, newDue) == DueBefore(rows, due)
                    && DueAfter(after, newDue) && (DueAfter(after, due) <==> DueAfter(rows, due))
               else && !DueAfter(rows, due)
                    && DueBefore(after, due) == DueBefore(rows, due) && DueBefore(after, newDue) == Some(due)
                    && !DueAfter(after, newDue) && DueAfter(after, due)
  {
    SameIngestion(rows, added, due);
    NeighboursAfter(rows, added, due);
    NeighboursAfter(rows, added, added.due.value);
    HostNeighbours(rows, due, added.due.value, first);
  }

  lemma FirstHasNoneBefore(rows: seq<Upload>, first: int, due: int)
    requires IsEarliest(rows, first) && HasDue(rows, due)
    ensures first <= due && (DueBefore(rows, due).None? <==> due == first)
  {
  }

  /** The neighbours of a new due date, seen from the group whose window holds it. */
  lemma HostNeighbours(rows: seq<Upload>, due: int, newDue: int, first: int)
    requires Clears(rows, due, newDue) && !HasDue(rows, newDue) && IsEarliest(rows, first) && first < newDue
    ensures due != newDue
    ensures newDue < due ==> DueBefore(rows, newDue) == DueBefore(rows, due) && DueBefore(rows, due).Some? && DueAfter(rows, newDue)
    ensures newDue > due ==> DueBefore(rows, newDue) == Some(due) && !DueAfter(rows, newDue)
  {
  }

  /** A new earliest due date moves only the start of the window that was first. */
  lemma NewEarliestMovesOneStart(rows: seq<Upload>, added: Upload, upload: Upload, first: int, now: int)
    requires added.due.Some? && IsEarliest(rows, first) && added.due.value < first
    requires upload in rows && upload.due.Some?
    ensures var whole, host := WindowOf(rows, upload, now), WindowOf(rows + [added], upload, now);
            host == if upload.due.value == first then Window(added.due.value + 1, whole.end) else whole
  {
  }

  /** A new statement with a due date that is there already, a re-send or a summary next to its PDF, moves
      at most the start of the first window, and only if it was ingested before its group or if no
      ingestion time of the group was known. */
  lemma SameDueMovesFirstStart(rows: seq<Upload>, added: Upload, upload: Upload, now: int)
    requires upload in rows && upload.due.Some? && added.due.Some? && HasDue(rows, added.due.value)
    ensures var due := upload.due.value;
            var whole, after := WindowOf(rows, upload, now), WindowOf(rows + [added], upload, now);
            after == if added.due == upload.due && DueBefore(rows, due).None? && added.created.Some?
                        && (FirstIngestion(rows, due).None? || added.created.value < FirstIngestion(rows, due).value)
                     then Window(DayOf(added.created.value), whole.end) else whole
  {
    var due := upload.due.value;
    NeighboursAfter(rows, added, due);
    SameIngestion(rows, added, due);
    IngestionWith(rows, added, due);
    var twin :| twin in rows && twin.due == added.due;
    if FirstIngestion(rows, due).None? {
      assert upload.created == None;
    }
  }

  lemma IngestionWith(rows: seq<Upload>, added: Upload, due: int)
    ensures added.due == Some(due) ==>
              FirstIngestion(rows + [added], due) == Earlier(FirstIngestion(rows, due), added.created)
  {
    assert (rows + [added])[..|rows|] == rows;
  }

  /** A statement without a readable due date is no edge of any cycle. */
  lemma UndatedMovesNothing(rows: seq<Upload>, added: Upload, upload: Upload, now: int)
    requires added.due.None? && upload in rows && upload.due.Some?
    ensures WindowOf(rows + [added], upload, now) == WindowOf(rows, upload, now)
  {
  }

  lemma SameIngestion(rows: seq<Upload>, added: Upload, due: int)
    ensures added.due != Some(due) ==> FirstIngestion(rows + [added], due) == FirstIngestion(rows, due)
  {
  }

  lemma NeighboursAfter(rows: seq<Upload>, added: Upload, due: int)
    ensures DueBefore(rows + [added], due)
            == (if added.due.Some? && added.due.value < due
                   && (DueBefore(rows, due).None? || DueBefore(rows, due).value < added.due.value)
                then added.due else DueBefore(rows, due))
    ensures DueAfter(rows + [added], due) <==> DueAfter(rows, due) || (added.due.Some? && added.due.value > due)
  {
    var after := rows + [added];
    assert after[..|rows|] == rows;
    assert added in after;
    if DueAfter(rows, due) {
      var row :| row in rows && row.due.Some? && row.due.value > due;
      assert row in after;
    }
  }

  /******* Placing rows *******/

  /** A dated row goes by its date, a dateless one by the moment it was stored. */
  predicate InCycle(w: Window, date: Option<int>, created: Option<int>) {
    if date.Some? then InWindow(w, date.value)
    else created.Some? && w.start * DAY <= created.value && (w.end.Some? ==> created.value < w.end.value * DAY)
  }

  /** The two edges of a dateless row cut at midnight, so it is placed by its day. */
  lemma DatelessRowsGoByDay(w: Window, created: int)
    ensures InCycle(w, None, Some(created)) <==> InWindow(w, DayOf(created))
  {
  }
}
