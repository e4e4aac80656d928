/** Net worth today and at each month end. */
module NetWorth {
  import opened Rows

  /******* Calendar *******/

  datatype Date = Date(year: int, month: int, day: int)

  predicate IsLeap(year: int) {
    year % 4 == 0 && (year % 100 != 0 || year % 400 == 0)
  }

  function DaysIn(year: int, month: int): int {
    if month == 2 then if IsLeap(year) then 29 else 28
    else if month in {4, 6, 9, 11} then 30 else 31
  }

  predicate IsDate(d: Date) {
    1 <= d.month <= 12 && 1 <= d.day <= DaysIn(d.year, d.month)
  }

  function MonthIndex(year: int, month: int): int {
    year * 12 + month - 1
  }

  /** A number that orders dates; it is no day count. */
  function Order(d: Date): int {
    MonthIndex(d.year, d.month) * 31 + d.day - 1
  }

  function MonthEnd(year: int, month: int): Date {
    Date(year, month, DaysIn(year, month))
  }

  function MinDate(a: Date, b: Date): Date {
    if Order(a) <= Order(b) then a else b
  }

  /******* Snapshots *******/

  datatype Snapshot = Snapshot(
    id: int, account: Option<int>, portfolio: Option<string>, item: Option<int>,
    category: string, kind: string, date: Date, value: int, currency: string)

  datatype Key = Acct(account: int, category: string) | Inv(portfolio: string, category: string) | Man(item: Option<int>)

  function SourceKey(s: Snapshot): Key {
    if s.account.Some? then Acct(s.account.value, s.category)
    else if s.portfolio.Some? then Inv(s.portfolio.value, s.category)
    else Man(s.item)
  }

  predicate Newer(a: Snapshot, b: Snapshot) {
    Order(a.date) > Order(b.date) || (Order(a.date) == Order(b.date) && a.id > b.id)
  }

  predicate DistinctIds(snaps: seq<Snapshot>) {
    forall i, j :: 0 <= i < j < |snaps| ==> snaps[i].id != snaps[j].id
  }

  predicate Counts(s: Snapshot, key: Key, cutoff: Date) {
    SourceKey(s) == key && Order(s.date) <= Order(cutoff)
  }

  predicate Known(snaps: seq<Snapshot>, key: Key, cutoff: Date) {
    exists s :: s in snaps && Counts(s, key, cutoff)
  }

  /** The newest snapshot of one source on or before the cutoff. */
  function Newest(snaps: seq<Snapshot>, key: Key, cutoff: Date): (r: Snapshot)
    requires Known(snaps, key, cutoff)
    ensures r in snaps && Counts(r, key, cutoff)
    ensures forall s :: s in snaps && Counts(s, key, cutoff) ==> !Newer(s, r)
  {
    var front, last := snaps[..|snaps| - 1], snaps[|snaps| - 1];
    assert snaps == front + [last];
    if !Known(front, key, cutoff) then last
    else
      var best := Newest(front, key, cutoff);
      if Counts(last, key, cutoff) && Newer(last, best) then last else best
  }

  function Sources(snaps: seq<Snapshot>, cutoff: Date): set<Key> {
    set s | s in snaps && Order(s.date) <= Order(cutoff) :: SourceKey(s)
  }

  /** The reference: for each source its newest snapshot at the cutoff, recomputed from scratch. */
  function LatestMap(snaps: seq<Snapshot>, cutoff: Date): map<Key, Snapshot> {
    map key | key in Sources(snaps, cutoff) :: Newest(snaps, key, cutoff)
  }

  /** What makes a map the latest one. */
  ghost predicate IsLatest(best: map<Key, Snapshot>, snaps: seq<Snapshot>, cutoff: Date) {
    && (forall key :: key in best ==> best[key] in snaps && Counts(best[key], key, cutoff))
    && (forall s :: s in snaps && Order(s.date) <= Order(cutoff) ==>
          SourceKey(s) in best && !Newer(s, best[SourceKey(s)]))
  }

  lemma LatestIsNewest(best: map<Key, Snapshot>, snaps: seq<Snapshot>, cutoff: Date, key: Key)
    requires IsLatest(best, snaps, cutoff) && DistinctIds(snaps) && key in best
    ensures Known(snaps, key, cutoff) && key in Sources(snaps, cutoff) && best[key] == Newest(snaps, key, cutoff)
  {
    assert best[key] in snaps && Counts(best[key], key, cutoff);
    NoOtherIsAsNew(snaps, Newest(snaps, key, cutoff), best[key]);
  }

  lemma NoOtherIsAsNew(snaps: seq<Snapshot>, a: Snapshot, b: Snapshot)
    requires DistinctIds(snaps) && a in snaps && b in snaps && !Newer(a, b) && !Newer(b, a)
    ensures a == b
  {
    var i :| 0 <= i < |snaps| && snaps[i] == a;
    var j :| 0 <= j < |snaps| && snaps[j] == b;
    assert a.id == b.id;
  }

  lemma LatestIsUnique(best: map<Key, Snapshot>, snaps: seq<Snapshot>, cutoff: Date)
    requires IsLatest(best, snaps, cutoff) && DistinctIds(snaps)
    ensures best == LatestMap(snaps, cutoff)
  {
    var all := LatestMap(snaps, cutoff);
    forall key | key in best ensures key in all && all[key] == best[key] {
      LatestIsNewest(best, snaps, cutoff, key);
    }
    forall key | key in all ensures key in best {
      var s :| s in snaps && Order(s.date) <= Order(cutoff) && SourceKey(s) == key;
    }
  }

  /******* Sums *******/

  function Counted(s: Snapshot, kind: string): int {
    if s.currency == "INR" && s.kind == kind then s.value else 0
  }

  ghost function Total(best: map<Key, Snapshot>, kind: string): int {
    if best == map[] then 0
    else
      var key :| key in best;
      Counted(best[key], kind) + Total(best - {key}, kind)
  }

  /** The sum does not depend on the order of the dict. */
  lemma {:induction false} TotalWithout(best: map<Key, Snapshot>, kind: string, key: Key)
    requires key in best
    ensures Total(best, kind) == Counted(best[key], kind) + Total(best - {key}, kind)
    decreases |best|
  {
    var first :| first in best && Total(best, kind) == Counted(best[first], kind) + Total(best - {first}, kind);
    if first != key {
      TotalWithout(best - {first}, kind, key);
      TotalWithout(best - {key}, kind, first);
      assert best - {first} - {key} == best - {key} - {first};
    }
  }

  ghost function Worth(best: map<Key, Snapshot>): int {
    Total(best, "asset") - Total(best, "liability")
  }

  /** Net worth as of a date, from the definition. */
  ghost function WorthAt(snaps: seq<Snapshot>, cutoff: Date): int {
    Worth(LatestMap(snaps, cutoff))
  }

  method Totals(best: map<Key, Snapshot>) returns (assets: int, liabilities: int)
    ensures assets == Total(best, "asset") && liabilities == Total(best, "liability")
  {
    assets, liabilities := 0, 0;
    var todo := best;
    while todo != map[]
      invariant assets + Total(todo, "asset") == Total(best, "asset")
      invariant liabilities + Total(todo, "liability") == Total(best, "liability")
      decreases |todo|
    {
      var key :| key in todo;
      var s := todo[key];
      TotalWithout(todo, "asset", key);
      TotalWithout(todo, "liability", key);
      if s.currency == "INR" {
        if s.kind == "asset" {
          assets := assets + s.value;
        } else if s.kind == "liability" {
          liabilities := liabilities + s.value;
        }
      }
      todo := todo - {key};
    }
  }

  /******* Today *******/

  lemma LatestStep(best: map<Key, Snapshot>, before: seq<Snapshot>, s: Snapshot, cutoff: Date)
    requires IsLatest(best, before, cutoff)
    ensures var key := SourceKey(s);
            IsLatest(if Order(s.date) <= Order(cutoff) && (key !in best || Newer(s, best[key])) then best[key := s] else best,
                     before + [s], cutoff)
  {
    forall t | t in before + [s] ensures t in before || t == s {}
  }

  method LatestPerSource(snaps: seq<Snapshot>, asOf: Date) returns (best: map<Key, Snapshot>)
    requires DistinctIds(snaps)
    ensures best == LatestMap(snaps, asOf)
  {
    best := map[];
    for i := 0 to |snaps|
      invariant IsLatest(best, snaps[..i], asOf)
    {
      assert snaps[..i + 1] == snaps[..i] + [snaps[i]];
      var s := snaps[i];
      LatestStep(best, snaps[..i], s, asOf);
      if Order(s.date) > Order(asOf) {
        continue;
      }
      var key := SourceKey(s);
      if key !in best || Newer(s, best[key]) {
        best := best[key := s];
      }
    }
    assert snaps[..|snaps|] == snaps;
    LatestIsUnique(best, snaps, asOf);
  }

  method CurrentNetWorth(snaps: seq<Snapshot>, today: Date) returns (worth: int)
    requires DistinctIds(snaps)
    ensures worth == WorthAt(snaps, today)
  {
    var current := LatestPerSource(snaps, today);
    var assets, liabilities := Totals(current);
    worth := assets - liabilities;
  }

  /******* Month by month *******/

  /** The order of the query: by date, then by id. */
  predicate InQueryOrder(snaps: seq<Snapshot>) {
    forall i, j :: 0 <= i < j < |snaps| ==> Newer(snaps[j], snaps[i])
  }

  datatype Point = Point(year: int, month: int, value: int)

  /** The last day a point of this month may look at. */
  function Cutoff(year: int, month: int, today: Date): Date {
    MinDate(MonthEnd(year, month), today)
  }

  ghost predicate IsPoint(point: Point, snaps: seq<Snapshot>, earliest: Date, today: Date, i: nat) {
    && 1 <= point.month <= 12
    && MonthIndex(point.year, point.month) == MonthIndex(earliest.year, earliest.month) + i
    && point.value == WorthAt(snaps, Cutoff(point.year, point.month, today))
  }

  /** The trend's contract: one point for each month from `earliest` to `today`, none skipped, and
      each the net worth of that month recomputed from scratch. */
  ghost predicate IsTrend(points: seq<Point>, snaps: seq<Snapshot>, earliest: Date, today: Date) {
    && |points| == MonthIndex(today.year, today.month) - MonthIndex(earliest.year, earliest.month) + 1
    && forall i :: 0 <= i < |points| ==> IsPoint(points[i], snaps, earliest, today, i)
  }

  /** One walk over the sorted snapshots; the pointer never goes back. */
  method MonthlyTrend(snaps: seq<Snapshot>, today: Date) returns (points: seq<Point>)
    requires InQueryOrder(snaps) && DistinctIds(snaps)
    requires IsDate(today) && forall s :: s in snaps ==> IsDate(s.date)
    ensures if snaps == [] || Order(snaps[0].date) > Order(today) then points == []
            else IsTrend(points, snaps, snaps[0].date, today)
  {
    points := [];
    if snaps == [] {
      return;
    }
    var earliest := snaps[0].date;
    assert IsDate(earliest);
    if Order(earliest) > Order(today) {
      return;
    }
    MonthsInOrder(earliest, today);
    var best: map<Key, Snapshot> := map[];
    var next: nat := 0;
    var year, month := earliest.year, earliest.month;
    while true
      invariant 1 <= month <= 12 && next <= |snaps|
      invariant MonthIndex(year, month) == MonthIndex(earliest.year, earliest.month) + |points|
      invariant MonthIndex(year, month) <= MonthIndex(today.year, today.month)
      invariant IsNewestOf(best, snaps[..next])
      invariant forall i :: 0 <= i < next ==> Order(snaps[i].date) <= Order(Cutoff(year, month, today))
      invariant forall i :: 0 <= i < |points| ==> IsPoint(points[i], snaps, earliest, today, i)
      decreases MonthIndex(today.year, today.month) - MonthIndex(year, month)
    {
      var lastDay := MonthEnd(year, month);
      var cutoff := MinDate(lastDay, today);
      best, next := Advance(snaps, cutoff, best, next);
      var assets, liabilities := Totals(best);
      CutoffMonth(year, month, today);
      points := points + [Point(cutoff.year, cutoff.month, assets - liabilities)];
      if Order(lastDay) >= Order(today) {
        break;
      }
      if month == 12 {
        year, month := year + 1, 1;
      } else {
        month := month + 1;
      }
      CutoffMonth(year, month, today);
    }
  }

  /** Move the pointer over the snapshots up to the cutoff; the last write of a source wins. */
  method Advance(snaps: seq<Snapshot>, cutoff: Date, start: map<Key, Snapshot>, from: nat)
    returns (best: map<Key, Snapshot>, next: nat)
    requires InQueryOrder(snaps) && DistinctIds(snaps) && from <= |snaps|
    requires IsNewestOf(start, snaps[..from])
    requires forall i :: 0 <= i < from ==> Order(snaps[i].date) <= Order(cutoff)
    ensures next <= |snaps| && IsNewestOf(best, snaps[..next]) && best == LatestMap(snaps, cutoff)
    ensures forall i :: 0 <= i < next ==> Order(snaps[i].date) <= Order(cutoff)
  {
    best, next := start, from;
    while next < |snaps| && Order(snaps[next].date) <= Order(cutoff)
      invariant next <= |snaps|
      invariant IsNewestOf(best, snaps[..next])
      invariant forall i :: 0 <= i < next ==> Order(snaps[i].date) <= Order(cutoff)
    {
      NewestWith(best, snaps, next);
      best := best[SourceKey(snaps[next]) := snaps[next]];
      next := next + 1;
    }
    PrefixIsLatest(best, snaps, next, cutoff);
    LatestIsUnique(best, snaps, cutoff);
  }

  /** The next snapshot in query order is the newest of its source so far. */
  lemma NewestWith(best: map<Key, Snapshot>, snaps: seq<Snapshot>, next: nat)
    requires InQueryOrder(snaps) && next < |snaps| && IsNewestOf(best, snaps[..next])
    ensures IsNewestOf(best[SourceKey(snaps[next]) := snaps[next]], snaps[..next + 1])
  {
    assert snaps[..next + 1] == snaps[..next] + [snaps[next]];
    forall s | s in snaps[..next] ensures Newer(snaps[next], s) {
      var k :| 0 <= k < next && snaps[k] == s;
    }
  }

  lemma MonthsInOrder(a: Date, b: Date)
    requires IsDate(a) && IsDate(b) && Order(a) <= Order(b)
    ensures MonthIndex(a.year, a.month) <= MonthIndex(b.year, b.month)
  {
  }

  /** The map of the walk: for each source of the prefix its newest snapshot. */
  ghost predicate IsNewestOf(best: map<Key, Snapshot>, prefix: seq<Snapshot>) {
    && (forall key :: key in best ==> best[key] in prefix && SourceKey(best[key]) == key)
    && (forall s :: s in prefix ==> SourceKey(s) in best && !Newer(s, best[SourceKey(s)]))
  }

  /** The prefix the pointer has passed is exactly what the cutoff admits. */
  lemma PrefixIsLatest(best: map<Key, Snapshot>, snaps: seq<Snapshot>, next: nat, cutoff: Date)
    requires InQueryOrder(snaps) && next <= |snaps| && IsNewestOf(best, snaps[..next])
    requires forall i :: 0 <= i < next ==> Order(snaps[i].date) <= Order(cutoff)
    requires next < |snaps| ==> Order(snaps[next].date) > Order(cutoff)
    ensures IsLatest(best, snaps, cutoff)
  {
    forall key | key in best ensures best[key] in snaps && Counts(best[key], key, cutoff) {
      var k :| 0 <= k < next && snaps[..next][k] == best[key];
      assert snaps[k] == best[key];
    }
    forall k | next <= k < |snaps| ensures Order(snaps[k].date) > Order(cutoff) {
      assert k > next ==> Newer(snaps[k], snaps[next]);
    }
    forall s | s in snaps && Order(s.date) <= Order(cutoff)
      ensures SourceKey(s) in best && !Newer(s, best[SourceKey(s)])
    {
      var k :| 0 <= k < |snaps| && snaps[k] == s;
      assert snaps[..next][k] == s;
    }
  }

  /** The cutoff of a month not after today's lies in that month, and only today's month ends the walk. */
  lemma CutoffMonth(year: int, month: int, today: Date)
    requires 1 <= month <= 12 && IsDate(today) && MonthIndex(year, month) <= MonthIndex(today.year, today.month)
    ensures Cutoff(year, month, today).year == year && Cutoff(year, month, today).month == month
    ensures Order(MonthEnd(year, month)) >= Order(today) <==> MonthIndex(year, month) == MonthIndex(today.year, today.month)
  {
  }

  /** The last point is today's net worth. */
  lemma LastPointIsToday(points: seq<Point>, snaps: seq<Snapshot>, earliest: Date, today: Date)
    requires IsDate(today) && IsDate(earliest) && Order(earliest) <= Order(today)
    requires IsTrend(points, snaps, earliest, today)
    ensures |points| > 0 && points[|points| - 1] == Point(today.year, today.month, WorthAt(snaps, today))
  {
    MonthsInOrder(earliest, today);
    var last := points[|points| - 1];
    assert IsPoint(last, snaps, earliest, today, |points| - 1);
    CutoffMonth(last.year, last.month, today);
    assert Cutoff(last.year, last.month, today) == today;
  }

  /** Months follow each other, December by January of the next year. */
  lemma MonthsAreConsecutive(points: seq<Point>, snaps: seq<Snapshot>, earliest: Date, today: Date, i: nat)
    requires IsTrend(points, snaps, earliest, today) && i + 1 < |points|
    ensures if points[i].month == 12 then points[i + 1].month == 1 && points[i + 1].year == points[i].year + 1
            else points[i + 1].month == points[i].month + 1 && points[i + 1].year == points[i].year
  {
  }
}
