/** Consolidated account statements (CAS): an import replaces the upload of the same portfolio and date
    together with its snapshot, holdings and lots. Money is a number of paise, a date a day number. */
module Cas {
  import opened Rows
  import opened Lots
  import opened LotStore

  // ---------- statements ----------

  datatype Position = Position(assetClass: Option<string>, value: Option<int>)

  /** What an import reads of a parsed statement. `parsedEnd` is the parse of a non-empty period end. */
  datatype Payload = Payload(
    pan: Option<string>,
    source: Option<string>,
    periodEnd: Option<string>,
    parsedEnd: Option<int>,
    grandTotal: Option<int>,
    accounts: seq<seq<Position>>,
    folios: seq<Option<int>>,
    transactions: seq<Entry>)

  function OrElse(s: Option<string>, default: string): string {
    if s.Some? && s.value != "" then s.value else default
  }

  function PortfolioOf(p: Payload): string {
    Upper(OrElse(p.pan, "primary"))
  }

  function SourceOf(p: Payload): string {
    Lower(OrElse(p.source, "unknown"))
  }

  /** A statement with a total and a readable period end. */
  predicate Importable(p: Payload) {
    p.grandTotal.Some? && OrElse(p.periodEnd, "") != "" && p.parsedEnd.Some?
  }

  // ---------- the breakdown by asset class ----------

  /** A dictionary in insertion order. */
  type Totals = seq<(string, int)>

  /** `totals[assetClass] += value`, from zero when the class is new. */
  function Add(totals: Totals, assetClass: string, value: int): Totals {
    if totals == [] then [(assetClass, value)]
    else if totals[0].0 == assetClass then [(assetClass, totals[0].1 + value)] + totals[1..]
    else [totals[0]] + Add(totals[1..], assetClass, value)
  }

  function Sum(totals: Totals): int {
    if totals == [] then 0 else totals[0].1 + Sum(totals[1..])
  }

  function ListedPositions(positions: seq<Position>): seq<(string, int)> {
    if positions == [] then []
    else
      var front, last := ListedPositions(positions[..|positions| - 1]), positions[|positions| - 1];
      if last.value.Some? then front + [(OrElse(last.assetClass, "other"), last.value.value)] else front
  }

  function ListedAccounts(accounts: seq<seq<Position>>): seq<(string, int)> {
    if accounts == [] then []
    else ListedAccounts(accounts[..|accounts| - 1]) + ListedPositions(accounts[|accounts| - 1])
  }

  function ListedFolios(folios: seq<Option<int>>): seq<(string, int)> {
    if folios == [] then []
    else
      var front, last := ListedFolios(folios[..|folios| - 1]), folios[|folios| - 1];
      if last.Some? then front + [("mutual_fund", last.value)] else front
  }

  /** Every valued position and folio of a statement with its class. */
  function Listed(p: Payload): seq<(string, int)> {
    ListedAccounts(p.accounts) + ListedFolios(p.folios)
  }

  function Tally(listed: seq<(string, int)>): Totals {
    if listed == [] then []
    else
      var last := listed[|listed| - 1];
      Add(Tally(listed[..|listed| - 1]), last.0, last.1)
  }

  function Breakdown(p: Payload): Totals
    requires p.grandTotal.Some?
  {
    var totals := Tally(Listed(p));
    var remainder := p.grandTotal.value - Sum(totals);
    if remainder > 0 then Add(totals, "other", remainder) else totals
  }

  lemma TallySnoc(listed: seq<(string, int)>, assetClass: string, value: int)
    ensures Tally(listed + [(assetClass, value)]) == Add(Tally(listed), assetClass, value)
  {
  }

  method AddPositions(listed: seq<(string, int)>, positions: seq<Position>, before: Totals) returns (totals: Totals)
    requires before == Tally(listed)
    ensures totals == Tally(listed + ListedPositions(positions))
  {
    totals := before;
    assert listed + [] == listed;
    for i := 0 to |positions|
      invariant totals == Tally(listed + ListedPositions(positions[..i]))
    {
      assert positions[..i + 1][..i] == positions[..i];
      if positions[i].value.Some? {
        var assetClass := OrElse(positions[i].assetClass, "other");
        TallySnoc(listed + ListedPositions(positions[..i]), assetClass, positions[i].value.value);
        assert listed + ListedPositions(positions[..i + 1])
            == listed + ListedPositions(positions[..i]) + [(assetClass, positions[i].value.value)];
        totals := Add(totals, assetClass, positions[i].value.value);
      }
    }
    assert positions[..|positions|] == positions;
  }

  lemma FolioStep(listed: seq<(string, int)>, folios: seq<Option<int>>, i: nat)
    requires i < |folios|
    ensures var before, folio := Tally(listed + ListedFolios(folios[..i])), folios[i];
            Tally(listed + ListedFolios(folios[..i + 1]))
            == if folio.Some? then Add(before, "mutual_fund", folio.value) else before
  {
    assert folios[..i + 1][..i] == folios[..i];
    if folios[i].Some? {
      TallySnoc(listed + ListedFolios(folios[..i]), "mutual_fund", folios[i].value);
      assert listed + ListedFolios(folios[..i + 1])
          == listed + ListedFolios(folios[..i]) + [("mutual_fund", folios[i].value)];
    }
  }

  method AddFolios(listed: seq<(string, int)>, folios: seq<Option<int>>, before: Totals) returns (totals: Totals)
    requires before == Tally(listed)
    ensures totals == Tally(listed + ListedFolios(folios))
  {
    totals := before;
    assert listed + [] == listed;
    for i := 0 to |folios|
      invariant totals == Tally(listed + ListedFolios(folios[..i]))
    {
      FolioStep(listed, folios, i);
      if folios[i].Some? {
        totals := Add(totals, "mutual_fund", folios[i].value);
      }
    }
    assert folios[..|folios|] == folios;
  }

  method ClassTotals(p: Payload) returns (totals: Totals)
    requires p.grandTotal.Some?
    ensures totals == Breakdown(p)
  {
    totals := [];
    for i := 0 to |p.accounts|
      invariant totals == Tally(ListedAccounts(p.accounts[..i]))
    {
      assert p.accounts[..i + 1][..i] == p.accounts[..i];
      totals := AddPositions(ListedAccounts(p.accounts[..i]), p.accounts[i], totals);
    }
    assert p.accounts[..|p.accounts|] == p.accounts;
    totals := AddFolios(ListedAccounts(p.accounts), p.folios, totals);
    var classified := Sum(totals);
    var remainder := p.grandTotal.value - classified;
    if remainder > 0 {
      totals := Add(totals, "other", remainder);
    }
  }

  // ---------- what the breakdown says ----------

  function SumListed(listed: seq<(string, int)>): int {
    if listed == [] then 0 else SumListed(listed[..|listed| - 1]) + listed[|listed| - 1].1
  }

  function SumOfClass(listed: seq<(string, int)>, assetClass: string): int {
    if listed == [] then 0
    else
      var last := listed[|listed| - 1];
      SumOfClass(listed[..|listed| - 1], assetClass) + if last.0 == assetClass then last.1 else 0
  }

  function Classes(totals: Totals): set<string> {
    if totals == [] then {} else {totals[0].0} + Classes(totals[1..])
  }

  predicate OneEntryEach(totals: Totals) {
    totals == [] || (totals[0].0 !in Classes(totals[1..]) && OneEntryEach(totals[1..]))
  }

  function InTotals(totals: Totals, assetClass: string): int {
    if totals == [] then 0
    else if totals[0].0 == assetClass then totals[0].1
    else InTotals(totals[1..], assetClass)
  }

  lemma {:induction false} AddMeans(totals: Totals, assetClass: string, value: int, any: string)
    ensures Sum(Add(totals, assetClass, value)) == Sum(totals) + value
    ensures InTotals(Add(totals, assetClass, value), any)
         == InTotals(totals, any) + if any == assetClass then value else 0
  {
    if totals != [] && totals[0].0 != assetClass {
      AddMeans(totals[1..], assetClass, value, any);
    }
  }

  lemma {:induction false} AddKeepsOneEntry(totals: Totals, assetClass: string, value: int)
    requires OneEntryEach(totals)
    ensures OneEntryEach(Add(totals, assetClass, value))
    ensures Classes(Add(totals, assetClass, value)) == Classes(totals) + {assetClass}
  {
    if totals == [] {
      assert Classes([(assetClass, value)]) == {assetClass};
    } else if totals[0].0 == assetClass {
      assert Add(totals, assetClass, value)[1..] == totals[1..];
    } else {
      AddKeepsOneEntry(totals[1..], assetClass, value);
      assert Add(totals, assetClass, value)[1..] == Add(totals[1..], assetClass, value);
    }
  }

  lemma {:induction false} TallyMeans(listed: seq<(string, int)>, any: string)
    ensures Sum(Tally(listed)) == SumListed(listed)
    ensures InTotals(Tally(listed), any) == SumOfClass(listed, any)
    ensures OneEntryEach(Tally(listed))
  {
    if listed != [] {
      var front, last := listed[..|listed| - 1], listed[|listed| - 1];
      TallyMeans(front, any);
      AddMeans(Tally(front), last.0, last.1, any);
      AddKeepsOneEntry(Tally(front), last.0, last.1);
    }
  }

  /** The holdings of an import add up to the larger of the stated total and the classified sum; each
      class holds its positions, and what is stated but not classified is under "other". */
  lemma BreakdownExact(p: Payload, assetClass: string)
    requires p.grandTotal.Some?
    ensures var stated, classified := p.grandTotal.value, SumListed(Listed(p));
            var excess := if stated > classified then stated - classified else 0;
            && Sum(Breakdown(p)) == (if stated > classified then stated else classified)
            && InTotals(Breakdown(p), assetClass)
               == SumOfClass(Listed(p), assetClass) + (if assetClass == "other" then excess else 0)
            && OneEntryEach(Breakdown(p))
  {
    var totals := Tally(Listed(p));
    TallyMeans(Listed(p), assetClass);
    var remainder := p.grandTotal.value - Sum(totals);
    if remainder > 0 {
      AddMeans(totals, "other", remainder, assetClass);
      AddKeepsOneEntry(totals, "other", remainder);
    }
  }

  // ---------- the tables ----------

  datatype Upload = Upload(portfolio: string, source: string, date: int, grandTotal: int, payload: Payload)

  /** A balance snapshot; only those of an import name an upload. */
  datatype Snapshot = Snapshot(upload: Option<int>, portfolio: Option<string>, date: int, value: int)

  datatype Holding = Holding(snapshot: int, assetClass: string, value: int)

  datatype Store = Store(
    uploads: map<int, Upload>,
    snapshots: map<int, Snapshot>,
    holdings: seq<Holding>,
    lots: seq<StoredLot>)

  /** The uploads of a portfolio on a date. */
  function Prior(uploads: map<int, Upload>, portfolio: string, date: int): set<int> {
    set id | id in uploads && uploads[id].portfolio == portfolio && uploads[id].date == date
  }

  function SnapshotsOf(snapshots: map<int, Snapshot>, uploads: set<int>): set<int> {
    set id | id in snapshots && snapshots[id].upload.Some? && snapshots[id].upload.value in uploads
  }

  function DropHoldings(holdings: seq<Holding>, snapshots: set<int>): seq<Holding> {
    if holdings == [] then []
    else
      var front, last := DropHoldings(holdings[..|holdings| - 1], snapshots), holdings[|holdings| - 1];
      if last.snapshot in snapshots then front else front + [last]
  }

  function DropLots(lots: seq<StoredLot>, uploads: set<int>): seq<StoredLot> {
    if lots == [] then []
    else
      var front, last := DropLots(lots[..|lots| - 1], uploads), lots[|lots| - 1];
      if last.upload in uploads then front else front + [last]
  }

  /** The store without some uploads and everything that hangs on them. */
  function Cleared(s: Store, uploads: set<int>): Store {
    var snapshots := SnapshotsOf(s.snapshots, uploads);
    Store(
      s.uploads - uploads,
      s.snapshots - snapshots,
      DropHoldings(s.holdings, snapshots),
      DropLots(s.lots, uploads))
  }

  datatype Error = NoGrandTotal | NoPeriodEnd | UnparsablePeriodEnd | WouldReplaceNsdl

  datatype Outcome = Imported(upload: int) | Refused(error: Error)

  /** Whether some of the given uploads came from NSDL. */
  predicate AnyNsdl(uploads: map<int, Upload>, ids: set<int>) {
    exists id :: id in ids && id in uploads && uploads[id].source == "nsdl"
  }

  function Check(s: Store, p: Payload, force: bool): Option<Error> {
    if p.grandTotal == None then Some(NoGrandTotal)
    else if OrElse(p.periodEnd, "") == "" then Some(NoPeriodEnd)
    else if p.parsedEnd == None then Some(UnparsablePeriodEnd)
    else if !force && SourceOf(p) == "cdsl"
            && AnyNsdl(s.uploads, Prior(s.uploads, PortfolioOf(p), p.parsedEnd.value))
    then Some(WouldReplaceNsdl)
    else None
  }

  function HoldingsFor(snapshot: int, totals: Totals): (holdings: seq<Holding>)
    ensures |holdings| == |totals|
    ensures forall i :: 0 <= i < |totals| ==> holdings[i] == Holding(snapshot, totals[i].0, totals[i].1)
  {
    seq(|totals|, i requires 0 <= i < |totals| => Holding(snapshot, totals[i].0, totals[i].1))
  }

  function UploadOf(p: Payload): Upload
    requires Importable(p)
  {
    Upload(PortfolioOf(p), SourceOf(p), p.parsedEnd.value, p.grandTotal.value, p)
  }

  function SnapshotFor(upload: int, p: Payload): Snapshot
    requires Importable(p)
  {
    Snapshot(Some(upload), Some(PortfolioOf(p)), p.parsedEnd.value, p.grandTotal.value)
  }

  /** The new upload with its snapshot, holdings and lots. */
  function Inserted(s: Store, p: Payload, upload: int, snapshot: int): Store
    requires Importable(p)
  {
    Store(
      s.uploads[upload := UploadOf(p)],
      s.snapshots[snapshot := SnapshotFor(upload, p)],
      s.holdings + HoldingsFor(snapshot, Breakdown(p)),
      Created(s.lots, upload, p.transactions))
  }

  /** The store once the uploads that an import replaces are gone. */
  function Room(s: Store, p: Payload): Store
    requires Importable(p)
  {
    Cleared(s, Prior(s.uploads, PortfolioOf(p), p.parsedEnd.value))
  }

  function Ingest(s: Store, p: Payload, force: bool, upload: int, snapshot: int): Store {
    if Check(s, p, force).Some? then s else Inserted(Room(s, p), p, upload, snapshot)
  }

  /** The database gives a new row an id that no row has at that moment; the id of a deleted row may
      come back. */
  predicate FreshIds(s: Store, p: Payload, upload: int, snapshot: int) {
    Importable(p) ==> upload !in Room(s, p).uploads && snapshot !in Room(s, p).snapshots
  }

  // ---------- the import, step by step ----------

  lemma {:induction false} DropHoldingsTwice(holdings: seq<Holding>, a: set<int>, b: set<int>)
    ensures DropHoldings(DropHoldings(holdings, a), b) == DropHoldings(holdings, a + b)
  {
    if holdings != [] {
      var front, last := holdings[..|holdings| - 1], holdings[|holdings| - 1];
      DropHoldingsTwice(front, a, b);
      if last.snapshot !in a {
        var kept := DropHoldings(front, a);
        assert (kept + [last])[..|kept|] == kept;
      }
    }
  }

  lemma {:induction false} DropLotsTwice(lots: seq<StoredLot>, a: set<int>, b: set<int>)
    ensures DropLots(DropLots(lots, a), b) == DropLots(lots, a + b)
  {
    if lots != [] {
      var front, last := lots[..|lots| - 1], lots[|lots| - 1];
      DropLotsTwice(front, a, b);
      if last.upload !in a {
        var kept := DropLots(front, a);
        assert (kept + [last])[..|kept|] == kept;
      }
    }
  }

  lemma {:induction false} DropNothing(holdings: seq<Holding>, lots: seq<StoredLot>)
    ensures DropHoldings(holdings, {}) == holdings && DropLots(lots, {}) == lots
    decreases |holdings| + |lots|
  {
    if holdings != [] {
      DropNothing(holdings[..|holdings| - 1], lots);
    } else if lots != [] {
      DropNothing(holdings, lots[..|lots| - 1]);
    }
  }

  lemma ClearedNone(s: Store)
    ensures Cleared(s, {}) == s
  {
    assert SnapshotsOf(s.snapshots, {}) == {};
    DropNothing(s.holdings, s.lots);
  }

  lemma ClearedOneMore(s: Store, uploads: set<int>, id: int)
    ensures Cleared(Cleared(s, uploads), {id}) == Cleared(s, uploads + {id})
  {
    var first := SnapshotsOf(s.snapshots, uploads);
    var second := SnapshotsOf(s.snapshots - first, {id});
    assert first + second == SnapshotsOf(s.snapshots, uploads + {id});
    DropHoldingsTwice(s.holdings, first, second);
    DropLotsTwice(s.lots, uploads, {id});
    assert s.uploads - uploads - {id} == s.uploads - (uploads + {id});
    assert s.snapshots - first - second == s.snapshots - (first + second);
  }

  /** The ids of a list. */
  function IdSet(ids: seq<int>): set<int> {
    set id <- ids
  }

  class CasTables {
    var uploads: map<int, Upload>
    var snapshots: map<int, Snapshot>
    var holdings: seq<Holding>
    const lots: LotTable

    constructor ()
      ensures fresh(this) && fresh(lots)
      ensures State() == Store(map[], map[], [], [])
    {
      uploads, snapshots, holdings := map[], map[], [];
      lots := new LotTable();
    }

    function State(): Store
      reads this, lots
    {
      Store(uploads, snapshots, holdings, lots.rows)
    }

    method AnyFromNsdl(ids: seq<int>) returns (found: bool)
      requires IdSet(ids) <= uploads.Keys
      ensures found == AnyNsdl(uploads, IdSet(ids))
    {
      for i := 0 to |ids|
        invariant forall k :: 0 <= k < i ==> uploads[ids[k]].source != "nsdl"
      {
        var id := ids[i];
        assert id in IdSet(ids) && id in uploads;
        if uploads[id].source == "nsdl" {
          return true;
        }
      }
      found := false;
    }

    /** Holdings, snapshots, lots and the upload row, in the order of the source. */
    method DeleteUpload(id: int)
      modifies this, lots
      ensures State() == Cleared(old(State()), {id})
    {
      var snapshotIds := SnapshotsOf(snapshots, {id});
      if snapshotIds != {} {
        holdings := DropHoldings(holdings, snapshotIds);
      } else {
        DropNothing(holdings, []);
      }
      snapshots := snapshots - snapshotIds;
      lots.rows := DropLots(lots.rows, {id});
      uploads := uploads - {id};
    }

    method DeletePrior(ids: seq<int>)
      modifies this, lots
      ensures State() == Cleared(old(State()), IdSet(ids))
    {
      ClearedNone(State());
      assert IdSet(ids[..0]) == {};
      for i := 0 to |ids|
        invariant State() == Cleared(old(State()), IdSet(ids[..i]))
      {
        ClearedOneMore(old(State()), IdSet(ids[..i]), ids[i]);
        assert IdSet(ids[..i]) + {ids[i]} == IdSet(ids[..i + 1]);
        DeleteUpload(ids[i]);
      }
      assert ids[..|ids|] == ids;
    }

    method AddHoldings(snapshot: int, totals: Totals)
      modifies this
      ensures uploads == old(uploads) && snapshots == old(snapshots)
      ensures holdings == old(holdings) + HoldingsFor(snapshot, totals)
    {
      for i := 0 to |totals|
        invariant uploads == old(uploads) && snapshots == old(snapshots)
        invariant holdings == old(holdings) + HoldingsFor(snapshot, totals[..i])
      {
        holdings := holdings + [Holding(snapshot, totals[i].0, totals[i].1)];
      }
      assert totals[..|totals|] == totals;
    }

    /** `prior` is what the query for uploads of the same portfolio and date returns, in any order. */
    method IngestCasPayload(p: Payload, force: bool, prior: seq<int>, upload: int, snapshot: int) returns (r: Outcome)
      requires Importable(p) ==> IdSet(prior) == Prior(uploads, PortfolioOf(p), p.parsedEnd.value)
      requires FreshIds(State(), p, upload, snapshot)
      modifies this, lots
      ensures State() == Ingest(old(State()), p, force, upload, snapshot)
      ensures r == match Check(old(State()), p, force) case None => Imported(upload) case Some(e) => Refused(e)
    {
      if p.grandTotal == None {
        return Refused(NoGrandTotal);
      }
      if OrElse(p.periodEnd, "") == "" {
        return Refused(NoPeriodEnd);
      }
      if p.parsedEnd == None {
        return Refused(UnparsablePeriodEnd);
      }
      if !force {
        var nsdl := AnyFromNsdl(prior);
        if nsdl && SourceOf(p) == "cdsl" {
          return Refused(WouldReplaceNsdl);
        }
      }
      DeletePrior(prior);
      uploads := uploads[upload := UploadOf(p)];
      snapshots := snapshots[snapshot := SnapshotFor(upload, p)];
      var totals := ClassTotals(p);
      AddHoldings(snapshot, totals);
      var _, _ := lots.CreateInvestmentLots(upload, p.transactions);
      r := Imported(upload);
    }
  }
}
