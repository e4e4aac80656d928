/** What every sequence of statement imports and lot backfills keeps. */
module CasRuns {
  import opened Rows
  import opened Lots
  import opened LotStore
  import opened Cas

  // ---------- the invariant ----------

  function HoldingsOf(holdings: seq<Holding>, snapshot: int): seq<Holding> {
    if holdings == [] then []
    else
      var front, last := HoldingsOf(holdings[..|holdings| - 1], snapshot), holdings[|holdings| - 1];
      if last.snapshot == snapshot then front + [last] else front
  }

  predicate SamePeriod(a: Upload, b: Upload) {
    a.portfolio == b.portfolio && a.date == b.date
  }

  /** One upload for a portfolio and a date, recording what its statement says. */
  ghost predicate UploadsSound(s: Store) {
    && (forall a, b :: a in s.uploads && b in s.uploads && SamePeriod(s.uploads[a], s.uploads[b]) ==> a == b)
    && forall id :: id in s.uploads ==>
         Importable(s.uploads[id].payload) && s.uploads[id] == UploadOf(s.uploads[id].payload)
  }

  ghost predicate HasSnapshot(s: Store, upload: int) {
    exists id :: id in s.snapshots && s.snapshots[id].upload == Some(upload)
  }

  /** Every upload has one snapshot, worth its stated total; no snapshot names an upload that is gone. */
  ghost predicate SnapshotsSound(s: Store)
    requires UploadsSound(s)
  {
    && (forall id :: id in s.uploads ==> HasSnapshot(s, id))
    && (forall a, b ::
          (a in s.snapshots && b in s.snapshots && s.snapshots[a].upload.Some?
           && s.snapshots[a].upload == s.snapshots[b].upload) ==> a == b)
    && forall id :: id in s.snapshots && s.snapshots[id].upload.Some? ==>
         var upload := s.snapshots[id].upload.value;
         upload in s.uploads && s.snapshots[id] == SnapshotFor(upload, s.uploads[upload].payload)
  }

  /** No holding without its snapshot; an import's snapshot holds the breakdown of its statement. */
  ghost predicate HoldingsSound(s: Store)
    requires UploadsSound(s) && SnapshotsSound(s)
  {
    && (forall h :: h in s.holdings ==> h.snapshot in s.snapshots)
    && forall id :: id in s.snapshots && s.snapshots[id].upload.Some? ==>
         HoldingsOf(s.holdings, id)
         == HoldingsFor(id, Breakdown(s.uploads[s.snapshots[id].upload.value].payload))
  }

  /** No lot without its upload, none that the upload's statement does not state, no key twice. */
  ghost predicate LotsSound(s: Store) {
    && Unique(s.lots)
    && forall row :: row in s.lots ==>
         row.upload in s.uploads && row.lot in Extract(s.uploads[row.upload].payload.transactions).lots
  }

  ghost predicate Sound(s: Store) {
    UploadsSound(s) && SnapshotsSound(s) && HoldingsSound(s) && LotsSound(s)
  }

  // ---------- clearing ----------

  lemma {:induction false} DroppedMembers(holdings: seq<Holding>, gone: set<int>)
    ensures forall h :: h in DropHoldings(holdings, gone) <==> h in holdings && h.snapshot !in gone
  {
    if holdings != [] {
      var front, last := holdings[..|holdings| - 1], holdings[|holdings| - 1];
      DroppedMembers(front, gone);
      assert holdings == front + [last];
    }
  }

  lemma {:induction false} DroppedHoldings(holdings: seq<Holding>, gone: set<int>, snapshot: int)
    ensures HoldingsOf(DropHoldings(holdings, gone), snapshot)
         == if snapshot in gone then [] else HoldingsOf(holdings, snapshot)
  {
    if holdings != [] {
      var front, last := holdings[..|holdings| - 1], holdings[|holdings| - 1];
      DroppedHoldings(front, gone, snapshot);
      if last.snapshot !in gone {
        var kept := DropHoldings(front, gone);
        assert (kept + [last])[..|kept|] == kept;
      }
    }
  }

  lemma {:induction false} DroppedLots(lots: seq<StoredLot>, gone: set<int>)
    ensures forall row :: row in DropLots(lots, gone) <==> row in lots && row.upload !in gone
    ensures Unique(lots) ==> Unique(DropLots(lots, gone))
  {
    if lots != [] {
      var front, last := lots[..|lots| - 1], lots[|lots| - 1];
      DroppedLots(front, gone);
      assert lots == front + [last];
      if Unique(lots) && last.upload !in gone {
        var kept := DropLots(front, gone);
        forall i | 0 <= i < |kept|
          ensures !Collide(kept[i], last)
        {
          assert kept[i] in front;
          var k :| 0 <= k < |front| && front[k] == kept[i];
          assert !Collide(lots[k], lots[|lots| - 1]);
        }
      }
    }
  }

  lemma ClearedUploads(s: Store, gone: set<int>)
    requires UploadsSound(s) && SnapshotsSound(s)
    ensures UploadsSound(Cleared(s, gone)) && SnapshotsSound(Cleared(s, gone))
  {
    var t := Cleared(s, gone);
    forall id | id in t.uploads
      ensures HasSnapshot(t, id)
    {
      assert HasSnapshot(s, id);
      var shown :| shown in s.snapshots && s.snapshots[shown].upload == Some(id);
      assert shown in t.snapshots;
    }
  }

  /** Deleting any uploads leaves no orphan and disturbs no other upload. */
  lemma ClearedKeeps(s: Store, gone: set<int>)
    requires Sound(s)
    ensures Sound(Cleared(s, gone))
  {
    var t := Cleared(s, gone);
    ClearedUploads(s, gone);
    forall id | id in t.snapshots && t.snapshots[id].upload.Some?
      ensures HoldingsOf(t.holdings, id)
           == HoldingsFor(id, Breakdown(t.uploads[t.snapshots[id].upload.value].payload))
    {
      DroppedHoldings(s.holdings, SnapshotsOf(s.snapshots, gone), id);
    }
    DroppedMembers(s.holdings, SnapshotsOf(s.snapshots, gone));
    DroppedLots(s.lots, gone);
  }

  // ---------- inserting ----------

  lemma {:induction false} HoldingsAppend(a: seq<Holding>, b: seq<Holding>, snapshot: int)
    ensures HoldingsOf(a + b, snapshot) == HoldingsOf(a, snapshot) + HoldingsOf(b, snapshot)
  {
    if b == [] {
      assert a + b == a;
    } else {
      HoldingsAppend(a, b[..|b| - 1], snapshot);
      assert (a + b)[..|a + b| - 1] == a + b[..|b| - 1];
    }
  }

  lemma {:induction false} HoldingsAllOf(holdings: seq<Holding>, owner: int, snapshot: int)
    requires forall h :: h in holdings ==> h.snapshot == owner
    ensures HoldingsOf(holdings, snapshot) == if snapshot == owner then holdings else []
  {
    if holdings != [] {
      HoldingsAllOf(holdings[..|holdings| - 1], owner, snapshot);
      assert holdings == holdings[..|holdings| - 1] + [holdings[|holdings| - 1]];
    }
  }

  lemma {:induction false} NoHoldings(holdings: seq<Holding>, snapshot: int)
    requires forall h :: h in holdings ==> h.snapshot != snapshot
    ensures HoldingsOf(holdings, snapshot) == []
  {
    if holdings != [] {
      NoHoldings(holdings[..|holdings| - 1], snapshot);
    }
  }

  lemma InsertedUploads(s: Store, p: Payload, upload: int, snapshot: int)
    requires UploadsSound(s) && Importable(p) && upload !in s.uploads
    requires Prior(s.uploads, PortfolioOf(p), p.parsedEnd.value) == {}
    ensures UploadsSound(Inserted(s, p, upload, snapshot))
  {
    forall id | id in s.uploads
      ensures !SamePeriod(s.uploads[id], UploadOf(p))
    {
      assert id !in Prior(s.uploads, PortfolioOf(p), p.parsedEnd.value);
    }
  }

  lemma InsertedShown(s: Store, p: Payload, upload: int, snapshot: int, id: int)
    requires Sound(s) && Importable(p) && snapshot !in s.snapshots && id in s.uploads
    ensures HasSnapshot(Inserted(s, p, upload, snapshot), id)
  {
    var t := Inserted(s, p, upload, snapshot);
    assert HasSnapshot(s, id);
    var shown :| shown in s.snapshots && s.snapshots[shown].upload == Some(id);
    assert shown in t.snapshots && t.snapshots[shown].upload == Some(id);
  }

  lemma InsertedFits(s: Store, p: Payload, upload: int, snapshot: int, id: int)
    requires UploadsSound(s) && SnapshotsSound(s) && Importable(p) && upload !in s.uploads && snapshot !in s.snapshots
    requires var t := Inserted(s, p, upload, snapshot);
             id in t.snapshots && t.snapshots[id].upload.Some?
    ensures var t := Inserted(s, p, upload, snapshot);
            var owner := t.snapshots[id].upload.value;
            && owner in t.uploads && t.snapshots[id] == SnapshotFor(owner, t.uploads[owner].payload)
            && (owner == upload <==> id == snapshot)
            && (id != snapshot ==> id in s.snapshots && t.snapshots[id] == s.snapshots[id])
  {
  }

  lemma InsertedSnapshots(s: Store, p: Payload, upload: int, snapshot: int)
    requires Sound(s) && Importable(p) && upload !in s.uploads && snapshot !in s.snapshots
    requires UploadsSound(Inserted(s, p, upload, snapshot))
    ensures SnapshotsSound(Inserted(s, p, upload, snapshot))
  {
    var t := Inserted(s, p, upload, snapshot);
    assert snapshot in t.snapshots && t.snapshots[snapshot].upload == Some(upload);
    forall id | id in s.uploads ensures HasSnapshot(t, id) { InsertedShown(s, p, upload, snapshot, id); }
    forall id | id in t.snapshots && t.snapshots[id].upload.Some? { InsertedFits(s, p, upload, snapshot, id); }
  }

  /** A row id may be one that was used before: nothing of its former row is left to be adopted. */
  lemma InsertedHoldings(s: Store, p: Payload, upload: int, snapshot: int)
    requires Sound(s) && Importable(p) && upload !in s.uploads && snapshot !in s.snapshots
    requires Prior(s.uploads, PortfolioOf(p), p.parsedEnd.value) == {}
    requires UploadsSound(Inserted(s, p, upload, snapshot)) && SnapshotsSound(Inserted(s, p, upload, snapshot))
    ensures HoldingsSound(Inserted(s, p, upload, snapshot))
  {
    var t := Inserted(s, p, upload, snapshot);
    var added := HoldingsFor(snapshot, Breakdown(p));
    forall id | id in t.snapshots && t.snapshots[id].upload.Some?
      ensures HoldingsOf(t.holdings, id)
           == HoldingsFor(id, Breakdown(t.uploads[t.snapshots[id].upload.value].payload))
    {
      HoldingsAppend(s.holdings, added, id);
      HoldingsAllOf(added, snapshot, id);
      if id == snapshot {
        NoHoldings(s.holdings, id);
      }
    }
  }

  lemma InsertedLots(s: Store, p: Payload, upload: int, snapshot: int)
    requires Sound(s) && Importable(p) && upload !in s.uploads
    ensures LotsSound(Inserted(s, p, upload, snapshot))
  {
    assert LotsOf(s.lots, upload) == {};
    CreatedKeepsUnique(s.lots, upload, p.transactions);
    var added := Absent(LotsOf(s.lots, upload), Extract(p.transactions).lots);
    AbsentMeans(LotsOf(s.lots, upload), Extract(p.transactions).lots);
    var t := Inserted(s, p, upload, snapshot);
    forall row | row in t.lots
      ensures row.upload in t.uploads && row.lot in Extract(t.uploads[row.upload].payload.transactions).lots
    {
      assert row in s.lots || (row.upload == upload && row.lot in added);
    }
  }

  lemma IngestKeeps(s: Store, p: Payload, force: bool, upload: int, snapshot: int)
    requires Sound(s) && FreshIds(s, p, upload, snapshot)
    ensures Sound(Ingest(s, p, force, upload, snapshot))
  {
    if Check(s, p, force) == None {
      var room := Room(s, p);
      ClearedKeeps(s, Prior(s.uploads, PortfolioOf(p), p.parsedEnd.value));
      assert Prior(room.uploads, PortfolioOf(p), p.parsedEnd.value) == {};
      InsertedUploads(room, p, upload, snapshot);
      InsertedSnapshots(room, p, upload, snapshot);
      InsertedHoldings(room, p, upload, snapshot);
      InsertedLots(room, p, upload, snapshot);
    }
  }

  // ---------- backfills ----------

  /** The saved uploads with some ids, as the backfill reads them. */
  function Saved(s: Store, ids: seq<int>): seq<SavedUpload> {
    if ids == [] then []
    else
      var front, id := Saved(s, ids[..|ids| - 1]), ids[|ids| - 1];
      if id in s.uploads then front + [SavedUpload(id, Some(s.uploads[id].payload.transactions))] else front
  }

  function Backfill(s: Store, ids: seq<int>): Store {
    s.(lots := Backfilled(s.lots, Saved(s, ids)))
  }

  lemma {:induction false} BackfillKeepsLots(s: Store, ids: seq<int>)
    requires LotsSound(s)
    ensures LotsSound(Backfill(s, ids))
  {
    if ids != [] {
      var front, id := ids[..|ids| - 1], ids[|ids| - 1];
      BackfillKeepsLots(s, front);
      if id in s.uploads {
        var rows, entries := Backfill(s, front).lots, s.uploads[id].payload.transactions;
        var saved := Saved(s, ids);
        assert saved[..|saved| - 1] == Saved(s, front);
        assert Backfill(s, ids).lots == Created(rows, id, entries);
        CreatedKeepsUnique(rows, id, entries);
        AbsentMeans(LotsOf(rows, id), Extract(entries).lots);
      }
    }
  }

  lemma BackfillKeeps(s: Store, ids: seq<int>)
    requires Sound(s)
    ensures Sound(Backfill(s, ids))
  {
    BackfillKeepsLots(s, ids);
  }

  // ---------- runs ----------

  datatype Op =
    | Import(payload: Payload, force: bool, upload: int, snapshot: int)
    | Normalise(ids: seq<int>)

  predicate Enabled(s: Store, op: Op) {
    op.Import? ==> FreshIds(s, op.payload, op.upload, op.snapshot)
  }

  function Apply(s: Store, op: Op): Store {
    match op
    case Import(p, force, upload, snapshot) => Ingest(s, p, force, upload, snapshot)
    case Normalise(ids) => Backfill(s, ids)
  }

  predicate Runs(s: Store, ops: seq<Op>)
    decreases |ops|
  {
    ops == [] || (Enabled(s, ops[0]) && Runs(Apply(s, ops[0]), ops[1..]))
  }

  function After(s: Store, ops: seq<Op>): Store
    decreases |ops|
  {
    if ops == [] then s else After(Apply(s, ops[0]), ops[1..])
  }

  lemma ApplyKeeps(s: Store, op: Op)
    requires Sound(s) && Enabled(s, op)
    ensures Sound(Apply(s, op))
  {
    match op
    case Import(p, force, upload, snapshot) => IngestKeeps(s, p, force, upload, snapshot);
    case Normalise(ids) => BackfillKeeps(s, ids);
  }

  /** After any imports and backfills in any order: one upload for a portfolio and a date, one snapshot
      for an upload, no orphan, every breakdown and every lot as its statement says. */
  lemma {:induction false} RunKeeps(s: Store, ops: seq<Op>)
    requires Sound(s) && Runs(s, ops)
    ensures Sound(After(s, ops))
    decreases |ops|
  {
    if ops != [] {
      ApplyKeeps(s, ops[0]);
      RunKeeps(Apply(s, ops[0]), ops[1..]);
    }
  }

  /** Every upload has all the lots its statement states. */
  ghost predicate Normalised(s: Store) {
    forall id :: id in s.uploads ==>
      LotsOf(s.lots, id) == set lot <- Extract(s.uploads[id].payload.transactions).lots
  }

  /** Once every upload is normalised, imports keep it so and backfills do nothing at all. */
  lemma NormalisedStays(s: Store, op: Op)
    requires Sound(s) && Normalised(s) && Enabled(s, op)
    ensures Normalised(Apply(s, op))
    ensures op.Normalise? ==> Apply(s, op) == s
  {
    match op
    case Import(p, force, upload, snapshot) =>
      if Check(s, p, force) == None {
        ImportNormalises(s, p, upload, snapshot);
      }
    case Normalise(ids) =>
      SavedAreStored(s, ids);
  }

  lemma ImportNormalises(s: Store, p: Payload, upload: int, snapshot: int)
    requires Sound(s) && Normalised(s) && Importable(p) && FreshIds(s, p, upload, snapshot)
    ensures Normalised(Inserted(Room(s, p), p, upload, snapshot))
  {
    var gone := Prior(s.uploads, PortfolioOf(p), p.parsedEnd.value);
    var room := Room(s, p);
    var t := Inserted(room, p, upload, snapshot);
    DroppedLots(s.lots, gone);
    forall id | id in t.uploads
      ensures LotsOf(t.lots, id) == set lot <- Extract(t.uploads[id].payload.transactions).lots
    {
      CreatedExact(room.lots, upload, p.transactions, id);
      if id == upload {
        assert LotsOf(room.lots, upload) == {};
      } else {
        assert LotsOf(room.lots, id) == LotsOf(s.lots, id);
      }
    }
  }

  lemma {:induction false} SavedAreStored(s: Store, ids: seq<int>)
    requires Normalised(s)
    ensures Backfill(s, ids) == s
  {
    if ids != [] {
      var front, id := ids[..|ids| - 1], ids[|ids| - 1];
      SavedAreStored(s, front);
      if id in s.uploads {
        var saved := Saved(s, ids);
        assert saved[..|saved| - 1] == Saved(s, front);
        CreatedNothing(s.lots, id, s.uploads[id].payload.transactions);
      }
    }
  }

  /** A backfill over all uploads, however few of their lots were stored before, normalises every one. */
  lemma BackfillNormalises(s: Store, ids: seq<int>)
    requires Sound(s) && s.uploads.Keys <= IdSet(ids)
    ensures Normalised(Backfill(s, ids))
  {
    forall id | id in s.uploads
      ensures LotsOf(Backfill(s, ids).lots, id) == set lot <- Extract(s.uploads[id].payload.transactions).lots
    {
      BackfilledExact(s.lots, Saved(s, ids), id);
      StatedIs(s, ids, id);
    }
  }

  lemma StatedSnoc(saved: seq<SavedUpload>, last: SavedUpload, id: int)
    ensures Stated(saved + [last], id) == Stated(saved, id) + if last.id == id then StatedBy(last) else {}
  {
  }

  lemma {:induction false} StatedIs(s: Store, ids: seq<int>, id: int)
    requires id in s.uploads
    ensures Stated(Saved(s, ids), id)
         == if id in ids then StatedBy(SavedUpload(id, Some(s.uploads[id].payload.transactions))) else {}
  {
    if ids != [] {
      var front, last := ids[..|ids| - 1], ids[|ids| - 1];
      StatedIs(s, front, id);
      assert id in ids <==> id in front || id == last;
      if last in s.uploads {
        StatedSnoc(Saved(s, front), SavedUpload(last, Some(s.uploads[last].payload.transactions)), id);
      }
    }
  }

  // ---------- replacement ----------

  /** An import leaves every other upload, every snapshot that is not the replaced one, its holdings and
      every other upload's lots as they were. */
  lemma OthersUntouched(s: Store, p: Payload, force: bool, upload: int, snapshot: int, other: int, shown: int)
    requires Sound(s) && FreshIds(s, p, upload, snapshot) && Check(s, p, force) == None
    requires other in s.uploads && !SamePeriod(s.uploads[other], UploadOf(p))
    requires shown in s.snapshots && (s.snapshots[shown].upload == None || s.snapshots[shown].upload == Some(other))
    ensures var t := Ingest(s, p, force, upload, snapshot);
            && other in t.uploads && t.uploads[other] == s.uploads[other]
            && shown in t.snapshots && t.snapshots[shown] == s.snapshots[shown]
            && HoldingsOf(t.holdings, shown) == HoldingsOf(s.holdings, shown)
            && LotsOf(t.lots, other) == LotsOf(s.lots, other)
  {
    var gone := Prior(s.uploads, PortfolioOf(p), p.parsedEnd.value);
    DroppedLots(s.lots, gone);
    CreatedExact(Room(s, p).lots, upload, p.transactions, other);
    assert LotsOf(Room(s, p).lots, other) == LotsOf(s.lots, other);
    OtherHoldings(s, p, upload, snapshot, shown);
  }

  lemma OtherHoldings(s: Store, p: Payload, upload: int, snapshot: int, shown: int)
    requires Importable(p) && shown in s.snapshots && shown != snapshot
    requires shown !in SnapshotsOf(s.snapshots, Prior(s.uploads, PortfolioOf(p), p.parsedEnd.value))
    ensures HoldingsOf(Inserted(Room(s, p), p, upload, snapshot).holdings, shown) == HoldingsOf(s.holdings, shown)
  {
    var gone := Prior(s.uploads, PortfolioOf(p), p.parsedEnd.value);
    var added := HoldingsFor(snapshot, Breakdown(p));
    DroppedHoldings(s.holdings, SnapshotsOf(s.snapshots, gone), shown);
    HoldingsAppend(Room(s, p).holdings, added, shown);
    HoldingsAllOf(added, snapshot, shown);
  }

  /** Importing the same statement again, into the ids that its own replacement frees, changes nothing. */
  lemma ImportTwice(s: Store, p: Payload, force: bool, upload: int, snapshot: int)
    requires Sound(s) && FreshIds(s, p, upload, snapshot) && Check(s, p, force) == None
    ensures var once := Ingest(s, p, force, upload, snapshot);
            && FreshIds(once, p, upload, snapshot)
            && Ingest(once, p, force, upload, snapshot) == once
  {
    var once := Ingest(s, p, force, upload, snapshot);
    var room := Room(s, p);
    ClearedKeeps(s, Prior(s.uploads, PortfolioOf(p), p.parsedEnd.value));
    assert Prior(room.uploads, PortfolioOf(p), p.parsedEnd.value) == {};
    assert Prior(once.uploads, PortfolioOf(p), p.parsedEnd.value) == {upload};
    NewSnapshotOnly(room, p, upload, snapshot);
    RoomAgain(room, p, upload, snapshot);
    assert !AnyNsdl(once.uploads, {upload}) || SourceOf(p) != "cdsl";
  }

  lemma NewSnapshotOnly(room: Store, p: Payload, upload: int, snapshot: int)
    requires UploadsSound(room) && SnapshotsSound(room)
    requires Importable(p) && upload !in room.uploads && snapshot !in room.snapshots
    ensures SnapshotsOf(Inserted(room, p, upload, snapshot).snapshots, {upload}) == {snapshot}
  {
    var t := Inserted(room, p, upload, snapshot);
    forall id | id in room.snapshots && room.snapshots[id].upload.Some?
      ensures room.snapshots[id].upload.value != upload
    {
    }
    assert t.snapshots[snapshot].upload == Some(upload);
  }

  lemma RoomAgain(room: Store, p: Payload, upload: int, snapshot: int)
    requires Sound(room) && Importable(p) && upload !in room.uploads && snapshot !in room.snapshots
    requires var once := Inserted(room, p, upload, snapshot);
             Prior(once.uploads, PortfolioOf(p), p.parsedEnd.value) == {upload}
             && SnapshotsOf(once.snapshots, {upload}) == {snapshot}
    ensures Room(Inserted(room, p, upload, snapshot), p) == room
  {
    var once := Inserted(room, p, upload, snapshot);
    DropHoldingsAppend(room.holdings, HoldingsFor(snapshot, Breakdown(p)), snapshot);
    var stamped := Stamp(upload, Absent(LotsOf(room.lots, upload), Extract(p.transactions).lots));
    DropLotsAppend(room.lots, stamped, upload);
    assert once.uploads - {upload} == room.uploads;
    assert once.snapshots - {snapshot} == room.snapshots;
  }

  lemma {:induction false} DropHoldingsAppend(a: seq<Holding>, b: seq<Holding>, snapshot: int)
    requires forall h :: h in a ==> h.snapshot != snapshot
    requires forall h :: h in b ==> h.snapshot == snapshot
    ensures DropHoldings(a + b, {snapshot}) == a
    decreases |a| + |b|
  {
    if b != [] {
      assert (a + b)[..|a + b| - 1] == a + b[..|b| - 1];
      DropHoldingsAppend(a, b[..|b| - 1], snapshot);
    } else if a != [] {
      assert a + b == a && a[..|a| - 1] + b == a[..|a| - 1];
      DropHoldingsAppend(a[..|a| - 1], b, snapshot);
    }
  }

  lemma {:induction false} DropLotsAppend(a: seq<StoredLot>, b: seq<StoredLot>, upload: int)
    requires forall row :: row in a ==> row.upload != upload
    requires forall row :: row in b ==> row.upload == upload
    ensures DropLots(a + b, {upload}) == a
    decreases |a| + |b|
  {
    if b != [] {
      assert (a + b)[..|a + b| - 1] == a + b[..|b| - 1];
      DropLotsAppend(a, b[..|b| - 1], upload);
    } else if a != [] {
      assert a + b == a && a[..|a| - 1] + b == a[..|a| - 1];
      DropLotsAppend(a[..|a| - 1], b, upload);
    }
  }

  // ---------- NSDL and CDSL ----------

  /** The upload of a portfolio and a date, if any, came from a source. */
  ghost predicate ComesFrom(s: Store, portfolio: string, date: int, source: string) {
    exists id :: id in s.uploads && s.uploads[id].portfolio == portfolio && s.uploads[id].date == date
                 && s.uploads[id].source == source
  }

  predicate Concerns(op: Op, portfolio: string, date: int) {
    op.Import? && PortfolioOf(op.payload) == portfolio && op.payload.parsedEnd == Some(date)
  }

  /** An accepted import is the only upload of its period. */
  lemma AcceptedIsAlone(s: Store, op: Op, portfolio: string, date: int)
    requires Concerns(op, portfolio, date) && Check(s, op.payload, op.force) == None
    ensures var t := Apply(s, op);
            && Prior(t.uploads, portfolio, date) == {op.upload} && op.upload in t.uploads
            && t.uploads[op.upload].source == SourceOf(op.payload)
  {
  }

  lemma OnlySource(s: Store, upload: int, portfolio: string, date: int, source: string)
    requires Prior(s.uploads, portfolio, date) == {upload} && upload in s.uploads
    ensures ComesFrom(s, portfolio, date, source) <==> s.uploads[upload].source == source
  {
    assert upload in Prior(s.uploads, portfolio, date);
    if ComesFrom(s, portfolio, date, source) {
      var id :| id in s.uploads && s.uploads[id].portfolio == portfolio && s.uploads[id].date == date
                && s.uploads[id].source == source;
      assert id in Prior(s.uploads, portfolio, date);
    }
  }

  /** An import of the period from NSDL, which nothing refuses. */
  predicate Restores(op: Op, portfolio: string, date: int) {
    Concerns(op, portfolio, date) && Importable(op.payload) && SourceOf(op.payload) == "nsdl"
  }

  /** An import of the period that replaces an NSDL upload: from CDSL by force, or from a third source. */
  predicate Ousts(op: Op, portfolio: string, date: int) {
    && Concerns(op, portfolio, date) && Importable(op.payload)
    && SourceOf(op.payload) != "nsdl" && (op.force || SourceOf(op.payload) != "cdsl")
  }

  /** Whether a run leaves the period to NSDL, from its operations alone. */
  predicate Healed(ops: seq<Op>, portfolio: string, date: int, held: bool)
    decreases |ops|
  {
    if ops == [] then held
    else Healed(ops[1..], portfolio, date,
                Restores(ops[0], portfolio, date) || (held && !Ousts(ops[0], portfolio, date)))
  }

  lemma OtherPeriodStays(s: Store, op: Op, portfolio: string, date: int, source: string)
    requires Enabled(s, op) && !Concerns(op, portfolio, date)
    ensures ComesFrom(Apply(s, op), portfolio, date, source) <==> ComesFrom(s, portfolio, date, source)
  {
    var t := Apply(s, op);
    if op.Import? && Check(s, op.payload, op.force) == None {
      if ComesFrom(s, portfolio, date, source) {
        var id :| id in s.uploads && s.uploads[id].portfolio == portfolio && s.uploads[id].date == date
                  && s.uploads[id].source == source;
        assert id in Room(s, op.payload).uploads;
        assert id in t.uploads && t.uploads[id] == s.uploads[id];
      }
      if ComesFrom(t, portfolio, date, source) {
        var id :| id in t.uploads && t.uploads[id].portfolio == portfolio && t.uploads[id].date == date
                  && t.uploads[id].source == source;
        assert id in s.uploads && s.uploads[id] == t.uploads[id];
      }
    } else {
      assert t.uploads == s.uploads;
    }
  }

  lemma NsdlHolds(s: Store, portfolio: string, date: int)
    ensures ComesFrom(s, portfolio, date, "nsdl") <==> AnyNsdl(s.uploads, Prior(s.uploads, portfolio, date))
  {
    if ComesFrom(s, portfolio, date, "nsdl") {
      var id :| id in s.uploads && s.uploads[id].portfolio == portfolio && s.uploads[id].date == date
                && s.uploads[id].source == "nsdl";
      assert id in Prior(s.uploads, portfolio, date);
    }
  }

  lemma NsdlStep(s: Store, op: Op, portfolio: string, date: int)
    requires Enabled(s, op)
    ensures ComesFrom(Apply(s, op), portfolio, date, "nsdl")
            <==> Restores(op, portfolio, date) || (ComesFrom(s, portfolio, date, "nsdl") && !Ousts(op, portfolio, date))
  {
    if !Concerns(op, portfolio, date) {
      OtherPeriodStays(s, op, portfolio, date, "nsdl");
    } else if Check(s, op.payload, op.force) == None {
      AcceptedIsAlone(s, op, portfolio, date);
      OnlySource(Apply(s, op), op.upload, portfolio, date, "nsdl");
      NsdlHolds(s, portfolio, date);
    } else {
      assert Apply(s, op) == s;
      NsdlHolds(s, portfolio, date);
    }
  }

  /** After any run of imports and backfills, forced or not, the period is NSDL's exactly when the
      operations say so. */
  lemma {:induction false} NsdlExact(s: Store, ops: seq<Op>, portfolio: string, date: int)
    requires Runs(s, ops)
    ensures ComesFrom(After(s, ops), portfolio, date, "nsdl")
            <==> Healed(ops, portfolio, date, ComesFrom(s, portfolio, date, "nsdl"))
    decreases |ops|
  {
    if ops != [] {
      NsdlStep(s, ops[0], portfolio, date);
      NsdlExact(Apply(s, ops[0]), ops[1..], portfolio, date);
    }
  }

  /** No operation from `from` on ousts NSDL. */
  predicate NothingOusts(ops: seq<Op>, from: nat, portfolio: string, date: int) {
    forall j :: from <= j < |ops| ==> !Ousts(ops[j], portfolio, date)
  }

  /** The closed form: nothing ousts NSDL after its last import, or nothing does at all and it was there. */
  lemma {:induction false} HealedMeans(ops: seq<Op>, portfolio: string, date: int, held: bool)
    ensures Healed(ops, portfolio, date, held)
            <==> || (held && NothingOusts(ops, 0, portfolio, date))
                 || exists i :: 0 <= i < |ops| && Restores(ops[i], portfolio, date) && NothingOusts(ops, i, portfolio, date)
    decreases |ops|
  {
    if ops != [] {
      var next := Restores(ops[0], portfolio, date) || (held && !Ousts(ops[0], portfolio, date));
      var rest := ops[1..];
      HealedMeans(rest, portfolio, date, next);
      assert forall j :: 0 <= j < |rest| ==> rest[j] == ops[j + 1];
      forall i | 0 <= i <= |rest|
        ensures NothingOusts(rest, i, portfolio, date) <==> NothingOusts(ops, i + 1, portfolio, date)
      {
        NothingOustsTail(ops, i, portfolio, date);
      }
      if i :| 0 <= i < |rest| && Restores(rest[i], portfolio, date) && NothingOusts(rest, i, portfolio, date) {
        assert Restores(ops[i + 1], portfolio, date) && NothingOusts(ops, i + 1, portfolio, date);
      }
      if i :| 0 <= i < |ops| && Restores(ops[i], portfolio, date) && NothingOusts(ops, i, portfolio, date) {
        if i > 0 { assert Restores(rest[i - 1], portfolio, date) && NothingOusts(rest, i - 1, portfolio, date); }
      }
    }
  }

  lemma NothingOustsTail(ops: seq<Op>, i: nat, portfolio: string, date: int)
    requires ops != [] && i <= |ops| - 1
    ensures NothingOusts(ops[1..], i, portfolio, date) <==> NothingOusts(ops, i + 1, portfolio, date)
  {
    if NothingOusts(ops[1..], i, portfolio, date) {
      forall j | i + 1 <= j < |ops| ensures !Ousts(ops[j], portfolio, date) {
        assert ops[j] == ops[1..][j - 1];
      }
    }
  }

  /** The promise that CDSL replaces NSDL only by force holds of an unforced run exactly when every import
      from a third source is followed by one from NSDL. */
  lemma UnforcedNsdlStaysExactly(s: Store, ops: seq<Op>, portfolio: string, date: int)
    requires Runs(s, ops) && ComesFrom(s, portfolio, date, "nsdl")
    requires forall i :: 0 <= i < |ops| && Concerns(ops[i], portfolio, date) ==> !ops[i].force
    ensures ComesFrom(After(s, ops), portfolio, date, "nsdl")
            <==> forall j :: 0 <= j < |ops| && Ousts(ops[j], portfolio, date) ==>
                   exists i :: j < i < |ops| && Restores(ops[i], portfolio, date)
  {
    NsdlExact(s, ops, portfolio, date);
    HealedMeans(ops, portfolio, date, true);
    if forall j :: 0 <= j < |ops| && Ousts(ops[j], portfolio, date) ==>
         exists i :: j < i < |ops| && Restores(ops[i], portfolio, date) {
      LastOusted(ops, |ops|, portfolio, date);
    }
  }

  /** Either nothing ousts NSDL in the rest of the run, or some later import restores it for good. */
  lemma {:induction false} LastOusted(ops: seq<Op>, n: nat, portfolio: string, date: int)
    requires n <= |ops|
    requires forall j :: n <= j < |ops| ==> !Ousts(ops[j], portfolio, date)
    requires forall j :: 0 <= j < |ops| && Ousts(ops[j], portfolio, date) ==>
               exists i :: j < i < |ops| && Restores(ops[i], portfolio, date)
    ensures NothingOusts(ops, 0, portfolio, date)
            || exists i :: 0 <= i < |ops| && Restores(ops[i], portfolio, date) && NothingOusts(ops, i, portfolio, date)
  {
    if n > 0 {
      if Ousts(ops[n - 1], portfolio, date) {
        var i :| n - 1 < i < |ops| && Restores(ops[i], portfolio, date);
        assert NothingOusts(ops, i, portfolio, date);
      } else {
        LastOusted(ops, n - 1, portfolio, date);
      }
    }
  }

  const EMPTY := Store(map[], map[], [], [])

  function PlainPayload(source: string): Payload {
    Payload(Some("p"), Some(source), Some("d"), Some(20), Some(100), [], [], [])
  }

  lemma KeysGrow(s: Store, op: Op)
    requires op.Import?
    ensures Apply(s, op).uploads.Keys <= s.uploads.Keys + {op.upload}
    ensures Apply(s, op).snapshots.Keys <= s.snapshots.Keys + {op.snapshot}
  {
  }

  lemma ThreeSteps(s: Store, first: Op, second: Op, third: Op)
    ensures var (one, two) := (Apply(s, first), Apply(Apply(s, first), second));
            && After(s, [first, second, third]) == Apply(two, third) && After(s, [first]) == one
            && (Runs(s, [first, second, third]) <==> Enabled(s, first) && Enabled(one, second) && Enabled(two, third))
  {
    OneStep(s, first, [], [first]);
    OneStep(s, first, [second, third], [first, second, third]);
    OneStep(Apply(s, first), second, [third], [second, third]);
    OneStep(Apply(Apply(s, first), second), third, [], [third]);
  }

  lemma OneStep(s: Store, op: Op, rest: seq<Op>, ops: seq<Op>)
    requires ops == [op] + rest
    ensures After(s, ops) == After(Apply(s, op), rest)
    ensures Runs(s, ops) <==> Enabled(s, op) && Runs(Apply(s, op), rest)
  {
    assert ops[0] == op && ops[1..] == rest;
  }

  lemma UnusedIdsAreFresh(s: Store, op: Op)
    requires op.Import? && op.upload !in s.uploads && op.snapshot !in s.snapshots
    ensures Enabled(s, op)
  {
  }

  const FIRST := Import(PlainPayload("nsdl"), false, 1, 1)
  const SECOND := Import(PlainPayload("cams"), false, 2, 2)
  const THIRD := Import(PlainPayload("cdsl"), false, 3, 3)

  lemma PlainOps()
    ensures Concerns(FIRST, "P", 20) && Concerns(SECOND, "P", 20) && Concerns(THIRD, "P", 20)
    ensures SourceOf(THIRD.payload) == "cdsl" && Importable(THIRD.payload)
    ensures Restores(FIRST, "P", 20) && Ousts(SECOND, "P", 20) && !Restores(SECOND, "P", 20) && !Restores(THIRD, "P", 20)
  {
    assert Upper("p") == "P";
    assert Lower("nsdl") == "nsdl" && Lower("cams") == "cams" && Lower("cdsl") == "cdsl";
  }

  lemma PlainRuns()
    ensures Runs(EMPTY, [FIRST, SECOND, THIRD])
  {
    var one := Apply(EMPTY, FIRST);
    var two := Apply(one, SECOND);
    KeysGrow(EMPTY, FIRST);
    KeysGrow(one, SECOND);
    UnusedIdsAreFresh(EMPTY, FIRST);
    UnusedIdsAreFresh(one, SECOND);
    UnusedIdsAreFresh(two, THIRD);
    ThreeSteps(EMPTY, FIRST, SECOND, THIRD);
  }

  lemma NsdlHoldsFirst()
    ensures ComesFrom(After(EMPTY, [FIRST]), "P", 20, "nsdl")
  {
    PlainOps();
    PlainRuns();
    ThreeSteps(EMPTY, FIRST, SECOND, THIRD);
    NsdlStep(EMPTY, FIRST, "P", 20);
  }

  lemma NsdlIsOusted()
    ensures !ComesFrom(Apply(Apply(EMPTY, FIRST), SECOND), "P", 20, "nsdl")
  {
    PlainOps();
    PlainRuns();
    ThreeSteps(EMPTY, FIRST, SECOND, THIRD);
    NsdlStep(Apply(EMPTY, FIRST), SECOND, "P", 20);
  }

  lemma NsdlStaysAway()
    ensures !ComesFrom(After(EMPTY, [FIRST, SECOND, THIRD]), "P", 20, "nsdl")
  {
    PlainOps();
    PlainRuns();
    NsdlIsOusted();
    ThreeSteps(EMPTY, FIRST, SECOND, THIRD);
    NsdlStep(Apply(Apply(EMPTY, FIRST), SECOND), THIRD, "P", 20);
  }

  /** A period that NSDL does not hold is open to CDSL. */
  lemma CdslLands(s: Store, op: Op, portfolio: string, date: int)
    requires !ComesFrom(s, portfolio, date, "nsdl")
    requires Concerns(op, portfolio, date) && Importable(op.payload) && SourceOf(op.payload) == "cdsl"
    ensures ComesFrom(Apply(s, op), portfolio, date, "cdsl")
  {
    NsdlHolds(s, portfolio, date);
    AcceptedIsAlone(s, op, portfolio, date);
    OnlySource(Apply(s, op), op.upload, portfolio, date, "cdsl");
  }

  /** The run that breaks the promise: NSDL, then a statement of another source, then CDSL, none forced. */
  lemma NsdlGivesWayToCdsl()
    ensures var ops := [FIRST, SECOND, THIRD];
            && Runs(EMPTY, ops) && (forall i :: 0 <= i < 3 ==> !ops[i].force)
            && ComesFrom(After(EMPTY, [FIRST]), "P", 20, "nsdl")
            && !ComesFrom(After(EMPTY, ops), "P", 20, "nsdl") && ComesFrom(After(EMPTY, ops), "P", 20, "cdsl")
  {
    PlainRuns();
    NsdlHoldsFirst();
    NsdlStaysAway();
    CdslEnds();
    Unforced();
  }

  lemma Unforced()
    ensures !FIRST.force && !SECOND.force && !THIRD.force
  {
  }

  lemma CdslEnds()
    ensures ComesFrom(After(EMPTY, [FIRST, SECOND, THIRD]), "P", 20, "cdsl")
  {
    PlainOps();
    NsdlIsOusted();
    ThreeSteps(EMPTY, FIRST, SECOND, THIRD);
    CdslLands(Apply(Apply(EMPTY, FIRST), SECOND), THIRD, "P", 20);
  }
}
