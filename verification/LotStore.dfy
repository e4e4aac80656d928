/** Storing investment lots: normalising an upload inserts the lots of its statement that are not stored
    for it yet, and may run any number of times. */
module LotStore {
  import opened Rows
  import opened Lots

  datatype StoredLot = StoredLot(upload: int, lot: Lot)

  /** The lots stored for an upload. */
  function LotsOf(rows: seq<StoredLot>, upload: int): set<Lot> {
    set row <- rows | row.upload == upload :: row.lot
  }

  /** The lots of a list that are not in `have`, each once, in order. */
  function Absent(have: set<Lot>, lots: seq<Lot>): seq<Lot> {
    if lots == [] then []
    else
      var front, lot := Absent(have, lots[..|lots| - 1]), lots[|lots| - 1];
      if lot in have || lot in front then front else front + [lot]
  }

  function Stamp(upload: int, lots: seq<Lot>): (rows: seq<StoredLot>)
    ensures |rows| == |lots|
    ensures forall i :: 0 <= i < |lots| ==> rows[i] == StoredLot(upload, lots[i])
  {
    seq(|lots|, i requires 0 <= i < |lots| => StoredLot(upload, lots[i]))
  }

  /** The table after one upload's transactions are normalised. */
  function Created(rows: seq<StoredLot>, upload: int, entries: seq<Entry>): seq<StoredLot> {
    rows + Stamp(upload, Absent(LotsOf(rows, upload), Extract(entries).lots))
  }

  datatype SavedUpload = SavedUpload(id: int, payload: Option<seq<Entry>>)

  /** The table after the saved uploads are normalised in order; an undecodable payload is passed over. */
  function Backfilled(rows: seq<StoredLot>, uploads: seq<SavedUpload>): seq<StoredLot> {
    if uploads == [] then rows
    else
      var front, upload := Backfilled(rows, uploads[..|uploads| - 1]), uploads[|uploads| - 1];
      if upload.payload.Some? then Created(front, upload.id, upload.payload.value) else front
  }

  function Undecodable(uploads: seq<SavedUpload>): seq<int> {
    if uploads == [] then []
    else
      var front, upload := Undecodable(uploads[..|uploads| - 1]), uploads[|uploads| - 1];
      if upload.payload.Some? then front else front + [upload.id]
  }

  lemma StampSnoc(rows: seq<StoredLot>, upload: int, lots: seq<Lot>, lot: Lot)
    ensures rows + Stamp(upload, lots + [lot]) == rows + Stamp(upload, lots) + [StoredLot(upload, lot)]
  {
  }

  function Known(have: set<Lot>, added: seq<Lot>): set<Lot> {
    have + set lot <- added
  }

  lemma KnownSnoc(have: set<Lot>, added: seq<Lot>, lot: Lot)
    ensures Known(have, added + [lot]) == Known(have, added) + {lot}
  {
  }

  /** What one more lot adds to the absent ones. */
  lemma AbsentStep(have: set<Lot>, lots: seq<Lot>, i: nat)
    requires i < |lots|
    ensures var added := Absent(have, lots[..i]);
            Absent(have, lots[..i + 1]) == if lots[i] in Known(have, added) then added else added + [lots[i]]
  {
    assert lots[..i + 1][..i] == lots[..i];
  }

  class LotTable {
    var rows: seq<StoredLot>

    constructor ()
      ensures rows == []
    {
      rows := [];
    }

    method LoadKeys(upload: int) returns (existing: set<Lot>)
      ensures existing == LotsOf(rows, upload)
    {
      existing := {};
      for i := 0 to |rows|
        invariant existing == LotsOf(rows[..i], upload)
      {
        assert rows[..i + 1] == rows[..i] + [rows[i]];
        if rows[i].upload == upload {
          existing := existing + {rows[i].lot};
        }
      }
      assert rows[..|rows|] == rows;
    }

    /** Insert those of some lots that are not known, each once. */
    method InsertAbsent(upload: int, lots: seq<Lot>, have: set<Lot>) returns (created: nat)
      modifies this
      ensures rows == old(rows) + Stamp(upload, Absent(have, lots)) && created == |Absent(have, lots)|
    {
      var existing := have;
      ghost var added: seq<Lot> := [];
      created := 0;
      for i := 0 to |lots|
        invariant added == Absent(have, lots[..i]) && existing == Known(have, added)
        invariant rows == old(rows) + Stamp(upload, added) && created == |added|
      {
        AbsentStep(have, lots, i);
        if lots[i] !in existing {
          StampSnoc(old(rows), upload, added, lots[i]);
          KnownSnoc(have, added, lots[i]);
          rows := rows + [StoredLot(upload, lots[i])];
          existing := existing + {lots[i]};
          created := created + 1;
          added := added + [lots[i]];
        }
      }
      assert lots[..|lots|] == lots;
    }

    method CreateInvestmentLots(upload: int, entries: seq<Entry>)
      returns (created: nat, exclusions: seq<Exclusion>)
      modifies this
      ensures rows == Created(old(rows), upload, entries)
      ensures created == |rows| - |old(rows)| && exclusions == Extract(entries).exclusions
    {
      var lots: seq<Lot>;
      lots, exclusions := ExtractLots(entries);
      var existing := LoadKeys(upload);
      created := InsertAbsent(upload, lots, existing);
    }

    method BackfillInvestmentLots(uploads: seq<SavedUpload>)
      returns (scanned: nat, created: nat, malformed: seq<int>)
      modifies this
      ensures rows == Backfilled(old(rows), uploads)
      ensures scanned == |uploads| && created == |rows| - |old(rows)| && malformed == Undecodable(uploads)
    {
      created, malformed := 0, [];
      for i := 0 to |uploads|
        invariant rows == Backfilled(old(rows), uploads[..i])
        invariant |rows| == |old(rows)| + created
        invariant malformed == Undecodable(uploads[..i])
      {
        assert uploads[..i + 1][..i] == uploads[..i];
        if uploads[i].payload.None? {
          malformed := malformed + [uploads[i].id];
        } else {
          var added, _ := CreateInvestmentLots(uploads[i].id, uploads[i].payload.value);
          created := created + added;
        }
      }
      assert uploads[..|uploads|] == uploads;
      scanned := |uploads|;
    }
  }

  // ---------- what is stored ----------

  lemma {:induction false} AbsentMeans(have: set<Lot>, lots: seq<Lot>)
    ensures forall lot :: lot in Absent(have, lots) <==> lot in lots && lot !in have
    ensures forall i, j :: 0 <= i < j < |Absent(have, lots)| ==> Absent(have, lots)[i] != Absent(have, lots)[j]
  {
    if lots != [] {
      AbsentMeans(have, lots[..|lots| - 1]);
      assert lots == lots[..|lots| - 1] + [lots[|lots| - 1]];
    }
  }

  /** Exactly the statement's lots are added to the upload they belong to, and no other upload gains one. */
  lemma CreatedExact(rows: seq<StoredLot>, upload: int, entries: seq<Entry>, any: int)
    ensures LotsOf(Created(rows, upload, entries), any)
         == LotsOf(rows, any) + if any == upload then set lot <- Extract(entries).lots else {}
  {
    var added := Absent(LotsOf(rows, upload), Extract(entries).lots);
    AbsentMeans(LotsOf(rows, upload), Extract(entries).lots);
    var after := Created(rows, upload, entries);
    forall row | row in after
      ensures row in rows || (row.upload == upload && row.lot in added)
    {
    }
    forall lot | lot in added
      ensures StoredLot(upload, lot) in after
    {
      var i :| 0 <= i < |added| && added[i] == lot;
      assert after[|rows| + i] == StoredLot(upload, lot);
    }
  }

  lemma {:induction false} AbsentNothing(have: set<Lot>, lots: seq<Lot>)
    requires forall lot :: lot in lots ==> lot in have
    ensures Absent(have, lots) == []
  {
    if lots != [] {
      AbsentNothing(have, lots[..|lots| - 1]);
    }
  }

  /** Nothing is inserted for an upload whose statement's lots are all stored. */
  lemma CreatedNothing(rows: seq<StoredLot>, upload: int, entries: seq<Entry>)
    requires (set lot <- Extract(entries).lots) <= LotsOf(rows, upload)
    ensures Created(rows, upload, entries) == rows
  {
  }

  /** Normalising the same upload again adds nothing. */
  lemma CreatedTwice(rows: seq<StoredLot>, upload: int, entries: seq<Entry>)
    ensures var once := Created(rows, upload, entries); Created(once, upload, entries) == once
  {
    CreatedExact(rows, upload, entries, upload);
    CreatedNothing(Created(rows, upload, entries), upload, entries);
  }

  // ---------- the unique constraint ----------

  /** What `uq_investment_lot_natural` compares; rows with no reference never collide. */
  predicate Collide(a: StoredLot, b: StoredLot) {
    && a.upload == b.upload
    && KeyOf(a.lot) == KeyOf(b.lot)
    && a.lot.reference.Some?
    && a.lot.occurrence == b.lot.occurrence
  }

  predicate Unique(rows: seq<StoredLot>) {
    forall i, j :: 0 <= i < j < |rows| ==> !Collide(rows[i], rows[j])
  }

  lemma ExtractedApart(entries: seq<Entry>, a: Lot, b: Lot)
    requires a in Extract(entries).lots && b in Extract(entries).lots && a != b
    ensures KeyOf(a) != KeyOf(b) || a.occurrence != b.occurrence
  {
    var lots := Extract(entries).lots;
    var i :| 0 <= i < |lots| && lots[i] == a;
    var j :| 0 <= j < |lots| && lots[j] == b;
    if i < j {
      OccurrencesNeverRepeat(entries, i, j);
    } else {
      OccurrencesNeverRepeat(entries, j, i);
    }
  }

  /** When all that is stored for an upload came from its statement, normalising it never meets the
      unique constraint. */
  lemma CreatedKeepsUnique(rows: seq<StoredLot>, upload: int, entries: seq<Entry>)
    requires Unique(rows) && LotsOf(rows, upload) <= set lot <- Extract(entries).lots
    ensures Unique(Created(rows, upload, entries))
  {
    var added := Absent(LotsOf(rows, upload), Extract(entries).lots);
    AbsentMeans(LotsOf(rows, upload), Extract(entries).lots);
    var after := Created(rows, upload, entries);
    forall i, j | 0 <= i < j < |after|
      ensures !Collide(after[i], after[j])
    {
      if j >= |rows| && after[i].upload == upload {
        assert after[j].lot == added[j - |rows|] && after[j].lot in added;
        if i < |rows| {
          assert after[i] in rows && after[i].lot in LotsOf(rows, upload);
        } else {
          assert after[i].lot == added[i - |rows|] && after[i].lot in added;
        }
        ExtractedApart(entries, after[i].lot, after[j].lot);
      }
    }
  }

  // ---------- backfill ----------

  /** The lots a saved upload's statement states; an undecodable one states none. */
  function StatedBy(upload: SavedUpload): set<Lot> {
    if upload.payload.Some? then set lot <- Extract(upload.payload.value).lots else {}
  }

  /** All that the saved uploads with an id state. */
  function Stated(uploads: seq<SavedUpload>, id: int): set<Lot> {
    if uploads == [] then {}
    else
      var upload := uploads[|uploads| - 1];
      Stated(uploads[..|uploads| - 1], id) + if upload.id == id then StatedBy(upload) else {}
  }

  lemma {:induction false} StatedHolds(uploads: seq<SavedUpload>, upload: SavedUpload)
    requires upload in uploads
    ensures StatedBy(upload) <= Stated(uploads, upload.id)
  {
    if upload != uploads[|uploads| - 1] {
      StatedHolds(uploads[..|uploads| - 1], upload);
    }
  }

  /** A backfill adds to every upload exactly the lots its own statement states. */
  lemma {:induction false} BackfilledExact(rows: seq<StoredLot>, uploads: seq<SavedUpload>, id: int)
    ensures LotsOf(Backfilled(rows, uploads), id) == LotsOf(rows, id) + Stated(uploads, id)
  {
    if uploads != [] {
      var before, upload := uploads[..|uploads| - 1], uploads[|uploads| - 1];
      BackfilledExact(rows, before, id);
      assert uploads == before + [upload];
      if upload.payload.Some? {
        CreatedExact(Backfilled(rows, before), upload.id, upload.payload.value, id);
      }
    }
  }

  lemma {:induction false} NothingLeft(rows: seq<StoredLot>, uploads: seq<SavedUpload>, first: seq<SavedUpload>)
    requires first <= uploads
    requires forall upload :: upload in uploads ==> Stated(uploads, upload.id) <= LotsOf(rows, upload.id)
    ensures Backfilled(rows, first) == rows
  {
    if first != [] {
      NothingLeft(rows, uploads, first[..|first| - 1]);
      var upload := first[|first| - 1];
      assert upload in uploads;
      StatedHolds(uploads, upload);
      if upload.payload.Some? {
        CreatedNothing(rows, upload.id, upload.payload.value);
      }
    }
  }

  /** Running the backfill again creates nothing. */
  lemma BackfilledTwice(rows: seq<StoredLot>, uploads: seq<SavedUpload>)
    ensures var once := Backfilled(rows, uploads); Backfilled(once, uploads) == once
  {
    var once := Backfilled(rows, uploads);
    forall upload | upload in uploads
      ensures Stated(uploads, upload.id) <= LotsOf(once, upload.id)
    {
      BackfilledExact(rows, uploads, upload.id);
    }
    NothingLeft(once, uploads, uploads);
  }
}
