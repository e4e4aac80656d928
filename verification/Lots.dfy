/** Investment lots: the one statement fact that fixes a lot is a mutual-fund purchase, and each stored
    lot is one such fact of one upload, however often normalisation runs.

    Units, prices and amounts are exact decimals, modelled as reals; a cost basis is whole paise. A date
    or a number that the statement does not state, or that does not parse, is absent. */
module Lots {
  import opened Rows

  // ---------- statement transactions ----------

  datatype Entry = NotAnObject | Transaction(raw: Raw)

  datatype Raw = Raw(
    scope: Option<string>,
    sourceRef: Option<string>,
    isin: Option<string>,
    kind: Option<string>,
    reference: Option<string>,
    description: Option<string>,
    units: Option<real>,
    nav: Option<real>,
    amount: Option<real>,
    date: Option<int>)

  datatype Lot = Lot(
    instrument: string,
    name: string,
    quantity: real,
    unitCost: real,
    costBasis: int,
    currency: string,
    acquiredOn: int,
    sourceRef: string,
    kind: Option<string>,
    reference: Option<string>,
    occurrence: nat)

  datatype Reason = NotMutualFund | Disposal | Ambiguous | MissingFacts(missing: seq<string>) | Inconsistent

  datatype Exclusion = Exclusion(reason: Reason, instrument: Option<string>, sourceRef: Option<string>)

  datatype Classified = Complete(lot: Lot) | Excluded(exclusion: Exclusion)

  const ACQUISITIONS := ["purchase", "switch_in", "switch-in", "buy", "allotment"]
  const DISPOSALS := ["redemption", "switch_out", "switch-out", "sell", "sold"]

  /** Stripped text, absent when nothing is left. */
  function Text(s: Option<string>): Option<string> {
    if s.Some? && Strip(s.value) != "" then Some(Strip(s.value)) else None
  }

  predicate Marked(text: string, markers: seq<string>) {
    exists i :: 0 <= i < |markers| && Contains(text, markers[i])
  }

  predicate Positive(x: Option<real>) {
    x.Some? && x.value > 0.0
  }

  function Missing(name: string, present: bool): seq<string> {
    if present then [] else [name]
  }

  function Distance(x: real, y: real): real {
    if x < y then y - x else x - y
  }

  /** `quantize(Decimal("0.01"))` in the default context: to the nearest paisa, a tie to the even one. */
  function NearestPaisa(rupees: real): int {
    var x := rupees * 100.0;
    var f := x.Floor;
    var part := x - f as real;
    if part < 0.5 || (part == 0.5 && f % 2 == 0) then f else f + 1
  }

  /** Units times price. */
  function Product(raw: Raw): real
    requires raw.units.Some? && raw.nav.Some?
  {
    raw.units.value * raw.nav.value
  }

  function Classify(raw: Raw): Classified {
    var isin := match Text(raw.isin) case Some(i) => Some(Upper(i)) case None => None;
    var kind := match Text(raw.kind) case Some(k) => Lower(k) case None => "";
    var refused := reason => Excluded(Exclusion(reason, isin, raw.sourceRef));
    if raw.scope == None || Lower(raw.scope.value) != "mf" then refused(NotMutualFund)
    else if Marked(kind, DISPOSALS) then refused(Disposal)
    else if !Marked(kind, ACQUISITIONS) then refused(Ambiguous)
    else
      var missing :=
        Missing("units", Positive(raw.units)) + Missing("nav", Positive(raw.nav))
        + Missing("amount", Positive(raw.amount)) + Missing("date", raw.date.Some?) + Missing("isin", isin.Some?);
      if missing != [] then refused(MissingFacts(missing))
      else
        var product := Product(raw);
        if Distance(product, raw.amount.value) >= 0.01 then refused(Inconsistent)
        else
          Complete(Lot(
                     isin.value,
                     match Text(raw.description) case Some(d) => d case None => isin.value,
                     raw.units.value,
                     raw.nav.value,
                     NearestPaisa(product),
                     "INR",
                     raw.date.value,
                     if raw.sourceRef.Some? then raw.sourceRef.value else "None",
                     Some(kind),
                     Text(raw.reference),
                     0))
  }

  // ---------- what a lot says ----------

  lemma NearestMeans(rupees: real)
    ensures -0.5 <= NearestPaisa(rupees) as real - rupees * 100.0 <= 0.5
  {
  }

  lemma CompleteMeans(raw: Raw)
    requires Classify(raw).Complete?
    ensures Positive(raw.units) && Positive(raw.nav) && Positive(raw.amount)
    ensures Distance(Product(raw), raw.amount.value) < 0.01
    ensures Classify(raw).lot.costBasis == NearestPaisa(Product(raw))
  {
  }

  lemma BasisBounds(product: real, paise: int)
    requires Distance(product, paise as real / 100.0) < 0.01
    ensures paise - 1 <= NearestPaisa(product) <= paise + 1
  {
    NearestMeans(product);
    assert paise as real - 1.5 < NearestPaisa(product) as real < paise as real + 1.5;
  }

  /** The cost basis of a lot is within one paisa of the whole-paise amount the statement prints. */
  lemma CostBasisWithinAPaisa(raw: Raw, paise: int)
    requires Classify(raw).Complete?
    requires raw.amount == Some(paise as real / 100.0)
    ensures paise - 1 <= Classify(raw).lot.costBasis <= paise + 1
  {
    CompleteMeans(raw);
    BasisBounds(Product(raw), paise);
  }

  /** The bound is reached: four fifths of a paisa of display noise moves the basis by a whole one. */
  lemma CostBasisCanDiffer()
    ensures exists raw ::
              && Classify(raw).Complete?
              && raw.amount == Some(1.0)
              && Classify(raw).lot.costBasis == 101
  {
    var raw := Raw(Some("mf"), None, Some("A"), Some("buy"), None, None, Some(1.0), Some(1.008), Some(1.0), Some(0));
    assert Strip("A") == "A" && Strip("buy") == "buy" && Lower("buy") == "buy" && Lower("mf") == "mf" by {
      assert StripLeft("A") == "A" && StripLeft("buy") == "buy";
    }
    assert At("buy", ACQUISITIONS[3], 0);
    forall i | 0 <= i < |DISPOSALS|
      ensures !Contains("buy", DISPOSALS[i])
    {
      assert |DISPOSALS[i]| > 3;
    }
    assert (1.008 * 100.0).Floor == 100;
    assert Classify(raw).Complete?;
  }

  /** A lot is only ever a mutual-fund acquisition, dated and identified, never also marked a disposal. */
  lemma LotIsAnAcquisition(raw: Raw)
    requires Classify(raw).Complete?
    ensures raw.scope.Some? && Lower(raw.scope.value) == "mf"
    ensures var lot := Classify(raw).lot;
            && lot.kind.Some?
            && Marked(lot.kind.value, ACQUISITIONS) && !Marked(lot.kind.value, DISPOSALS)
            && raw.date == Some(lot.acquiredOn)
            && lot.instrument != ""
  {
  }

  /** Its figures are positive, and its cost basis is never negative. */
  lemma LotFigures(raw: Raw)
    requires Classify(raw).Complete?
    ensures var lot := Classify(raw).lot; lot.quantity > 0.0 && lot.unitCost > 0.0 && lot.costBasis >= 0
  {
    CompleteMeans(raw);
    BasisPositive(raw);
  }

  lemma BasisPositive(raw: Raw)
    requires Positive(raw.units) && Positive(raw.nav)
    ensures NearestPaisa(Product(raw)) >= 0
  {
    ProductPositive(raw.units.value, raw.nav.value);
    NearestMeans(Product(raw));
  }

  lemma ProductPositive(x: real, y: real)
    requires x > 0.0 && y > 0.0
    ensures x * y > 0.0
  {
  }

  // ---------- extraction ----------

  /** The source identity of a lot: the column values that, with the occurrence, are unique in an upload. */
  datatype Key = Key(sourceRef: string, instrument: string, acquiredOn: int, reference: Option<string>)

  function KeyOf(lot: Lot): Key {
    Key(lot.sourceRef, lot.instrument, lot.acquiredOn, lot.reference)
  }

  /** How many lots of a list have a key. */
  function Count(lots: seq<Lot>, key: Key): nat {
    if lots == [] then 0 else Count(lots[..|lots| - 1], key) + if KeyOf(lots[|lots| - 1]) == key then 1 else 0
  }

  datatype Extraction = Extraction(lots: seq<Lot>, exclusions: seq<Exclusion>)

  /** Lots and exclusions of a statement, in its order; a lot is numbered by the equal-keyed lots before it. */
  function Extract(entries: seq<Entry>): Extraction {
    if entries == [] then Extraction([], [])
    else
      var front := Extract(entries[..|entries| - 1]);
      match entries[|entries| - 1]
      case NotAnObject => front
      case Transaction(raw) =>
        match Classify(raw)
        case Complete(lot) => front.(lots := front.lots + [lot.(occurrence := Count(front.lots, KeyOf(lot)))])
        case Excluded(exclusion) => front.(exclusions := front.exclusions + [exclusion])
  }

  method ExtractLots(entries: seq<Entry>) returns (lots: seq<Lot>, exclusions: seq<Exclusion>)
    ensures lots == Extract(entries).lots && exclusions == Extract(entries).exclusions
  {
    lots, exclusions := [], [];
    var occurrences: map<Key, nat> := map[];
    for i := 0 to |entries|
      invariant lots == Extract(entries[..i]).lots && exclusions == Extract(entries[..i]).exclusions
      invariant forall key :: Count(lots, key) == if key in occurrences then occurrences[key] else 0
    {
      assert entries[..i + 1][..i] == entries[..i];
      if entries[i].Transaction? {
        match Classify(entries[i].raw)
        case Complete(lot) =>
          var key := KeyOf(lot);
          var occurrence := if key in occurrences then occurrences[key] else 0;
          occurrences := occurrences[key := occurrence + 1];
          ghost var before := lots;
          lots := lots + [lot.(occurrence := occurrence)];
          assert lots[..|lots| - 1] == before;
        case Excluded(exclusion) =>
          exclusions := exclusions + [exclusion];
      }
    }
    assert entries[..|entries|] == entries;
  }

  /** Every lot is numbered by how many lots before it share its key. */
  ghost predicate NumberedInOrder(lots: seq<Lot>) {
    forall i :: 0 <= i < |lots| ==> lots[i].occurrence == Count(lots[..i], KeyOf(lots[i]))
  }

  lemma {:induction false} ExtractionNumbers(entries: seq<Entry>)
    ensures NumberedInOrder(Extract(entries).lots)
  {
    if entries != [] {
      var front := Extract(entries[..|entries| - 1]).lots;
      ExtractionNumbers(entries[..|entries| - 1]);
      var lots := Extract(entries).lots;
      if lots != front {
        assert lots[..|front|] == front;
        forall i | 0 <= i < |lots|
          ensures lots[i].occurrence == Count(lots[..i], KeyOf(lots[i]))
        {
          if i < |front| {
            assert lots[..i] == front[..i];
          }
        }
      }
    }
  }

  lemma {:induction false} CountGrows(lots: seq<Lot>, i: nat, key: Key)
    requires i <= |lots|
    ensures Count(lots[..i], key) <= Count(lots, key)
    ensures i < |lots| && KeyOf(lots[i]) == key ==> Count(lots[..i], key) < Count(lots, key)
    decreases |lots|
  {
    if i < |lots| {
      var front := lots[..|lots| - 1];
      assert front[..i] == lots[..i];
      CountGrows(front, i, key);
    } else {
      assert lots[..i] == lots;
    }
  }

  /** Under one key the occurrences stay below the number of lots and never repeat. */
  lemma OccurrencesNeverRepeat(entries: seq<Entry>, i: nat, j: nat)
    requires i < j < |Extract(entries).lots|
    ensures var lots := Extract(entries).lots;
            && lots[i].occurrence < Count(lots, KeyOf(lots[i]))
            && (KeyOf(lots[i]) == KeyOf(lots[j]) ==> lots[i].occurrence < lots[j].occurrence)
  {
    var lots := Extract(entries).lots;
    ExtractionNumbers(entries);
    CountGrows(lots, i, KeyOf(lots[i]));
    assert lots[..j][..i] == lots[..i];
    CountGrows(lots[..j], i, KeyOf(lots[i]));
  }

  lemma {:induction false} FindOccurrence(lots: seq<Lot>, key: Key, occurrence: nat) returns (i: nat)
    requires NumberedInOrder(lots) && occurrence < Count(lots, key)
    ensures i < |lots| && KeyOf(lots[i]) == key && lots[i].occurrence == occurrence
  {
    var front := lots[..|lots| - 1];
    forall k | 0 <= k < |front|
      ensures front[k].occurrence == Count(front[..k], KeyOf(front[k]))
    {
      assert front[..k] == lots[..k];
    }
    if occurrence < Count(front, key) {
      i := FindOccurrence(front, key, occurrence);
    } else {
      i := |lots| - 1;
    }
  }

  /** So under one key they are exactly 0, 1, …, k-1. */
  lemma EveryOccurrenceIsUsed(entries: seq<Entry>, key: Key, occurrence: nat) returns (i: nat)
    requires occurrence < Count(Extract(entries).lots, key)
    ensures var lots := Extract(entries).lots;
            i < |lots| && KeyOf(lots[i]) == key && lots[i].occurrence == occurrence
  {
    ExtractionNumbers(entries);
    i := FindOccurrence(Extract(entries).lots, key, occurrence);
  }

  /** No transaction is dropped in silence: each becomes one lot or one exclusion. */
  lemma {:induction false} NothingIsDropped(entries: seq<Entry>)
    ensures |Extract(entries).lots| + |Extract(entries).exclusions|
         == |entries| - Skipped(entries)
  {
    if entries != [] {
      NothingIsDropped(entries[..|entries| - 1]);
    }
  }

  function Skipped(entries: seq<Entry>): nat {
    if entries == [] then 0
    else Skipped(entries[..|entries| - 1]) + if entries[|entries| - 1].NotAnObject? then 1 else 0
  }
}
