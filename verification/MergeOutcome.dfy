/** What an accepted batch leaves in its survivors and receivables, in terms of the tables before it. */
module MergeOutcome {
  import opened Rows
  import opened Ledger
  import opened LedgerInvariants
  import opened LedgerMoney
  import opened DuplicateMerge
  import opened MergeBatch
  import T = SelfTransfer

  /******* Columns of the survivors *******/

  /** The columns in which an empty keeper takes the duplicate's value. */
  datatype Column = Sms | Email | CardStatement | BankStatement | Card | Day | Balance | Attachment | Mask

  datatype Value = Number(n: int) | Text(s: string)

  function NumberIn(n: Option<int>): Option<Value> {
    if n.Some? then Some(Number(n.value)) else None
  }

  function TextIn(s: Option<string>): Option<Value> {
    if s.Some? then Some(Text(s.value)) else None
  }

  function Get(row: Row, c: Column): Option<Value> {
    match c
    case Sms => NumberIn(row.sms)
    case Email => NumberIn(row.email)
    case CardStatement => NumberIn(row.cardStatement)
    case BankStatement => NumberIn(row.bankStatement)
    case Card => NumberIn(row.card)
    case Day => NumberIn(row.date)
    case Balance => NumberIn(row.balance)
    case Attachment => TextIn(row.attachment)
    case Mask => TextIn(row.accountMask)
  }

  /** The first value set among the keeper's own and those of its duplicates in the order of the batch. */
  function FirstSet(kept: Option<Value>, rows: map<int, Row>, pairs: seq<Pair>, keep: int, c: Column): Option<Value>
    decreases |pairs|
  {
    if pairs == [] then kept
    else if pairs[0].keep == keep && pairs[0].dup in rows
    then FirstSet(Fill(kept, Get(rows[pairs[0].dup], c)), rows, pairs[1..], keep, c)
    else FirstSet(kept, rows, pairs[1..], keep, c)
  }

  lemma {:induction false} FirstSetOfSame(kept: Option<Value>, rows: map<int, Row>, after: map<int, Row>,
                                          pairs: seq<Pair>, keep: int, c: Column)
    requires forall pair :: pair in pairs ==>
               (pair.dup in rows <==> pair.dup in after)
               && (pair.dup in rows ==> Get(rows[pair.dup], c) == Get(after[pair.dup], c))
    ensures FirstSet(kept, rows, pairs, keep, c) == FirstSet(kept, after, pairs, keep, c)
    decreases |pairs|
  {
    if pairs != [] {
      assert pairs[0] in pairs;
      var next := if pairs[0].keep == keep && pairs[0].dup in rows then Fill(kept, Get(rows[pairs[0].dup], c)) else kept;
      FirstSetOfSame(next, rows, after, pairs[1..], keep, c);
    }
  }

  lemma NextColumn(s: Store, pair: Pair, now: int, keep: int, c: Column)
    requires pair.keep in s.book.rows && pair.dup in s.book.rows && pair.keep != pair.dup
    requires keep in s.book.rows && keep != pair.dup
    ensures var after := Next(s, pair, now).book.rows;
            && keep in after
            && Get(after[keep], c) == if keep == pair.keep
                                      then Fill(Get(s.book.rows[keep], c), Get(s.book.rows[pair.dup], c))
                                      else Get(s.book.rows[keep], c)
  {
    NextKeepsOthers(s, pair, now, keep);
  }

  /** Each such column of a row that stays holds, after a batch, the first value that the row itself or
      one of its duplicates held before it; so no fact that only a duplicate knew is lost. */
  lemma {:induction false} BatchColumns(s: Store, todo: seq<Pair>, all: seq<Pair>, oracle: Oracle, now: int,
                                        keep: int, c: Column)
    requires Accepted(s, todo, all, oracle, now) && keep in s.book.rows && keep !in Dups(todo)
    ensures var end := RunPairs(s, todo, all, oracle, now).0.book.rows;
            && keep in end
            && Get(end[keep], c) == FirstSet(Get(s.book.rows[keep], c), s.book.rows, todo, keep, c)
    decreases |todo|
  {
    if todo != [] {
      var pair, rest, next := todo[0], todo[1..], Next(s, todo[0], now);
      AcceptedStep(s, todo, all, oracle, now);
      DisjointTail(todo);
      NextColumn(s, pair, now, keep, c);
      BatchColumns(next, rest, all, oracle, now, keep, c);
      forall later | later in rest
        ensures (later.dup in s.book.rows <==> later.dup in next.book.rows)
                && (later.dup in s.book.rows ==>
                      Get(s.book.rows[later.dup], c) == Get(next.book.rows[later.dup], c))
      {
        assert later.dup in Dups(rest);
        NextKeepsOthers(s, pair, now, later.dup);
        if later.dup in s.book.rows { NextColumn(s, pair, now, later.dup, c); }
      }
      FirstSetOfSame(Get(next.book.rows[keep], c), s.book.rows, next.book.rows, rest, keep, c);
    }
  }

  /******* Manual categories *******/

  /** A category that a person set on either row of a pair survives the merge exactly when the survivor
      is no leg of a transfer: no row of the other direction carries its reference on another account. */
  lemma ManualCategorySurvivesExactly(s: Store, pair: Pair, now: int)
    requires pair.keep in s.book.rows && pair.dup in s.book.rows && pair.keep != pair.dup
    ensures var after := Next(s, pair, now).book.rows;
            var (keep, dup) := (s.book.rows[pair.keep], s.book.rows[pair.dup]);
            var manual := keep.manualCategory || dup.manualCategory;
            var leg := T.HasLeg(FoldedRows(s, pair), pair.keep);
            && pair.keep in after
            && (after[pair.keep].manualCategory <==> manual && !leg)
            && (manual && !leg ==> after[pair.keep].category == (if keep.manualCategory then keep else dup).category)
            && (leg ==> after[pair.keep].category == Some(T.SELF_TRANSFER))
  {
    NextRows(s, pair, now);
    T.ManualLostExactly(FoldedRows(s, pair), pair.keep, pair.keep);
    T.NoLegs(FoldedRows(s, pair), pair.keep);
  }

  /** A merge takes a person's category from a third row exactly when that row is a leg of the survivor. */
  lemma OthersLoseCategoriesExactly(s: Store, pair: Pair, now: int, t: int)
    requires pair.keep in s.book.rows && pair.dup in s.book.rows && pair.keep != pair.dup
    requires t in s.book.rows && t != pair.keep && t != pair.dup && s.book.rows[t].manualCategory
    ensures var after := Next(s, pair, now).book.rows;
            && t in after
            && (after[t] != s.book.rows[t] <==> T.AreLegs(SurvivorOf(s, pair), s.book.rows[t]))
            && (after[t] != s.book.rows[t] ==> after[t] == T.Marked(s.book.rows[t]))
  {
    NextRows(s, pair, now);
    T.ManualLostExactly(FoldedRows(s, pair), pair.keep, t);
  }

  const RENT := PLAIN.(account := Some(5), bank := Some("b"), reference := Some("R1"), date := Some(0),
                       category := Some("rent"), manualCategory := true)
  const UNREFERENCED := RENT.(reference := None)
  const SAVINGS := PLAIN.(account := Some(6), bank := Some("b"), direction := Debit, reference := Some("R1"),
                          category := Some("savings"), manualCategory := true)

  lemma RentIsALeg()
    ensures T.AreLegs(RENT, SAVINGS)
  {
    assert Strip("R1") == "R1" by {
      assert StripLeft("R1") == "R1" && StripRight("R1") == "R1";
    }
    assert Lower(Strip("")) == "";
  }

  /** The table has one row at most for a bank, a reference and a direction. */
  predicate ReferencesOnce(rows: map<int, Row>) {
    forall i, j :: i in rows && j in rows && i != j && rows[i].reference.Some? ==>
      rows[i].reference != rows[j].reference || rows[i].bank != rows[j].bank || rows[i].direction != rows[j].direction
  }

  const RENTS := Store(Book(map[1 := RENT, 2 := UNREFERENCED, 3 := SAVINGS], map[], [], map[], map[], map[]),
                       map[], [], map[])
  const RENT_PAIR := Pair(1, 2, {})

  lemma RentPasses()
    ensures ReferencesOnce(RENTS.book.rows) && Passes(RENTS, RENT_PAIR, [RENT_PAIR])
  {
    assert Refusals(RENT, UNREFERENCED, {}) == {};
  }

  lemma RentSurvives()
    ensures SurvivorOf(RENTS, RENT_PAIR) == RENT && T.HasLeg(FoldedRows(RENTS, RENT_PAIR), 1)
  {
    assert SurvivorOf(RENTS, RENT_PAIR) == RENT;
    RentIsALeg();
    assert 3 in FoldedRows(RENTS, RENT_PAIR);
  }

  /** Both rows of the pair, and a third one, carry manual categories; the merge leaves none of them. */
  lemma MergeLosesManualCategories()
    ensures var rows := RENTS.book.rows;
            var after := Next(RENTS, RENT_PAIR, 9).book.rows;
            && ReferencesOnce(rows) && Passes(RENTS, RENT_PAIR, [RENT_PAIR])
            && rows.Keys == {1, 2, 3} && (forall t :: t in rows ==> rows[t].manualCategory)
            && after.Keys == {1, 3}
            && (forall t :: t in after ==> after[t].category == Some(T.SELF_TRANSFER) && !after[t].manualCategory)
  {
    RentPasses();
    RentSurvives();
    RentIsALeg();
    ManualCategorySurvivesExactly(RENTS, RENT_PAIR, 9);
    OthersLoseCategoriesExactly(RENTS, RENT_PAIR, 9, 3);
    NextKeepsOthers(RENTS, RENT_PAIR, 9, 3);
  }

  /******* Receivables *******/

  /** After pair `i`, its keeper pays the receivable and what is paid then covers the amount. */
  ghost predicate Covers(b: Book, pairs: seq<Pair>, i: nat, rid: int)
    requires i < |pairs| && rid in b.entries
  {
    && Image(b.links, pairs[..i + 1], Link(rid, pairs[i].keep, Payment))
    && Paid(b.links, rid, b.rows) - BatchLoss(pairs[..i + 1], b.links, pairs[..i + 1], b.rows, rid)
       >= b.entries[rid].amount
  }

  ghost predicate CoveredBy(b: Book, pairs: seq<Pair>, rid: int)
    requires rid in b.entries
  {
    exists i :: 0 <= i < |pairs| && Covers(b, pairs, i, rid)
  }

  lemma DisjointPrefix(pairs: seq<Pair>, n: nat)
    requires Disjoint(pairs) && n <= |pairs|
    ensures Disjoint(pairs[..n])
  {
  }

  /** The first merge of a batch that is under way, seen from one receivable. */
  ghost predicate FirstDone(s: Store, todo: seq<Pair>, all: seq<Pair>, now: int, rid: int) {
    && Valid(s.book) && todo != [] && Disjoint(todo) && Passes(s, todo[0], all)
    && rid in s.book.entries && rid in Next(s, todo[0], now).book.entries
    && Next(s, todo[0], now).book.entries[rid].amount == s.book.entries[rid].amount
    && Next(s, todo[0], now).book.links == MergedLinks(s.book.links, todo[0].dup, todo[0].keep)
  }

  /** Later pairs cover a receivable after the first merge exactly when they do from the start. */
  lemma CoversShift(s: Store, todo: seq<Pair>, all: seq<Pair>, now: int, i: nat, rid: int)
    requires FirstDone(s, todo, all, now, rid) && i + 1 < |todo|
    ensures Covers(Next(s, todo[0], now).book, todo[1..], i, rid) <==> Covers(s.book, todo, i + 1, rid)
  {
    var prefix := todo[..i + 2];
    assert prefix[0] == todo[0] && prefix[1..] == todo[1..][..i + 1] && todo[1..][i] == todo[i + 1];
    DisjointPrefix(todo, i + 2);
    PassingPairFolds(s, todo[0], all);
    ImageStep(s.book, prefix, Link(rid, todo[i + 1].keep, Payment));
    LossShift(s, prefix, all, now, rid);
  }

  /** The first merge itself settles an open receivable exactly when it covers it. */
  lemma FirstCovers(s: Store, todo: seq<Pair>, all: seq<Pair>, now: int, rid: int)
    requires Valid(s.book) && todo != [] && Disjoint(todo) && Passes(s, todo[0], all) && rid in s.book.entries
    ensures var next := Next(s, todo[0], now).book;
            && rid in next.entries
            && next.entries[rid] == if s.book.entries[rid].status == Open && Covers(s.book, todo, 0, rid)
                                    then s.book.entries[rid].(status := Settled, closedAt := Some(now))
                                    else s.book.entries[rid]
  {
    var pair, next := todo[0], Next(s, todo[0], now).book;
    var link := Link(rid, pair.keep, Payment);
    var survivor := SurvivorOf(s, pair);
    assert todo[..1] == [pair] && [pair][1..] == [];
    DisjointPrefix(todo, 1);
    PassingPairFolds(s, pair, all);
    ImageStep(s.book, [pair], link);
    ImageOfNone(next.links, link);
    LossShift(s, [pair], all, now, rid);
    NextIsFold(s, pair, now);
    FoldEntry(s.book, pair.dup, pair.keep, survivor, now, rid);
    FoldKeeps(s.book, pair.dup, pair.keep, survivor, now);
    RelabelKeeps(Fold(s.book, pair.dup, pair.keep, survivor, now), pair.keep, rid);
  }

  lemma ImageOfNone(links: seq<Link>, link: Link)
    ensures Image(links, [], link) <==> link in links
  {
    if link in links {
      assert Sigma([], link.tid) == link.tid && Link(link.rid, link.tid, link.role) in links;
    }
  }

  /** The receivables of an accepted batch, in terms of the tables before it alone: one is settled exactly
      when it was open and some pair covers it, and every other is as it was. */
  lemma {:induction false} BatchEntries(s: Store, todo: seq<Pair>, all: seq<Pair>, oracle: Oracle, now: int, rid: int)
    requires Accepted(s, todo, all, oracle, now) && rid in s.book.entries
    ensures var end := RunPairs(s, todo, all, oracle, now).0.book.entries;
            && rid in end
            && end[rid] == if s.book.entries[rid].status == Open && CoveredBy(s.book, todo, rid)
                           then s.book.entries[rid].(status := Settled, closedAt := Some(now))
                           else s.book.entries[rid]
    decreases |todo|
  {
    if todo != [] {
      AcceptedStep(s, todo, all, oracle, now);
      FirstCovers(s, todo, all, now, rid);
      var next := Next(s, todo[0], now);
      BatchEntries(next, todo[1..], all, oracle, now, rid);
      CoveredShift(s, todo, all, now, rid);
    }
  }

  lemma LaterCovers(s: Store, todo: seq<Pair>, all: seq<Pair>, now: int, i: nat, rid: int)
    requires FirstDone(s, todo, all, now, rid) && i + 1 < |todo| && Covers(s.book, todo, i + 1, rid)
    ensures CoveredBy(Next(s, todo[0], now).book, todo[1..], rid)
  {
    CoversShift(s, todo, all, now, i, rid);
  }

  lemma CoveredAt(s: Store, todo: seq<Pair>, all: seq<Pair>, now: int, i: nat, rid: int)
    requires FirstDone(s, todo, all, now, rid) && i < |todo| && Covers(s.book, todo, i, rid)
    ensures i == 0 || CoveredBy(Next(s, todo[0], now).book, todo[1..], rid)
  {
    if i > 0 {
      LaterCovers(s, todo, all, now, i - 1, rid);
    }
  }

  lemma CoveredBefore(s: Store, todo: seq<Pair>, all: seq<Pair>, now: int, rid: int)
    requires FirstDone(s, todo, all, now, rid) && CoveredBy(Next(s, todo[0], now).book, todo[1..], rid)
    ensures CoveredBy(s.book, todo, rid)
  {
    var i :| 0 <= i < |todo[1..]| && Covers(Next(s, todo[0], now).book, todo[1..], i, rid);
    CoversShift(s, todo, all, now, i, rid);
    assert Covers(s.book, todo, i + 1, rid);
  }

  lemma CoveredShift(s: Store, todo: seq<Pair>, all: seq<Pair>, now: int, rid: int)
    requires FirstDone(s, todo, all, now, rid)
    ensures CoveredBy(s.book, todo, rid)
            <==> Covers(s.book, todo, 0, rid) || CoveredBy(Next(s, todo[0], now).book, todo[1..], rid)
  {
    forall i | 0 <= i < |todo| && Covers(s.book, todo, i, rid)
      ensures i == 0 || CoveredBy(Next(s, todo[0], now).book, todo[1..], rid)
    {
      CoveredAt(s, todo, all, now, i, rid);
    }
    if CoveredBy(Next(s, todo[0], now).book, todo[1..], rid) { CoveredBefore(s, todo, all, now, rid); }
  }

  lemma {:induction false} LossIsNoGain(todo: seq<Pair>, links: seq<Link>, pairs: seq<Pair>, rows: map<int, Row>, rid: int)
    requires forall t :: t in rows ==> rows[t].amount >= 0
    ensures BatchLoss(todo, links, pairs, rows, rid) >= 0
  {
    if todo != [] {
      LossIsNoGain(todo[1..], links, pairs, rows, rid);
    }
  }

  /** While no open receivable is paid in full, a batch changes no receivable at all. */
  lemma BatchLeavesReceivables(s: Store, todo: seq<Pair>, all: seq<Pair>, oracle: Oracle, now: int, rid: int)
    requires Accepted(s, todo, all, oracle, now) && rid in s.book.entries
    requires Magnitudes(s.book) && OpenBelow(s.book)
    ensures var end := RunPairs(s, todo, all, oracle, now).0.book.entries;
            rid in end && end[rid] == s.book.entries[rid]
  {
    BatchEntries(s, todo, all, oracle, now, rid);
    if s.book.entries[rid].status == Open && CoveredBy(s.book, todo, rid) {
      var i :| 0 <= i < |todo| && Covers(s.book, todo, i, rid);
      LossIsNoGain(todo[..i + 1], s.book.links, todo[..i + 1], s.book.rows, rid);
      assert false;
    }
  }
}
