/** An accepted batch of merges is one simultaneous substitution of keepers for duplicates. */
module MergeBatch {
  import opened Rows
  import opened Ledger
  import opened LedgerInvariants
  import opened LedgerMoney
  import opened DuplicateMerge
  import R = Reconciliation
  import T = SelfTransfer

  /******* One pair *******/

  /** Every pair that passes the checks may be folded: same direction, and the same amount unless
      the duplicate is in another currency, in which case no receivable links it. */
  lemma PassingPairFolds(s: Store, pair: Pair, all: seq<Pair>)
    requires Passes(s, pair, all)
    ensures Foldable(s.book, pair.dup, pair.keep,
                     Survivor(s.book.rows[pair.keep], s.book.rows[pair.dup], AppliedTo(s, pair) != {}))
  {
    var keep, dup := s.book.rows[pair.keep], s.book.rows[pair.dup];
    NotRefused(keep, dup, pair.overrides, OtherDirection);
    NotRefused(keep, dup, pair.overrides, OtherAmount);
    NotRefused(keep, dup, pair.overrides, ForeignNotStatement);
  }

  lemma NotRefused(keep: Row, dup: Row, overrides: set<Override>, reason: Reason)
    requires Refusals(keep, dup, overrides) == {}
    ensures Fails(reason, keep, dup) ==> Lifted(reason, overrides)
  {
    assert reason !in Refusals(keep, dup, overrides);
  }

  /** No alert is lost: a message that either row owned is owned by the survivor. */
  lemma SourcesSurvive(keep: Row, dup: Row, overrides: set<Override>)
    requires Refusals(keep, dup, overrides) == {}
    ensures var row := Survivor(keep, dup, AppliedOverrides(keep, dup, overrides) != {});
            && forall source :: source in {keep.sms, dup.sms} && source.Some? ==> row.sms == source
    ensures var row := Survivor(keep, dup, AppliedOverrides(keep, dup, overrides) != {});
            && forall source :: source in {keep.email, dup.email} && source.Some? ==> row.email == source
  {
    NotRefused(keep, dup, overrides, TwoSms);
    NotRefused(keep, dup, overrides, TwoEmails);
  }

  /** Without an override a statement row's reference survives the merge, so a reprocess of the
      statement finds its row again. */
  lemma StatementReferenceSurvives(keep: Row, dup: Row, from: Row)
    requires Refusals(keep, dup, {}) == {} && (from == keep || from == dup)
    requires FromStatement(from) && from.reference.Some? && from.reference.value != ""
    ensures AppliedOverrides(keep, dup, {}) == {}
    ensures Survivor(keep, dup, false).reference == from.reference
  {
    NotRefused(keep, dup, {}, TwoStatementReferences);
  }

  /** Folding the same facts in again changes nothing. */
  lemma FoldingTwiceIsOnce(keep: Row, dup: Row, overridden: bool)
    ensures var once := Survivor(keep, dup, overridden); Survivor(once, dup, overridden) == once
  {
  }

  /** Reference evidence does not depend on which row stays. */
  lemma DistinctnessIsSymmetric(first: Option<string>, second: Option<string>)
    ensures ProveDistinct(first, second) == ProveDistinct(second, first)
  {
  }

  /******* The substitution *******/

  /** No row goes away twice, and no keeper goes away. */
  predicate Disjoint(pairs: seq<Pair>) {
    && (forall i, j :: 0 <= i < j < |pairs| ==> pairs[i].dup != pairs[j].dup)
    && (forall i, j :: 0 <= i < |pairs| && 0 <= j < |pairs| ==> pairs[i].dup != pairs[j].keep)
  }

  function Dups(pairs: seq<Pair>): set<int> {
    set pair | pair in pairs :: pair.dup
  }

  /** The row that stands for `id` after the whole batch. */
  function Sigma(pairs: seq<Pair>, id: int): int {
    if pairs == [] then id
    else if pairs[0].dup == id then pairs[0].keep
    else Sigma(pairs[1..], id)
  }

  function SigmaOpt(pairs: seq<Pair>, id: Option<int>): Option<int> {
    if id.None? then None else Some(Sigma(pairs, id.value))
  }

  function SigmaLine(pairs: seq<Pair>, line: R.Line): R.Line {
    R.Line(SigmaOpt(pairs, line.matched), SigmaOpt(pairs, line.imported), SigmaCandidates(pairs, line.candidates))
  }

  /** All replacements at once, and one removal of repeats if any replacement applies. */
  function SigmaCandidates(pairs: seq<Pair>, ids: seq<int>): seq<int> {
    if exists id :: id in ids && id in Dups(pairs) then R.Dedup(R.MapIds(ids, id => Sigma(pairs, id))) else ids
  }

  function SigmaLines(pairs: seq<Pair>, lines: seq<R.Line>): seq<R.Line> {
    seq(|lines|, i requires 0 <= i < |lines| => SigmaLine(pairs, lines[i]))
  }

  function SigmaGroup(pairs: seq<Pair>, group: Option<seq<R.Line>>): Option<seq<R.Line>> {
    if group.None? then None else Some(SigmaLines(pairs, group.value))
  }

  function SigmaRecon(pairs: seq<Pair>, recon: R.Recon): R.Recon {
    R.Recon(SigmaGroup(pairs, recon.matched), SigmaGroup(pairs, recon.missing))
  }

  function SigmaAction(pairs: seq<Pair>, action: Action): Action {
    Action(SigmaOpt(pairs, action.row), action.onTransaction,
           if action.onTransaction then Sigma(pairs, action.target) else action.target)
  }

  lemma {:induction false} SigmaMeans(pairs: seq<Pair>, id: int)
    requires Disjoint(pairs)
    ensures id !in Dups(pairs) ==> Sigma(pairs, id) == id
    ensures Sigma(pairs, id) !in Dups(pairs)
    ensures forall pair :: pair in pairs && pair.dup == id ==> Sigma(pairs, id) == pair.keep
  {
    if pairs != [] {
      DisjointTail(pairs);
      SigmaMeans(pairs[1..], id);
      assert forall pair :: pair in pairs <==> pair == pairs[0] || pair in pairs[1..];
      forall pair | pair in pairs ensures pair.dup != pairs[0].keep && (pair.dup == pairs[0].dup ==> pair == pairs[0]) {
        var k :| 0 <= k < |pairs| && pairs[k] == pair;
      }
    }
  }

  lemma DisjointTail(pairs: seq<Pair>)
    requires pairs != [] && Disjoint(pairs)
    ensures Disjoint(pairs[1..])
    ensures pairs[0].dup !in Dups(pairs[1..]) && pairs[0].keep !in Dups(pairs[1..]) && pairs[0].keep != pairs[0].dup
    ensures Dups(pairs) == {pairs[0].dup} + Dups(pairs[1..])
  {
  }

  /** One step, then the rest: the same as all at once. */
  lemma SigmaStep(pairs: seq<Pair>, id: int)
    requires pairs != [] && Disjoint(pairs)
    ensures Sigma(pairs[1..], R.Substitute(id, pairs[0].dup, pairs[0].keep)) == Sigma(pairs, id)
  {
    DisjointTail(pairs);
    SigmaMeans(pairs[1..], pairs[0].keep);
  }

  lemma CandidatesStep(pairs: seq<Pair>, ids: seq<int>)
    requires pairs != [] && Disjoint(pairs)
    ensures SigmaCandidates(pairs[1..], R.RepointCandidates(ids, pairs[0].dup, Some(pairs[0].keep)))
            == SigmaCandidates(pairs, ids)
  {
    var gone, keep, rest := pairs[0].dup, pairs[0].keep, pairs[1..];
    DisjointTail(pairs);
    forall id { SigmaStep(pairs, id); }
    var once := R.Replace(ids, gone, keep);
    assert R.MapIds(once, id => Sigma(rest, id)) == R.MapIds(ids, id => Sigma(pairs, id));
    assert forall k :: 0 <= k < |ids| ==> once[k] == R.Substitute(ids[k], gone, keep);
    if gone in ids {
      R.DedupKeepsIds(once);
      R.DedupAbsorbs(once, id => Sigma(rest, id));
      if !(exists id :: id in once && id in Dups(rest)) {
        forall k | 0 <= k < |once| ensures Sigma(rest, once[k]) == once[k] {
          SigmaMeans(rest, once[k]);
        }
        assert R.MapIds(once, id => Sigma(rest, id)) == once;
      } else {
        var id :| id in once && id in Dups(rest);
        assert id in ids;
      }
    } else {
      assert once == ids;
    }
  }

  lemma LineStep(pairs: seq<Pair>, line: R.Line)
    requires pairs != [] && Disjoint(pairs)
    ensures SigmaLine(pairs[1..], R.RepointLine(line, pairs[0].dup, Some(pairs[0].keep))) == SigmaLine(pairs, line)
  {
    CandidatesStep(pairs, line.candidates);
    if line.matched.Some? { SigmaStep(pairs, line.matched.value); }
    if line.imported.Some? { SigmaStep(pairs, line.imported.value); }
  }

  /** A merge drops no entry. */
  lemma {:induction false} RepointedLines(lines: seq<R.Line>, gone: int, keep: int)
    ensures |R.RepointLines(lines, gone, Some(keep))| == |lines|
    ensures forall i :: 0 <= i < |lines| ==>
              R.RepointLines(lines, gone, Some(keep))[i] == R.RepointLine(lines[i], gone, Some(keep))
  {
    if lines != [] { RepointedLines(lines[..|lines| - 1], gone, keep); }
  }

  lemma GroupStep(pairs: seq<Pair>, group: Option<seq<R.Line>>)
    requires pairs != [] && Disjoint(pairs)
    ensures SigmaGroup(pairs[1..], R.RepointGroup(group, pairs[0].dup, Some(pairs[0].keep))) == SigmaGroup(pairs, group)
  {
    if group.Some? {
      RepointedLines(group.value, pairs[0].dup, pairs[0].keep);
      forall i | 0 <= i < |group.value| { LineStep(pairs, group.value[i]); }
      assert SigmaLines(pairs[1..], R.RepointLines(group.value, pairs[0].dup, Some(pairs[0].keep)))
          == SigmaLines(pairs, group.value);
    }
  }

  lemma ReconStep(pairs: seq<Pair>, recon: R.Recon)
    requires pairs != [] && Disjoint(pairs)
    ensures SigmaRecon(pairs[1..], R.Repoint(recon, pairs[0].dup, Some(pairs[0].keep))) == SigmaRecon(pairs, recon)
  {
    GroupStep(pairs, recon.matched);
    GroupStep(pairs, recon.missing);
  }

  /******* The link table of a batch *******/

  /** No earlier row of the same family pays anything: the keeper first, then its duplicates in the
      order of the batch. */
  predicate Leads(links: seq<Link>, pairs: seq<Pair>, tid: int) {
    forall i :: 0 <= i < |pairs| && pairs[i].dup == tid ==>
      && !Pays(links, pairs[i].keep)
      && forall j :: 0 <= j < i && pairs[j].keep == pairs[i].keep ==> !Pays(links, pairs[j].dup)
  }

  /** One merge, without the delete and update of the program. */
  lemma MergedLinkExact(b: Book, gone: int, keep: int, link: Link)
    requires Valid(b) && gone in b.rows && keep in b.rows && gone != keep
    requires b.rows[gone].direction == b.rows[keep].direction
    ensures link in MergedLinks(b.links, gone, keep)
            <==> link.tid != gone
                 && (|| link in b.links
                     || (link.tid == keep && Link(link.rid, gone, link.role) in b.links
                         && (link.role == Payment ==> !Pays(b.links, keep))))
  {
    var rids, pays := KeeperRids(b.links, keep), Pays(b.links, keep);
    MovedMembers(b.links, gone, keep, rids, pays);
    var source := link.(tid := gone);
    if link.tid == keep && source in b.links && link.rid in rids {
      var other :| other in b.links && other.tid == keep && other.rid == link.rid;
      SameRole(b, other, source);
      assert other == link;
    }
  }

  lemma MergedPays(b: Book, gone: int, keep: int, tid: int)
    requires Valid(b) && gone in b.rows && keep in b.rows && gone != keep && tid != gone
    requires b.rows[gone].direction == b.rows[keep].direction
    ensures Pays(MergedLinks(b.links, gone, keep), tid)
            <==> Pays(b.links, tid) || (tid == keep && Pays(b.links, gone))
  {
    var merged := MergedLinks(b.links, gone, keep);
    if Pays(merged, tid) {
      var link :| link in merged && link.tid == tid && link.role == Payment;
      MergedLinkExact(b, gone, keep, link);
      if link !in b.links { assert Link(link.rid, gone, Payment) in b.links; }
    }
    if Pays(b.links, tid) {
      var link :| link in b.links && link.tid == tid && link.role == Payment;
      MergedLinkExact(b, gone, keep, link);
    } else if tid == keep && Pays(b.links, gone) {
      var link :| link in b.links && link.tid == gone && link.role == Payment;
      MergedLinkExact(b, gone, keep, link.(tid := keep));
      assert Link(link.rid, gone, link.role) == link;
      assert link.(tid := keep) in merged;
    }
  }

  lemma LeadsStep(b: Book, pairs: seq<Pair>, tid: int)
    requires Valid(b) && pairs != [] && Disjoint(pairs) && tid != pairs[0].dup
    requires pairs[0].dup in b.rows && pairs[0].keep in b.rows
    requires b.rows[pairs[0].dup].direction == b.rows[pairs[0].keep].direction
    ensures Leads(MergedLinks(b.links, pairs[0].dup, pairs[0].keep), pairs[1..], tid) <==> Leads(b.links, pairs, tid)
  {
    var gone, keep, rest := pairs[0].dup, pairs[0].keep, pairs[1..];
    var merged := MergedLinks(b.links, gone, keep);
    DisjointTail(pairs);
    forall i | 0 <= i < |rest|
      ensures rest[i] == pairs[i + 1]
      ensures Pays(merged, rest[i].keep) <==> Pays(b.links, rest[i].keep) || (rest[i].keep == keep && Pays(b.links, gone))
      ensures Pays(merged, rest[i].dup) <==> Pays(b.links, rest[i].dup)
    {
      assert rest[i] == pairs[i + 1];
      MergedPays(b, gone, keep, rest[i].keep);
      MergedPays(b, gone, keep, rest[i].dup);
    }
    if Leads(merged, rest, tid) {
      forall i | 0 <= i < |pairs| && pairs[i].dup == tid
        ensures !Pays(b.links, pairs[i].keep)
        ensures forall j :: 0 <= j < i && pairs[j].keep == pairs[i].keep ==> !Pays(b.links, pairs[j].dup)
      {
        assert rest[i - 1].dup == tid;
        forall j | 0 <= j < i && pairs[j].keep == pairs[i].keep ensures !Pays(b.links, pairs[j].dup) {
          if j > 0 { assert rest[j - 1].keep == rest[i - 1].keep; }
        }
      }
    }
    if Leads(b.links, pairs, tid) {
      forall i | 0 <= i < |rest| && rest[i].dup == tid
        ensures !Pays(merged, rest[i].keep)
        ensures forall j :: 0 <= j < i && rest[j].keep == rest[i].keep ==> !Pays(merged, rest[j].dup)
      {
        assert pairs[i + 1].dup == tid;
        assert pairs[0].keep == pairs[i + 1].keep ==> !Pays(b.links, pairs[0].dup);
        forall j | 0 <= j < i && rest[j].keep == rest[i].keep ensures !Pays(merged, rest[j].dup) {
          assert pairs[j + 1].keep == pairs[i + 1].keep;
        }
      }
    }
  }

  /** A link of the whole batch: its row is the image of a row that held it, and a payment comes
      from the first payer of the family. */
  ghost predicate Image(links: seq<Link>, pairs: seq<Pair>, link: Link) {
    exists tid :: && Sigma(pairs, tid) == link.tid
                  && Link(link.rid, tid, link.role) in links
                  && (link.role == Payment ==> Leads(links, pairs, tid))
  }

  lemma ImageStep(b: Book, pairs: seq<Pair>, link: Link)
    requires Valid(b) && pairs != [] && Disjoint(pairs)
    requires pairs[0].dup in b.rows && pairs[0].keep in b.rows
    requires b.rows[pairs[0].dup].direction == b.rows[pairs[0].keep].direction
    ensures Image(MergedLinks(b.links, pairs[0].dup, pairs[0].keep), pairs[1..], link) <==> Image(b.links, pairs, link)
  {
    var gone, keep, rest := pairs[0].dup, pairs[0].keep, pairs[1..];
    var merged := MergedLinks(b.links, gone, keep);
    DisjointTail(pairs);
    SigmaMeans(rest, keep);
    LeadsStep(b, pairs, keep);
    if Image(merged, rest, link) {
      var tid :| Sigma(rest, tid) == link.tid && Link(link.rid, tid, link.role) in merged
                 && (link.role == Payment ==> Leads(merged, rest, tid));
      MergedLinkExact(b, gone, keep, Link(link.rid, tid, link.role));
      if Link(link.rid, tid, link.role) in b.links {
        LeadsStep(b, pairs, tid);
        assert Sigma(pairs, tid) == link.tid;
      } else {
        assert Sigma(pairs, gone) == link.tid;
        FirstLeads(b.links, pairs);
      }
    }
    if Image(b.links, pairs, link) {
      var tid :| Sigma(pairs, tid) == link.tid && Link(link.rid, tid, link.role) in b.links
                 && (link.role == Payment ==> Leads(b.links, pairs, tid));
      if tid == gone {
        MergedLinkExact(b, gone, keep, Link(link.rid, keep, link.role));
        assert Leads(b.links, pairs, keep);
        assert Sigma(rest, keep) == link.tid && Link(link.rid, keep, link.role) in merged;
      } else {
        MergedLinkExact(b, gone, keep, Link(link.rid, tid, link.role));
        LeadsStep(b, pairs, tid);
        assert Sigma(rest, tid) == link.tid;
      }
    }
  }

  lemma FirstLeads(links: seq<Link>, pairs: seq<Pair>)
    requires pairs != [] && Disjoint(pairs)
    ensures Leads(links, pairs, pairs[0].dup) <==> !Pays(links, pairs[0].keep)
  {
  }

  /******* The money of a batch *******/

  /** The payments of the duplicates that do not lead their family. */
  function BatchLoss(todo: seq<Pair>, links: seq<Link>, pairs: seq<Pair>, rows: map<int, Row>, rid: int): int {
    if todo == [] then 0
    else
      (if PaysInto(links, todo[0].dup, rid) && !Leads(links, pairs, todo[0].dup) && todo[0].dup in rows
       then rows[todo[0].dup].amount else 0)
      + BatchLoss(todo[1..], links, pairs, rows, rid)
  }

  /** The later duplicates pay the same, and lead the same, after the first merge. */
  lemma {:induction false} LossStep(todo: seq<Pair>, b: Book, pairs: seq<Pair>, after: map<int, Row>, rid: int)
    requires Valid(b) && pairs != [] && Disjoint(pairs)
    requires pairs[0].dup in b.rows && pairs[0].keep in b.rows
    requires b.rows[pairs[0].dup].direction == b.rows[pairs[0].keep].direction
    requires forall pair :: pair in todo ==> pair.dup != pairs[0].dup && pair.dup != pairs[0].keep
    requires forall t :: t != pairs[0].dup && t != pairs[0].keep ==>
               (t in after <==> t in b.rows) && (t in after ==> after[t].amount == b.rows[t].amount)
    ensures BatchLoss(todo, MergedLinks(b.links, pairs[0].dup, pairs[0].keep), pairs[1..], after, rid)
            == BatchLoss(todo, b.links, pairs, b.rows, rid)
  {
    if todo != [] {
      LossStep(todo[1..], b, pairs, after, rid);
      LeadsStep(b, pairs, todo[0].dup);
      MergedLinkExact(b, pairs[0].dup, pairs[0].keep, Link(rid, todo[0].dup, Payment));
    }
  }

  /******* An accepted batch *******/

  /** A batch that refuses nothing lists no row twice and deletes no keeper. */
  lemma AcceptedIsDisjoint(s: Store, pairs: seq<Pair>, oracle: Oracle, now: int)
    requires RunPairs(s, pairs, pairs, oracle, now).1 == []
    ensures Disjoint(pairs)
  {
    AcceptedPasses(s, pairs, pairs, oracle, now);
    forall i, j | 0 <= i < j < |pairs| ensures pairs[i].dup != pairs[j].dup {
      assert pairs[j] in pairs;
    }
    forall i, j | 0 <= i < |pairs| && 0 <= j < |pairs| ensures pairs[i].dup != pairs[j].keep {
      assert pairs[i] in pairs;
    }
  }

  lemma {:induction false} AcceptedPasses(s: Store, todo: seq<Pair>, all: seq<Pair>, oracle: Oracle, now: int)
    requires RunPairs(s, todo, all, oracle, now).1 == []
    ensures forall pair :: pair in todo ==> !ListedElsewhere(pair, all)
    decreases |todo|
  {
    if todo != [] {
      AcceptedPasses(MergePair(s, todo[0], AppliedTo(s, todo[0]), now), todo[1..], all, oracle, now);
    }
  }

  /** The state of an accepted batch: its pairs, of which each still to come passes in turn. */
  ghost predicate Accepted(s: Store, todo: seq<Pair>, all: seq<Pair>, oracle: Oracle, now: int) {
    Valid(s.book) && Disjoint(todo) && RunPairs(s, todo, all, oracle, now).1 == []
  }

  /** What the self-transfer rule leaves of the ledger tables. */
  function Relabelled(b: Book, tid: int): Book
    requires tid in b.rows
  {
    b.(rows := T.ApplyRule(b.rows, tid))
  }

  lemma RelabelKeeps(b: Book, tid: int, rid: int)
    requires Valid(b) && tid in b.rows
    ensures Valid(Relabelled(b, tid))
    ensures Paid(b.links, rid, Relabelled(b, tid).rows) == Paid(b.links, rid, b.rows)
  {
    var after := Relabelled(b, tid);
    forall t | t in b.rows { T.ManualLostExactly(b.rows, tid, t); }
    forall link | link in b.links ensures LinkFits(after.rows, after.entries, link) {
      assert LinkFits(b.rows, b.entries, link);
    }
    PaidOfSameRows(b.links, rid, b.rows, after.rows);
  }

  function SurvivorOf(s: Store, pair: Pair): Row
    requires pair.keep in s.book.rows && pair.dup in s.book.rows
  {
    Survivor(s.book.rows[pair.keep], s.book.rows[pair.dup], AppliedTo(s, pair) != {})
  }

  lemma NextIsFold(s: Store, pair: Pair, now: int)
    requires pair.keep in s.book.rows && pair.dup in s.book.rows
    ensures Next(s, pair, now).book
         == Relabelled(Fold(s.book, pair.dup, pair.keep, SurvivorOf(s, pair), now), pair.keep)
  {
  }

  lemma NextKeeps(s: Store, pair: Pair, all: seq<Pair>, now: int)
    requires Valid(s.book) && Passes(s, pair, all)
    ensures Valid(Next(s, pair, now).book)
  {
    PassingPairFolds(s, pair, all);
    FoldKeeps(s.book, pair.dup, pair.keep, SurvivorOf(s, pair), now);
    NextIsFold(s, pair, now);
    RelabelKeeps(Fold(s.book, pair.dup, pair.keep, SurvivorOf(s, pair), now), pair.keep, 0);
  }

  /** The rows as the self-transfer rule finds them: the duplicate gone, the survivor in place. */
  function FoldedRows(s: Store, pair: Pair): map<int, Row>
    requires pair.keep in s.book.rows && pair.dup in s.book.rows
  {
    (s.book.rows - {pair.dup})[pair.keep := SurvivorOf(s, pair)]
  }

  lemma NextRows(s: Store, pair: Pair, now: int)
    requires pair.keep in s.book.rows && pair.dup in s.book.rows
    ensures Next(s, pair, now).book.rows == T.ApplyRule(FoldedRows(s, pair), pair.keep)
  {
  }

  /** Rows that are no part of the pair keep everything but, as legs of a transfer, their category. */
  lemma NextKeepsOthers(s: Store, pair: Pair, now: int, t: int)
    requires pair.keep in s.book.rows && pair.dup in s.book.rows && pair.keep != pair.dup
    ensures var after := Next(s, pair, now).book.rows;
            && after.Keys == s.book.rows.Keys - {pair.dup}
            && (t in s.book.rows && t != pair.dup && t != pair.keep ==>
                  after[t] == s.book.rows[t].(category := after[t].category, manualCategory := after[t].manualCategory))
            && after[pair.keep] == SurvivorOf(s, pair).(category := after[pair.keep].category,
                                                        manualCategory := after[pair.keep].manualCategory)
  {
    var folded := FoldedRows(s, pair);
    NextRows(s, pair, now);
    T.ManualLostExactly(folded, pair.keep, pair.keep);
    if t in folded {
      T.ManualLostExactly(folded, pair.keep, t);
    }
  }

  lemma AcceptedStep(s: Store, todo: seq<Pair>, all: seq<Pair>, oracle: Oracle, now: int)
    requires Accepted(s, todo, all, oracle, now) && todo != []
    ensures Passes(s, todo[0], all)
    ensures Accepted(Next(s, todo[0], now), todo[1..], all, oracle, now)
    ensures RunPairs(s, todo, all, oracle, now).0 == RunPairs(Next(s, todo[0], now), todo[1..], all, oracle, now).0
    ensures s.book.rows[todo[0].dup].direction == s.book.rows[todo[0].keep].direction
    ensures Next(s, todo[0], now).book.links == MergedLinks(s.book.links, todo[0].dup, todo[0].keep)
  {
    PassingPairFolds(s, todo[0], all);
    NextKeeps(s, todo[0], all, now);
    DisjointTail(todo);
  }

  /** An accepted batch deletes exactly the duplicates, keeps every keeper, and keeps the ledger
      tables valid. */
  lemma {:induction false} BatchRows(s: Store, todo: seq<Pair>, all: seq<Pair>, oracle: Oracle, now: int)
    requires Accepted(s, todo, all, oracle, now)
    ensures var end := RunPairs(s, todo, all, oracle, now).0;
            && Valid(end.book)
            && Dups(todo) <= s.book.rows.Keys
            && end.book.rows.Keys == s.book.rows.Keys - Dups(todo)
            && (forall pair :: pair in todo ==> pair.keep in end.book.rows)
    decreases |todo|
  {
    if todo != [] {
      AcceptedStep(s, todo, all, oracle, now);
      BatchRows(Next(s, todo[0], now), todo[1..], all, oracle, now);
      DisjointTail(todo);
      assert forall pair :: pair in todo <==> pair == todo[0] || pair in todo[1..];
    }
  }

  lemma RefsStep(s: Store, todo: seq<Pair>, now: int)
    requires todo != [] && Disjoint(todo) && todo[0].keep in s.book.rows && todo[0].dup in s.book.rows
    ensures var next := Next(s, todo[0], now).refs;
            && next.Keys == s.refs.Keys
            && forall k :: k in s.refs ==> SigmaOpt(todo[1..], next[k]) == SigmaOpt(todo, s.refs[k])
  {
    forall k | k in s.refs && s.refs[k].Some? { SigmaStep(todo, s.refs[k].value); }
  }

  /** Every reference of every table is substituted at once; deleted ids are named nowhere. */
  lemma {:induction false} BatchReferences(s: Store, todo: seq<Pair>, all: seq<Pair>, oracle: Oracle, now: int)
    requires Accepted(s, todo, all, oracle, now)
    ensures var end := RunPairs(s, todo, all, oracle, now).0;
            && end.refs.Keys == s.refs.Keys
            && (forall k :: k in s.refs ==> end.refs[k] == SigmaOpt(todo, s.refs[k]))
    decreases |todo|
  {
    if todo != [] {
      AcceptedStep(s, todo, all, oracle, now);
      BatchReferences(Next(s, todo[0], now), todo[1..], all, oracle, now);
      RefsStep(s, todo, now);
    }
  }

  lemma {:induction false} BatchUploads(s: Store, todo: seq<Pair>, all: seq<Pair>, oracle: Oracle, now: int)
    requires Accepted(s, todo, all, oracle, now)
    ensures var end := RunPairs(s, todo, all, oracle, now).0;
            && end.uploads.Keys == s.uploads.Keys
            && (forall k :: k in s.uploads ==> end.uploads[k] == SigmaRecon(todo, s.uploads[k]))
    decreases |todo|
  {
    if todo == [] {
      forall k | k in s.uploads { SigmaReconOfNothing(s.uploads[k]); }
    } else {
      AcceptedStep(s, todo, all, oracle, now);
      BatchUploads(Next(s, todo[0], now), todo[1..], all, oracle, now);
      forall k | k in s.uploads { ReconStep(todo, s.uploads[k]); }
    }
  }

  lemma SigmaReconOfNothing(recon: R.Recon)
    ensures SigmaRecon([], recon) == recon
  {
    if recon.matched.Some? { assert SigmaLines([], recon.matched.value) == recon.matched.value; }
    if recon.missing.Some? { assert SigmaLines([], recon.missing.value) == recon.missing.value; }
  }

  function SigmaActions(pairs: seq<Pair>, actions: seq<Action>): seq<Action> {
    seq(|actions|, i requires 0 <= i < |actions| => SigmaAction(pairs, actions[i]))
  }

  /** One audit record for each overridden pair, in order. It keeps the deleted id as history. */
  function AuditRecords(overridden: seq<Pair>): seq<Action> {
    if overridden == [] then []
    else [Action(Some(overridden[0].keep), true, overridden[0].dup)] + AuditRecords(overridden[1..])
  }

  lemma ActionsStep(pairs: seq<Pair>, actions: seq<Action>, audit: seq<Action>)
    requires pairs != [] && Disjoint(pairs)
    requires audit == [] || audit == [Action(Some(pairs[0].keep), true, pairs[0].dup)]
    ensures SigmaActions(pairs[1..], RepointActions(actions, pairs[0].dup, Some(pairs[0].keep)) + audit)
            == SigmaActions(pairs, actions) + audit
  {
    DisjointTail(pairs);
    forall i | 0 <= i < |actions|
      ensures SigmaAction(pairs[1..], RepointAction(actions[i], pairs[0].dup, Some(pairs[0].keep)))
              == SigmaAction(pairs, actions[i])
    {
      if actions[i].row.Some? { SigmaStep(pairs, actions[i].row.value); }
      SigmaStep(pairs, actions[i].target);
    }
    SigmaMeans(pairs[1..], pairs[0].keep);
    SigmaMeans(pairs[1..], pairs[0].dup);
  }

  lemma AcceptedStepAudits(s: Store, todo: seq<Pair>, all: seq<Pair>, oracle: Oracle, now: int)
    requires Accepted(s, todo, all, oracle, now) && todo != [] && Passes(s, todo[0], all)
    ensures RunPairs(s, todo, all, oracle, now).2
            == AuditOf(s, todo[0]) + RunPairs(Next(s, todo[0], now), todo[1..], all, oracle, now).2
    ensures Next(s, todo[0], now).actions
            == RepointActions(s.actions, todo[0].dup, Some(todo[0].keep)) + AuditRecords(AuditOf(s, todo[0]))
  {
  }

  lemma ActionsCompose(pairs: seq<Pair>, actions: seq<Action>, next: seq<Action>, end: seq<Action>,
                       audited: seq<Pair>, later: seq<Pair>)
    requires pairs != [] && Disjoint(pairs) && (audited == [] || audited == [pairs[0]])
    requires next == RepointActions(actions, pairs[0].dup, Some(pairs[0].keep)) + AuditRecords(audited)
    requires end == SigmaActions(pairs[1..], next) + AuditRecords(later)
    ensures end == SigmaActions(pairs, actions) + AuditRecords(audited + later)
  {
    ActionsStep(pairs, actions, AuditRecords(audited));
    assert AuditRecords(audited + later) == AuditRecords(audited) + AuditRecords(later) by {
      if audited == [] {
        assert audited + later == later;
      } else {
        assert (audited + later)[1..] == later;
      }
    }
  }

  lemma {:induction false} BatchActions(s: Store, todo: seq<Pair>, all: seq<Pair>, oracle: Oracle, now: int)
    requires Accepted(s, todo, all, oracle, now)
    ensures RunPairs(s, todo, all, oracle, now).0.actions
            == SigmaActions(todo, s.actions) + AuditRecords(RunPairs(s, todo, all, oracle, now).2)
    decreases |todo|
  {
    if todo == [] {
      assert SigmaActions([], s.actions) == s.actions;
    } else {
      AcceptedStep(s, todo, all, oracle, now);
      AcceptedStepAudits(s, todo, all, oracle, now);
      var next := Next(s, todo[0], now);
      BatchActions(next, todo[1..], all, oracle, now);
      ActionsCompose(todo, s.actions, next.actions, RunPairs(next, todo[1..], all, oracle, now).0.actions,
                     AuditOf(s, todo[0]), RunPairs(next, todo[1..], all, oracle, now).2);
    }
  }

  /** The receivable links of an accepted batch, in terms of the links before it alone. */
  lemma {:induction false} BatchLinks(s: Store, todo: seq<Pair>, all: seq<Pair>, oracle: Oracle, now: int, link: Link)
    requires Accepted(s, todo, all, oracle, now)
    ensures link in RunPairs(s, todo, all, oracle, now).0.book.links <==> Image(s.book.links, todo, link)
    decreases |todo|
  {
    if todo == [] {
      if link in s.book.links { assert Sigma(todo, link.tid) == link.tid && Leads(s.book.links, todo, link.tid); }
    } else {
      AcceptedStep(s, todo, all, oracle, now);
      BatchLinks(Next(s, todo[0], now), todo[1..], all, oracle, now, link);
      ImageStep(s.book, todo, link);
    }
  }

  lemma NextPaid(s: Store, pair: Pair, all: seq<Pair>, now: int, rid: int)
    requires Valid(s.book) && Passes(s, pair, all)
    ensures var next := Next(s, pair, now).book;
            Paid(next.links, rid, next.rows)
            == Paid(s.book.links, rid, s.book.rows)
               - (if PaysInto(s.book.links, pair.dup, rid) && Pays(s.book.links, pair.keep)
                  then s.book.rows[pair.dup].amount else 0)
  {
    var survivor := SurvivorOf(s, pair);
    var folded := Fold(s.book, pair.dup, pair.keep, survivor, now);
    PassingPairFolds(s, pair, all);
    FoldKeeps(s.book, pair.dup, pair.keep, survivor, now);
    FoldConserves(s.book, pair.dup, pair.keep, survivor, now, rid);
    NextIsFold(s, pair, now);
    RelabelKeeps(folded, pair.keep, rid);
  }

  /** The loss of a batch is the loss of its first merge and the loss of the rest after it. */
  lemma LossShift(s: Store, pairs: seq<Pair>, all: seq<Pair>, now: int, rid: int)
    requires Valid(s.book) && pairs != [] && Disjoint(pairs) && Passes(s, pairs[0], all)
    ensures var next := Next(s, pairs[0], now).book;
            BatchLoss(pairs, s.book.links, pairs, s.book.rows, rid)
            == Paid(s.book.links, rid, s.book.rows) - Paid(next.links, rid, next.rows)
               + BatchLoss(pairs[1..], next.links, pairs[1..], next.rows, rid)
  {
    var pair, rest, next := pairs[0], pairs[1..], Next(s, pairs[0], now);
    PassingPairFolds(s, pair, all);
    NextPaid(s, pair, all, now, rid);
    FirstLeads(s.book.links, pairs);
    DisjointTail(pairs);
    forall later | later in rest ensures later.dup != pair.dup && later.dup != pair.keep {
      assert later.dup in Dups(rest);
    }
    forall t ensures t != pair.dup && t != pair.keep ==>
                       (t in next.book.rows <==> t in s.book.rows)
                       && (t in next.book.rows ==> next.book.rows[t].amount == s.book.rows[t].amount) {
      NextKeepsOthers(s, pair, now, t);
    }
    LossStep(rest, s.book, pairs, next.book.rows, rid);
  }

  /** Each receivable's paid sum drops by the payments of the duplicates of which the keeper, or an
      earlier duplicate of the same keeper, already paid some receivable; and by nothing else. */
  lemma {:induction false} BatchConserves(s: Store, todo: seq<Pair>, all: seq<Pair>, oracle: Oracle, now: int, rid: int)
    requires Accepted(s, todo, all, oracle, now)
    ensures var end := RunPairs(s, todo, all, oracle, now).0;
            Paid(end.book.links, rid, end.book.rows)
            == Paid(s.book.links, rid, s.book.rows) - BatchLoss(todo, s.book.links, todo, s.book.rows, rid)
    decreases |todo|
  {
    if todo != [] {
      AcceptedStep(s, todo, all, oracle, now);
      BatchConserves(Next(s, todo[0], now), todo[1..], all, oracle, now, rid);
      LossShift(s, todo, all, now, rid);
    }
  }

  /******* The prompts of a batch *******/

  /** The prompts without those of rows that go away. */
  function OtherPrompts(prompts: map<int, Prompt>, gone: set<int>): map<int, Prompt> {
    map p | p in prompts && prompts[p].tid !in gone :: prompts[p]
  }

  /** The message belongs to a prompt of a row that goes away. */
  predicate AsksAboutAny(prompts: map<int, Prompt>, gone: set<int>, d: int) {
    exists p :: p in prompts && prompts[p].tid in gone && prompts[p].delivery == Some(d)
  }

  /** The messages after the unsent ones of those prompts are cancelled. */
  function OtherMessages(prompts: map<int, Prompt>, deliveries: map<int, Delivery>, gone: set<int>): map<int, Delivery> {
    map d | d in deliveries ::
      if Unsent(deliveries[d].status) && AsksAboutAny(prompts, gone, d) then deliveries[d].(status := Cancelled)
      else deliveries[d]
  }

  lemma RetiredTwice(prompts: map<int, Prompt>, deliveries: map<int, Delivery>, first: set<int>, rest: set<int>)
    ensures OtherPrompts(OtherPrompts(prompts, first), rest) == OtherPrompts(prompts, first + rest)
    ensures OtherMessages(OtherPrompts(prompts, first), OtherMessages(prompts, deliveries, first), rest)
         == OtherMessages(prompts, deliveries, first + rest)
  {
    forall d | d in deliveries
      ensures AsksAboutAny(prompts, first + rest, d)
              <==> AsksAboutAny(prompts, first, d) || AsksAboutAny(OtherPrompts(prompts, first), rest, d)
    {
      if AsksAboutAny(prompts, first + rest, d) {
        var p :| p in prompts && prompts[p].tid in first + rest && prompts[p].delivery == Some(d);
        if p !in OtherPrompts(prompts, first) {
          assert prompts[p].tid in first;
        }
      }
      if AsksAboutAny(OtherPrompts(prompts, first), rest, d) {
        var p :| p in OtherPrompts(prompts, first) && prompts[p].tid in rest && prompts[p].delivery == Some(d);
        assert p in prompts;
      }
      if AsksAboutAny(prompts, first, d) {
        var p :| p in prompts && prompts[p].tid in first && prompts[p].delivery == Some(d);
        assert prompts[p].tid in first + rest;
      }
    }
  }

  lemma NextRetires(s: Store, pair: Pair, now: int)
    requires pair.keep in s.book.rows && pair.dup in s.book.rows
    ensures var next := Next(s, pair, now).book;
            && next.prompts == OtherPrompts(s.book.prompts, {pair.dup})
            && next.deliveries == OtherMessages(s.book.prompts, s.book.deliveries, {pair.dup})
            && next.messages == s.book.messages
  {
    var next := Next(s, pair, now).book;
    forall d | d in s.book.deliveries
      ensures next.deliveries[d] == OtherMessages(s.book.prompts, s.book.deliveries, {pair.dup})[d]
    {
      if AsksAboutAny(s.book.prompts, {pair.dup}, d) {
        var p :| p in s.book.prompts && s.book.prompts[p].tid in {pair.dup} && s.book.prompts[p].delivery == Some(d);
        assert s.book.prompts[p].tid == pair.dup;
      }
    }
  }

  /** A batch retires exactly the prompts of its duplicates and cancels exactly their unsent messages. */
  lemma {:induction false} BatchPrompts(s: Store, todo: seq<Pair>, all: seq<Pair>, oracle: Oracle, now: int)
    requires Accepted(s, todo, all, oracle, now)
    ensures var end := RunPairs(s, todo, all, oracle, now).0.book;
            && end.prompts == OtherPrompts(s.book.prompts, Dups(todo))
            && end.deliveries == OtherMessages(s.book.prompts, s.book.deliveries, Dups(todo))
            && end.messages == s.book.messages
    decreases |todo|
  {
    if todo == [] {
      assert Dups(todo) == {};
    } else {
      AcceptedStep(s, todo, all, oracle, now);
      BatchPrompts(Next(s, todo[0], now), todo[1..], all, oracle, now);
      NextRetires(s, todo[0], now);
      RetiredTwice(s.book.prompts, s.book.deliveries, {todo[0].dup}, Dups(todo[1..]));
      DisjointTail(todo);
    }
  }

  /******* The whole transaction *******/

  /** A batch that commits is the substitution; a batch with a refusal, or a dry run, writes nothing. */
  lemma BatchCommitsOrNothing(s: Store, pairs: seq<Pair>, dryRun: bool, oracle: Oracle, now: int)
    requires Valid(s.book)
    ensures var (end, refusals) := MergeDuplicates(s, pairs, dryRun, oracle, now);
            if dryRun || refusals != [] then end == s
            else && Accepted(s, pairs, pairs, oracle, now) && end == RunPairs(s, pairs, pairs, oracle, now).0
  {
    var (end, refused, overridden) := RunPairs(s, pairs, pairs, oracle, now);
    if refused + Unbacked(end, overridden, oracle) == [] {
      assert refused == [];
      AcceptedIsDisjoint(s, pairs, oracle, now);
    }
  }

  /** After a committed batch no table names a deleted row, except the audit trail. */
  lemma CommittedBatchForgets(s: Store, pairs: seq<Pair>, oracle: Oracle, now: int, gone: int)
    requires Valid(s.book) && MergeDuplicates(s, pairs, false, oracle, now).1 == [] && gone in Dups(pairs)
    ensures var end := MergeDuplicates(s, pairs, false, oracle, now).0;
            && gone !in end.book.rows
            && !Mentions(end.book.links, gone)
            && !Prompted(end.book, gone)
            && (forall k :: k in end.refs ==> end.refs[k] != Some(gone))
            && (forall i :: 0 <= i < |end.actions| ==> end.actions[i].row != Some(gone))
            && (forall k :: k in end.uploads ==> !R.Touched(end.uploads[k], gone))
  {
    BatchCommitsOrNothing(s, pairs, false, oracle, now);
    var (end, refused, overridden) := RunPairs(s, pairs, pairs, oracle, now);
    BatchRows(s, pairs, pairs, oracle, now);
    BatchReferences(s, pairs, pairs, oracle, now);
    BatchUploads(s, pairs, pairs, oracle, now);
    BatchActions(s, pairs, pairs, oracle, now);
    forall id { SigmaMeans(pairs, id); }
    forall link | link in end.book.links ensures link.tid != gone { assert LinkFits(end.book.rows, end.book.entries, link); }
    BatchPrompts(s, pairs, pairs, oracle, now);
    OverriddenAreListed(s, pairs, pairs, oracle, now);
    KeepersStay(pairs, overridden, gone);
    forall k | k in end.uploads ensures !R.Touched(end.uploads[k], gone) { SigmaForgets(pairs, s.uploads[k], gone); }
  }

  lemma {:induction false} OverriddenAreListed(s: Store, todo: seq<Pair>, all: seq<Pair>, oracle: Oracle, now: int)
    requires RunPairs(s, todo, all, oracle, now).1 == []
    ensures forall pair :: pair in RunPairs(s, todo, all, oracle, now).2 ==> pair in todo
    decreases |todo|
  {
    if todo != [] { OverriddenAreListed(Next(s, todo[0], now), todo[1..], all, oracle, now); }
  }

  lemma {:induction false} KeepersStay(pairs: seq<Pair>, overridden: seq<Pair>, gone: int)
    requires Disjoint(pairs) && gone in Dups(pairs) && forall pair :: pair in overridden ==> pair in pairs
    ensures forall i :: 0 <= i < |AuditRecords(overridden)| ==> AuditRecords(overridden)[i].row != Some(gone)
  {
    if overridden != [] {
      KeepersStay(pairs, overridden[1..], gone);
      assert overridden[0] in pairs;
      var k :| 0 <= k < |pairs| && pairs[k] == overridden[0];
    }
  }

  lemma SigmaForgets(pairs: seq<Pair>, recon: R.Recon, gone: int)
    requires Disjoint(pairs) && gone in Dups(pairs)
    ensures !R.Touched(SigmaRecon(pairs, recon), gone)
  {
    forall id { SigmaMeans(pairs, id); }
    forall line: R.Line ensures !R.LineTouched(SigmaLine(pairs, line), gone) {
      var mapped := R.MapIds(line.candidates, id => Sigma(pairs, id));
      R.DedupKeepsIds(mapped);
    }
  }

  /** A plain delete keeps the row named in two places: by the reviews that named it, which only expire,
      and by the audit targets, whose history gains the record of the delete. */
  lemma DeletedRowIsKept(s: Store, gone: int, now: int)
    ensures var end := DeleteRow(s, gone, now);
            && (forall k :: k in s.refs && k.0 == Reviews ==> k in end.refs && end.refs[k] == s.refs[k])
            && |end.actions| == |s.actions| + 1 && end.actions[|s.actions|] == Action(None, true, gone)
            && (forall i :: 0 <= i < |s.actions| ==>
                  end.actions[i].target == s.actions[i].target && end.actions[i].onTransaction == s.actions[i].onTransaction)
  {
  }

  /** A plain delete leaves the row named only by the audit trail and by expired category reviews. */
  lemma DeletedRowForgets(s: Store, gone: int, now: int)
    requires Valid(s.book)
    ensures var end := DeleteRow(s, gone, now);
            && Valid(end.book) && gone !in end.book.rows
            && !Mentions(end.book.links, gone) && !Prompted(end.book, gone)
            && (forall k :: k in end.refs && k.0 != Reviews ==> end.refs[k] != Some(gone))
            && (forall i :: 0 <= i < |end.actions| ==> end.actions[i].row != Some(gone))
            && (forall k :: k in end.uploads ==> !R.Touched(end.uploads[k], gone))
  {
    var end := DeleteRow(s, gone, now);
    assert end.book == Drop(s.book, gone);
    DropKeeps(s.book, gone);
    RetireKeeps(s.book, gone);
    forall k | k in s.uploads { R.RepointForgets(s.uploads[k], gone, None); }
  }
}
