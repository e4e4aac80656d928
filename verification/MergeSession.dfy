/** The merge as the program runs it: loops over tables and pairs, with a rollback. */
module MergeSession {
  import opened Rows
  import opened Ledger
  import opened LedgerInvariants
  import opened LedgerTables
  import opened DuplicateMerge
  import opened MergeBatch
  import R = Reconciliation
  import T = SelfTransfer

  /** Where a run ends, with its refused and overridden pairs. */
  type Outcome = (Store, seq<Pair>, seq<Pair>)

  /** A run that has refused and overridden these pairs, and has `left` before it, ends in `whole`. */
  predicate Reached(whole: Outcome, left: Outcome, refused: seq<Pair>, overridden: seq<Pair>) {
    whole.0 == left.0 && whole.1 == refused + left.1 && whole.2 == overridden + left.2
  }

  lemma RunRefusal(s: Store, todo: seq<Pair>, all: seq<Pair>, oracle: Oracle, now: int)
    requires todo != [] && (!Passes(s, todo[0], all) || oracle.paidCycle(s, todo[0]))
    ensures Reached(RunPairs(s, todo, all, oracle, now), RunPairs(s, todo[1..], all, oracle, now), [todo[0]], [])
  {
  }

  lemma RunMerge(s: Store, todo: seq<Pair>, all: seq<Pair>, oracle: Oracle, now: int)
    requires todo != [] && Passes(s, todo[0], all) && !oracle.paidCycle(s, todo[0])
    ensures Reached(RunPairs(s, todo, all, oracle, now), RunPairs(Next(s, todo[0], now), todo[1..], all, oracle, now),
                    [], AuditOf(s, todo[0]))
  {
  }

  /** One more pair done. */
  lemma ReachedNext(whole: Outcome, left: Outcome, after: Outcome, refused: seq<Pair>, overridden: seq<Pair>,
                    refusedNow: seq<Pair>, overriddenNow: seq<Pair>)
    requires Reached(whole, left, refused, overridden) && Reached(left, after, refusedNow, overriddenNow)
    ensures Reached(whole, after, refused + refusedNow, overridden + overriddenNow)
  {
    Regroup(refused, refusedNow, after.1);
    Regroup(overridden, overriddenNow, after.2);
  }

  lemma Regroup<T>(first: seq<T>, second: seq<T>, third: seq<T>)
    ensures first + (second + third) == first + second + third
  {
  }

  /** The overridden pairs that today's parse of their statement does not back. */
  method FindUnbacked(s: Store, overridden: seq<Pair>, oracle: Oracle) returns (refused: seq<Pair>)
    ensures refused == Unbacked(s, overridden, oracle)
  {
    refused := [];
    for i := 0 to |overridden|
      invariant refused + Unbacked(s, overridden[i..], oracle) == Unbacked(s, overridden, oracle)
    {
      var pair := overridden[i];
      assert overridden[i..][0] == pair && overridden[i..][1..] == overridden[i + 1..];
      if !oracle.backed(s, pair) {
        Regroup(refused, [pair], Unbacked(s, overridden[i + 1..], oracle));
        refused := refused + [pair];
      }
    }
  }

  class Session {
    const ledger: Tables
    var refs: map<(RefTable, int), Option<int>>
    var actions: seq<Action>
    var uploads: map<(UploadTable, int), R.Recon>

    constructor (ledger: Tables)
      ensures this.ledger == ledger && refs == map[] && actions == [] && uploads == map[]
    {
      this.ledger := ledger;
      refs, actions, uploads := map[], [], map[];
    }

    function State(): Store
      reads this, ledger
    {
      Store(ledger.State(), refs, actions, uploads)
    }

    /** Rewrite every stored reconciliation that names the row. */
    method RepointUploads(gone: int, keep: Option<int>)
      modifies this`uploads
      ensures uploads == map k | k in old(uploads) :: R.Repoint(old(uploads)[k], gone, keep)
    {
      var todo := uploads.Keys;
      while todo != {}
        invariant todo <= uploads.Keys == old(uploads).Keys
        invariant forall k :: k in uploads ==>
                    uploads[k] == if k in todo then old(uploads)[k] else R.Repoint(old(uploads)[k], gone, keep)
        decreases todo
      {
        var k :| k in todo;
        var recon, changed := R.RepointReconciliation(uploads[k], gone, keep);
        if changed {
          uploads := uploads[k := recon];
        } else {
          R.UntouchedStays(uploads[k], gone, keep);
        }
        todo := todo - {k};
      }
    }

    method RepointActionRows(gone: int, keep: Option<int>)
      modifies this`actions
      ensures actions == RepointActions(old(actions), gone, keep)
    {
      for i := 0 to |actions|
        invariant |actions| == |old(actions)|
        invariant forall k :: 0 <= k < |actions| ==>
                    actions[k] == if k < i then RepointAction(old(actions)[k], gone, keep) else old(actions)[k]
      {
        actions := actions[i := RepointAction(actions[i], gone, keep)];
      }
    }

    /** Point every row that names `gone` at `keep`, or clean it up when there is no keeper. */
    method MoveAllReferences(gone: int, keep: Option<int>, now: int)
      requires keep.Some? ==> gone != keep.value && Unique(ledger.links)
      modifies this, ledger`links, ledger`entries, ledger`prompts, ledger`deliveries
      ensures State() == MoveReferences(old(State()), gone, keep, now)
    {
      if keep.Some? {
        var collided := ledger.MoveReceivableLinks(gone, keep.value, now);
      } else {
        ledger.DropLinks(gone);
      }
      refs := map k | k in refs :: RepointRef(k.0, refs[k], gone, keep);
      RepointActionRows(gone, keep);
      RepointUploads(gone, keep);
    }

    method MergeOne(pair: Pair, applied: set<Override>, now: int)
      requires pair.keep in ledger.rows && pair.dup in ledger.rows && pair.keep != pair.dup
      requires Unique(ledger.links)
      modifies this, ledger
      ensures State() == MergePair(old(State()), pair, applied, now)
    {
      var keep, dup := ledger.rows[pair.keep], ledger.rows[pair.dup];
      MoveAllReferences(pair.dup, Some(pair.keep), now);
      ledger.rows := ledger.rows - {pair.dup};
      ledger.rows := ledger.rows[pair.keep := Survivor(keep, dup, applied != {})];
      var rows := T.MarkLegs(ledger.rows, pair.keep);
      ledger.rows := rows;
      if applied != {} {
        actions := actions + [Action(Some(pair.keep), true, pair.dup)];
      }
    }

    /** One pair of a batch: merged, or refused with the store untouched. */
    method TryPair(pair: Pair, all: seq<Pair>, oracle: Oracle, now: int) returns (merged: bool, applied: set<Override>)
      requires Valid(ledger.State())
      modifies this, ledger
      ensures Valid(ledger.State())
      ensures merged <==> Passes(old(State()), pair, all) && !oracle.paidCycle(old(State()), pair)
      ensures merged ==> applied == AppliedTo(old(State()), pair)
                         && State() == MergePair(old(State()), pair, applied, now)
      ensures !merged ==> State() == old(State())
    {
      if !Passes(State(), pair, all) || oracle.paidCycle(State(), pair) {
        return false, {};
      }
      applied := AppliedTo(State(), pair);
      ghost var before := State();
      NextKeeps(before, pair, all, now);
      MergeOne(pair, applied, now);
      return true, applied;
    }

    /** Merge each pair in order; collect the refused and the overridden ones. */
    method RunAll(pairs: seq<Pair>, oracle: Oracle, now: int) returns (refused: seq<Pair>, overridden: seq<Pair>)
      requires Valid(ledger.State())
      modifies this, ledger
      ensures Valid(ledger.State())
      ensures (State(), refused, overridden) == RunPairs(old(State()), pairs, pairs, oracle, now)
    {
      ghost var whole := RunPairs(State(), pairs, pairs, oracle, now);
      refused, overridden := [], [];
      assert pairs[0..] == pairs;
      for i := 0 to |pairs|
        invariant Valid(ledger.State())
        invariant Reached(whole, RunPairs(State(), pairs[i..], pairs, oracle, now), refused, overridden)
      {
        ghost var before := State();
        ghost var left := RunPairs(before, pairs[i..], pairs, oracle, now);
        assert pairs[i..][0] == pairs[i] && pairs[i..][1..] == pairs[i + 1..];
        assert refused + [] == refused && overridden + [] == overridden;
        var merged, applied := TryPair(pairs[i], pairs, oracle, now);
        ghost var after := RunPairs(State(), pairs[i + 1..], pairs, oracle, now);
        if merged {
          RunMerge(before, pairs[i..], pairs, oracle, now);
          ReachedNext(whole, left, after, refused, overridden, [], AuditOf(before, pairs[i]));
          if applied != {} {
            overridden := overridden + [pairs[i]];
          }
        } else {
          RunRefusal(before, pairs[i..], pairs, oracle, now);
          ReachedNext(whole, left, after, refused, overridden, [pairs[i]], []);
          refused := refused + [pairs[i]];
        }
      }
      assert pairs[|pairs|..] == [];
      assert RunPairs(State(), [], pairs, oracle, now) == (State(), [], []);
      assert refused + [] == refused && overridden + [] == overridden;
    }

    method Rollback(begin: Store)
      modifies this, ledger
      ensures State() == begin
    {
      ledger.rows, ledger.entries, ledger.links := begin.book.rows, begin.book.entries, begin.book.links;
      ledger.prompts, ledger.deliveries := begin.book.prompts, begin.book.deliveries;
      ledger.messages := begin.book.messages;
      refs, actions, uploads := begin.refs, begin.actions, begin.uploads;
    }

    /** All pairs in one transaction: commit, or roll back and report the refusals. */
    method MergeAll(pairs: seq<Pair>, dryRun: bool, oracle: Oracle, now: int) returns (refusals: seq<Pair>)
      requires Valid(ledger.State())
      modifies this, ledger
      ensures Valid(ledger.State())
      ensures (State(), refusals) == MergeDuplicates(old(State()), pairs, dryRun, oracle, now)
    {
      var begin := State();
      var refused, overridden := RunAll(pairs, oracle, now);
      var unbacked := FindUnbacked(State(), overridden, oracle);
      refusals := refused + unbacked;
      if dryRun || refusals != [] {
        Rollback(begin);
      }
    }
  }
}
