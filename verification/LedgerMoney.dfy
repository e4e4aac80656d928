/** Money: a merge conserves what each receivable was paid, and status follows the paid sum. */
module LedgerMoney {
  import opened Rows
  import opened Ledger
  import opened LedgerInvariants

  /******* The paid sum *******/

  lemma {:induction false} PaidConcat(first: seq<Link>, second: seq<Link>, rid: int, rows: map<int, Row>)
    ensures Paid(first + second, rid, rows) == Paid(first, rid, rows) + Paid(second, rid, rows)
  {
    if first == [] {
      assert first + second == second;
    } else {
      assert (first + second)[1..] == first[1..] + second;
      PaidConcat(first[1..], second, rid, rows);
    }
  }

  /** Only the amounts of the linked payment rows count. */
  lemma {:induction false} PaidOfSameRows(links: seq<Link>, rid: int, rows: map<int, Row>, after: map<int, Row>)
    requires forall link :: link in links && link.role == Payment ==>
               (link.tid in rows <==> link.tid in after) &&
               (link.tid in rows ==> rows[link.tid].amount == after[link.tid].amount)
    ensures Paid(links, rid, rows) == Paid(links, rid, after)
  {
    if links != [] { PaidOfSameRows(links[1..], rid, rows, after); }
  }

  lemma {:induction false} PaidOfNoLinks(links: seq<Link>, rid: int, rows: map<int, Row>)
    requires forall link :: link in links ==> link.rid != rid
    ensures Paid(links, rid, rows) == 0
  {
    if links != [] { PaidOfNoLinks(links[1..], rid, rows); }
  }

  /** What the payment of a row contributes to a paid sum. */
  function AmountIn(links: seq<Link>, tid: int, rid: int, rows: map<int, Row>): int {
    if PaysInto(links, tid, rid) && tid in rows then rows[tid].amount else 0
  }

  /** The indexes allow one payment link between a row and a receivable. */
  lemma PaysOnce(links: seq<Link>, tid: int, rid: int)
    requires Unique(links) && links != [] && links[0] == Link(rid, tid, Payment)
    ensures !PaysInto(links[1..], tid, rid)
  {
  }

  lemma {:induction false} PaidWithoutPair(links: seq<Link>, rid: int, tid: int, r: int, rows: map<int, Row>)
    requires Unique(links)
    ensures Paid(WithoutPair(links, rid, tid), r, rows)
            == Paid(links, r, rows) - (if rid == r then AmountIn(links, tid, r, rows) else 0)
  {
    if links != [] {
      PaidWithoutPair(links[1..], rid, tid, r, rows);
      if links[0] == Link(r, tid, Payment) { PaysOnce(links, tid, r); }
    }
  }

  lemma {:induction false} PaidWithoutRow(links: seq<Link>, gone: int, r: int, rows: map<int, Row>)
    requires Unique(links)
    ensures Paid(WithoutRow(links, gone), r, rows - {gone}) == Paid(links, r, rows) - AmountIn(links, gone, r, rows)
  {
    if links != [] {
      PaidWithoutRow(links[1..], gone, r, rows);
      if links[0] == Link(r, gone, Payment) { PaysOnce(links, gone, r); }
    }
  }

  lemma {:induction false} PaidAfterEdit(links: seq<Link>, tid: int, row: Row, r: int, rows: map<int, Row>)
    requires Unique(links) && tid in rows
    ensures Paid(links, r, rows[tid := row])
            == Paid(links, r, rows) + (if PaysInto(links, tid, r) then row.amount - rows[tid].amount else 0)
  {
    if links != [] {
      PaidAfterEdit(links[1..], tid, row, r, rows);
      if links[0] == Link(r, tid, Payment) { PaysOnce(links, tid, r); }
    }
  }

  /******* A merge conserves money *******/

  /** Two rows of one direction on one receivable hold the same role. */
  lemma SameRole(b: Book, first: Link, second: Link)
    requires Valid(b) && first in b.links && second in b.links && first.rid == second.rid
    requires b.rows[first.tid].direction == b.rows[second.tid].direction
    ensures first.role == second.role
  {
  }

  /** What the deleted links of the old row had paid. */
  function Loss(links: seq<Link>, gone: int, rids: set<int>, pays: bool, rid: int, rows: map<int, Row>): int {
    if links == [] then 0
    else
      (if links[0].tid == gone && Dropped(links[0], rids, pays) then Contribution(links[0], rid, rows) else 0)
      + Loss(links[1..], gone, rids, pays, rid, rows)
  }

  lemma {:induction false} PaidMoved(links: seq<Link>, gone: int, keep: int, rids: set<int>, pays: bool,
                                     rid: int, rows: map<int, Row>, survivor: Row)
    requires gone != keep && gone in rows && keep in rows && survivor.amount == rows[keep].amount
    requires forall link :: link in links && link.tid == gone && link.role == Payment ==>
               rows[gone].amount == rows[keep].amount
    ensures Paid(Moved(links, gone, keep, rids, pays), rid, (rows - {gone})[keep := survivor])
            == Paid(links, rid, rows) - Loss(links, gone, rids, pays, rid, rows)
  {
    if links != [] { PaidMoved(links[1..], gone, keep, rids, pays, rid, rows, survivor); }
  }

  /** The indexes allow at most one payment link between the old row and the receivable. */
  lemma {:induction false} LossIsOnePayment(links: seq<Link>, gone: int, rids: set<int>, pays: bool,
                                            rid: int, rows: map<int, Row>)
    requires Unique(links) && gone in rows
    ensures Loss(links, gone, rids, pays, rid, rows)
            == if PaysInto(links, gone, rid) && Dropped(Link(rid, gone, Payment), rids, pays)
               then rows[gone].amount else 0
  {
    if links != [] {
      LossIsOnePayment(links[1..], gone, rids, pays, rid, rows);
      if links[0] == Link(rid, gone, Payment) {
        assert !PaysInto(links[1..], gone, rid);
      }
    }
  }

  /** Each receivable's paid sum survives a merge, except that it drops by the duplicate's amount
      exactly when the duplicate paid it and the keeper already paid some receivable. */
  lemma FoldConserves(b: Book, gone: int, keep: int, survivor: Row, now: int, rid: int)
    requires Valid(b) && Foldable(b, gone, keep, survivor)
    ensures var after := Fold(b, gone, keep, survivor, now);
            Paid(after.links, rid, after.rows)
            == Paid(b.links, rid, b.rows)
               - (if PaysInto(b.links, gone, rid) && Pays(b.links, keep) then b.rows[gone].amount else 0)
  {
    var rids, pays := KeeperRids(b.links, keep), Pays(b.links, keep);
    forall link | link in b.links && link.tid == gone && link.role == Payment
      ensures b.rows[gone].amount == b.rows[keep].amount
    {
      assert LinkFits(b.rows, b.entries, link);
    }
    PaidMoved(b.links, gone, keep, rids, pays, rid, b.rows, survivor);
    LossIsOnePayment(b.links, gone, rids, pays, rid, b.rows);
    if PaysInto(b.links, gone, rid) && rid in rids {
      var other :| other in b.links && other.tid == keep && other.rid == rid;
      assert LinkFits(b.rows, b.entries, other);
      SameRole(b, other, Link(rid, gone, Payment));
      assert pays;
    }
  }

  /******* Every operation conserves money *******/

  /** By how much an operation changes what a receivable is paid. */
  function Change(b: Book, op: Op, r: int): int {
    match op
    case OpEditRow(tid, row) =>
      if PaysInto(b.links, tid, r) && tid in b.rows then row.amount - b.rows[tid].amount else 0
    case OpAttach(seen, rid, tid, role, now) =>
      if rid == r && role == Payment && Attach(b, seen, rid, tid, role, now).1 == Done then b.rows[tid].amount else 0
    case OpUnlink(rid, tid) => if rid == r then -AmountIn(b.links, tid, r, b.rows) else 0
    case OpFold(gone, keep, survivor, now) =>
      if Pays(b.links, keep) then -AmountIn(b.links, gone, r, b.rows) else 0
    case OpDrop(gone) => -AmountIn(b.links, gone, r, b.rows)
    case OpPress(pid, choice, chat, message, named, now) =>
      if choice == Some(r) && Press(b, pid, choice, chat, message, named, now).1 == LinkedAndSettled
      then b.rows[b.prompts[pid].tid].amount else 0
    case _ => 0
  }

  lemma PaidOfOthers(b: Book, rid: int, charges: seq<int>, payments: seq<int>, r: int)
    requires r != rid
    ensures var added := LinksOf(rid, charges, Charge) + LinksOf(rid, payments, Payment);
            Paid(b.links + added, r, b.rows) == Paid(b.links, r, b.rows)
  {
    var added := LinksOf(rid, charges, Charge) + LinksOf(rid, payments, Payment);
    forall link | link in added ensures link.rid == rid {}
    PaidConcat(b.links, added, r, b.rows);
    PaidOfNoLinks(added, r, b.rows);
  }

  lemma PaidOfInsert(b: Book, tid: int, row: Row, r: int)
    requires Valid(b) && tid !in b.rows
    ensures Paid(b.links, r, b.rows[tid := row]) == Paid(b.links, r, b.rows)
  {
    forall link | link in b.links ensures link.tid in b.rows { assert LinkFits(b.rows, b.entries, link); }
    PaidOfSameRows(b.links, r, b.rows, b.rows[tid := row]);
  }

  lemma {:induction false} NothingWithout(links: seq<Link>, rid: int, tid: int)
    ensures |WithoutPair(links, rid, tid)| <= |links|
    ensures |WithoutPair(links, rid, tid)| == |links| ==> WithoutPair(links, rid, tid) == links
  {
    if links != [] {
      NothingWithout(links[1..], rid, tid);
    }
  }

  /** Whether or not the loaded copy is current. */
  lemma PaidOfAttach(b: Book, seen: Seen, rid: int, tid: int, role: Role, now: int, r: int)
    ensures var (after, outcome) := Attach(b, seen, rid, tid, role, now);
            Paid(after.links, r, after.rows)
            == Paid(b.links, r, b.rows)
               + (if rid == r && role == Payment && outcome == Done then b.rows[tid].amount else 0)
  {
    if Attach(b, seen, rid, tid, role, now).1 == Done {
      PaidConcat(b.links, [Link(rid, tid, role)], r, b.rows);
    }
  }

  lemma PaidOfPress(b: Book, op: Op, r: int)
    requires op.OpPress?
    ensures Paid(Apply(b, op).links, r, Apply(b, op).rows) == Paid(b.links, r, b.rows) + Change(b, op, r)
  {
    if Press(b, op.pid, op.choice, op.chat, op.message, op.named, op.now).1 == LinkedAndSettled {
      PressIsAttach(b, op.pid, op.choice, op.chat, op.message, op.named, op.now);
      var rid := op.choice.value;
      PaidOfAttach(b, Current(b, rid), rid, b.prompts[op.pid].tid, Payment, op.now, r);
    }
  }

  lemma PaidOfRemoval(b: Book, op: Op, r: int)
    requires Valid(b) && (op.OpUnlink? || op.OpDrop?)
    ensures Paid(Apply(b, op).links, r, Apply(b, op).rows) == Paid(b.links, r, b.rows) + Change(b, op, r)
  {
    match op
    case OpUnlink(rid, tid) =>
      PaidWithoutPair(b.links, rid, tid, r, b.rows);
      NothingWithout(b.links, rid, tid);
    case OpDrop(gone) => PaidWithoutRow(b.links, gone, r, b.rows);
  }

  lemma PaidOfFold(b: Book, op: Op, r: int)
    requires Valid(b) && Enabled(b, op) && op.OpFold?
    ensures Paid(Apply(b, op).links, r, Apply(b, op).rows) == Paid(b.links, r, b.rows) + Change(b, op, r)
  {
    FoldConserves(b, op.gone, op.keep, op.survivor, op.now, r);
  }

  lemma EntriesStay(b: Book, op: Op, r: int)
    requires r in b.entries
    ensures r in Apply(b, op).entries
  {
  }

  /** Exactly how one operation moves the paid sum of one receivable. */
  lemma PaidChanges(b: Book, op: Op, r: int)
    requires Valid(b) && Enabled(b, op) && r in b.entries
    ensures var after := Apply(b, op);
            && r in after.entries
            && Paid(after.links, r, after.rows) == Paid(b.links, r, b.rows) + Change(b, op, r)
  {
    EntriesStay(b, op, r);
    match op
    case OpInsert(tid, row) => PaidOfInsert(b, tid, row, r);
    case OpEditRow(tid, row) => PaidAfterEdit(b.links, tid, row, r, b.rows);
    case OpCreate(rid, kind, amount, charges, payments, now) => PaidOfOthers(b, rid, charges, payments, r);
    case OpAttach(seen, rid, tid, role, now) => PaidOfAttach(b, seen, rid, tid, role, now, r);
    case OpUnlink(rid, tid) => PaidOfRemoval(b, op, r);
    case OpFold(gone, keep, survivor, now) => PaidOfFold(b, op, r);
    case OpDrop(gone) => PaidOfRemoval(b, op, r);
    case OpPress(pid, choice, chat, message, named, now) => PaidOfPress(b, op, r);
    case _ =>
  }

  /** The sum of the changes along a run. */
  function Changes(b: Book, ops: seq<Op>, r: int): int
    decreases |ops|
  {
    if ops == [] then 0 else Change(b, ops[0], r) + Changes(Apply(b, ops[0]), ops[1..], r)
  }

  /** Over every run, on copies as stale as they may be, a receivable is paid what it was paid at the start
      and what links, unlinks, edits, merges, deletes and taps have added or taken since. */
  lemma {:induction false} PaidAfterRun(b: Book, ops: seq<Op>, r: int)
    requires Valid(b) && Runs(b, ops) && r in b.entries
    ensures var after := After(b, ops);
            && r in after.entries
            && Paid(after.links, r, after.rows) == Paid(b.links, r, b.rows) + Changes(b, ops, r)
    decreases |ops|
  {
    if ops != [] {
      ApplyKeeps(b, ops[0]);
      PaidChanges(b, ops[0], r);
      PaidAfterRun(Apply(b, ops[0]), ops[1..], r);
    }
  }

  /******* Status follows the paid sum *******/

  ghost predicate Magnitudes(b: Book) {
    forall t :: t in b.rows ==> b.rows[t].amount >= 0
  }

  /** The receivable is not open although paid in full. */
  ghost predicate Short(b: Book, r: int) {
    r in b.entries && b.entries[r].status == Open ==> Paid(b.links, r, b.rows) < b.entries[r].amount
  }

  /** The receivable is not settled without being paid in full. */
  ghost predicate Covered(b: Book, r: int) {
    r in b.entries && b.entries[r].status == Settled ==> Paid(b.links, r, b.rows) >= b.entries[r].amount
  }

  ghost predicate OpenBelow(b: Book) {
    forall r :: r in b.entries ==> Short(b, r)
  }

  /** An operation on this receivable reads a current copy of it. */
  ghost predicate Judged(b: Book, op: Op, r: int) {
    match op
    case OpAttach(seen, rid, tid, role, now) => rid == r && r in b.entries ==> seen == Current(b, r)
    case OpUpdate(seen, rid, amount, status, now) => rid == r && r in b.entries ==> seen == Current(b, r)
    case _ => true
  }

  /** Nothing but a link adds to what this receivable is paid, and nobody reopens it. */
  ghost predicate OnlyLinksAdd(b: Book, op: Op, r: int) {
    && Judged(b, op, r)
    && (op.OpAttach? || op.OpPress? || Change(b, op, r) <= 0)
    && (op.OpUpdate? && op.rid == r ==> op.status != Some(Open))
  }

  /** The operation takes nothing from this receivable, does not raise its amount and does not settle it
      by hand. */
  ghost predicate Spares(b: Book, op: Op, r: int) {
    && Judged(b, op, r)
    && Change(b, op, r) >= 0
    && (op.OpUpdate? && op.rid == r && r in b.entries ==>
          && op.status != Some(Settled)
          && (op.newAmount.Some? ==> op.newAmount.value <= b.entries[r].amount))
  }

  ghost predicate OnlyLinksAddInRun(b: Book, ops: seq<Op>, r: int)
    decreases |ops|
  {
    ops == [] || (Enabled(b, ops[0]) && OnlyLinksAdd(b, ops[0], r) && OnlyLinksAddInRun(Apply(b, ops[0]), ops[1..], r))
  }

  ghost predicate SparedInRun(b: Book, ops: seq<Op>, r: int)
    decreases |ops|
  {
    ops == [] || (Enabled(b, ops[0]) && Spares(b, ops[0], r) && SparedInRun(Apply(b, ops[0]), ops[1..], r))
  }

  /** A link attached from a current copy adds its row's amount and settles what it completes. */
  lemma AttachStep(b: Book, rid: int, tid: int, role: Role, now: int, r: int)
    requires Valid(b) && rid in b.entries && r in b.entries
    requires Attach(b, Current(b, rid), rid, tid, role, now).1 == Done
    ensures var after := Attach(b, Current(b, rid), rid, tid, role, now).0;
            && Paid(after.links, r, after.rows)
               == Paid(b.links, r, b.rows) + (if r == rid && role == Payment then b.rows[tid].amount else 0)
            && after.entries[r]
               == if r == rid && role == Payment
                  then SettleIfPaid(b.entries[r], Paid(after.links, r, after.rows), now)
                  else b.entries[r]
  {
    PaidConcat(b.links, [Link(rid, tid, role)], r, b.rows);
  }

  /** A receivable that is not there yet has only the links it is made with. */
  lemma NewPaid(b: Book, rid: int, added: seq<Link>)
    requires Valid(b) && rid !in b.entries
    ensures Paid(b.links + added, rid, b.rows) == Paid(added, rid, b.rows)
  {
    PaidConcat(b.links, added, rid, b.rows);
    forall link | link in b.links ensures link.rid != rid { assert LinkFits(b.rows, b.entries, link); }
    PaidOfNoLinks(b.links, rid, b.rows);
  }

  /** The new receivable of a create is settled exactly when its payments cover it. */
  lemma CreatedPaid(b: Book, rid: int, kind: Kind, amount: int, charges: seq<int>, payments: seq<int>, now: int)
    requires Valid(b) && rid !in b.entries
    requires Create(b, rid, kind, amount, charges, payments, now).1 == Done
    ensures var after := Create(b, rid, kind, amount, charges, payments, now).0;
            && (after.entries[rid].status == Settled <==> Paid(after.links, rid, after.rows) >= amount)
            && (after.entries[rid].status == Open <==> Paid(after.links, rid, after.rows) < amount)
            && after.entries[rid].amount == amount
  {
    NewPaid(b, rid, LinksOf(rid, charges, Charge) + LinksOf(rid, payments, Payment));
  }

  lemma PressIsAttach(b: Book, pid: int, choice: Option<int>, chat: int, message: int, named: bool, now: int)
    requires Press(b, pid, choice, chat, message, named, now).1 == LinkedAndSettled
    ensures choice.Some? && choice.value in b.entries && pid in b.prompts
    ensures var (after, outcome) := Attach(b, Current(b, choice.value), choice.value, b.prompts[pid].tid, Payment, now);
            && outcome == Done
            && Press(b, pid, choice, chat, message, named, now).0.links == after.links
            && Press(b, pid, choice, chat, message, named, now).0.entries == after.entries
            && Press(b, pid, choice, chat, message, named, now).0.rows == b.rows
  {
  }

  /** A merge leaves a receivable as it was, or settles it on its paid sum afterwards. */
  lemma FoldEntry(b: Book, gone: int, keep: int, survivor: Row, now: int, r: int)
    requires Foldable(b, gone, keep, survivor) && r in b.entries
    ensures var after := Fold(b, gone, keep, survivor, now);
            && r in after.entries
            && after.entries[r] == if PaysInto(after.links, keep, r)
                                   then SettleIfPaid(b.entries[r], Paid(after.links, r, after.rows), now)
                                   else b.entries[r]
  {
    var after := Fold(b, gone, keep, survivor, now);
    MovedMembers(b.links, gone, keep, KeeperRids(b.links, keep), Pays(b.links, keep));
    PaidOfSameRows(after.links, r, b.rows, after.rows);
  }

  /** Of the operations other than links, taps and edits, a merge alone may change a receivable. */
  lemma EntryStep(b: Book, op: Op, r: int)
    requires Enabled(b, op) && r in b.entries
    requires !op.OpAttach? && !op.OpPress? && !op.OpUpdate?
    ensures var after, stored := Apply(b, op), b.entries[r];
            && r in after.entries
            && (|| after.entries[r] == stored
                || (op.OpFold? && after.entries[r] == SettleIfPaid(stored, Paid(after.links, r, after.rows), op.now)))
  {
    if op.OpFold? {
      FoldEntry(b, op.gone, op.keep, op.survivor, op.now, r);
    }
  }

  /** After a link or a tap on current copies, a receivable is as before or settled on its new paid sum. */
  lemma LinkingStep(b: Book, op: Op, r: int)
    requires Valid(b) && Judged(b, op, r) && r in b.entries && (op.OpAttach? || op.OpPress?)
    ensures var after, stored := Apply(b, op), b.entries[r];
            && r in after.entries
            && (|| after.entries[r] == SettleIfPaid(stored, Paid(after.links, r, after.rows), op.now)
                || (after.entries[r] == stored && Change(b, op, r) == 0))
  {
    if op.OpAttach? {
      if op.rid == r && Attach(b, op.seen, op.rid, op.tid, op.role, op.now).1 == Done {
        AttachStep(b, op.rid, op.tid, op.role, op.now, r);
      }
    } else if Press(b, op.pid, op.choice, op.chat, op.message, op.named, op.now).1 == LinkedAndSettled {
      PressIsAttach(b, op.pid, op.choice, op.chat, op.message, op.named, op.now);
      AttachStep(b, op.choice.value, b.prompts[op.pid].tid, Payment, op.now, r);
    }
  }

  lemma UpdateStep(b: Book, op: Op, r: int)
    requires Valid(b) && Judged(b, op, r) && r in b.entries && op.OpUpdate?
    ensures OnlyLinksAdd(b, op, r) && Short(b, r) ==> Short(Apply(b, op), r)
    ensures Spares(b, op, r) && Covered(b, r) ==> Covered(Apply(b, op), r)
  {
    if op.rid == r {
      EditTakesEffect(b, r, op.newAmount, op.status, op.now);
    }
  }

  /** One operation keeps an open receivable short, and one that spares a settled receivable keeps it covered. */
  lemma StatusStep(b: Book, op: Op, r: int)
    requires Valid(b) && Enabled(b, op) && Judged(b, op, r)
    ensures OnlyLinksAdd(b, op, r) && Short(b, r) ==> Short(Apply(b, op), r)
    ensures Spares(b, op, r) && Covered(b, r) ==> Covered(Apply(b, op), r)
  {
    if r in b.entries {
      PaidChanges(b, op, r);
      if op.OpAttach? || op.OpPress? {
        LinkingStep(b, op, r);
      } else if op.OpUpdate? {
        UpdateStep(b, op, r);
      } else {
        EntryStep(b, op, r);
      }
    } else if r in Apply(b, op).entries {
      CreatedPaid(b, op.rid, op.kind, op.amount, op.charges, op.payments, op.now);
    }
  }

  /** Along every run in which only links on current copies add to a receivable, it is never open and paid
      in full, whatever happens to the others. */
  lemma {:induction false} OpenStaysBelow(b: Book, ops: seq<Op>, r: int)
    requires Valid(b) && Short(b, r) && OnlyLinksAddInRun(b, ops, r)
    ensures Short(After(b, ops), r)
    decreases |ops|
  {
    if ops != [] {
      ApplyKeeps(b, ops[0]);
      StatusStep(b, ops[0], r);
      OpenStaysBelow(Apply(b, ops[0]), ops[1..], r);
    }
  }

  /** Along every run that spares a settled receivable it stays paid in full, whatever happens to the
      others. */
  lemma {:induction false} SettledStaysPaid(b: Book, ops: seq<Op>, r: int)
    requires Valid(b) && Covered(b, r) && SparedInRun(b, ops, r)
    ensures Covered(After(b, ops), r)
    decreases |ops|
  {
    if ops != [] {
      ApplyKeeps(b, ops[0]);
      StatusStep(b, ops[0], r);
      SettledStaysPaid(Apply(b, ops[0]), ops[1..], r);
    }
  }

  /** An edit on a current copy: the amount and status asked for are stored, an open receivable whose new
      amount its payments cover is settled, and the closing time moves exactly with the status. */
  lemma EditTakesEffect(b: Book, rid: int, amount: Option<int>, status: Option<Status>, now: int)
    requires Valid(b) && rid in b.entries
    ensures var (after, outcome) := Update(b, Current(b, rid), rid, amount, status, now);
            var stored, edited := b.entries[rid], after.entries[rid];
            && outcome == Done && after == b.(entries := b.entries[rid := edited])
            && edited.kind == stored.kind
            && edited.amount == (if amount.Some? then amount.value else stored.amount)
            && (status.Some? ==> edited.status == status.value)
            && (status.None? ==>
                  edited.status == if && stored.status == Open && edited.amount != stored.amount
                                      && Paid(b.links, rid, b.rows) >= edited.amount
                                   then Settled else stored.status)
            && (edited.closedAt == if edited.status == stored.status then stored.closedAt
                                   else if edited.status == Open then None else Some(now))
  {
  }

  /******* Stale copies *******/

  /** A stale copy overwrites only what its request changed: other columns keep what is stored. */
  lemma StaleEditKeepsTheRest(b: Book, seen: Seen, rid: int, amount: Option<int>, status: Option<Status>, now: int)
    requires rid in b.entries
    ensures var after, stored := Update(b, seen, rid, amount, status, now).0.entries[rid], b.entries[rid];
            && (amount.None? || amount.value == seen.entry.amount ==> after.amount == stored.amount)
            && (amount.Some? && amount.value != seen.entry.amount ==> after.amount == amount.value)
            && (amount.None? && (status.None? || status.value == seen.entry.status) ==> after == stored)
            && (status.Some? && status.value != seen.entry.status ==> after.status == status.value)
  {
  }

  /** A manual link works on the copy its request loaded before the write lock. The receivable is
      left open although it is paid in full exactly when the payment completes the stored
      receivable but does not complete the loaded copy. */
  lemma StaleAttachExact(b: Book, seen: Seen, rid: int, tid: int, now: int)
    requires Valid(b) && rid in b.entries && (seen.entry.status == Open <==> seen.entry.closedAt == None)
    requires Attach(b, seen, rid, tid, Payment, now).1 == Done
    ensures var after := Attach(b, seen, rid, tid, Payment, now).0;
            var stored, amount := b.entries[rid], b.rows[tid].amount;
            (after.entries[rid].status == Open && Paid(after.links, rid, after.rows) >= after.entries[rid].amount)
            <==> (&& stored.status == Open && Paid(b.links, rid, b.rows) + amount >= stored.amount
                  && !(seen.entry.status == Open && seen.paid + amount >= seen.entry.amount))
  {
    PaidConcat(b.links, [Link(rid, tid, Payment)], rid, b.rows);
  }

  /** A new amount is judged by the loaded copy too. The stored receivable ends up open although it
      is paid in full exactly when it is open, its paid sum covers the amount that is stored in the
      end, and the loaded copy did not settle. */
  lemma StaleAmountExact(b: Book, seen: Seen, rid: int, amount: int, now: int)
    requires Valid(b) && rid in b.entries && (seen.entry.status == Open <==> seen.entry.closedAt == None)
    ensures var after := Update(b, seen, rid, Some(amount), None, now).0;
            var stored := b.entries[rid];
            (after.entries[rid].status == Open && Paid(after.links, rid, after.rows) >= after.entries[rid].amount)
            <==> (&& stored.status == Open
                  && Paid(b.links, rid, b.rows) >= (if amount == seen.entry.amount then stored.amount else amount)
                  && !(amount != seen.entry.amount && seen.entry.status == Open && seen.paid >= amount))
  {
  }

  const PLAIN := Row(OtherAlert, None, Credit, 60, None, false, None, None, None, None, None, None, None, None, None,
                     None, false, None, false, None, None, None, false)

  /** Two requests load a receivable of 100 with nothing paid, and each links a payment of 60.
      Both links commit, and the receivable stays open with 120 paid. */
  lemma StaleAttachLeavesOpen()
    ensures var entry := Entry(Receivable, 100, Open, None);
            var b := Book(map[1 := PLAIN, 2 := PLAIN], map[7 := entry], [], map[], map[], map[]);
            var ops := [OpAttach(Seen(entry, 0), 7, 1, Payment, 5), OpAttach(Seen(entry, 0), 7, 2, Payment, 6)];
            && Valid(b) && OpenBelow(b) && Runs(b, ops)
            && After(b, ops).entries[7] == entry
            && Paid(After(b, ops).links, 7, After(b, ops).rows) == 120
  {
    var entry := Entry(Receivable, 100, Open, None);
    var b := Book(map[1 := PLAIN, 2 := PLAIN], map[7 := entry], [], map[], map[], map[]);
    var first := OpAttach(Seen(entry, 0), 7, 1, Payment, 5);
    var second := OpAttach(Seen(entry, 0), 7, 2, Payment, 6);
    var middle := Apply(b, first);
    assert middle.links == [Link(7, 1, Payment)] && middle.entries == b.entries;
    var after := Apply(middle, second);
    assert after.links == [Link(7, 1, Payment), Link(7, 2, Payment)] && after.entries == b.entries;
    assert [first, second][1..] == [second] && [second][1..] == [];
    assert After(middle, [second]) == After(after, []) == after;
    assert after.links[1..] == [Link(7, 2, Payment)];
    assert Paid([Link(7, 2, Payment)], 7, after.rows) == 60;
    assert Runs(middle, [second]);
  }

  /** A request loads a receivable of 100 with nothing paid, a payment of 60 is linked under the lock,
      and the request lowers the amount to 50: the receivable stays open with 60 paid of 50. */
  lemma StaleAmountLeavesOpen()
    ensures var entry := Entry(Receivable, 100, Open, None);
            var b := Book(map[1 := PLAIN], map[7 := entry], [], map[], map[], map[]);
            var link := OpAttach(Current(b, 7), 7, 1, Payment, 5);
            var edit := OpUpdate(Current(b, 7), 7, Some(50), None, 6);
            var linked := Apply(b, link);
            var after := Apply(linked, edit);
            && Valid(b) && Enabled(b, link) && OnlyLinksAdd(b, link, 7) && OpenBelow(linked) && Enabled(linked, edit)
            && after.entries == map[7 := Entry(Receivable, 50, Open, None)]
            && Paid(after.links, 7, after.rows) == 60
  {
    var entry := Entry(Receivable, 100, Open, None);
    var b := Book(map[1 := PLAIN], map[7 := entry], [], map[], map[], map[]);
    var linked := Apply(b, OpAttach(Current(b, 7), 7, 1, Payment, 5));
    assert Current(b, 7) == Seen(entry, 0);
    assert linked.links == [Link(7, 1, Payment)] && linked.entries == b.entries;
    assert [Link(7, 1, Payment)][1..] == [];
    assert Paid(linked.links, 7, linked.rows) == 60;
  }
}
