/** Match prompts over whole runs, with prompt ids and row ids that can come back. */
module LedgerPrompts {
  import opened Rows
  import opened Ledger
  import opened LedgerInvariants
  import opened LedgerMoney

  /******* One tap *******/

  /** A resolved tap acts on the prompt whose own message was tapped: the row it links or dismisses
      is the row the message shows, and a linked row exists and goes to a receivable the message offers. */
  lemma TapFitsMessage(b: Book, pid: int, choice: Option<int>, chat: int, message: int, named: bool, now: int)
    requires Valid(b) && Resolves(Press(b, pid, choice, chat, message, named, now).1)
    ensures && pid in b.prompts && (chat, message) in b.messages && b.messages[(chat, message)].Some?
            && b.messages[(chat, message)].value in b.deliveries
    ensures var delivery := b.deliveries[b.messages[(chat, message)].value];
            && b.prompts[pid].tid == delivery.shown
            && (choice.Some? ==> delivery.shown in b.rows && choice.value in delivery.offers)
  {
  }

  /** A successful link tap pays the receivable exactly and settles it, and touches nothing else. */
  lemma LinkTapSettles(b: Book, pid: int, choice: Option<int>, chat: int, message: int, named: bool, now: int)
    requires Valid(b) && Press(b, pid, choice, chat, message, named, now).1 == LinkedAndSettled
    ensures var after := Press(b, pid, choice, chat, message, named, now).0;
            var rid, tid := choice.value, b.prompts[pid].tid;
            && after.links == b.links + [Link(rid, tid, Payment)]
            && Paid(after.links, rid, after.rows) == after.entries[rid].amount == b.entries[rid].amount
            && after.entries[rid].status == Settled && after.entries[rid].closedAt == Some(now)
            && (forall r :: r in b.entries && r != rid ==>
                  after.entries[r] == b.entries[r] && Paid(after.links, r, after.rows) == Paid(b.links, r, b.rows))
            && after.prompts == b.prompts[pid := b.prompts[pid].(status := Linked)]
            && after.rows == b.rows && after.deliveries == b.deliveries
  {
    PressIsAttach(b, pid, choice, chat, message, named, now);
    forall r | r in b.entries { AttachStep(b, choice.value, b.prompts[pid].tid, Payment, now, r); }
  }

  /** Every other answer leaves the tables alone, except that "Not this" closes the prompt. */
  lemma OtherTapsChangeNothing(b: Book, pid: int, choice: Option<int>, chat: int, message: int, named: bool, now: int)
    ensures var (after, tap) := Press(b, pid, choice, chat, message, named, now);
            && (!Resolves(tap) ==> after == b)
            && (tap == NotLinked ==> choice.None? && after == b.(prompts := after.prompts)
                                     && after.prompts.Keys == b.prompts.Keys
                                     && after.prompts[pid].status == Dismissed)
  {
  }

  /** When a tap on the right message of a pending prompt links: exactly when the row still fits and
      the unique indexes and the currency let it pay. */
  lemma LinkTapExact(b: Book, pid: int, rid: int, chat: int, message: int, named: bool, now: int)
    requires Valid(b) && pid in b.prompts && b.prompts[pid].status == Pending
    requires (chat, message) in b.messages && b.messages[(chat, message)] == b.prompts[pid].delivery
    ensures Press(b, pid, Some(rid), chat, message, named, now).1 == LinkedAndSettled
            <==> (&& StillFits(b, b.prompts[pid], rid, named)
                  && IsInr(b.rows[b.prompts[pid].tid].currency)
                  && !Pays(b.links, b.prompts[pid].tid)
                  && !Mentions(WithoutOthers(b.links, rid), b.prompts[pid].tid))
  {
    var tid := b.prompts[pid].tid;
    OnlyOf(b.links, rid);
    if !Pays(b.links, tid) && !Mentions(WithoutOthers(b.links, rid), tid) {
      assert Admits(b.links, Link(rid, tid, Payment));
    }
    if Admits(b.links, Link(rid, tid, Payment)) {
      forall link | link in b.links && link.tid == tid ensures link.role != Payment && link.rid != rid {
        assert Compatible(link, Link(rid, tid, Payment));
      }
    }
  }

  /** The links of one receivable. */
  function WithoutOthers(links: seq<Link>, rid: int): seq<Link> {
    if links == [] then []
    else if links[0].rid == rid then [links[0]] + WithoutOthers(links[1..], rid)
    else WithoutOthers(links[1..], rid)
  }

  lemma {:induction false} OnlyOf(links: seq<Link>, rid: int)
    ensures forall link :: link in WithoutOthers(links, rid) <==> link in links && link.rid == rid
  {
    if links != [] { OnlyOf(links[1..], rid); }
  }

  /******* One step of a prompt's life *******/

  /** The operation takes a row away. */
  predicate Removes(op: Op, tid: int) {
    op == OpDrop(tid) || (op.OpFold? && op.gone == tid)
  }

  /** A prompt whose delivery is not new was there before, with the same row and candidates; its
      status moves only away from pending; and its row was not taken away. */
  lemma PromptStep(b: Book, op: Op, p: int)
    requires Valid(b) && Enabled(b, op) && p in Apply(b, op).prompts
    requires Apply(b, op).prompts[p].delivery.Some? && Apply(b, op).prompts[p].delivery.value in b.deliveries
    ensures p in b.prompts && !Removes(op, b.prompts[p].tid)
    ensures var before, after := b.prompts[p], Apply(b, op).prompts[p];
            && after == before.(status := after.status)
            && (after.status != before.status ==> before.status == Pending && op.OpPress?)
  {
    match op
    case OpFold(gone, keep, survivor, now) => assert p in RetirePrompt(b, gone).prompts;
    case OpDrop(gone) => assert p in RetirePrompt(b, gone).prompts;
    case OpAsk(tid, offers, pid, did) => assert p in b.prompts;
    case _ =>
  }

  lemma DeliveriesStay(b: Book, op: Op)
    ensures b.deliveries.Keys <= Apply(b, op).deliveries.Keys
    ensures forall d :: d in b.deliveries ==>
              Apply(b, op).deliveries[d] == b.deliveries[d].(status := Apply(b, op).deliveries[d].status)
  {
    forall d | d in b.deliveries { DeliveryStays(b, op, d); }
  }

  lemma DeliveryStays(b: Book, op: Op, d: int)
    requires d in b.deliveries
    ensures d in Apply(b, op).deliveries
    ensures Apply(b, op).deliveries[d] == b.deliveries[d].(status := Apply(b, op).deliveries[d].status)
  {
    match op
    case OpFold(gone, keep, survivor, now) => RetiredStay(b, gone);
    case OpDrop(gone) => RetiredStay(b, gone);
    case _ =>
  }

  lemma RetiredStay(b: Book, gone: int)
    ensures var after := RetirePrompt(b, gone).deliveries;
            && after.Keys == b.deliveries.Keys
            && forall d :: d in b.deliveries ==> after[d] == b.deliveries[d].(status := after[d].status)
  {
  }

  /******* A message resolves at most one tap *******/

  predicate ResolvesVia(b: Book, op: Op, d: int) {
    && op.OpPress?
    && (op.chat, op.message) in b.messages && b.messages[(op.chat, op.message)] == Some(d)
    && Resolves(Press(b, op.pid, op.choice, op.chat, op.message, op.named, op.now).1)
  }

  /** How many taps on the messages of one delivery a run resolves. */
  function ResolvedTaps(b: Book, ops: seq<Op>, d: int): nat
    decreases |ops|
  {
    if ops == [] then 0
    else (if ResolvesVia(b, ops[0], d) then 1 else 0) + ResolvedTaps(Apply(b, ops[0]), ops[1..], d)
  }

  /** No pending prompt owns this delivery, and no later prompt can. */
  ghost predicate Spent(b: Book, d: int) {
    d in b.deliveries && forall p :: p in b.prompts && b.prompts[p].delivery == Some(d) ==> b.prompts[p].status != Pending
  }

  lemma SpentStays(b: Book, op: Op, d: int)
    requires Valid(b) && Enabled(b, op) && Spent(b, d)
    ensures Spent(Apply(b, op), d) && !ResolvesVia(b, op, d)
  {
    var after := Apply(b, op);
    DeliveriesStay(b, op);
    forall p | p in after.prompts && after.prompts[p].delivery == Some(d)
      ensures after.prompts[p].status != Pending
    {
      PromptStep(b, op, p);
    }
  }

  lemma ResolvingSpends(b: Book, op: Op, d: int)
    requires Valid(b) && Enabled(b, op) && ResolvesVia(b, op, d)
    ensures Spent(Apply(b, op), d)
  {
    var after := Apply(b, op);
    assert PromptFits(b.prompts, b.deliveries, op.pid);
    DeliveriesStay(b, op);
    forall p | p in after.prompts && after.prompts[p].delivery == Some(d)
      ensures after.prompts[p].status != Pending
    {
      PromptStep(b, op, p);
    }
  }

  lemma {:induction false} SpentResolvesNone(b: Book, ops: seq<Op>, d: int)
    requires Valid(b) && Runs(b, ops) && Spent(b, d)
    ensures ResolvedTaps(b, ops, d) == 0
    decreases |ops|
  {
    if ops != [] {
      ApplyKeeps(b, ops[0]);
      SpentStays(b, ops[0], d);
      SpentResolvesNone(Apply(b, ops[0]), ops[1..], d);
    }
  }

  /** A prompt leaves pending at most once: in any run, whatever ids are reused, at most one tap on
      the messages of a delivery is resolved. */
  lemma {:induction false} OneTapPerDelivery(b: Book, ops: seq<Op>, d: int)
    requires Valid(b) && Runs(b, ops)
    ensures ResolvedTaps(b, ops, d) <= 1
    decreases |ops|
  {
    if ops != [] {
      ApplyKeeps(b, ops[0]);
      if ResolvesVia(b, ops[0], d) {
        ResolvingSpends(b, ops[0], d);
        SpentResolvesNone(Apply(b, ops[0]), ops[1..], d);
      } else {
        OneTapPerDelivery(Apply(b, ops[0]), ops[1..], d);
      }
    }
  }

  /******* No ABA *******/

  /** All along the run prompt `p` asks about row `tid` through delivery `d`, and no step takes the
      row away. */
  ghost predicate Lives(b: Book, ops: seq<Op>, p: int, tid: int, d: int)
    decreases |ops|
  {
    && p in b.prompts && b.prompts[p].tid == tid && b.prompts[p].delivery == Some(d)
    && (ops != [] ==> !Removes(ops[0], tid) && Lives(Apply(b, ops[0]), ops[1..], p, tid, d))
  }

  /** The row exists all along the run. */
  ghost predicate Present(b: Book, ops: seq<Op>, tid: int)
    decreases |ops|
  {
    tid in b.rows && (ops != [] ==> Present(Apply(b, ops[0]), ops[1..], tid))
  }

  lemma {:induction false} PromptLives(b: Book, ops: seq<Op>, p: int, d: int)
    requires Valid(b) && Runs(b, ops) && d in b.deliveries
    requires p in After(b, ops).prompts && After(b, ops).prompts[p].delivery == Some(d)
    ensures Lives(b, ops, p, After(b, ops).prompts[p].tid, d)
    decreases |ops|
  {
    if ops != [] {
      ApplyKeeps(b, ops[0]);
      DeliveriesStay(b, ops[0]);
      PromptLives(Apply(b, ops[0]), ops[1..], p, d);
      PromptStep(b, ops[0], p);
    }
  }

  lemma {:induction false} LivingRowStays(b: Book, ops: seq<Op>, p: int, tid: int, d: int)
    requires Lives(b, ops, p, tid, d) && tid in b.rows
    ensures Present(b, ops, tid)
    decreases |ops|
  {
    if ops != [] {
      LivingRowStays(Apply(b, ops[0]), ops[1..], p, tid, d);
    }
  }

  /** From the prompt to the tap: a sweep saves a prompt about row `tid` with delivery `d`, a run
      follows, and then a tap on a message of `d` is resolved. The tap acted on the very prompt the
      sweep saved, and no step took the row away in between. So it acted on the very row the sweep
      asked about exactly when that row still existed when the prompt was saved. */
  lemma TapActsOnAskedRow(b: Book, tid: int, offers: seq<int>, pid: int, did: int, ops: seq<Op>, tap: Op)
    requires Valid(b) && Ask(b, tid, offers, pid, did) != b
    requires Runs(Ask(b, tid, offers, pid, did), ops)
    requires ResolvesVia(After(Ask(b, tid, offers, pid, did), ops), tap, did)
    ensures tap.pid == pid && (tap.choice.Some? ==> tap.choice.value in offers)
    ensures Lives(Ask(b, tid, offers, pid, did), ops, pid, tid, did)
    ensures Present(Ask(b, tid, offers, pid, did), ops, tid) <==> tid in b.rows
  {
    var asked := Ask(b, tid, offers, pid, did);
    var at := After(asked, ops);
    AskKeeps(b, tid, offers, pid, did);
    RunKeeps(asked, ops);
    assert PromptFits(at.prompts, at.deliveries, tap.pid);
    PromptLives(asked, ops, tap.pid, did);
    assert tap.pid == pid by {
      forall p | p in b.prompts ensures b.prompts[p].delivery != Some(did) {
        assert PromptFits(b.prompts, b.deliveries, p);
      }
      LivesAtStart(asked, ops, tap.pid, at.prompts[tap.pid].tid, did);
    }
    OffersStay(asked, ops, did);
    if tid in b.rows {
      LivingRowStays(asked, ops, pid, tid, did);
    }
  }

  lemma LivesAtStart(b: Book, ops: seq<Op>, p: int, tid: int, d: int)
    requires Lives(b, ops, p, tid, d)
    ensures p in b.prompts && b.prompts[p].delivery == Some(d) && b.prompts[p].tid == tid
  {
  }

  lemma {:induction false} OffersStay(b: Book, ops: seq<Op>, d: int)
    requires d in b.deliveries
    ensures d in After(b, ops).deliveries
    ensures After(b, ops).deliveries[d].offers == b.deliveries[d].offers
    ensures After(b, ops).deliveries[d].shown == b.deliveries[d].shown
    decreases |ops|
  {
    if ops != [] {
      DeliveriesStay(b, ops[0]);
      OffersStay(Apply(b, ops[0]), ops[1..], d);
    }
  }

  /******* A prompt for a row that is gone *******/

  lemma OnlyInsertsAdd(b: Book, op: Op, tid: int)
    requires Enabled(b, op) && tid !in b.rows && tid in Apply(b, op).rows
    ensures op.OpInsert? && op.tid == tid
  {
  }

  /** A row that was not there comes by an insert only. */
  lemma {:induction false} RowComesByInsert(b: Book, ops: seq<Op>, tid: int) returns (i: nat)
    requires Runs(b, ops) && tid !in b.rows && tid in After(b, ops).rows
    ensures i < |ops| && ops[i].OpInsert? && ops[i].tid == tid
    decreases |ops|
  {
    if tid in Apply(b, ops[0]).rows {
      OnlyInsertsAdd(b, ops[0], tid);
      i := 0;
    } else {
      i := RowComesByInsert(Apply(b, ops[0]), ops[1..], tid);
      i := i + 1;
    }
  }

  /** When the row was gone before its prompt was saved, a tap that links it links a row inserted later
      under the same id, which nobody asked about. */
  lemma OrphanTapLinksALaterRow(b: Book, tid: int, offers: seq<int>, pid: int, did: int, ops: seq<Op>, tap: Op)
    returns (i: nat)
    requires Valid(b) && Ask(b, tid, offers, pid, did) != b && tid !in b.rows
    requires Runs(Ask(b, tid, offers, pid, did), ops)
    requires ResolvesVia(After(Ask(b, tid, offers, pid, did), ops), tap, did) && tap.choice.Some?
    ensures i < |ops| && ops[i].OpInsert? && ops[i].tid == tid
  {
    TapActsOnAskedRow(b, tid, offers, pid, did, ops, tap);
    var asked := Ask(b, tid, offers, pid, did);
    AskKeeps(b, tid, offers, pid, did);
    RunKeeps(asked, ops);
    LivesAtEnd(asked, ops, pid, tid, did);
    i := RowComesByInsert(asked, ops, tid);
  }

  lemma {:induction false} LivesAtEnd(b: Book, ops: seq<Op>, p: int, tid: int, d: int)
    requires Lives(b, ops, p, tid, d)
    ensures p in After(b, ops).prompts && After(b, ops).prompts[p].tid == tid
    decreases |ops|
  {
    if ops != [] {
      LivesAtEnd(Apply(b, ops[0]), ops[1..], p, tid, d);
    }
  }

  const OTHER := PLAIN.(note := Some("other"))

  /** The tables of the run below: with the row, without it, with its prompt, with another row under the
      same id, and when the tap comes in. */
  const SWEPT := Book(map[1 := PLAIN], map[7 := Entry(Receivable, 60, Open, None)], [], map[], map[], map[])
  const GONE := SWEPT.(rows := map[])
  const ASKED := GONE.(prompts := map[3 := Prompt(1, [7], Pending, Some(4))],
                       deliveries := map[4 := Delivery(1, [7], Queued)])
  const REUSED := ASKED.(rows := map[1 := OTHER])
  const SENT := REUSED.(deliveries := map[4 := Delivery(1, [7], Delivered)], messages := map[(8, 9) := Some(4)])

  lemma RowGoes()
    ensures Valid(SWEPT) && Drop(SWEPT, 1) == GONE
  {
    var retired := RetirePrompt(SWEPT, 1);
    assert retired.prompts == map[] && retired.deliveries == map[];
    assert SWEPT.rows - {1} == map[];
  }

  lemma PromptForAGoneRow()
    ensures Apply(GONE, OpAsk(1, [7], 3, 4)) == ASKED && Apply(ASKED, OpInsert(1, OTHER)) == REUSED
  {
  }

  lemma MessageGoesOut()
    ensures Apply(REUSED, OpSend(8, 9, Some(4))) == SENT
  {
  }

  lemma TapOnAnotherRow()
    ensures Apply(SENT, OpPress(3, Some(7), 8, 9, true, 5))
         == SENT.(links := [Link(7, 1, Payment)], entries := map[7 := Entry(Receivable, 60, Settled, Some(5))],
                  prompts := map[3 := Prompt(1, [7], Linked, Some(4))])
  {
    assert StillFits(SENT, SENT.prompts[3], 7, true);
    assert [] + [Link(7, 1, Payment)] == [Link(7, 1, Payment)];
  }

  lemma OneStep(b: Book, op: Op, rest: seq<Op>, ops: seq<Op>)
    requires ops == [op] + rest
    ensures After(b, ops) == After(Apply(b, op), rest)
    ensures Runs(b, ops) <==> Enabled(b, op) && Runs(Apply(b, op), rest)
  {
    assert ops[0] == op && ops[1..] == rest;
  }

  lemma TapRun()
    ensures var ops := [OpInsert(1, OTHER), OpSend(8, 9, Some(4)), OpPress(3, Some(7), 8, 9, true, 5)];
            && Runs(ASKED, ops) && After(ASKED, ops).links == [Link(7, 1, Payment)]
            && After(ASKED, ops).rows == map[1 := OTHER]
  {
    var send, tap := OpSend(8, 9, Some(4)), OpPress(3, Some(7), 8, 9, true, 5);
    PromptForAGoneRow();
    MessageGoesOut();
    TapOnAnotherRow();
    OneStep(SENT, tap, [], [tap]);
    OneStep(REUSED, send, [tap], [send, tap]);
    OneStep(ASKED, OpInsert(1, OTHER), [send, tap], [OpInsert(1, OTHER), send, tap]);
  }

  lemma AskRun()
    ensures var ops := [OpAsk(1, [7], 3, 4), OpInsert(1, OTHER), OpSend(8, 9, Some(4)),
                        OpPress(3, Some(7), 8, 9, true, 5)];
            && Runs(GONE, ops) && After(GONE, ops).links == [Link(7, 1, Payment)]
            && After(GONE, ops).rows == map[1 := OTHER]
  {
    var rest := [OpInsert(1, OTHER), OpSend(8, 9, Some(4)), OpPress(3, Some(7), 8, 9, true, 5)];
    PromptForAGoneRow();
    TapRun();
    OneStep(GONE, OpAsk(1, [7], 3, 4), rest, [OpAsk(1, [7], 3, 4)] + rest);
  }

  /** The run that breaks it: the sweep saves its prompt after the row was deleted, a new row takes the
      id, and the tap pays the receivable with the new row. */
  lemma StaleSweepLinksAnotherRow()
    ensures var ops := [OpAsk(1, [7], 3, 4), OpInsert(1, OTHER), OpSend(8, 9, Some(4)),
                        OpPress(3, Some(7), 8, 9, true, 5)];
            var gone := Apply(SWEPT, OpDrop(1));
            && Valid(SWEPT) && Enabled(SWEPT, OpDrop(1)) && 1 in SWEPT.rows && SWEPT.rows[1] != OTHER
            && Runs(gone, ops)
            && After(gone, ops).links == [Link(7, 1, Payment)] && After(gone, ops).rows == map[1 := OTHER]
  {
    RowGoes();
    AskRun();
  }
}
