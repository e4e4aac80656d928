/** The sweep that asks once about each recent row an open receivable fits. */
module MatchSweep {
  import opened Rows
  import opened Ledger
  import opened LedgerInvariants
  import opened LedgerPrompts
  import opened LedgerTables
  import opened Matches

  /** A recent row, and the ids the database gives its prompt and its outbox message. */
  datatype Question = Question(tid: int, pid: int, did: int)

  /** What rows say, and the stored identifiers and name words of each receivable's person. */
  datatype Names = Names(
    evidence: int -> Evidence,
    known: int -> seq<(IdentifierKind, string)>,
    words: int -> seq<string>)

  /** How a row names the person of a receivable. */
  function NamedBy(names: Names, tid: int, rid: int): Option<Found> {
    Identity(names.evidence(tid), names.known(rid), names.words(rid))
  }

  /** The open receivables in the order they are read. */
  function OpenClaims(b: Book, order: seq<int>): seq<Claim>
    requires forall i :: 0 <= i < |order| ==> order[i] in b.entries
  {
    if order == [] then []
    else
      var entry := b.entries[order[0]];
      var rest := OpenClaims(b, order[1..]);
      if entry.status == Open
      then [Claim(order[0], entry.kind, Open, entry.amount - Paid(b.links, order[0], b.rows))] + rest
      else rest
  }

  /** A row the sweep may ask about: with no currency or INR, not voided, not linked, not prompted. */
  predicate Sweepable(b: Book, tid: int) {
    && tid in b.rows
    && b.rows[tid].currency in {None, Some("INR")}
    && !b.rows[tid].voided
    && !Mentions(b.links, tid)
    && !Prompted(b, tid)
  }

  function Offers(b: Book, claims: seq<Claim>, tid: int, names: Names): seq<int>
    requires tid in b.rows
  {
    MatchReceivables(b.rows[tid], claims, rid => NamedBy(names, tid, rid))
  }

  predicate Asks(b: Book, claims: seq<Claim>, tid: int, names: Names) {
    Sweepable(b, tid) && Offers(b, claims, tid, names) != []
  }

  /** The operations of one sweep; `b` is the state its queries read. */
  function SweepOps(b: Book, claims: seq<Claim>, todo: seq<Question>, names: Names): seq<Op> {
    if todo == [] then []
    else
      var rest := SweepOps(b, claims, todo[1..], names);
      if Asks(b, claims, todo[0].tid, names)
      then [OpAsk(todo[0].tid, Offers(b, claims, todo[0].tid, names), todo[0].pid, todo[0].did)] + rest
      else rest
  }

  /** The queries of a sweep, and the rows it decides to ask about. It holds no lock. */
  method ReadSweep(tables: Tables, order: seq<int>, recent: seq<Question>, names: Names)
    returns (questions: seq<(Question, seq<int>)>)
    requires forall i :: 0 <= i < |order| ==> order[i] in tables.entries
    ensures OpsOf(questions) == SweepOps(tables.State(), OpenClaims(tables.State(), order), recent, names)
  {
    var claims: seq<Claim> := [];
    var i := |order|;
    while i > 0
      invariant 0 <= i <= |order|
      invariant claims == OpenClaims(tables.State(), order[i..])
    {
      i := i - 1;
      assert order[i..][0] == order[i] && order[i..][1..] == order[i + 1..];
      var entry := tables.entries[order[i]];
      if entry.status == Open {
        var paid := tables.PaidSum(tables.links, order[i]);
        claims := [Claim(order[i], entry.kind, Open, entry.amount - paid)] + claims;
      }
    }
    questions := [];
    i := |recent|;
    while i > 0
      invariant 0 <= i <= |recent|
      invariant OpsOf(questions) == SweepOps(tables.State(), claims, recent[i..], names)
    {
      i := i - 1;
      assert recent[i..][0] == recent[i] && recent[i..][1..] == recent[i + 1..];
      var tid := recent[i].tid;
      if Sweepable(tables.State(), tid) {
        var offers := Offers(tables.State(), claims, tid, names);
        if offers != [] {
          assert ([(recent[i], offers)] + questions)[1..] == questions;
          questions := [(recent[i], offers)] + questions;
        }
      }
    }
    assert recent[0..] == recent && order[0..] == order;
  }

  /** The inserts of a sweep, into tables that may have changed since it read them. */
  method SavePrompts(tables: Tables, questions: seq<(Question, seq<int>)>) returns (sent: nat)
    modifies tables`prompts, tables`deliveries
    ensures tables.State() == After(old(tables.State()), OpsOf(questions))
    ensures sent == Sent(old(tables.State()), questions)
  {
    ghost var begin := tables.State();
    sent := 0;
    assert questions[0..] == questions;
    for i := 0 to |questions|
      invariant After(begin, OpsOf(questions)) == After(tables.State(), OpsOf(questions[i..]))
      invariant Sent(begin, questions) == sent + Sent(tables.State(), questions[i..])
    {
      assert questions[i..][0] == questions[i] && questions[i..][1..] == questions[i + 1..];
      var (question, offers) := questions[i];
      var queued := tables.QueuePrompt(question.tid, offers, question.pid, question.did);
      if queued {
        sent := sent + 1;
      }
    }
  }

  /** How many questions save a prompt; one about a row that has a prompt by now saves none. */
  function Sent(b: Book, questions: seq<(Question, seq<int>)>): nat
    decreases |questions|
  {
    if questions == [] then 0
    else
      var (question, offers) := questions[0];
      var next := Ask(b, question.tid, offers, question.pid, question.did);
      (if next == b then 0 else 1) + Sent(next, questions[1..])
  }

  function OpsOf(questions: seq<(Question, seq<int>)>): seq<Op> {
    if questions == [] then []
    else [OpAsk(questions[0].0.tid, questions[0].1, questions[0].0.pid, questions[0].0.did)] + OpsOf(questions[1..])
  }

  /******* What a sweep leaves behind *******/

  predicate NoRepeats(order: seq<int>) {
    forall i, j :: 0 <= i < j < |order| ==> order[i] != order[j]
  }

  ghost predicate IsClaim(b: Book, claim: Claim) {
    && claim.id in b.entries && b.entries[claim.id].status == Open == claim.status
    && claim.kind == b.entries[claim.id].kind
    && claim.outstanding == b.entries[claim.id].amount - Paid(b.links, claim.id, b.rows)
  }

  lemma {:induction false} ClaimsFit(b: Book, order: seq<int>)
    requires (forall i :: 0 <= i < |order| ==> order[i] in b.entries) && NoRepeats(order)
    ensures forall claim :: claim in OpenClaims(b, order) ==> IsClaim(b, claim) && claim.id in order
    ensures DistinctClaims(OpenClaims(b, order))
  {
    if order != [] {
      var tail := order[1..];
      forall i, j | 0 <= i < j < |tail| ensures tail[i] != tail[j] {
        assert tail[i] == order[i + 1] && tail[j] == order[j + 1];
      }
      ClaimsFit(b, tail);
      forall r | r in tail ensures r != order[0] {
        var k :| 0 <= k < |tail| && tail[k] == r;
        assert order[k + 1] == r;
      }
    }
  }

  /** `after` is `now` with more prompts, each about a row that qualified, with exactly its offers. */
  ghost predicate OnlyAsked(b: Book, now: Book, after: Book, claims: seq<Claim>, names: Names) {
    && after == now.(prompts := after.prompts, deliveries := after.deliveries)
    && (forall p :: p in now.prompts ==> p in after.prompts && after.prompts[p] == now.prompts[p])
    && (forall p :: p in after.prompts && p !in now.prompts ==>
          && Asks(b, claims, after.prompts[p].tid, names)
          && after.prompts[p].candidates == Offers(b, claims, after.prompts[p].tid, names)
          && after.prompts[p].status == Pending
          && after.prompts[p].delivery.Some?)
  }

  lemma OneQuestion(b: Book, now: Book, claims: seq<Claim>, question: Question, names: Names)
    requires Asks(b, claims, question.tid, names)
    ensures OnlyAsked(b, now, Ask(now, question.tid, Offers(b, claims, question.tid, names), question.pid, question.did),
                      claims, names)
  {
  }

  lemma OnlyAskedTwice(b: Book, now: Book, next: Book, after: Book, claims: seq<Claim>, names: Names)
    requires OnlyAsked(b, now, next, claims, names) && OnlyAsked(b, next, after, claims, names)
    ensures OnlyAsked(b, now, after, claims, names)
  {
  }

  /** A sweep is a run of `OpAsk`, so everything proved of runs holds of it; it adds prompts only. */
  lemma {:induction false} SweepOnlyAsks(b: Book, now: Book, claims: seq<Claim>, todo: seq<Question>, names: Names)
    ensures Runs(now, SweepOps(b, claims, todo, names))
    ensures OnlyAsked(b, now, After(now, SweepOps(b, claims, todo, names)), claims, names)
    decreases |todo|
  {
    if todo != [] {
      var rest := SweepOps(b, claims, todo[1..], names);
      if Asks(b, claims, todo[0].tid, names) {
        var op := OpAsk(todo[0].tid, Offers(b, claims, todo[0].tid, names), todo[0].pid, todo[0].did);
        OneQuestion(b, now, claims, todo[0], names);
        SweepOnlyAsks(b, Apply(now, op), claims, todo[1..], names);
        OneStep(now, op, rest, [op] + rest);
        OnlyAskedTwice(b, now, Apply(now, op), After(now, [op] + rest), claims, names);
      } else {
        SweepOnlyAsks(b, now, claims, todo[1..], names);
      }
    }
  }

  /** Every Link button of a new prompt works: if nothing else happens first, the row still names the
      person, and a tap on the button links the row and settles the receivable exactly. */
  lemma EveryNewButtonSettles(b: Book, order: seq<int>, todo: seq<Question>, names: Names, p: int, rid: int,
                              chat: int, message: int, now: int)
    requires Valid(b) && NoRepeats(order) && forall i :: 0 <= i < |order| ==> order[i] in b.entries
    requires (chat, message) !in b.messages
    requires var after := After(b, SweepOps(b, OpenClaims(b, order), todo, names));
             p in after.prompts && p !in b.prompts && rid in after.prompts[p].candidates
    ensures var after := After(b, SweepOps(b, OpenClaims(b, order), todo, names));
            var delivered := Send(after, chat, message, after.prompts[p].delivery);
            var named := NamedBy(names, after.prompts[p].tid, rid).Some?;
            named && Press(delivered, p, Some(rid), chat, message, named, now).1 == LinkedAndSettled
  {
    var claims := OpenClaims(b, order);
    var ops := SweepOps(b, claims, todo, names);
    var after := After(b, ops);
    SweepOnlyAsks(b, b, claims, todo, names);
    RunKeeps(b, ops);
    assert PromptFits(after.prompts, after.deliveries, p);
    var delivered := Send(after, chat, message, after.prompts[p].delivery);
    SendKeeps(after, chat, message, after.prompts[p].delivery);
    ClaimsFit(b, order);
    var tid := after.prompts[p].tid;
    OffersFit(b.rows[tid], claims, r => NamedBy(names, tid, r), rid);
    OnlyOf(b.links, rid);
    LinkTapExact(delivered, p, rid, chat, message, true, now);
  }
}
