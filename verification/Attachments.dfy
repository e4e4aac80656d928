/** Claiming a row's source slot with a copy of the row that may be stale. */
module Attachments {
  import opened Rows

  datatype Channel = Sms | Email

  /** The two source slots of a row. */
  datatype Slots = Slots(sms: Option<int>, email: Option<int>) {
    function Get(channel: Channel): Option<int> {
      if channel == Sms then sms else email
    }

    function Set(channel: Channel, source: int): Slots {
      if channel == Sms then this.(sms := Some(source)) else this.(email := Some(source))
    }
  }

  /** What one claim leaves in the table and in the loaded copy, and whether it raised. */
  datatype Claimed = Claimed(rows: map<int, Slots>, copy: Slots, conflict: bool)

  function Claim(rows: map<int, Slots>, tid: int, copy: Slots, channel: Channel, source: Option<int>): Claimed {
    if source.None? || copy.Get(channel).Some? then Claimed(rows, copy, false)
    else if tid in rows && (rows[tid].Get(channel).None? || rows[tid].Get(channel) == source)
    then Claimed(rows[tid := rows[tid].Set(channel, source.value)], copy.Set(channel, source.value), false)
    else Claimed(rows, copy, true)
  }

  class SlotTable {
    var rows: map<int, Slots>

    constructor ()
      ensures rows == map[]
    {
      rows := map[];
    }

    /** The conditional UPDATE; returns its row count. */
    method UpdateIfOpen(tid: int, channel: Channel, source: int) returns (count: nat)
      modifies this
      ensures count == 1 <==> tid in old(rows) && (old(rows)[tid].Get(channel) in {None, Some(source)})
      ensures rows == if count == 1 then old(rows)[tid := old(rows)[tid].Set(channel, source)] else old(rows)
      ensures count <= 1
    {
      if tid in rows && (rows[tid].Get(channel) == None || rows[tid].Get(channel) == Some(source)) {
        rows := rows[tid := rows[tid].Set(channel, source)];
        return 1;
      }
      return 0;
    }
  }

  /** A row as one session loaded it. */
  class LoadedRow {
    const id: int
    var slots: Slots

    constructor (table: SlotTable, id: int)
      requires id in table.rows
      ensures this.id == id && slots == table.rows[id]
    {
      this.id := id;
      slots := table.rows[id];
    }

    method ClaimSlot(table: SlotTable, channel: Channel, source: Option<int>) returns (conflict: bool)
      modifies this, table
      ensures Claimed(table.rows, slots, conflict) == Claim(old(table.rows), id, old(slots), channel, source)
    {
      if source.None? {
        return false;
      }
      if slots.Get(channel).Some? {
        return false;
      }
      var count := table.UpdateIfOpen(id, channel, source.value);
      if count != 1 {
        return true;
      }
      slots := slots.Set(channel, source.value);
      return false;
    }
  }

  /******* Workers *******/

  /** A worker loads a row, claims a slot, and only then enriches the row. `open` tells whether the
      slot looked open in its copy. */
  datatype Worker =
    | Holding(tid: int, copy: Slots)
    | Owning(tid: int, channel: Channel, source: Option<int>, open: bool)
    | Enriched(tid: int, channel: Channel, source: Option<int>, open: bool)
    | Raised

  datatype World = World(rows: map<int, Slots>, workers: map<int, Worker>)

  datatype Event =
    | Store(tid: int, slots: Slots)
    | Load(worker: int, tid: int)
    | TryClaim(worker: int, channel: Channel, source: Option<int>)
    | Enrich(worker: int)

  predicate HasEmail(rows: map<int, Slots>, email: int) {
    exists t :: t in rows && rows[t].email == Some(email)
  }

  function Step(w: World, e: Event): World {
    match e
    case Store(tid, slots) => if tid in w.rows then w else w.(rows := w.rows[tid := slots])
    case Load(worker, tid) =>
      if tid in w.rows then w.(workers := w.workers[worker := Holding(tid, w.rows[tid])]) else w
    case TryClaim(worker, channel, source) =>
      if worker in w.workers && w.workers[worker].Holding? then
        var held := w.workers[worker];
        var claimed := Claim(w.rows, held.tid, held.copy, channel, source);
        World(claimed.rows,
              w.workers[worker := if claimed.conflict then Raised
                                  else Owning(held.tid, channel, source, held.copy.Get(channel).None?)])
      else w
    case Enrich(worker) =>
      if worker in w.workers && w.workers[worker].Owning? then
        var owning := w.workers[worker];
        w.(workers := w.workers[worker := Enriched(owning.tid, owning.channel, owning.source, owning.open)])
      else w
  }

  function Run(w: World, events: seq<Event>): World
    decreases |events|
  {
    if events == [] then w else Run(Step(w, events[0]), events[1..])
  }

  /******* One owner for ever *******/

  lemma StepKeepsOwner(w: World, e: Event, tid: int, channel: Channel)
    requires tid in w.rows && w.rows[tid].Get(channel).Some?
    ensures tid in Step(w, e).rows && Step(w, e).rows[tid].Get(channel) == w.rows[tid].Get(channel)
  {
  }

  /** Under every interleaving a slot that has an owner keeps it. */
  lemma {:induction false} OwnerNeverChanges(w: World, events: seq<Event>, tid: int, channel: Channel)
    requires tid in w.rows && w.rows[tid].Get(channel).Some?
    ensures tid in Run(w, events).rows && Run(w, events).rows[tid].Get(channel) == w.rows[tid].Get(channel)
    decreases |events|
  {
    if events != [] {
      StepKeepsOwner(w, events[0], tid, channel);
      OwnerNeverChanges(Step(w, events[0]), events[1..], tid, channel);
    }
  }

  /** How often a run changes the slot of a stored row. */
  function Writes(w: World, events: seq<Event>, tid: int, channel: Channel): nat
    decreases |events|
  {
    if events == [] then 0
    else
      var next := Step(w, events[0]).rows;
      (if tid in w.rows && tid in next && next[tid].Get(channel) != w.rows[tid].Get(channel) then 1 else 0)
      + Writes(Step(w, events[0]), events[1..], tid, channel)
  }

  lemma {:induction false} WrittenAtMostOnce(w: World, events: seq<Event>, tid: int, channel: Channel)
    ensures Writes(w, events, tid, channel) <= 1
    ensures tid in w.rows && w.rows[tid].Get(channel).Some? ==> Writes(w, events, tid, channel) == 0
    decreases |events|
  {
    if events != [] {
      WrittenAtMostOnce(Step(w, events[0]), events[1..], tid, channel);
      if tid in w.rows && w.rows[tid].Get(channel).Some? {
        StepKeepsOwner(w, events[0], tid, channel);
      }
    }
  }

  /******* No enrichment without the slot *******/

  /** A worker that saw the slot open and went on owns it, and a copy never shows more than the row. */
  ghost predicate Honest(w: World, worker: Worker) {
    match worker
    case Holding(tid, copy) =>
      tid in w.rows && forall channel :: copy.Get(channel).Some? ==> w.rows[tid].Get(channel) == copy.Get(channel)
    case Owning(tid, channel, source, open) =>
      tid in w.rows && (source.Some? ==> w.rows[tid].Get(channel).Some? && (open ==> w.rows[tid].Get(channel) == source))
    case Enriched(tid, channel, source, open) =>
      tid in w.rows && (source.Some? ==> w.rows[tid].Get(channel).Some? && (open ==> w.rows[tid].Get(channel) == source))
    case Raised => true
  }

  ghost predicate AllHonest(w: World) {
    forall k :: k in w.workers ==> Honest(w, w.workers[k])
  }

  lemma StepKeepsHonest(w: World, e: Event)
    requires AllHonest(w)
    ensures AllHonest(Step(w, e))
  {
    var after := Step(w, e);
    forall k | k in after.workers ensures Honest(after, after.workers[k]) {
      if k in w.workers {
        assert Honest(w, w.workers[k]);
      }
      forall tid, channel | tid in w.rows && w.rows[tid].Get(channel).Some? {
        StepKeepsOwner(w, e, tid, channel);
      }
    }
  }

  /** Under every interleaving, whoever enriched a row through a slot that looked open owns that
      slot; a worker that lost the race has raised instead. */
  lemma {:induction false} EnrichersOwnTheirSlot(w: World, events: seq<Event>)
    requires AllHonest(w)
    ensures AllHonest(Run(w, events))
    decreases |events|
  {
    if events != [] {
      StepKeepsHonest(w, events[0]);
      EnrichersOwnTheirSlot(Step(w, events[0]), events[1..]);
    }
  }

  /** Exactly when a claim raises: the slot looked open, but another source has it by now. A raise
      changes no row. */
  lemma ClaimRaisesExactly(w: World, worker: int, channel: Channel, source: int)
    requires AllHonest(w) && worker in w.workers && w.workers[worker].Holding?
    ensures var held := w.workers[worker];
            var after := Step(w, TryClaim(worker, channel, Some(source)));
            && (after.workers[worker] == Raised
                <==> held.copy.Get(channel).None? && w.rows[held.tid].Get(channel).Some?
                     && w.rows[held.tid].Get(channel) != Some(source))
            && (after.workers[worker] == Raised ==> after.rows == w.rows)
  {
  }

  /******* One row for an email *******/

  ghost predicate EmailsOnce(rows: map<int, Slots>) {
    forall s, t :: s in rows && t in rows && rows[s].email.Some? && rows[s].email == rows[t].email ==> s == t
  }

  /** The row and the email that a step newly brings together. */
  function Attaches(w: World, e: Event): Option<(int, int)> {
    match e
    case Store(tid, slots) => if tid !in w.rows && slots.email.Some? then Some((tid, slots.email.value)) else None
    case TryClaim(worker, channel, source) =>
      if worker in w.workers && w.workers[worker].Holding? && channel == Email && source.Some? then
        var held := w.workers[worker];
        if held.copy.email.None? && held.tid in w.rows && w.rows[held.tid].email.None?
        then Some((held.tid, source.value)) else None
      else None
    case _ => None
  }

  /** Exactly when a step leaves every email on one row: when the email it attaches, if any, is on none. */
  lemma EmailsOnceExactly(w: World, e: Event)
    requires EmailsOnce(w.rows)
    ensures EmailsOnce(Step(w, e).rows) <==> (Attaches(w, e).Some? ==> !HasEmail(w.rows, Attaches(w, e).value.1))
  {
    var after := Step(w, e).rows;
    if Attaches(w, e).Some? {
      var (tid, email) := Attaches(w, e).value;
      assert tid in after && after[tid].email == Some(email);
      if HasEmail(w.rows, email) {
        var t :| t in w.rows && w.rows[t].email == Some(email);
        assert t in after && after[t].email == Some(email) && t != tid;
      }
    } else {
      assert forall t :: t in after && after[t].email.Some? ==> t in w.rows && w.rows[t].email == after[t].email;
    }
  }

  /** The claim alone guards the row, not the email: without the lock two workers can attach one
      email to two rows. */
  lemma UnlockedClaimsShareAnEmail()
    ensures var w := World(map[1 := Slots(None, None), 2 := Slots(None, None)], map[]);
            var events := [Load(8, 1), Load(9, 2), TryClaim(8, Email, Some(5)), TryClaim(9, Email, Some(5))];
            EmailsOnce(w.rows) && !EmailsOnce(Run(w, events).rows)
  {
    var w := World(map[1 := Slots(None, None), 2 := Slots(None, None)], map[]);
    var w1 := Step(w, Load(8, 1));
    var w2 := Step(w1, Load(9, 2));
    var w3 := Step(w2, TryClaim(8, Email, Some(5)));
    var w4 := Step(w3, TryClaim(9, Email, Some(5)));
    assert w4.rows[1].email == Some(5) && w4.rows[2].email == Some(5);
    var events := [Load(8, 1), Load(9, 2), TryClaim(8, Email, Some(5)), TryClaim(9, Email, Some(5))];
    assert events[1..] == [Load(9, 2), TryClaim(8, Email, Some(5)), TryClaim(9, Email, Some(5))];
    assert events[1..][1..] == [TryClaim(8, Email, Some(5)), TryClaim(9, Email, Some(5))];
    assert events[1..][1..][1..] == [TryClaim(9, Email, Some(5))];
    assert Run(w, events) == Run(w1, events[1..]) == Run(w2, events[1..][1..]) == Run(w3, events[1..][1..][1..]) == w4;
  }
}
