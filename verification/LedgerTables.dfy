/** The ledger tables as the program updates them: one statement or one row at a time. Every method
    ends in the state that the function of `Ledger` gives for its start state. */
module LedgerTables {
  import opened Rows
  import opened Ledger
  import opened LedgerInvariants

  /******* Specification of the statements *******/

  /** The table after the DELETE of a merge. */
  function Undropped(links: seq<Link>, gone: int, rids: set<int>, pays: bool): seq<Link> {
    if links == [] then []
    else if links[0].tid == gone && Dropped(links[0], rids, pays) then Undropped(links[1..], gone, rids, pays)
    else [links[0]] + Undropped(links[1..], gone, rids, pays)
  }

  function Repoint(link: Link, gone: int, keep: int): Link {
    if link.tid == gone then link.(tid := keep) else link
  }

  /** The table in the middle of the UPDATE of a merge: the first `n` rows are done. */
  function Repointed(links: seq<Link>, gone: int, keep: int, n: nat): (r: seq<Link>)
    requires n <= |links|
  {
    seq(|links|, i requires 0 <= i < |links| => if i < n then Repoint(links[i], gone, keep) else links[i])
  }

  lemma {:induction false} DeleteThenUpdate(links: seq<Link>, gone: int, keep: int, rids: set<int>, pays: bool)
    ensures var kept := Undropped(links, gone, rids, pays);
            Repointed(kept, gone, keep, |kept|) == Moved(links, gone, keep, rids, pays)
  {
    if links != [] {
      DeleteThenUpdate(links[1..], gone, keep, rids, pays);
      var kept := Undropped(links, gone, rids, pays);
      var tail := Undropped(links[1..], gone, rids, pays);
      if !(links[0].tid == gone && Dropped(links[0], rids, pays)) {
        assert kept[1..] == tail;
        assert Repointed(kept, gone, keep, |kept|)
            == [Repoint(links[0], gone, keep)] + Repointed(tail, gone, keep, |tail|);
      }
    }
  }

  lemma {:induction false} UndroppedMembers(links: seq<Link>, gone: int, rids: set<int>, pays: bool)
    ensures forall link :: link in Undropped(links, gone, rids, pays) <==>
              link in links && !(link.tid == gone && Dropped(link, rids, pays))
    ensures Unique(links) ==> Unique(Undropped(links, gone, rids, pays))
  {
    if links != [] { UndroppedMembers(links[1..], gone, rids, pays); }
  }

  /** No row of the UPDATE meets another row in an index, at any moment of the statement. */
  lemma UniqueAtEveryRow(links: seq<Link>, gone: int, keep: int, n: nat)
    requires gone != keep && Unique(links)
    requires var kept := Undropped(links, gone, KeeperRids(links, keep), Pays(links, keep)); n <= |kept|
    ensures var kept := Undropped(links, gone, KeeperRids(links, keep), Pays(links, keep));
            Unique(Repointed(kept, gone, keep, n))
  {
    var rids, pays := KeeperRids(links, keep), Pays(links, keep);
    var kept := Undropped(links, gone, rids, pays);
    UndroppedMembers(links, gone, rids, pays);
    UniqueMeans(kept);
    var now := Repointed(kept, gone, keep, n);
    forall i, j | 0 <= i < j < |now| ensures Compatible(now[i], now[j]) {
      assert Compatible(kept[i], kept[j]);
      assert kept[i] in kept && kept[j] in kept;
    }
    UniqueMeans(now);
  }

  class Tables {
    var rows: map<int, Row>
    var entries: map<int, Entry>
    var links: seq<Link>
    var prompts: map<int, Prompt>
    var deliveries: map<int, Delivery>
    var messages: map<(int, int), Option<int>>

    function State(): Book
      reads this
    {
      Book(rows, entries, links, prompts, deliveries, messages)
    }

    /** The payment rows of a receivable, summed over the given links. */
    method PaidSum(held: seq<Link>, rid: int) returns (paid: int)
      ensures paid == Paid(held, rid, rows)
    {
      paid := 0;
      var i := 0;
      while i < |held|
        invariant 0 <= i <= |held|
        invariant paid + Paid(held[i..], rid, rows) == Paid(held, rid, rows)
      {
        var link := held[i];
        assert held[i..][1..] == held[i + 1..];
        if link.rid == rid && link.role == Payment && link.tid in rows {
          paid := paid + rows[link.tid].amount;
        }
        i := i + 1;
      }
    }

    /** What the unique indexes say of one more link. */
    method CanInsert(link: Link) returns (ok: bool)
      ensures ok == Admits(links, link)
    {
      for i := 0 to |links|
        invariant forall k :: 0 <= k < i ==> Compatible(links[k], link)
      {
        if !Compatible(links[i], link) {
          return false;
        }
      }
      return true;
    }

    method AttachLink(seen: Seen, rid: int, tid: int, role: Role, now: int) returns (outcome: Outcome)
      modifies this`links, this`entries
      ensures (State(), outcome) == Attach(old(State()), seen, rid, tid, role, now)
    {
      if rid !in entries {
        return Missing;
      }
      var refusal := Linkable(rows, tid, entries[rid].kind, role);
      if refusal.Some? {
        return Refused(refusal.value);
      }
      var ok := CanInsert(Link(rid, tid, role));
      if !ok {
        return Conflict;
      }
      links := links + [Link(rid, tid, role)];
      var edited := seen.entry;
      if role == Payment {
        edited := SettleIfPaid(edited, seen.paid + rows[tid].amount, now);
      }
      entries := entries[rid := WriteBack(entries[rid], seen.entry, edited)];
      return Done;
    }

    /** The first wanted link that does not fit its role. */
    method FindRefusal(wanted: seq<Link>, kind: Kind) returns (refusal: Option<Refusal>)
      ensures refusal == FirstRefusal(rows, wanted, kind)
    {
      for i := 0 to |wanted|
        invariant FirstRefusal(rows, wanted, kind) == FirstRefusal(rows, wanted[i..], kind)
      {
        refusal := Linkable(rows, wanted[i].tid, kind, wanted[i].role);
        if refusal.Some? {
          return refusal;
        }
        assert wanted[i..][1..] == wanted[i + 1..];
      }
      return None;
    }

    method CanInsertAll(wanted: seq<Link>) returns (ok: bool)
      ensures ok == AllAdmitted(links, wanted)
    {
      for i := 0 to |wanted|
        invariant forall k :: 0 <= k < i ==> Admits(links, wanted[k])
      {
        ok := CanInsert(wanted[i]);
        if !ok {
          assert wanted[i] in wanted;
          return false;
        }
      }
      return true;
    }

    method CreateReceivable(rid: int, kind: Kind, amount: int, charges: seq<int>, payments: seq<int>, now: int)
      returns (outcome: Outcome)
      modifies this`links, this`entries
      ensures (State(), outcome) == Create(old(State()), rid, kind, amount, charges, payments, now)
    {
      var wanted := LinksOf(rid, charges, Charge) + LinksOf(rid, payments, Payment);
      if !Distinct(charges + payments) {
        return Refused(ListedTwice);
      }
      var refusal := FindRefusal(wanted, kind);
      if refusal.Some? {
        return Refused(refusal.value);
      }
      var ok := CanInsertAll(wanted);
      if !ok {
        return Conflict;
      }
      var paid := PaidSum(wanted, rid);
      links := links + wanted;
      entries := entries[rid := SettleIfPaid(Entry(kind, amount, Open, None), paid, now)];
      return Done;
    }

    method ApplyUpdate(seen: Seen, rid: int, amount: Option<int>, status: Option<Status>, now: int)
      returns (outcome: Outcome)
      modifies this`entries
      ensures (State(), outcome) == Update(old(State()), seen, rid, amount, status, now)
    {
      if rid !in entries {
        return Missing;
      }
      var entry := seen.entry;
      var amountChanged := amount.Some? && amount.value != entry.amount;
      if amount.Some? {
        entry := entry.(amount := amount.value);
      }
      if status.Some? && status.value != entry.status {
        entry := entry.(status := status.value);
        if status.value == Open {
          entry := entry.(closedAt := None);
        } else {
          entry := entry.(closedAt := Some(now));
        }
      } else if amountChanged && status.None? {
        entry := SettleIfPaid(entry, seen.paid, now);
      }
      entries := entries[rid := WriteBack(entries[rid], seen.entry, entry)];
      return Done;
    }

    /** Delete the links between one receivable and one row. */
    method RemoveLink(rid: int, tid: int) returns (outcome: Outcome)
      modifies this`links
      ensures (State(), outcome) == Unlink(old(State()), rid, tid)
    {
      var kept := [];
      var i := |links|;
      while i > 0
        invariant 0 <= i <= |links|
        invariant kept == WithoutPair(links[i..], rid, tid)
      {
        i := i - 1;
        assert links[i..][1..] == links[i + 1..];
        if !(links[i].rid == rid && links[i].tid == tid) {
          kept := [links[i]] + kept;
        }
      }
      if |kept| == |links| {
        return Missing;
      }
      links := kept;
      return Done;
    }

    method RetireMatchPrompt(gone: int)
      modifies this`prompts, this`deliveries
      ensures State() == RetirePrompt(old(State()), gone)
    {
      deliveries := map d | d in deliveries ::
        if Unsent(deliveries[d].status)
           && (exists p :: p in prompts && prompts[p].tid == gone && prompts[p].delivery == Some(d))
        then deliveries[d].(status := Cancelled)
        else deliveries[d];
      prompts := map p | p in prompts && prompts[p].tid != gone :: prompts[p];
    }

    /** The links of a deleted row go with it. */
    method DropLinks(gone: int)
      modifies this`links, this`prompts, this`deliveries
      ensures State() == ClearLinks(old(State()), gone)
    {
      RetireMatchPrompt(gone);
      var kept := [];
      var i := |links|;
      while i > 0
        invariant 0 <= i <= |links|
        invariant kept == WithoutRow(links[i..], gone)
      {
        i := i - 1;
        assert links[i..][1..] == links[i + 1..];
        if links[i].tid != gone {
          kept := [links[i]] + kept;
        }
      }
      links := kept;
    }

    method DeleteDropped(gone: int, rids: set<int>, pays: bool)
      modifies this`links
      ensures links == Undropped(old(links), gone, rids, pays)
    {
      var kept := [];
      var i := |links|;
      while i > 0
        invariant 0 <= i <= |links|
        invariant kept == Undropped(links[i..], gone, rids, pays)
      {
        i := i - 1;
        assert links[i..][1..] == links[i + 1..];
        if !(links[i].tid == gone && Dropped(links[i], rids, pays)) {
          kept := [links[i]] + kept;
        }
      }
      links := kept;
    }

    /** The UPDATE writes one row at a time and checks the indexes at each row. */
    method RepointRows(gone: int, keep: int, ghost start: seq<Link>) returns (collided: bool)
      requires gone != keep && Unique(start)
      requires links == Undropped(start, gone, KeeperRids(start, keep), Pays(start, keep))
      modifies this`links
      ensures !collided && links == Repointed(old(links), gone, keep, |old(links)|)
    {
      ghost var kept := links;
      UniqueAtEveryRow(start, gone, keep, 0);
      assert links == Repointed(kept, gone, keep, 0);
      var i := 0;
      while i < |links|
        invariant 0 <= i <= |links| == |kept|
        invariant links == Repointed(kept, gone, keep, i)
        invariant Unique(links)
      {
        UniqueAtEveryRow(start, gone, keep, i + 1);
        if links[i].tid == gone {
          var written := links[i := links[i].(tid := keep)];
          assert written == Repointed(kept, gone, keep, i + 1);
          if !Unique(written) {
            return true;
          }
          links := written;
        }
        assert links == Repointed(kept, gone, keep, i + 1);
        i := i + 1;
      }
      return false;
    }

    /** Settle the open receivables that the keeper pays. */
    method SettlePaidBy(keep: int, now: int)
      modifies this`entries
      ensures entries == map r | r in old(entries) ::
                if PaysInto(links, keep, r) then SettleIfPaid(old(entries)[r], Paid(links, r, rows), now)
                else old(entries)[r]
    {
      var i := 0;
      while i < |links|
        invariant 0 <= i <= |links|
        invariant entries == map r | r in old(entries) ::
                    if PaysInto(links[..i], keep, r) then SettleIfPaid(old(entries)[r], Paid(links, r, rows), now)
                    else old(entries)[r]
      {
        var link := links[i];
        assert links[..i + 1] == links[..i] + [link];
        if link.tid == keep && link.role == Payment && link.rid in entries && entries[link.rid].status == Open {
          var paid := PaidSum(links, link.rid);
          entries := entries[link.rid := SettleIfPaid(entries[link.rid], paid, now)];
        }
        i := i + 1;
      }
      assert links[..i] == links;
    }

    /** Point the links of a row that goes away at its keeper. The unique indexes never refuse it. */
    method MoveReceivableLinks(gone: int, keep: int, now: int) returns (collided: bool)
      requires gone != keep && Unique(links)
      modifies this`links, this`entries, this`prompts, this`deliveries
      ensures !collided && State() == MoveLinks(old(State()), gone, keep, now)
    {
      RetireMatchPrompt(gone);
      ghost var start := links;
      var rids, pays := KeeperRids(links, keep), Pays(links, keep);
      DeleteDropped(gone, rids, pays);
      collided := RepointRows(gone, keep, start);
      DeleteThenUpdate(start, gone, keep, rids, pays);
      SettlePaidBy(keep, now);
    }

    /** Save the prompt of one row and its outbox message; a row that has a prompt is skipped. */
    method QueuePrompt(tid: int, offers: seq<int>, pid: int, did: int) returns (queued: bool)
      modifies this`prompts, this`deliveries
      ensures State() == Ask(old(State()), tid, offers, pid, did) && (queued <==> State() != old(State()))
    {
      if Prompted(State(), tid) || pid in prompts || did in deliveries {
        return false;
      }
      deliveries := deliveries[did := Delivery(tid, offers, Queued)];
      prompts := prompts[pid := Prompt(tid, offers, Pending, Some(did))];
      assert pid in prompts && pid !in old(prompts);
      return true;
    }

    method ResolveMatchTap(pid: int, choice: Option<int>, chat: int, message: int, named: bool, now: int)
      returns (tap: Tap)
      modifies this`links, this`entries, this`prompts
      ensures (State(), tap) == Press(old(State()), pid, choice, chat, message, named, now)
    {
      if pid !in prompts || prompts[pid].status != Pending {
        return AlreadyHandled;
      }
      var prompt := prompts[pid];
      if (chat, message) !in messages || messages[(chat, message)] != prompt.delivery {
        return StaleButton;
      }
      if choice.None? {
        prompts := prompts[pid := prompt.(status := Dismissed)];
        return NotLinked;
      }
      var rid, tid := choice.value, prompt.tid;
      if rid !in prompt.candidates || rid !in entries || tid !in rows {
        return Changed;
      }
      var paid := PaidSum(links, rid);
      if entries[rid].status != Open || rows[tid].voided
         || rows[tid].direction != RoleDirection(entries[rid].kind, Payment)
         || entries[rid].amount - paid != rows[tid].amount || !named {
        return Changed;
      }
      var outcome := AttachLink(Seen(entries[rid], paid), rid, tid, Payment, now);
      if outcome != Done {
        return NotAllowed;
      }
      prompts := prompts[pid := prompt.(status := Linked)];
      return LinkedAndSettled;
    }
  }
}
