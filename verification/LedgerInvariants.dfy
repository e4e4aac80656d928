/** What every ledger operation keeps: the two link indexes, the direction and currency of every
    linked row, `closedAt`, and the pairing of prompts with their own messages. */
module LedgerInvariants {
  import opened Rows
  import opened Ledger

  /** A link names a live receivable and a live rupee row of the direction its role demands. */
  ghost predicate LinkFits(rows: map<int, Row>, entries: map<int, Entry>, link: Link) {
    && link.rid in entries
    && link.tid in rows
    && rows[link.tid].direction == RoleDirection(entries[link.rid].kind, link.role)
    && InRupees(rows[link.tid])
  }

  ghost predicate LinksFit(rows: map<int, Row>, entries: map<int, Entry>, links: seq<Link>) {
    forall link :: link in links ==> LinkFits(rows, entries, link)
  }

  ghost predicate ClosedFits(entries: map<int, Entry>) {
    forall r :: r in entries ==> (entries[r].status == Open <==> entries[r].closedAt == None)
  }

  /** No other prompt asks about a prompt's row, and its delivery shows this row and these candidates
      and belongs to no other prompt. The row itself may be gone: foreign keys are not enforced. */
  ghost predicate PromptFits(prompts: map<int, Prompt>, deliveries: map<int, Delivery>, p: int)
    requires p in prompts
  {
    var prompt := prompts[p];
    && prompt.delivery.Some?
    && prompt.delivery.value in deliveries
    && deliveries[prompt.delivery.value].shown == prompt.tid
    && deliveries[prompt.delivery.value].offers == prompt.candidates
    && forall q :: q in prompts && q != p ==>
         prompts[q].tid != prompt.tid && prompts[q].delivery != prompt.delivery
  }

  ghost predicate PromptsFit(prompts: map<int, Prompt>, deliveries: map<int, Delivery>) {
    forall p :: p in prompts ==> PromptFits(prompts, deliveries, p)
  }

  ghost predicate MessagesFit(messages: map<(int, int), Option<int>>, deliveries: map<int, Delivery>) {
    forall m :: m in messages && messages[m].Some? ==> messages[m].value in deliveries
  }

  ghost predicate Valid(b: Book) {
    && Unique(b.links)
    && LinksFit(b.rows, b.entries, b.links)
    && ClosedFits(b.entries)
    && PromptsFit(b.prompts, b.deliveries)
    && MessagesFit(b.messages, b.deliveries)
  }

  /******* The link table *******/

  /** The recursive form of the indexes says what they are for. */
  lemma {:induction false} UniqueMeans(links: seq<Link>)
    ensures Unique(links) <==> forall i, j :: 0 <= i < j < |links| ==> Compatible(links[i], links[j])
  {
    if links != [] {
      UniqueMeans(links[1..]);
      if Unique(links) {
        forall i, j | 0 <= i < j < |links| ensures Compatible(links[i], links[j]) {
          assert links[j] == links[1..][j - 1];
          if i == 0 {
            assert Compatible(links[j], links[0]);
          } else {
            assert links[i] == links[1..][i - 1];
          }
        }
      }
      if forall i, j :: 0 <= i < j < |links| ==> Compatible(links[i], links[j]) {
        forall other | other in links[1..] ensures Compatible(other, links[0]) {
          var k :| 0 <= k < |links[1..]| && links[1..][k] == other;
          assert Compatible(links[0], links[k + 1]);
        }
        forall i, j | 0 <= i < j < |links[1..]| ensures Compatible(links[1..][i], links[1..][j]) {
          assert Compatible(links[i + 1], links[j + 1]);
        }
      }
    }
  }

  lemma {:induction false} UniqueConcat(first: seq<Link>, second: seq<Link>)
    requires Unique(first) && Unique(second) && AllAdmitted(first, second)
    ensures Unique(first + second)
  {
    if first == [] {
      assert first + second == second;
    } else {
      UniqueConcat(first[1..], second);
      assert (first + second)[1..] == first[1..] + second;
      forall other | other in first[1..] + second ensures Compatible(other, first[0]) {
        if other in second {
          assert Admits(first, other) && Compatible(first[0], other);
        }
      }
    }
  }

  lemma {:induction false} UniqueWithoutPair(links: seq<Link>, rid: int, tid: int)
    requires Unique(links)
    ensures Unique(WithoutPair(links, rid, tid))
    ensures forall link :: link in WithoutPair(links, rid, tid) <==>
              link in links && !(link.rid == rid && link.tid == tid)
  {
    if links != [] { UniqueWithoutPair(links[1..], rid, tid); }
  }

  lemma {:induction false} UniqueWithoutRow(links: seq<Link>, gone: int)
    requires Unique(links)
    ensures Unique(WithoutRow(links, gone))
    ensures forall link :: link in WithoutRow(links, gone) <==> link in links && link.tid != gone
  {
    if links != [] { UniqueWithoutRow(links[1..], gone); }
  }

  /** What `rids` and `pays` say about the keeper's own links. */
  ghost predicate Covers(links: seq<Link>, keep: int, rids: set<int>, pays: bool) {
    forall link :: link in links && link.tid == keep ==> link.rid in rids && (link.role == Payment ==> pays)
  }

  /** Where the links of a merged table come from, in both directions. */
  lemma {:induction false} MovedMembers(links: seq<Link>, gone: int, keep: int, rids: set<int>, pays: bool)
    requires gone != keep
    ensures forall link :: link in Moved(links, gone, keep, rids, pays) <==>
              || (link in links && link.tid != gone)
              || (link.tid == keep && link.(tid := gone) in links && !Dropped(link.(tid := gone), rids, pays))
  {
    if links != [] { MovedMembers(links[1..], gone, keep, rids, pays); }
  }

  /** The update that follows the delete can never hit a uniqueness error. */
  lemma {:induction false} UniqueMoved(links: seq<Link>, gone: int, keep: int, rids: set<int>, pays: bool)
    requires gone != keep && Unique(links) && Covers(links, keep, rids, pays)
    ensures Unique(Moved(links, gone, keep, rids, pays))
  {
    if links != [] {
      UniqueMoved(links[1..], gone, keep, rids, pays);
      MovedMembers(links[1..], gone, keep, rids, pays);
    }
  }

  lemma KeeperCovered(links: seq<Link>, keep: int)
    ensures Covers(links, keep, KeeperRids(links, keep), Pays(links, keep))
  {
  }

  lemma {:induction false} RefusalMeans(rows: map<int, Row>, links: seq<Link>, kind: Kind)
    ensures FirstRefusal(rows, links, kind).None? <==>
              forall link :: link in links ==> Linkable(rows, link.tid, kind, link.role).None?
  {
    if links != [] { RefusalMeans(rows, links[1..], kind); }
  }

  lemma UniqueNew(rid: int, charges: seq<int>, payments: seq<int>)
    requires Distinct(charges + payments)
    ensures Unique(LinksOf(rid, charges, Charge) + LinksOf(rid, payments, Payment))
    ensures forall link :: link in LinksOf(rid, charges, Charge) + LinksOf(rid, payments, Payment) ==> link.rid == rid
  {
    var added := LinksOf(rid, charges, Charge) + LinksOf(rid, payments, Payment);
    forall i | 0 <= i < |added| ensures added[i].tid == (charges + payments)[i] && added[i].rid == rid {}
    UniqueMeans(added);
  }

  /******* Each operation keeps Valid *******/

  lemma AttachKeeps(b: Book, seen: Seen, rid: int, tid: int, role: Role, now: int)
    requires Valid(b) && (seen.entry.status == Open <==> seen.entry.closedAt == None)
    ensures Valid(Attach(b, seen, rid, tid, role, now).0)
  {
    var (after, outcome) := Attach(b, seen, rid, tid, role, now);
    if outcome == Done {
      InrNormalizes(b.rows[tid].currency);
      UniqueConcat(b.links, [Link(rid, tid, role)]);
      assert LinkFits(b.rows, b.entries, Link(rid, tid, role));
      forall link | link in after.links ensures LinkFits(after.rows, after.entries, link) {
        assert LinkFits(b.rows, b.entries, link);
      }
    }
  }

  lemma AddedFit(rows: map<int, Row>, entries: map<int, Entry>, rid: int, added: seq<Link>)
    requires rid in entries && FirstRefusal(rows, added, entries[rid].kind).None?
    requires forall link :: link in added ==> link.rid == rid
    ensures LinksFit(rows, entries, added)
  {
  }

  lemma CreateKeeps(b: Book, rid: int, kind: Kind, amount: int, charges: seq<int>, payments: seq<int>, now: int)
    requires Valid(b) && rid !in b.entries
    ensures Valid(Create(b, rid, kind, amount, charges, payments, now).0)
  {
    var (after, outcome) := Create(b, rid, kind, amount, charges, payments, now);
    if outcome == Done {
      var added := LinksOf(rid, charges, Charge) + LinksOf(rid, payments, Payment);
      UniqueNew(rid, charges, payments);
      AddedFit(after.rows, after.entries, rid, added);
      UniqueConcat(b.links, added);
      forall link | link in b.links ensures LinkFits(after.rows, after.entries, link) {
        assert LinkFits(b.rows, b.entries, link);
      }
    }
  }

  lemma RetireKeeps(b: Book, gone: int)
    requires Valid(b)
    ensures Valid(RetirePrompt(b, gone))
    ensures !Prompted(RetirePrompt(b, gone), gone)
  {
  }

  lemma FoldedLinksFit(b: Book, gone: int, keep: int, survivor: Row, now: int)
    requires Valid(b) && Foldable(b, gone, keep, survivor)
    ensures var after := Fold(b, gone, keep, survivor, now);
            && Unique(after.links) && LinksFit(after.rows, after.entries, after.links)
            && !Mentions(after.links, gone)
  {
    var after := Fold(b, gone, keep, survivor, now);
    var rids, pays := KeeperRids(b.links, keep), Pays(b.links, keep);
    KeeperCovered(b.links, keep);
    UniqueMoved(b.links, gone, keep, rids, pays);
    MovedMembers(b.links, gone, keep, rids, pays);
    forall link | link in after.links ensures LinkFits(after.rows, after.entries, link) {
      if link in b.links && link.tid != gone {
        assert LinkFits(b.rows, b.entries, link);
      } else {
        assert LinkFits(b.rows, b.entries, link.(tid := gone));
      }
    }
  }

  lemma FoldKeeps(b: Book, gone: int, keep: int, survivor: Row, now: int)
    requires Valid(b) && Foldable(b, gone, keep, survivor)
    ensures Valid(Fold(b, gone, keep, survivor, now))
    ensures !Mentions(Fold(b, gone, keep, survivor, now).links, gone)
  {
    FoldedLinksFit(b, gone, keep, survivor, now);
    RetireKeeps(b, gone);
  }

  lemma DropKeeps(b: Book, gone: int)
    requires Valid(b)
    ensures Valid(Drop(b, gone))
    ensures !Mentions(Drop(b, gone).links, gone)
  {
    UniqueWithoutRow(b.links, gone);
    RetireKeeps(b, gone);
    var after := Drop(b, gone);
    forall link | link in after.links ensures LinkFits(after.rows, after.entries, link) {
      assert LinkFits(b.rows, b.entries, link);
    }
  }

  lemma AskKeeps(b: Book, tid: int, offers: seq<int>, pid: int, did: int)
    requires Valid(b)
    ensures Valid(Ask(b, tid, offers, pid, did))
  {
    var after := Ask(b, tid, offers, pid, did);
    if after != b {
      forall p | p in b.prompts
        ensures && PromptFits(b.prompts, b.deliveries, p)
                && b.prompts[p].tid != tid && b.prompts[p].delivery != Some(did)
      {
        assert PromptFits(b.prompts, b.deliveries, p);
      }
      forall p | p in after.prompts ensures PromptFits(after.prompts, after.deliveries, p) {
        if p != pid { assert PromptFits(b.prompts, b.deliveries, p); }
      }
    }
  }

  lemma SendKeeps(b: Book, chat: int, message: int, delivery: Option<int>)
    requires Valid(b)
    ensures Valid(Send(b, chat, message, delivery))
  {
  }

  lemma StatusKeeps(b: Book, pid: int, status: PromptStatus)
    requires Valid(b) && pid in b.prompts
    ensures Valid(b.(prompts := b.prompts[pid := b.prompts[pid].(status := status)]))
  {
  }

  lemma PressKeeps(b: Book, pid: int, choice: Option<int>, chat: int, message: int, named: bool, now: int)
    requires Valid(b)
    ensures Valid(Press(b, pid, choice, chat, message, named, now).0)
  {
    var tap := Press(b, pid, choice, chat, message, named, now).1;
    if tap == NotLinked {
      StatusKeeps(b, pid, Dismissed);
    } else if tap == LinkedAndSettled {
      AttachKeeps(b, Current(b, choice.value), choice.value, b.prompts[pid].tid, Payment, now);
      StatusKeeps(Attach(b, Current(b, choice.value), choice.value, b.prompts[pid].tid, Payment, now).0, pid, Linked);
    }
  }

  lemma RowKeeps(b: Book, tid: int, row: Row)
    requires Valid(b)
    requires tid in b.rows ==> row.direction == b.rows[tid].direction && (Mentions(b.links, tid) ==> InRupees(row))
    ensures Valid(b.(rows := b.rows[tid := row]))
  {
  }

  lemma UpdateKeeps(b: Book, seen: Seen, rid: int, amount: Option<int>, status: Option<Status>, now: int)
    requires Valid(b) && (seen.entry.status == Open <==> seen.entry.closedAt == None)
    ensures Valid(Update(b, seen, rid, amount, status, now).0)
  {
  }

  lemma UnlinkKeeps(b: Book, rid: int, tid: int)
    requires Valid(b)
    ensures Valid(Unlink(b, rid, tid).0)
  {
    UniqueWithoutPair(b.links, rid, tid);
  }

  /** Every operation keeps the tables valid, whatever stale copy a request works on. */
  lemma ApplyKeeps(b: Book, op: Op)
    requires Valid(b) && Enabled(b, op)
    ensures Valid(Apply(b, op))
  {
    match op
    case OpInsert(tid, row) => RowKeeps(b, tid, row);
    case OpEditRow(tid, row) => RowKeeps(b, tid, row);
    case OpCreate(rid, kind, amount, charges, payments, now) =>
      CreateKeeps(b, rid, kind, amount, charges, payments, now);
    case OpAttach(seen, rid, tid, role, now) => AttachKeeps(b, seen, rid, tid, role, now);
    case OpUpdate(seen, rid, amount, status, now) => UpdateKeeps(b, seen, rid, amount, status, now);
    case OpUnlink(rid, tid) => UnlinkKeeps(b, rid, tid);
    case OpFold(gone, keep, survivor, now) => FoldKeeps(b, gone, keep, survivor, now);
    case OpDrop(gone) => DropKeeps(b, gone);
    case OpAsk(tid, offers, pid, did) => AskKeeps(b, tid, offers, pid, did);
    case OpSend(chat, message, delivery) => SendKeeps(b, chat, message, delivery);
    case OpPress(pid, choice, chat, message, named, now) => PressKeeps(b, pid, choice, chat, message, named, now);
  }

  /** Safety over whole runs. */
  lemma {:induction false} RunKeeps(b: Book, ops: seq<Op>)
    requires Valid(b) && Runs(b, ops)
    ensures Valid(After(b, ops))
    decreases |ops|
  {
    if ops != [] {
      ApplyKeeps(b, ops[0]);
      RunKeeps(Apply(b, ops[0]), ops[1..]);
    }
  }
}
