/** The receivables ledger and its Telegram match prompts as a state machine over tables.
    Every write transaction of the program is one function from `Book` to `Book`. */
module Ledger {
  import opened Rows

  /******* Tables *******/

  datatype Kind = Receivable | Payable

  datatype Role = Charge | Payment

  datatype Status = Open | Settled | WrittenOff

  datatype Entry = Entry(kind: Kind, amount: int, status: Status, closedAt: Option<int>)

  datatype Link = Link(rid: int, tid: int, role: Role)

  datatype PromptStatus = Pending | Linked | Dismissed

  datatype Prompt = Prompt(tid: int, candidates: seq<int>, status: PromptStatus, delivery: Option<int>)

  datatype DeliveryStatus = Queued | Sending | Unclear | Delivered | Cancelled

  /** An outbox message. `shown` and `offers` are the row and the receivables its text and
      buttons name; no later write changes them. */
  datatype Delivery = Delivery(shown: int, offers: seq<int>, status: DeliveryStatus)

  /** `links` is in row-id order. `messages` maps (chat, message) to the delivery it carried. */
  datatype Book = Book(
    rows: map<int, Row>,
    entries: map<int, Entry>,
    links: seq<Link>,
    prompts: map<int, Prompt>,
    deliveries: map<int, Delivery>,
    messages: map<(int, int), Option<int>>)

  function RoleDirection(kind: Kind, role: Role): Direction {
    match (kind, role)
    case (Receivable, Charge) => Debit
    case (Receivable, Payment) => Credit
    case (Payable, Charge) => Credit
    case (Payable, Payment) => Debit
  }

  /******* Paid and settled *******/

  function Contribution(link: Link, rid: int, rows: map<int, Row>): int {
    if link.rid == rid && link.role == Payment && link.tid in rows then rows[link.tid].amount else 0
  }

  function Paid(links: seq<Link>, rid: int, rows: map<int, Row>): int {
    if links == [] then 0 else Contribution(links[0], rid, rows) + Paid(links[1..], rid, rows)
  }

  function SettleIfPaid(entry: Entry, paid: int, now: int): Entry {
    if entry.status == Open && paid >= entry.amount
    then entry.(status := Settled, closedAt := Some(now))
    else entry
  }

  /** A receivable as a request loaded it, with the sum of its payment rows at that time. */
  datatype Seen = Seen(entry: Entry, paid: int)

  function Current(b: Book, rid: int): Seen
    requires rid in b.entries
  {
    Seen(b.entries[rid], Paid(b.links, rid, b.rows))
  }

  /** The unit of work writes a column only when the request changed it. */
  function WriteBack(stored: Entry, loaded: Entry, edited: Entry): Entry {
    var withAmount := if edited.amount != loaded.amount then stored.(amount := edited.amount) else stored;
    if edited.status != loaded.status || edited.closedAt != loaded.closedAt
    then withAmount.(status := edited.status, closedAt := edited.closedAt)
    else withAmount
  }

  /******* Linking *******/

  datatype Refusal = UnknownRow | WrongDirection | NotInr | VoidedRow | ListedTwice

  datatype Outcome = Done | Refused(why: Refusal) | Conflict | Missing

  function Linkable(rows: map<int, Row>, tid: int, kind: Kind, role: Role): Option<Refusal> {
    if tid !in rows then Some(UnknownRow)
    else if rows[tid].direction != RoleDirection(kind, role) then Some(WrongDirection)
    else if !IsInr(rows[tid].currency) then Some(NotInr)
    else if rows[tid].voided then Some(VoidedRow)
    else None
  }

  /** What the two unique indexes allow to stand side by side. */
  predicate Compatible(first: Link, second: Link) {
    && !(first.rid == second.rid && first.tid == second.tid)
    && !(first.role == Payment && second.role == Payment && first.tid == second.tid)
  }

  predicate Admits(links: seq<Link>, link: Link) {
    forall other :: other in links ==> Compatible(other, link)
  }

  predicate Unique(links: seq<Link>) {
    links == [] || (Admits(links[1..], links[0]) && Unique(links[1..]))
  }

  function Attach(b: Book, seen: Seen, rid: int, tid: int, role: Role, now: int): (r: (Book, Outcome)) {
    if rid !in b.entries then (b, Missing)
    else
      var refusal := Linkable(b.rows, tid, b.entries[rid].kind, role);
      if refusal.Some? then (b, Refused(refusal.value))
      else if !Admits(b.links, Link(rid, tid, role)) then (b, Conflict)
      else
        var edited := if role == Payment
                      then SettleIfPaid(seen.entry, seen.paid + b.rows[tid].amount, now)
                      else seen.entry;
        (b.(links := b.links + [Link(rid, tid, role)],
            entries := b.entries[rid := WriteBack(b.entries[rid], seen.entry, edited)]),
         Done)
  }

  function LinksOf(rid: int, tids: seq<int>, role: Role): (links: seq<Link>)
    ensures |links| == |tids|
    ensures forall i :: 0 <= i < |tids| ==> links[i] == Link(rid, tids[i], role)
  {
    if tids == [] then [] else [Link(rid, tids[0], role)] + LinksOf(rid, tids[1..], role)
  }

  predicate Distinct(ids: seq<int>) {
    forall i, j :: 0 <= i < j < |ids| ==> ids[i] != ids[j]
  }

  /** The first link of a new receivable that does not fit its role. */
  function FirstRefusal(rows: map<int, Row>, links: seq<Link>, kind: Kind): Option<Refusal> {
    if links == [] then None
    else
      var refusal := Linkable(rows, links[0].tid, kind, links[0].role);
      if refusal.Some? then refusal else FirstRefusal(rows, links[1..], kind)
  }

  predicate AllAdmitted(links: seq<Link>, added: seq<Link>) {
    forall link :: link in added ==> Admits(links, link)
  }

  function Create(b: Book, rid: int, kind: Kind, amount: int, charges: seq<int>, payments: seq<int>, now: int)
    : (r: (Book, Outcome))
  {
    var added := LinksOf(rid, charges, Charge) + LinksOf(rid, payments, Payment);
    var refusal := FirstRefusal(b.rows, added, kind);
    if !Distinct(charges + payments) then (b, Refused(ListedTwice))
    else if refusal.Some? then (b, Refused(refusal.value))
    else if !AllAdmitted(b.links, added) then (b, Conflict)
    else
      var entry := SettleIfPaid(Entry(kind, amount, Open, None), Paid(added, rid, b.rows), now);
      (b.(entries := b.entries[rid := entry], links := b.links + added), Done)
  }

  function Edited(seen: Seen, amount: Option<int>, status: Option<Status>, now: int): Entry {
    var entry := if amount.Some? then seen.entry.(amount := amount.value) else seen.entry;
    if status.Some? && status.value != entry.status
    then entry.(status := status.value, closedAt := if status.value == Open then None else Some(now))
    else if amount.Some? && amount.value != seen.entry.amount && status.None?
    then SettleIfPaid(entry, seen.paid, now)
    else entry
  }

  function Update(b: Book, seen: Seen, rid: int, amount: Option<int>, status: Option<Status>, now: int)
    : (r: (Book, Outcome))
  {
    if rid !in b.entries then (b, Missing)
    else
      (b.(entries := b.entries[rid := WriteBack(b.entries[rid], seen.entry, Edited(seen, amount, status, now))]),
       Done)
  }

  function WithoutPair(links: seq<Link>, rid: int, tid: int): seq<Link> {
    if links == [] then []
    else if links[0].rid == rid && links[0].tid == tid then WithoutPair(links[1..], rid, tid)
    else [links[0]] + WithoutPair(links[1..], rid, tid)
  }

  function Unlink(b: Book, rid: int, tid: int): (r: (Book, Outcome)) {
    var left := WithoutPair(b.links, rid, tid);
    if |left| == |b.links| then (b, Missing) else (b.(links := left), Done)
  }

  /******* A row that goes away *******/

  /** The receivables that already link the keeper. */
  function KeeperRids(links: seq<Link>, keep: int): set<int> {
    set link | link in links && link.tid == keep :: link.rid
  }

  predicate Pays(links: seq<Link>, tid: int) {
    exists link :: link in links && link.tid == tid && link.role == Payment
  }

  predicate PaysInto(links: seq<Link>, tid: int, rid: int) {
    Link(rid, tid, Payment) in links
  }

  /** A link of the gone row that the merge deletes instead of moving. */
  predicate Dropped(link: Link, rids: set<int>, pays: bool) {
    link.rid in rids || (link.role == Payment && pays)
  }

  function Moved(links: seq<Link>, gone: int, keep: int, rids: set<int>, pays: bool): seq<Link> {
    if links == [] then []
    else
      var rest := Moved(links[1..], gone, keep, rids, pays);
      if links[0].tid != gone then [links[0]] + rest
      else if Dropped(links[0], rids, pays) then rest
      else [links[0].(tid := keep)] + rest
  }

  function MergedLinks(links: seq<Link>, gone: int, keep: int): seq<Link> {
    Moved(links, gone, keep, KeeperRids(links, keep), Pays(links, keep))
  }

  function WithoutRow(links: seq<Link>, gone: int): seq<Link> {
    if links == [] then []
    else if links[0].tid == gone then WithoutRow(links[1..], gone)
    else [links[0]] + WithoutRow(links[1..], gone)
  }

  predicate Unsent(status: DeliveryStatus) {
    status == Queued || status == Sending || status == Unclear
  }

  /** The match prompt of the gone row goes away and its unsent message is cancelled. */
  function RetirePrompt(b: Book, gone: int): Book {
    b.(prompts := map p | p in b.prompts && b.prompts[p].tid != gone :: b.prompts[p],
       deliveries := map d | d in b.deliveries ::
         if Unsent(b.deliveries[d].status)
            && (exists p :: p in b.prompts && b.prompts[p].tid == gone && b.prompts[p].delivery == Some(d))
         then b.deliveries[d].(status := Cancelled)
         else b.deliveries[d])
  }

  /** Point the links of `gone` at `keep`, and settle what the keeper's payment now completes. */
  function MoveLinks(b: Book, gone: int, keep: int, now: int): Book {
    var links := MergedLinks(b.links, gone, keep);
    RetirePrompt(b, gone).(
      links := links,
      entries := map r | r in b.entries ::
        if PaysInto(links, keep, r) then SettleIfPaid(b.entries[r], Paid(links, r, b.rows), now) else b.entries[r])
  }

  /** Fold `gone` into `keep`: the links move, the row `keep` becomes `survivor` and `gone` is deleted. */
  function Fold(b: Book, gone: int, keep: int, survivor: Row, now: int): Book {
    MoveLinks(b, gone, keep, now).(rows := (b.rows - {gone})[keep := survivor])
  }

  /** Drop the links of a row that has no keeper. */
  function ClearLinks(b: Book, gone: int): Book {
    RetirePrompt(b, gone).(links := WithoutRow(b.links, gone))
  }

  /** Delete a row that has no keeper. */
  function Drop(b: Book, gone: int): Book {
    ClearLinks(b, gone).(rows := b.rows - {gone})
  }

  /******* Prompts *******/

  predicate Prompted(b: Book, tid: int) {
    exists p :: p in b.prompts && b.prompts[p].tid == tid
  }

  /** Save one prompt and its outbox message. `pid` is any id free at this moment, so an id that
      an earlier prompt had can come back. Nothing checks that the row is still there. */
  function Ask(b: Book, tid: int, offers: seq<int>, pid: int, did: int): Book {
    if Prompted(b, tid) || pid in b.prompts || did in b.deliveries then b
    else b.(prompts := b.prompts[pid := Prompt(tid, offers, Pending, Some(did))],
            deliveries := b.deliveries[did := Delivery(tid, offers, Queued)])
  }

  /** Telegram sends a message; `delivery` is the outbox row it carries, if any. */
  function Send(b: Book, chat: int, message: int, delivery: Option<int>): Book {
    if (chat, message) in b.messages || (delivery.Some? && delivery.value !in b.deliveries) then b
    else if delivery.None? then b.(messages := b.messages[(chat, message) := None])
    else b.(messages := b.messages[(chat, message) := delivery],
            deliveries := b.deliveries[delivery.value := b.deliveries[delivery.value].(status := Delivered)])
  }

  datatype Tap = AlreadyHandled | StaleButton | NotLinked | Changed | NotAllowed | LinkedAndSettled

  predicate Resolves(tap: Tap) {
    tap == NotLinked || tap == LinkedAndSettled
  }

  /** The checks of a Link tap that do not read Telegram data. `named` tells whether the row
      still names the person of the receivable. */
  predicate StillFits(b: Book, prompt: Prompt, rid: int, named: bool) {
    && rid in prompt.candidates
    && rid in b.entries
    && prompt.tid in b.rows
    && b.entries[rid].status == Open
    && !b.rows[prompt.tid].voided
    && b.rows[prompt.tid].direction == RoleDirection(b.entries[rid].kind, Payment)
    && b.entries[rid].amount - Paid(b.links, rid, b.rows) == b.rows[prompt.tid].amount
    && named
  }

  function Press(b: Book, pid: int, choice: Option<int>, chat: int, message: int, named: bool, now: int)
    : (r: (Book, Tap))
  {
    if pid !in b.prompts || b.prompts[pid].status != Pending then (b, AlreadyHandled)
    else
      var prompt := b.prompts[pid];
      if (chat, message) !in b.messages || b.messages[(chat, message)] != prompt.delivery then (b, StaleButton)
      else if choice.None? then (b.(prompts := b.prompts[pid := prompt.(status := Dismissed)]), NotLinked)
      else if !StillFits(b, prompt, choice.value, named) then (b, Changed)
      else
        var (after, outcome) := Attach(b, Current(b, choice.value), choice.value, prompt.tid, Payment, now);
        if outcome != Done then (b, NotAllowed)
        else (after.(prompts := b.prompts[pid := prompt.(status := Linked)]), LinkedAndSettled)
  }

  /******* Runs *******/

  datatype Op =
    | OpInsert(tid: int, row: Row)
    | OpEditRow(tid: int, row: Row)
    | OpCreate(rid: int, kind: Kind, amount: int, charges: seq<int>, payments: seq<int>, now: int)
    | OpAttach(seen: Seen, rid: int, tid: int, role: Role, now: int)
    | OpUpdate(seen: Seen, rid: int, newAmount: Option<int>, status: Option<Status>, now: int)
    | OpUnlink(rid: int, tid: int)
    | OpFold(gone: int, keep: int, survivor: Row, now: int)
    | OpDrop(gone: int)
    | OpAsk(tid: int, offers: seq<int>, pid: int, did: int)
    | OpSend(chat: int, message: int, delivery: Option<int>)
    | OpPress(pid: int, choice: Option<int>, chat: int, message: int, named: bool, now: int)

  /** What a fold needs of its pair; the merge checks establish it. */
  predicate Foldable(b: Book, gone: int, keep: int, survivor: Row) {
    && gone in b.rows && keep in b.rows && gone != keep
    && b.rows[gone].direction == b.rows[keep].direction
    && (b.rows[gone].amount == b.rows[keep].amount || !InRupees(b.rows[gone]))
    && survivor.direction == b.rows[keep].direction
    && survivor.amount == b.rows[keep].amount
    && survivor.currency == b.rows[keep].currency
    && (InRupees(b.rows[gone]) ==> InRupees(survivor))
  }

  predicate Mentions(links: seq<Link>, tid: int) {
    exists link :: link in links && link.tid == tid
  }

  /** When the program runs the operation. A loaded copy can be stale in every field but the
      kind; a row edit keeps the direction, and a linked row keeps its INR currency. */
  predicate Enabled(b: Book, op: Op) {
    match op
    case OpInsert(tid, row) => tid !in b.rows
    case OpEditRow(tid, row) =>
      && tid in b.rows
      && row.direction == b.rows[tid].direction
      && (Mentions(b.links, tid) ==> InRupees(row))
    case OpCreate(rid, kind, amount, charges, payments, now) => rid !in b.entries
    case OpAttach(seen, rid, tid, role, now) => (seen.entry.status == Open <==> seen.entry.closedAt == None)
    case OpUpdate(seen, rid, amount, status, now) => (seen.entry.status == Open <==> seen.entry.closedAt == None)
    case OpFold(gone, keep, survivor, now) => Foldable(b, gone, keep, survivor)
    case _ => true
  }

  function Apply(b: Book, op: Op): Book {
    match op
    case OpInsert(tid, row) => b.(rows := b.rows[tid := row])
    case OpEditRow(tid, row) => b.(rows := b.rows[tid := row])
    case OpCreate(rid, kind, amount, charges, payments, now) =>
      Create(b, rid, kind, amount, charges, payments, now).0
    case OpAttach(seen, rid, tid, role, now) => Attach(b, seen, rid, tid, role, now).0
    case OpUpdate(seen, rid, amount, status, now) => Update(b, seen, rid, amount, status, now).0
    case OpUnlink(rid, tid) => Unlink(b, rid, tid).0
    case OpFold(gone, keep, survivor, now) => Fold(b, gone, keep, survivor, now)
    case OpDrop(gone) => Drop(b, gone)
    case OpAsk(tid, offers, pid, did) => Ask(b, tid, offers, pid, did)
    case OpSend(chat, message, delivery) => Send(b, chat, message, delivery)
    case OpPress(pid, choice, chat, message, named, now) => Press(b, pid, choice, chat, message, named, now).0
  }

  /** A run: each operation is enabled in the state it finds. */
  ghost predicate Runs(b: Book, ops: seq<Op>)
    decreases |ops|
  {
    ops == [] || (Enabled(b, ops[0]) && Runs(Apply(b, ops[0]), ops[1..]))
  }

  function After(b: Book, ops: seq<Op>): Book
    decreases |ops|
  {
    if ops == [] then b else After(Apply(b, ops[0]), ops[1..])
  }
}
