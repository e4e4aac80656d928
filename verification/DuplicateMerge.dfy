/** The explicit merge of duplicate transaction rows: its checks, and what one batch does. */
module DuplicateMerge {
  import opened Rows
  import opened Ledger
  import R = Reconciliation
  import T = SelfTransfer

  /******* References *******/

  function LeftStripZeros(s: string): string {
    if s != "" && s[0] == '0' then LeftStripZeros(s[1..]) else s
  }

  function NormalizedRef(reference: Option<string>): string {
    if reference.None? then "" else LeftStripZeros(Strip(reference.value))
  }

  predicate IsAlnum(ch: char) {
    IsDigit(ch) || 'A' <= ch <= 'Z' || 'a' <= ch <= 'z'
  }

  function Squash(s: string): string {
    if s == "" then "" else (if IsAlnum(s[0]) then [UpperChar(s[0])] else "") + Squash(s[1..])
  }

  /** One reference is a shortened copy of the other, at either end. */
  predicate ShortenedMatch(first: string, second: string) {
    var a, b := Squash(first), Squash(second);
    && |a| >= 4 && |b| >= 4
    && (b <= a || a <= b || EndsWith(a, b) || EndsWith(b, a))
  }

  predicate ProveDistinct(first: Option<string>, second: Option<string>) {
    var a, b := NormalizedRef(first), NormalizedRef(second);
    a != "" && b != "" && a != b && !ShortenedMatch(a, b)
  }

  /******* The checks of one pair *******/

  datatype Override = OverrideDates | OverrideReferences | OverrideCurrency

  datatype Reason =
    | OtherAccount | OtherDirection | OtherCurrency | OtherAmount | ForeignNotStatement | NoDate | DatesApart
    | BalancesDiffer | DistinctReferences | DuplicateIsCardPayment | TwoSms | TwoEmails | TwoStatementReferences

  datatype Pair = Pair(keep: int, dup: int, overrides: set<Override>)

  predicate IsCardPayment(row: Row) {
    row.direction == Credit && row.rowType == CardPaymentAlert
  }

  predicate FromStatement(row: Row) {
    row.cardStatement.Some? || row.bankStatement.Some?
  }

  /** The row is an import of the statement it links. */
  predicate StatementImport(row: Row) {
    || (row.rowType == BankStatementLine && row.bankStatement.Some?)
    || (row.rowType == CardStatementLine && row.cardStatement.Some?)
  }

  predicate SameCurrency(keep: Row, dup: Row) {
    NormalizedCurrency(keep.currency) == NormalizedCurrency(dup.currency)
  }

  predicate OwnsOther(kept: Option<int>, offered: Option<int>) {
    kept.Some? && offered.Some? && kept != offered
  }

  predicate Fails(reason: Reason, keep: Row, dup: Row) {
    match reason
    case OtherAccount => keep.account.None? || keep.account != dup.account
    case OtherDirection => keep.direction != dup.direction
    case OtherCurrency => !SameCurrency(keep, dup)
    case OtherAmount => SameCurrency(keep, dup) && keep.amount != dup.amount
    case ForeignNotStatement => !SameCurrency(keep, dup) && !(InRupees(keep) && StatementImport(keep))
    case NoDate => keep.date.None? || dup.date.None?
    case DatesApart =>
      keep.date.Some? && dup.date.Some? && (keep.date.value - dup.date.value > 1 || dup.date.value - keep.date.value > 1)
    case BalancesDiffer => OwnsOther(keep.balance, dup.balance)
    case DistinctReferences => ProveDistinct(keep.reference, dup.reference)
    case DuplicateIsCardPayment => IsCardPayment(dup) && !IsCardPayment(keep)
    case TwoSms => OwnsOther(keep.sms, dup.sms)
    case TwoEmails => OwnsOther(keep.email, dup.email)
    case TwoStatementReferences =>
      FromStatement(keep) && FromStatement(dup) && keep.reference.Some? && dup.reference.Some?
      && keep.reference != dup.reference
  }

  /** The override that can lift a refusal. */
  function Lifts(reason: Reason): Option<Override> {
    match reason
    case DatesApart => Some(OverrideDates)
    case DistinctReferences => Some(OverrideReferences)
    case OtherCurrency => Some(OverrideCurrency)
    case _ => None
  }

  predicate Lifted(reason: Reason, overrides: set<Override>) {
    Lifts(reason).Some? && Lifts(reason).value in overrides
  }

  function Refusals(keep: Row, dup: Row, overrides: set<Override>): set<Reason> {
    set reason: Reason | Fails(reason, keep, dup) && !Lifted(reason, overrides)
  }

  function AppliedOverrides(keep: Row, dup: Row, overrides: set<Override>): set<Override> {
    set reason: Reason | Fails(reason, keep, dup) && Lifted(reason, overrides) :: Lifts(reason).value
  }

  /******* The surviving row *******/

  function SurvivingReference(keep: Row, dup: Row): Option<string> {
    if dup.reference.None? || dup.reference.value == "" || FromStatement(keep) then keep.reference
    else if FromStatement(dup) || |NormalizedRef(dup.reference)| > |NormalizedRef(keep.reference)| then dup.reference
    else keep.reference
  }

  /** The keeper after the merge. `overridden` keeps the keeper's reference, even an empty one. */
  function Survivor(keep: Row, dup: Row, overridden: bool): Row {
    var takesCategory := dup.manualCategory && !keep.manualCategory;
    var counterparty := SurvivingName(keep, dup);
    keep.(reference := if overridden then keep.reference
                       else Fill(SurvivingReference(keep, dup), dup.reference),
          sms := Fill(keep.sms, dup.sms),
          email := Fill(keep.email, dup.email),
          cardStatement := Fill(keep.cardStatement, dup.cardStatement),
          bankStatement := Fill(keep.bankStatement, dup.bankStatement),
          card := Fill(keep.card, dup.card),
          attachment := Fill(keep.attachment, dup.attachment),
          date := Fill(keep.date, dup.date),
          balance := Fill(keep.balance, dup.balance),
          category := if takesCategory then dup.category else keep.category,
          manualCategory := keep.manualCategory || dup.manualCategory,
          note := if keep.note.None? || keep.note.value == "" then dup.note else keep.note,
          accountMask := Fill(keep.accountMask, dup.accountMask),
          counterparty := counterparty,
          labelled := if NamesAny(dup.counterparty) && dup.counterparty == counterparty then dup.labelled
                      else keep.labelled)
  }

  predicate NamesAny(name: Option<string>) {
    name.Some? && name.value != ""
  }

  /** A bank's name takes the place of a label the user chose; otherwise only an empty name is filled. */
  function SurvivingName(keep: Row, dup: Row): Option<string> {
    if dup.counterparty.Some? && keep.labelled && !dup.labelled then dup.counterparty
    else Fill(keep.counterparty, dup.counterparty)
  }

  /******* Every table that names a row *******/

  datatype RefTable = SmsMessages | Interactions | Reviews | Conversations | MessageContexts | Outbox

  datatype Action = Action(row: Option<int>, onTransaction: bool, target: int)

  datatype UploadTable = CardUploads | BankUploads

  datatype Store = Store(
    book: Book,
    refs: map<(RefTable, int), Option<int>>,
    actions: seq<Action>,
    uploads: map<(UploadTable, int), R.Recon>)

  /** A category review cannot lose its row, so a plain delete leaves it. */
  function RepointRef(table: RefTable, held: Option<int>, gone: int, keep: Option<int>): Option<int> {
    if keep.None? && table == Reviews then held else R.RepointId(held, gone, keep)
  }

  function RepointAction(action: Action, gone: int, keep: Option<int>): Action {
    Action(R.RepointId(action.row, gone, keep), action.onTransaction,
           if keep.Some? && action.onTransaction && action.target == gone then keep.value else action.target)
  }

  function RepointActions(actions: seq<Action>, gone: int, keep: Option<int>): seq<Action> {
    seq(|actions|, i requires 0 <= i < |actions| => RepointAction(actions[i], gone, keep))
  }

  function MoveReferences(s: Store, gone: int, keep: Option<int>, now: int): Store {
    Store(if keep.Some? then MoveLinks(s.book, gone, keep.value, now) else ClearLinks(s.book, gone),
          map k | k in s.refs :: RepointRef(k.0, s.refs[k], gone, keep),
          RepointActions(s.actions, gone, keep),
          map k | k in s.uploads :: R.Repoint(s.uploads[k], gone, keep))
  }

  /** Fold the duplicate into the keeper and delete it; the survivor then runs the self-transfer rule.
      An applied override leaves an audit record. */
  function MergePair(s: Store, pair: Pair, applied: set<Override>, now: int): Store
    requires pair.keep in s.book.rows && pair.dup in s.book.rows
  {
    var keep, dup := s.book.rows[pair.keep], s.book.rows[pair.dup];
    var moved := MoveReferences(s, pair.dup, Some(pair.keep), now);
    var folded := (s.book.rows - {pair.dup})[pair.keep := Survivor(keep, dup, applied != {})];
    moved.(book := moved.book.(rows := T.ApplyRule(folded, pair.keep)),
           actions := moved.actions + if applied != {} then [Action(Some(pair.keep), true, pair.dup)] else [])
  }

  /** Delete one row that has no keeper. */
  function DeleteRow(s: Store, gone: int, now: int): Store {
    var cleaned := MoveReferences(s, gone, None, now);
    cleaned.(book := cleaned.book.(rows := s.book.rows - {gone}),
             actions := cleaned.actions + [Action(None, true, gone)])
  }

  /******* A batch *******/

  predicate ListedElsewhere(pair: Pair, all: seq<Pair>) {
    || (exists i, j :: 0 <= i < j < |all| && all[i].dup == pair.dup && all[j].dup == pair.dup)
    || (exists i :: 0 <= i < |all| && all[i].keep == pair.dup)
  }

  /** Whether the checks let the pair merge now. */
  predicate Passes(s: Store, pair: Pair, all: seq<Pair>) {
    && pair.keep in s.book.rows && pair.dup in s.book.rows
    && pair.keep != pair.dup
    && !ListedElsewhere(pair, all)
    && Refusals(s.book.rows[pair.keep], s.book.rows[pair.dup], pair.overrides) == {}
  }

  function AppliedTo(s: Store, pair: Pair): set<Override>
    requires pair.keep in s.book.rows && pair.dup in s.book.rows
  {
    AppliedOverrides(s.book.rows[pair.keep], s.book.rows[pair.dup], pair.overrides)
  }

  /** The store after one pair of a batch is merged. */
  function Next(s: Store, pair: Pair, now: int): Store
    requires pair.keep in s.book.rows && pair.dup in s.book.rows
  {
    MergePair(s, pair, AppliedTo(s, pair), now)
  }

  /** The pair, when its merge needs the proof of an override. */
  function AuditOf(s: Store, pair: Pair): seq<Pair>
    requires pair.keep in s.book.rows && pair.dup in s.book.rows
  {
    if AppliedTo(s, pair) != {} then [pair] else []
  }

  /** What the program reads from unseen statement code: whether the duplicate is a payment in a
      paid card cycle, and whether today's parse of the pair's statement backs an override. */
  datatype Oracle = Oracle(paidCycle: (Store, Pair) -> bool, backed: (Store, Pair) -> bool)

  /** The loop of a batch: the store it ends in, the refused pairs, and the overridden pairs. */
  function RunPairs(s: Store, todo: seq<Pair>, all: seq<Pair>, oracle: Oracle, now: int)
    : (r: (Store, seq<Pair>, seq<Pair>))
    decreases |todo|
  {
    if todo == [] then (s, [], [])
    else if !Passes(s, todo[0], all) || oracle.paidCycle(s, todo[0]) then
      var (end, refused, overridden) := RunPairs(s, todo[1..], all, oracle, now);
      (end, [todo[0]] + refused, overridden)
    else
      var (end, refused, overridden) := RunPairs(Next(s, todo[0], now), todo[1..], all, oracle, now);
      (end, refused, AuditOf(s, todo[0]) + overridden)
  }

  function Unbacked(s: Store, overridden: seq<Pair>, oracle: Oracle): seq<Pair> {
    if overridden == [] then []
    else if oracle.backed(s, overridden[0]) then Unbacked(s, overridden[1..], oracle)
    else [overridden[0]] + Unbacked(s, overridden[1..], oracle)
  }

  /** The batch in one transaction: the store afterwards and the refusals. */
  function MergeDuplicates(s: Store, pairs: seq<Pair>, dryRun: bool, oracle: Oracle, now: int): (r: (Store, seq<Pair>)) {
    var (end, refused, overridden) := RunPairs(s, pairs, pairs, oracle, now);
    var refusals := refused + Unbacked(end, overridden, oracle);
    (if dryRun || refusals != [] then s else end, refusals)
  }
}
