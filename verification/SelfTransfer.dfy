/** The authoritative self-transfer rule: two rows of opposite direction that share a reference on
    different accounts are both categorised as one's own transfer, whatever they were before. */
module SelfTransfer {
  import opened Rows

  const SELF_TRANSFER := "self_transfer"
  const MIN_DIGITS := 3

  /** The digits of a mask, in order. */
  function MaskDigits(mask: string): string {
    if mask == "" then ""
    else MaskDigits(mask[..|mask| - 1]) + if IsDigit(mask[|mask| - 1]) then [mask[|mask| - 1]] else ""
  }

  function DigitsOf(row: Row): string {
    if row.accountMask.Some? then MaskDigits(row.accountMask.value) else ""
  }

  /** The parser's label of a fixed deposit: the row's own bank, and "FD". */
  predicate IsDeposit(row: Row) {
    var bank := Lower(Strip(if row.bank.Some? then row.bank.value else ""));
    bank != "" && Lower(Strip(if row.counterparty.Some? then row.counterparty.value else "")) == bank + " fd"
  }

  /** Linked accounts decide; without both, masks of three digits or more must prove a difference. */
  predicate DifferentAccounts(a: Row, b: Row) {
    if a.account.Some? && b.account.Some? then a.account != b.account
    else
      var x, y := DigitsOf(a), DigitsOf(b);
      |x| >= MIN_DIGITS && |y| >= MIN_DIGITS && !EndsWith(x, y) && !EndsWith(y, x)
  }

  /** The two rows are the legs of one transfer. */
  predicate AreLegs(a: Row, b: Row) {
    && a.reference.Some? && Strip(a.reference.value) != "" && a.reference == b.reference
    && a.direction != b.direction
    && DifferentAccounts(a, b)
    && !IsDeposit(a) && !IsDeposit(b)
  }

  /** The other legs of a row. */
  function Legs(rows: map<int, Row>, tid: int): set<int>
    requires tid in rows
  {
    set t | t in rows && AreLegs(rows[tid], rows[t])
  }

  predicate HasLeg(rows: map<int, Row>, tid: int)
    requires tid in rows
  {
    exists leg :: leg in rows && AreLegs(rows[tid], rows[leg])
  }

  /** The categorisation of a leg: by the rule, no longer by a person. */
  function Marked(row: Row): Row {
    row.(category := Some(SELF_TRANSFER), manualCategory := false)
  }

  /** Some rows marked. */
  function MarkRows(rows: map<int, Row>, ids: set<int>): map<int, Row> {
    map t | t in rows :: if t in ids then Marked(rows[t]) else rows[t]
  }

  function ApplyRule(rows: map<int, Row>, tid: int): map<int, Row>
    requires tid in rows
  {
    var legs := Legs(rows, tid);
    if legs == {} then rows else MarkRows(rows, {tid} + legs)
  }

  lemma MarkOneMore(rows: map<int, Row>, ids: set<int>, id: int)
    requires id in rows
    ensures var now := MarkRows(rows, ids); now[id := Marked(now[id])] == MarkRows(rows, ids + {id})
  {
  }

  /** The loop over the legs that the query found. */
  method MarkLegs(rows: map<int, Row>, tid: int) returns (after: map<int, Row>)
    requires tid in rows
    ensures after == ApplyRule(rows, tid)
  {
    var todo := Legs(rows, tid);
    if todo == {} {
      return rows;
    }
    after := rows[tid := Marked(rows[tid])];
    ghost var done := {tid};
    assert after == MarkRows(rows, done);
    while todo != {}
      invariant todo <= rows.Keys
      invariant done + todo == {tid} + Legs(rows, tid)
      invariant after == MarkRows(rows, done)
      decreases |todo|
    {
      var leg := AnyOf(todo);
      MarkOneMore(rows, done, leg);
      after := after[leg := Marked(after[leg])];
      done, todo := done + {leg}, todo - {leg};
    }
    assert done == {tid} + Legs(rows, tid);
  }

  /******* What the rule does *******/

  lemma LegsAreMutual(a: Row, b: Row)
    ensures AreLegs(a, b) <==> AreLegs(b, a)
  {
  }

  lemma NoLegs(rows: map<int, Row>, tid: int)
    requires tid in rows
    ensures Legs(rows, tid) == {} <==> !HasLeg(rows, tid)
  {
    if HasLeg(rows, tid) {
      var leg :| leg in rows && AreLegs(rows[tid], rows[leg]);
      assert leg in Legs(rows, tid);
    }
    if Legs(rows, tid) != {} {
      var leg := Member(Legs(rows, tid));
      assert leg in rows && AreLegs(rows[tid], rows[leg]);
    }
  }

  /** A person's category is lost exactly on a row that has a leg, on this row and on its legs alike;
      every other column of every row stays. */
  lemma ManualLostExactly(rows: map<int, Row>, tid: int, t: int)
    requires tid in rows && t in rows
    ensures var after := ApplyRule(rows, tid);
            && after.Keys == rows.Keys
            && after[t] == rows[t].(category := after[t].category, manualCategory := after[t].manualCategory)
            && (after[t] == rows[t] || after[t] == Marked(rows[t]))
            && (rows[t].manualCategory ==>
                  (after[t].manualCategory
                   <==> if t == tid then !HasLeg(rows, tid)
                        else !AreLegs(rows[tid], rows[t])))
  {
    NoLegs(rows, tid);
  }

  lemma LegsIgnoreCategories(a: Row, b: Row)
    ensures AreLegs(Marked(a), b) <==> AreLegs(a, b)
    ensures AreLegs(a, Marked(b)) <==> AreLegs(a, b)
  {
    assert IsDeposit(Marked(a)) <==> IsDeposit(a);
    assert IsDeposit(Marked(b)) <==> IsDeposit(b);
  }

  lemma SameLegs(rows: map<int, Row>, ids: set<int>, tid: int)
    requires tid in rows
    ensures Legs(MarkRows(rows, ids), tid) == Legs(rows, tid)
  {
    var now := MarkRows(rows, ids);
    forall t | t in rows ensures AreLegs(now[tid], now[t]) <==> AreLegs(rows[tid], rows[t]) {
      LegsIgnoreCategories(rows[tid], rows[t]);
      LegsIgnoreCategories(Marked(rows[tid]), rows[t]);
    }
  }

  lemma MarkTwice(rows: map<int, Row>, ids: set<int>)
    ensures MarkRows(MarkRows(rows, ids), ids) == MarkRows(rows, ids)
  {
    var once := MarkRows(rows, ids);
    var twice := MarkRows(once, ids);
    forall t | t in rows ensures twice[t] == once[t] {
      assert Marked(Marked(rows[t])) == Marked(rows[t]);
    }
  }

  /** Running the rule again changes nothing. */
  lemma RuleIsIdempotent(rows: map<int, Row>, tid: int)
    requires tid in rows
    ensures var once := ApplyRule(rows, tid); ApplyRule(once, tid) == once
  {
    var ids := {tid} + Legs(rows, tid);
    SameLegs(rows, ids, tid);
    MarkTwice(rows, ids);
  }
}
