/** One active statement per account: the latest by due date, ties to the newer upload. */
module ActiveStatement {
  import opened Rows
  import opened Cycle

  datatype Statement = Statement(account: int, upload: Upload, active: bool)

  predicate DistinctIds(rows: seq<Statement>) {
    forall i, j :: 0 <= i < j < |rows| ==> rows[i].upload.id != rows[j].upload.id
  }

  predicate Ranked(s: Statement, account: int) {
    s.account == account && s.upload.due.Some?
  }

  predicate Outranks(a: Upload, b: Upload)
    requires a.due.Some? && b.due.Some?
  {
    a.due.value > b.due.value || (a.due == b.due && a.id >= b.id)
  }

  /** The statement that must be active. */
  ghost predicate IsLatest(rows: seq<Statement>, account: int, best: Option<Upload>) {
    && (best.Some? ==> best.value.due.Some? && exists s :: s in rows && Ranked(s, account) && s.upload == best.value)
    && (forall s :: s in rows && Ranked(s, account) ==>
          best.Some? && best.value.due.Some? && Outranks(best.value, s.upload))
  }

  /** The rows after the first UPDATE, which clears every other flag of the account. */
  function Cleared(rows: seq<Statement>, account: int, active: Option<int>): seq<Statement> {
    seq(|rows|, i requires 0 <= i < |rows| =>
      if rows[i].account == account && rows[i].active && Some(rows[i].upload.id) != active
      then rows[i].(active := false) else rows[i])
  }

  /** The rows after the second UPDATE. */
  function Marked(rows: seq<Statement>, active: Option<int>): seq<Statement> {
    seq(|rows|, i requires 0 <= i < |rows| =>
      if Some(rows[i].upload.id) == active then rows[i].(active := true) else rows[i])
  }

  /** The unique index: one active row per account. */
  predicate OneActive(rows: seq<Statement>) {
    forall i, j :: 0 <= i < j < |rows| && rows[i].account == rows[j].account ==> !(rows[i].active && rows[j].active)
  }

  class StatementTable {
    var rows: seq<Statement>

    constructor ()
      ensures rows == []
    {
      rows := [];
    }

    method Latest(account: int) returns (best: Option<Upload>)
      ensures IsLatest(rows, account, best)
    {
      best := None;
      for i := 0 to |rows|
        invariant IsLatest(rows[..i], account, best)
      {
        assert rows[..i + 1] == rows[..i] + [rows[i]];
        ghost var before := best;
        if Ranked(rows[i], account) && (best.None? || Outranks(rows[i].upload, best.value)) {
          best := Some(rows[i].upload);
          assert rows[i] in rows[..i + 1];
        } else if best.Some? {
          var s :| s in rows[..i] && Ranked(s, account) && s.upload == best.value;
          assert s in rows[..i + 1];
        }
      }
      assert rows[..|rows|] == rows;
    }

    method SetActiveStatement(account: int) returns (active: Option<int>)
      modifies this
      ensures exists best :: IsLatest(old(rows), account, best)
                && active == (if best.Some? then Some(best.value.id) else None)
      ensures rows == Marked(Cleared(old(rows), account, active), active)
    {
      var best := Latest(account);
      active := if best.Some? then Some(best.value.id) else None;
      rows := Cleared(rows, account, active);
      if active.Some? {
        rows := Marked(rows, active);
      } else {
        assert Marked(rows, active) == rows;
      }
    }
  }

  /** The index allows both statements at every moment, even if the flags of this account were wrong
      before: after the clear at most one flag of the account is left, and other accounts keep theirs. */
  lemma IndexHoldsThroughout(rows: seq<Statement>, account: int, best: Option<Upload>)
    requires DistinctIds(rows) && IsLatest(rows, account, best)
    requires forall i, j :: 0 <= i < j < |rows| && rows[i].account == rows[j].account != account ==>
               !(rows[i].active && rows[j].active)
    ensures var active := if best.Some? then Some(best.value.id) else None;
            && OneActive(Cleared(rows, account, active))
            && OneActive(Marked(Cleared(rows, account, active), active))
  {
  }

  /** Afterwards a statement of the account is active exactly when it is the latest; every other
      account is as it was. */
  lemma ExactlyTheLatestIsActive(rows: seq<Statement>, account: int, best: Option<Upload>, i: nat)
    requires DistinctIds(rows) && IsLatest(rows, account, best) && i < |rows|
    ensures var active := if best.Some? then Some(best.value.id) else None;
            var after := Marked(Cleared(rows, account, active), active);
            && after[i].upload == rows[i].upload
            && (rows[i].account == account ==> (after[i].active <==> best == Some(rows[i].upload)))
            && (rows[i].account != account ==> after[i] == rows[i])
  {
  }

  function UploadsOf(rows: seq<Statement>, account: int): seq<Upload> {
    if rows == [] then []
    else if rows[0].account == account then [rows[0].upload] + UploadsOf(rows[1..], account)
    else UploadsOf(rows[1..], account)
  }

  lemma {:induction false} UploadsOfMembers(rows: seq<Statement>, account: int)
    ensures forall s :: s in rows && s.account == account ==> s.upload in UploadsOf(rows, account)
    ensures forall u :: u in UploadsOf(rows, account) ==> exists s :: s in rows && s.account == account && s.upload == u
  {
    if rows != [] {
      UploadsOfMembers(rows[1..], account);
      forall u | u in UploadsOf(rows, account) ensures exists s :: s in rows && s.account == account && s.upload == u {
        if u in UploadsOf(rows[1..], account) {
          var s :| s in rows[1..] && s.account == account && s.upload == u;
          assert s in rows;
        } else {
          assert rows[0] in rows;
        }
      }
    }
  }

  /** The statements whose cycle window is open at the end are exactly those of the active one's due
      date, so payments of today go to the statement that takes payment actions. */
  lemma ActiveCycleIsOpen(rows: seq<Statement>, account: int, best: Upload, upload: Upload, now: int)
    requires IsLatest(rows, account, Some(best))
    requires upload in UploadsOf(rows, account) && upload.due.Some?
    ensures WindowOf(UploadsOf(rows, account), upload, now).end == None <==> upload.due == best.due
  {
    var uploads := UploadsOf(rows, account);
    UploadsOfMembers(rows, account);
    var s :| s in rows && Ranked(s, account) && s.upload == best;
    assert best in uploads;
    var mine :| mine in rows && mine.account == account && mine.upload == upload;
    assert Ranked(mine, account);
    if DueAfter(uploads, upload.due.value) {
      var row :| row in uploads && row.due.Some? && row.due.value > upload.due.value;
      var later :| later in rows && later.account == account && later.upload == row;
      assert Ranked(later, account);
    }
  }
}
