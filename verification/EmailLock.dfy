/** The lock of a stored email. Every writer that attaches a stored email locks it first. A parse, a reparse
    and an explicit resolution then look whether some row has the email already. The reparse of a completion
    leg does not: it attaches the email to the row that it completes whenever that row looks open. */
module EmailLock {
  import opened Rows
  import opened Attachments

  /** What a writer goes for: to claim the slot of a row that it loaded, to insert a new row, to write the
      email into the row that it completes, or to attach nothing. `open` tells whether that row had no email
      when it was loaded. */
  datatype Goal = Join(tid: int, copy: Slots) | Insert(tid: int) | Complete(tid: int, open: bool) | Nothing

  /** The transaction of one writer. */
  datatype Phase = HoldsLock(email: int) | HasDecided(email: int, goal: Goal) | Committed | Conflicted

  /** `locks` maps a locked email to its writer. */
  datatype Mail = Mail(rows: map<int, Slots>, emails: set<int>, locks: map<int, int>, writers: map<int, Phase>)

  datatype Act =
    | Receive(email: int, goal: Goal)
    | StoreSms(tid: int, sms: int)
    | ClaimSms(tid: int, copy: Slots, sms: int)
    | Fold(gone: int, keep: int)
    | Delete(tid: int)
    | Acquire(writer: int, email: int)
    | Check(writer: int, tid: int)
    | Find(writer: int, tid: int)
    | Commit(writer: int)
    | Abort(writer: int)

  /** The attachment check of a reparse and of a resolution, and the row they go for. */
  function GoalFor(rows: map<int, Slots>, email: int, tid: int): Goal {
    if HasEmail(rows, email) then Nothing
    else if tid !in rows then Insert(tid)
    else if rows[tid].email.None? then Join(tid, rows[tid])
    else Nothing
  }

  /** A completion leg found the one row that it completes. */
  function CompletionOf(rows: map<int, Slots>, tid: int): Goal {
    if tid in rows then Complete(tid, rows[tid].email.None?) else Nothing
  }

  /** The rows after a commit, and whether it failed. A completion writes its slot without a claim. */
  function Attached(rows: map<int, Slots>, email: int, goal: Goal): (map<int, Slots>, bool) {
    match goal
    case Nothing => (rows, false)
    case Insert(tid) => if tid in rows then (rows, true) else (rows[tid := Slots(None, Some(email))], false)
    case Join(tid, copy) =>
      var claimed := Claim(rows, tid, copy, Email, Some(email));
      (claimed.rows, claimed.conflict)
    case Complete(tid, open) =>
      if tid !in rows then (rows, true)
      else if open then (rows[tid := rows[tid].(email := Some(email))], false)
      else (rows, false)
  }

  predicate Active(m: Mail, writer: int) {
    writer in m.writers && (m.writers[writer].HoldsLock? || m.writers[writer].HasDecided?)
  }

  function Decide(m: Mail, writer: int, goal: Goal): Mail
    requires writer in m.writers && m.writers[writer].HoldsLock?
  {
    m.(writers := m.writers[writer := HasDecided(m.writers[writer].email, goal)])
  }

  function Step(m: Mail, a: Act): Mail {
    match a
    // A polled email is new, so no other transaction can know it yet; its own goal may rest on old rows.
    case Receive(email, goal) =>
      var (rows, failed) := Attached(m.rows, email, goal);
      if email in m.emails || (failed && goal.Complete?) then m
      else m.(emails := m.emails + {email}, rows := rows)
    case StoreSms(tid, sms) => if tid in m.rows then m else m.(rows := m.rows[tid := Slots(Some(sms), None)])
    case ClaimSms(tid, copy, sms) => m.(rows := Claim(m.rows, tid, copy, Sms, Some(sms)).rows)
    // The merge checks refuse two rows that own different emails.
    case Fold(gone, keep) =>
      if gone !in m.rows || keep !in m.rows || gone == keep
         || (m.rows[gone].email.Some? && m.rows[keep].email.Some?)
      then m
      else m.(rows := (m.rows - {gone})[keep := Slots(Fill(m.rows[keep].sms, m.rows[gone].sms),
                                                      Fill(m.rows[keep].email, m.rows[gone].email))])
    case Delete(tid) => m.(rows := m.rows - {tid})
    case Acquire(writer, email) =>
      if email !in m.emails || email in m.locks || Active(m, writer) then m
      else m.(locks := m.locks[email := writer], writers := m.writers[writer := HoldsLock(email)])
    case Check(writer, tid) =>
      if writer in m.writers && m.writers[writer].HoldsLock?
      then Decide(m, writer, GoalFor(m.rows, m.writers[writer].email, tid)) else m
    case Find(writer, tid) =>
      if writer in m.writers && m.writers[writer].HoldsLock?
      then Decide(m, writer, CompletionOf(m.rows, tid)) else m
    case Commit(writer) =>
      if writer in m.writers && m.writers[writer].HasDecided? then
        var (email, goal) := (m.writers[writer].email, m.writers[writer].goal);
        var (rows, conflict) := Attached(m.rows, email, goal);
        m.(rows := rows, locks := m.locks - {email},
           writers := m.writers[writer := if conflict then Conflicted else Committed])
      else m
    case Abort(writer) =>
      if Active(m, writer)
      then m.(locks := m.locks - {m.writers[writer].email}, writers := m.writers - {writer})
      else m
  }

  function Run(m: Mail, acts: seq<Act>): Mail
    decreases |acts|
  {
    if acts == [] then m else Run(Step(m, acts[0]), acts[1..])
  }

  /******* What the lock keeps *******/

  /** A writer in its transaction holds the lock of its email, and what its check found still holds. */
  ghost predicate WriterFits(m: Mail, writer: int)
    requires writer in m.writers
  {
    var phase := m.writers[writer];
    && (phase.HoldsLock? || phase.HasDecided? ==>
          phase.email in m.emails && phase.email in m.locks && m.locks[phase.email] == writer)
    && (phase.HasDecided? && (phase.goal.Join? || phase.goal.Insert?) ==> !HasEmail(m.rows, phase.email))
    && (phase.HasDecided? && phase.goal.Join? ==> phase.goal.copy.email.None?)
  }

  /** What every step keeps, whether or not emails stay on one row. */
  ghost predicate Guarded(m: Mail) {
    && (forall t :: t in m.rows && m.rows[t].email.Some? ==> m.rows[t].email.value in m.emails)
    && (forall k :: k in m.writers ==> WriterFits(m, k))
  }

  /** The email that a step may bring to a row: one that is new, or the one that a committing writer holds. */
  ghost predicate MayBring(m: Mail, a: Act, email: int) {
    || (a.Receive? && a.email == email && email !in m.emails)
    || (a.Commit? && a.writer in m.writers && m.writers[a.writer].HasDecided? && m.writers[a.writer].email == email)
  }

  lemma WhereEmailsComeFrom(m: Mail, a: Act, t: int)
    requires t in Step(m, a).rows && Step(m, a).rows[t].email.Some?
    ensures HasEmail(m.rows, Step(m, a).rows[t].email.value) || MayBring(m, a, Step(m, a).rows[t].email.value)
  {
    if t in m.rows && m.rows[t].email == Step(m, a).rows[t].email {
    } else if a.Fold? {
      assert m.rows[a.gone].email == Step(m, a).rows[t].email;
    }
  }

  /** While a writer holds the lock of an email that no row has, nobody else attaches it. */
  lemma NobodyElseAttaches(m: Mail, a: Act, writer: int)
    requires Guarded(m) && Active(m, writer) && !HasEmail(m.rows, m.writers[writer].email)
    requires a != Commit(writer)
    ensures !HasEmail(Step(m, a).rows, m.writers[writer].email)
  {
    var email, after := m.writers[writer].email, Step(m, a).rows;
    assert WriterFits(m, writer);
    if a.Commit? && a.writer in m.writers { assert WriterFits(m, a.writer); }
    forall t | t in after && after[t].email.Some? ensures after[t].email.value != email {
      WhereEmailsComeFrom(m, a, t);
    }
  }

  lemma GuardedWriter(m: Mail, a: Act, k: int)
    requires Guarded(m) && k in Step(m, a).writers
    ensures WriterFits(Step(m, a), k)
  {
    assert k in m.writers ==> WriterFits(m, k);
    if (a.Commit? || a.Abort?) && Active(m, a.writer) { assert WriterFits(m, a.writer); }
    if Active(m, k) && a != Commit(k) && !HasEmail(m.rows, m.writers[k].email) {
      NobodyElseAttaches(m, a, k);
    }
  }

  lemma GuardedKeeps(m: Mail, a: Act)
    requires Guarded(m)
    ensures Guarded(Step(m, a))
  {
    var after := Step(m, a);
    forall t | t in after.rows && after.rows[t].email.Some? ensures after.rows[t].email.value in after.emails {
      WhereEmailsComeFrom(m, a, t);
      if a.Commit? && a.writer in m.writers { assert WriterFits(m, a.writer); }
    }
    forall k | k in after.writers ensures WriterFits(after, k) { GuardedWriter(m, a, k); }
  }

  lemma {:induction false} RunKeeps(m: Mail, acts: seq<Act>)
    requires Guarded(m)
    ensures Guarded(Run(m, acts))
    decreases |acts|
  {
    if acts != [] {
      GuardedKeeps(m, acts[0]);
      RunKeeps(Step(m, acts[0]), acts[1..]);
    }
  }

  /** No two writers are in a transaction about one email. */
  lemma MutualExclusion(m: Mail, acts: seq<Act>, a: int, b: int)
    requires Guarded(m)
    requires var after := Run(m, acts);
             Active(after, a) && Active(after, b) && after.writers[a].email == after.writers[b].email
    ensures a == b
  {
    RunKeeps(m, acts);
    var after := Run(m, acts);
    assert WriterFits(after, a) && WriterFits(after, b);
  }

  /******* When emails stay on one row *******/

  /** The row that a step completes and the email that it writes there. */
  function Completing(m: Mail, a: Act): Option<(int, int)> {
    match a
    case Receive(email, Complete(tid, true)) =>
      if email !in m.emails && tid in m.rows then Some((tid, email)) else None
    case Commit(writer) =>
      if writer in m.writers && m.writers[writer].HasDecided? && m.writers[writer].goal.Complete?
         && m.writers[writer].goal.open && m.writers[writer].goal.tid in m.rows
      then Some((m.writers[writer].goal.tid, m.writers[writer].email)) else None
    case _ => None
  }

  predicate OnOtherRow(rows: map<int, Slots>, email: int, tid: int) {
    exists t :: t in rows && t != tid && rows[t].email == Some(email)
  }

  /** The step completes no row, or one whose email is on no other row. */
  predicate CompletesAlone(m: Mail, a: Act) {
    Completing(m, a).Some? ==> !OnOtherRow(m.rows, Completing(m, a).value.1, Completing(m, a).value.0)
  }

  lemma AttachedKeeps(rows: map<int, Slots>, email: int, goal: Goal)
    requires EmailsOnce(rows) && !HasEmail(rows, email)
    ensures EmailsOnce(Attached(rows, email, goal).0)
  {
  }

  /** A fold carries the duplicate's email over to the keeper and attaches no other. */
  lemma FoldKeeps(m: Mail, gone: int, keep: int)
    requires EmailsOnce(m.rows)
    ensures var after := Step(m, Fold(gone, keep)).rows;
            && EmailsOnce(after)
            && (forall t :: t in after && after[t].email.Some? ==> HasEmail(m.rows, after[t].email.value))
  {
    var after := Step(m, Fold(gone, keep)).rows;
    forall t | t in after && after[t].email.Some? ensures HasEmail(m.rows, after[t].email.value) {
      WhereEmailsComeFrom(m, Fold(gone, keep), t);
    }
  }

  lemma CompletingStep(m: Mail, a: Act)
    requires Guarded(m) && EmailsOnce(m.rows) && Completing(m, a).Some?
    ensures EmailsOnce(Step(m, a).rows) <==> CompletesAlone(m, a)
  {
    var (tid, email) := Completing(m, a).value;
    var after := Step(m, a).rows;
    assert after == m.rows[tid := m.rows[tid].(email := Some(email))];
    if t :| t in m.rows && t != tid && m.rows[t].email == Some(email) {
      assert after[t].email == after[tid].email;
    }
  }

  lemma OtherStep(m: Mail, a: Act)
    requires Guarded(m) && EmailsOnce(m.rows) && Completing(m, a).None?
    ensures EmailsOnce(Step(m, a).rows)
  {
    match a {
      case Receive(email, goal) =>
        if email !in m.emails { AttachedKeeps(m.rows, email, goal); }
      case Fold(gone, keep) => FoldKeeps(m, gone, keep);
      case Commit(writer) =>
        if writer in m.writers && m.writers[writer].HasDecided? {
          assert WriterFits(m, writer);
          var phase := m.writers[writer];
          if phase.goal.Join? || phase.goal.Insert? { AttachedKeeps(m.rows, phase.email, phase.goal); }
        }
      case _ =>
    }
  }

  /** Exactly when a step leaves every email on one row: unless it completes a row with an email that another
      row has. */
  lemma StepExact(m: Mail, a: Act)
    requires Guarded(m) && EmailsOnce(m.rows)
    ensures EmailsOnce(Step(m, a).rows) <==> CompletesAlone(m, a)
  {
    if Completing(m, a).Some? { CompletingStep(m, a); } else { OtherStep(m, a); }
  }

  /** Every completion of a run finds its email on no other row when it writes. */
  predicate CompletesAloneInRun(m: Mail, acts: seq<Act>)
    decreases |acts|
  {
    acts == [] || (CompletesAlone(m, acts[0]) && CompletesAloneInRun(Step(m, acts[0]), acts[1..]))
  }

  lemma PrefixOfRun(m: Mail, acts: seq<Act>, n: nat)
    requires n < |acts|
    ensures Run(m, acts[..n + 1]) == Run(Step(m, acts[0]), acts[1..][..n])
  {
    assert acts[..n + 1][0] == acts[0] && acts[..n + 1][1..] == acts[1..][..n];
  }

  /** Under every interleaving of polls, text messages, merges, deletes, reparses and resolutions, an email is
      at all times on one row at most exactly when every completion writes an email that no other row has. */
  lemma {:induction false} AlwaysOnceExactly(m: Mail, acts: seq<Act>)
    requires Guarded(m) && EmailsOnce(m.rows)
    ensures (forall n :: 0 <= n <= |acts| ==> EmailsOnce(Run(m, acts[..n]).rows)) <==> CompletesAloneInRun(m, acts)
    decreases |acts|
  {
    if acts != [] {
      var next := Step(m, acts[0]);
      GuardedKeeps(m, acts[0]);
      StepExact(m, acts[0]);
      PrefixOfRun(m, acts, 0);
      assert Run(m, acts[..1]) == next;
      forall n | 0 < n <= |acts|
        ensures Run(m, acts[..n]) == Run(next, acts[1..][..n - 1])
      {
        PrefixOfRun(m, acts, n - 1);
      }
      if CompletesAlone(m, acts[0]) {
        AlwaysOnceExactly(next, acts[1..]);
        if forall n :: 0 <= n <= |acts| ==> EmailsOnce(Run(m, acts[..n]).rows) {
          forall n | 0 <= n <= |acts[1..]| ensures EmailsOnce(Run(next, acts[1..][..n]).rows) {
            assert EmailsOnce(Run(m, acts[..n + 1]).rows);
          }
        }
      }
    } else {
      assert acts[..0] == [];
    }
  }

  /** A completion leg is reparsed that finds an open row while some row has the email. */
  predicate FindsTaken(m: Mail, a: Act) {
    && a.Find? && a.writer in m.writers && m.writers[a.writer].HoldsLock?
    && a.tid in m.rows && m.rows[a.tid].email.None?
    && HasEmail(m.rows, m.writers[a.writer].email)
  }

  predicate NeverFindsTaken(m: Mail, acts: seq<Act>)
    decreases |acts|
  {
    acts == [] || (!FindsTaken(m, acts[0]) && NeverFindsTaken(Step(m, acts[0]), acts[1..]))
  }

  /** Every completion under way has found its email on no row, and so it is still. */
  ghost predicate CompletionsClear(m: Mail) {
    forall k :: k in m.writers && m.writers[k].HasDecided? && m.writers[k].goal.Complete? && m.writers[k].goal.open ==>
      !HasEmail(m.rows, m.writers[k].email)
  }

  lemma ClearKeeps(m: Mail, a: Act)
    requires Guarded(m) && CompletionsClear(m) && !FindsTaken(m, a)
    ensures CompletionsClear(Step(m, a)) && CompletesAlone(m, a)
  {
    var after := Step(m, a);
    forall k | && k in after.writers && after.writers[k].HasDecided?
               && after.writers[k].goal.Complete? && after.writers[k].goal.open
      ensures !HasEmail(after.rows, after.writers[k].email)
    {
      assert Active(m, k) && a != Commit(k);
      NobodyElseAttaches(m, a, k);
    }
  }

  /** The lock makes one look enough: if no completion goes for an open row although a row has its email when
      it looks, emails stay on one row, whatever comes between the look and the write. */
  lemma {:induction false} EmailsStayOnce(m: Mail, acts: seq<Act>)
    requires Guarded(m) && EmailsOnce(m.rows) && CompletionsClear(m) && NeverFindsTaken(m, acts)
    ensures EmailsOnce(Run(m, acts).rows)
    decreases |acts|
  {
    if acts != [] {
      GuardedKeeps(m, acts[0]);
      ClearKeeps(m, acts[0]);
      StepExact(m, acts[0]);
      EmailsStayOnce(Step(m, acts[0]), acts[1..]);
    }
  }

  lemma RunOfThree(m: Mail, first: Act, second: Act, third: Act, rest: seq<Act>)
    ensures Run(m, [first, second, third] + rest) == Run(Step(Step(Step(m, first), second), third), rest)
  {
    RunOfOne(m, first, [second, third] + rest, [first, second, third] + rest);
    RunOfOne(Step(m, first), second, [third] + rest, [second, third] + rest);
    RunOfOne(Step(Step(m, first), second), third, rest, [third] + rest);
  }

  lemma RunOfOne(m: Mail, a: Act, rest: seq<Act>, acts: seq<Act>)
    requires acts == [a] + rest
    ensures Run(m, acts) == Run(Step(m, a), rest)
  {
    assert acts[0] == a && acts[1..] == rest;
  }

  const COMPLETED := Mail(map[1 := Slots(Some(6), None), 2 := Slots(None, None)], {}, map[], map[])
  const REPARSED := Mail(map[2 := Slots(Some(6), Some(9)), 3 := Slots(Some(7), None)], {9}, map[], map[])
  const SHARED := map[2 := Slots(Some(6), Some(9)), 3 := Slots(Some(7), Some(9))]

  lemma EmailMoves()
    ensures Run(COMPLETED, [Receive(9, Complete(1, true)), Fold(1, 2), StoreSms(3, 7)]) == REPARSED
  {
    var received := Step(COMPLETED, Receive(9, Complete(1, true)));
    assert received.rows == map[1 := Slots(Some(6), Some(9)), 2 := Slots(None, None)];
    var folded := Step(received, Fold(1, 2));
    assert folded.rows == map[2 := Slots(Some(6), Some(9))];
    RunOfThree(COMPLETED, Receive(9, Complete(1, true)), Fold(1, 2), StoreSms(3, 7), []);
    assert [Receive(9, Complete(1, true)), Fold(1, 2), StoreSms(3, 7)] + []
        == [Receive(9, Complete(1, true)), Fold(1, 2), StoreSms(3, 7)];
  }

  lemma ReparseShares()
    ensures Run(REPARSED, [Acquire(5, 9), Find(5, 3), Commit(5)]).rows == SHARED
  {
    var found := Step(Step(REPARSED, Acquire(5, 9)), Find(5, 3));
    assert found.rows == REPARSED.rows && found.writers == map[5 := HasDecided(9, Complete(3, true))];
    RunOfThree(REPARSED, Acquire(5, 9), Find(5, 3), Commit(5), []);
    assert [Acquire(5, 9), Find(5, 3), Commit(5)] + [] == [Acquire(5, 9), Find(5, 3), Commit(5)];
  }

  /** An email completes row 1, whose duplicate, row 2, then takes the email over in a merge. A text message
      stores row 3, and a reparse of the email completes row 3: the email is on rows 2 and 3. */
  lemma ReparsedCompletionSharesAnEmail()
    ensures var acts := [Receive(9, Complete(1, true)), Fold(1, 2), StoreSms(3, 7), Acquire(5, 9), Find(5, 3), Commit(5)];
            && Guarded(COMPLETED) && EmailsOnce(COMPLETED.rows) && CompletionsClear(COMPLETED)
            && Run(COMPLETED, acts).rows == SHARED && !EmailsOnce(SHARED)
  {
    var (receive, fold, store) := (Receive(9, Complete(1, true)), Fold(1, 2), StoreSms(3, 7));
    var rest := [Acquire(5, 9), Find(5, 3), Commit(5)];
    EmailMoves();
    ReparseShares();
    RunOfThree(COMPLETED, receive, fold, store, rest);
    RunOfThree(COMPLETED, receive, fold, store, []);
    assert [receive, fold, store] + [] == [receive, fold, store];
    assert [receive, fold, store] + rest == [receive, fold, store, Acquire(5, 9), Find(5, 3), Commit(5)];
    assert SHARED[2].email == SHARED[3].email;
  }

  /******* Who owns a slot *******/

  /** Exactly when a row that stays has its email replaced: when a completion that found the row open writes
      after another writer has attached its own email. */
  lemma OwnerLostExactly(m: Mail, a: Act, tid: int)
    requires Guarded(m) && tid in m.rows && m.rows[tid].email.Some? && tid in Step(m, a).rows
    ensures Step(m, a).rows[tid].email != m.rows[tid].email
            <==> Completing(m, a).Some? && Completing(m, a).value.0 == tid
                 && m.rows[tid].email != Some(Completing(m, a).value.1)
  {
  }

  const FREE := Mail(map[1 := Slots(Some(6), None)], {8, 9}, map[], map[])
  const LOOKED := Mail(map[1 := Slots(Some(6), None)], {8, 9}, map[8 := 5, 9 := 6],
                       map[5 := HasDecided(8, Complete(1, true)), 6 := HoldsLock(9)])

  lemma TwoLook()
    ensures Run(FREE, [Acquire(5, 8), Find(5, 1), Acquire(6, 9)]) == LOOKED
  {
    RunOfThree(FREE, Acquire(5, 8), Find(5, 1), Acquire(6, 9), []);
    assert [Acquire(5, 8), Find(5, 1), Acquire(6, 9)] + [] == [Acquire(5, 8), Find(5, 1), Acquire(6, 9)];
  }

  /** Two emails under their own locks: one completion finds row 1 open, the other email joins the row and
      commits, and the completion takes the row from it. */
  lemma CompletionTakesARow()
    ensures var looked := Run(FREE, [Acquire(5, 8), Find(5, 1), Acquire(6, 9)]);
            var joined := Run(looked, [Check(6, 1), Commit(6)]);
            var after := Step(joined, Commit(5));
            && Guarded(FREE) && joined.rows.Keys == {1} && joined.rows[1].email == Some(9)
            && after.rows == map[1 := Slots(Some(6), Some(8))]
            && after.writers == map[5 := Committed, 6 := Committed]
  {
    TwoLook();
    var checked := Step(LOOKED, Check(6, 1));
    assert !HasEmail(LOOKED.rows, 9);
    assert checked.rows == LOOKED.rows && checked.writers[6] == HasDecided(9, Join(1, Slots(Some(6), None)));
    RunOfOne(LOOKED, Check(6, 1), [Commit(6)], [Check(6, 1), Commit(6)]);
    RunOfOne(checked, Commit(6), [], [Commit(6)]);
  }

  /** Exactly when a writer that goes for a row gets it, after any run since its check: when the row is
      still there and still has no email. Otherwise it has lost the slot and writes nothing. */
  lemma JoinExact(m: Mail, acts: seq<Act>, writer: int)
    requires Guarded(m)
    requires var now := Run(m, acts);
             writer in now.writers && now.writers[writer].HasDecided? && now.writers[writer].goal.Join?
    ensures var now := Run(m, acts);
            var after := Step(now, Commit(writer));
            var (email, tid) := (now.writers[writer].email, now.writers[writer].goal.tid);
            && (after.writers[writer] == Committed <==> tid in now.rows && now.rows[tid].email.None?)
            && (after.writers[writer] == Committed ==>
                  && after.rows == now.rows[tid := now.rows[tid].(email := Some(email))]
                  && !OnOtherRow(after.rows, email, tid))
            && (after.writers[writer] != Committed ==> after.rows == now.rows && after.writers[writer] == Conflicted)
            && email !in after.locks
  {
    RunKeeps(m, acts);
    var now := Run(m, acts);
    assert WriterFits(now, writer);
  }
}
