# Verified model of the financial dashboard's money logic

A Dafny 4.11 model of the parts of the financial dashboard that must keep money straight: the receivables
ledger with its match prompts and duplicate merges, the billing cycles of card statements, the net-worth
trend, the concurrency protocols around sources and caches, statement imports with investment lots, and four
small algorithms. `dafny verify dfyconfig.toml` checks the whole project.

## How the model is laid out

Tables are maps or sequences of records, money is integer paise, dates are day numbers, and one database
transaction is one step. Where the program changes state step by step, the model has a specification function
and a method or class that refines it: the loop, update or delete of the program ends in the state that the
function gives. The properties are lemmas about the functions, over every input and every run.

| files | part of the system |
|---|---|
| `Rows` | transaction rows, text and currency normalisation, shared text predicates |
| `Ledger`, `LedgerInvariants`, `LedgerMoney`, `LedgerPrompts`, `LedgerTables` | receivables, links, prompts and buttons as one state machine; what every step keeps; money; taps with reused ids; the tables as they are updated |
| `Matches`, `MatchSweep` | which receivables a row is offered to, and the sweep that asks |
| `Reconciliation`, `SelfTransfer`, `DuplicateMerge`, `MergeBatch`, `MergeOutcome`, `MergeSession` | the merge of duplicate rows: checks, one batch as one simultaneous substitution, what it leaves in rows and receivables, and the transaction with its rollback |
| `Cycle`, `ActiveStatement` | billing-cycle windows as a partition of the calendar, and the one active statement |
| `NetWorth` | the one-pass monthly trend against the net worth recomputed for each month |
| `Attachments`, `EmailLock`, `Resolution`, `QuickCheck` | source slots under stale copies, the lock of an email, preview and apply, the single-flight cache |
| `AmPm`, `Masks`, `Linker`, `Inr` | AM/PM recovery, positional masks, the linking cascade, the Indian-grouping printer |
| `Lots`, `LotStore`, `Cas`, `CasRuns` | lot extraction and storage, statement imports, and every sequence of both |

## What the proofs found

- **Billing cycles can leave a gap.** The module text of `cc_cycle.py` says that adjacent cycles leave no gap.
  For an account with one due date, a statement ingested after that date leaves the days in between in no
  window (`Cycle.LateSingleStatementLeavesGap`). `Cycle.LaterDaysPartition` states when a day is in a window:
  always, once the account has a second due date.
- **A manual link or amount edit can leave a fully paid receivable open.** The request loads the receivable
  before it takes the write lock, so it judges payment by an old copy. `LedgerMoney.StaleAttachExact` and
  `StaleAmountExact` give the exact conditions, `StaleAttachLeavesOpen` and `StaleAmountLeavesOpen` a run each.
  Button taps load under the lock and are not affected (`LedgerPrompts.LinkTapSettles`).
- **A sweep can ask about a row that is gone.** It reads without the lock, and foreign keys are not enforced. If a
  row is deleted in between and its id comes back, a tap links the new row
  (`LedgerPrompts.StaleSweepLinksAnotherRow`); `LedgerPrompts.TapActsOnAskedRow` gives the exact condition.
- **A merge can lose a manual category.** The survivor runs the self-transfer rule, which overrides a person's
  category on the survivor and on third rows. `MergeOutcome.ManualCategorySurvivesExactly` and
  `OthersLoseCategoriesExactly` say exactly when, `MergeLosesManualCategories` shows it on rows that the unique
  reference index allows.
- **An apply does not see a changed card holder.** The preview token leaves it out. `Resolution.HolderChangeExact`
  gives the exact condition, `HolderChangesUnseen` a run. The email parser never states a card holder
  (`services/emails.py:199-227`), so in the code the refused side never occurs and every such change goes unseen.
- **The slot claim alone does not keep an email on one row.** It protects the row, not the email
  (`Attachments.EmailsOnceExactly`, `UnlockedClaimsShareAnEmail`). The lock of the email keeps it single for every
  writer that looks for the email before it attaches it (`EmailLock.EmailsStayOnce`).
- **A reparsed completion leg can put its email on a second row.** It locks the email but does not look whether a row
  has it (`services/emails.py:243-295`). `EmailLock.StepExact` and `AlwaysOnceExactly` say exactly when emails stay
  single, `ReparsedCompletionSharesAnEmail` is a run that breaks it.
- **A completion can take a row from another email.** It writes the slot without the claim. `EmailLock.OwnerLostExactly`
  says exactly when, `CompletionTakesARow` is a run. It needs a database that locks rows: with SQLite's write lock
  nobody writes between the look and the write of a completion.
- **An NSDL import can give way to CDSL in two unforced steps**, with a statement of a third source in between
  (`CasRuns.NsdlGivesWayToCdsl`). It does exactly when no NSDL import follows the third source
  (`CasRuns.UnforcedNsdlStaysExactly`).
- **A plain delete keeps two mentions of the row**: category reviews, which only expire, and audit targets
  (`MergeBatch.DeletedRowIsKept`), as the code's own comments say.
- The repository's README says that the linker compares last-four digits. The code compares masks position by
  position from the right; the model follows the code.

## Model

| member | source | states |
|---|---|---|
| `Rows.InrNormalizes` | financial_dashboard/services/duplicate_merge.py:180-190 | A row the ledger links as INR (no code, an empty code, or exactly INR) is a rupee row for the merge checks too |
| `LedgerInvariants.UniqueMeans` | financial_dashboard/db/models.py:1098-1110 | The recursive form of the two link indexes says that no two links share a (receivable, row) pair and no two payment links share a row |
| `LedgerInvariants.MovedMembers` | financial_dashboard/services/receivables.py:461-483 | Which links a merge leaves, in both directions: the untouched ones and the moved ones that neither index forbids |
| `LedgerInvariants.UniqueMoved` | financial_dashboard/services/receivables.py:467-483 | After the delete of a merge, the update can never break an index |
| `LedgerInvariants.UniqueWithoutPair` | financial_dashboard/services/receivables.py:410-415 | Unlinking removes exactly the link between this receivable and this row |
| `LedgerInvariants.UniqueWithoutRow` | financial_dashboard/services/receivables.py:463-466 | A plain delete removes exactly the links of this row |
| `LedgerInvariants.AttachKeeps` | financial_dashboard/services/receivables.py:359-390 | Linking keeps the tables valid, even from a stale loaded copy |
| `LedgerInvariants.CreateKeeps` | financial_dashboard/services/receivables.py:227-270 | Creating a receivable with its links keeps the tables valid |
| `LedgerInvariants.FoldKeeps` | financial_dashboard/services/receivables.py:427-499 | A merge keeps the tables valid and leaves no link on the deleted row |
| `LedgerInvariants.DropKeeps` | financial_dashboard/services/receivables.py:463-466 | A plain delete keeps the tables valid and leaves no link on the deleted row |
| `LedgerInvariants.RetireKeeps` | financial_dashboard/services/receivables.py:448-461 | Retiring the prompt of a deleted row keeps every other prompt tied to its own message |
| `LedgerInvariants.PressKeeps` | financial_dashboard/services/receivable_matches.py:307-383 | A button tap keeps the tables valid |
| `LedgerInvariants.ApplyKeeps` | financial_dashboard/services/receivables.py:227-499 | Every operation, on any stale copy, keeps: a pair linked once, a row paying one receivable, the direction each role demands, `closed_at` empty exactly when open, one prompt for a row |
| `LedgerInvariants.RunKeeps` | financial_dashboard/services/receivables.py:227-499 | The same over every run of creates, links, unlinks, edits, merges, deletes, sweeps, sends and taps |
| `LedgerMoney.SameRole` | financial_dashboard/services/receivables.py:41-50 | Two rows of one direction on one receivable hold the same role |
| `LedgerMoney.PaidMoved` | financial_dashboard/services/receivables.py:467-483 | A merge lowers a paid sum by what the deleted links had paid and by nothing else |
| `LedgerMoney.LossIsOnePayment` | financial_dashboard/services/receivables.py:467-480 | That loss is one payment at most: the old row paid this receivable and its link was dropped |
| `LedgerMoney.FoldConserves` | financial_dashboard/services/receivables.py:427-499 | A merge leaves each paid sum as it was, except that it drops by the duplicate's amount exactly when the duplicate paid it and the keeper already paid some receivable |
| `LedgerMoney.PaidChanges` | financial_dashboard/services/receivables.py:84-93 | Exactly how one operation moves the paid sum of one receivable: up by the row of a new payment link, down by the row of a removed one, with the amount of an edited one, and otherwise not at all |
| `LedgerMoney.PaidAfterRun` | financial_dashboard/services/receivables.py:84-93 | Over every run, on copies as stale as they may be, a receivable is paid what it was paid at the start and what links, unlinks, edits, merges, deletes and taps have added or taken since |
| `LedgerMoney.CreatedPaid` | financial_dashboard/services/receivables.py:260-270 | A new receivable is settled exactly when its payment rows cover its amount |
| `LedgerMoney.AttachStep` | financial_dashboard/services/receivables.py:383-390 | A payment link adds its row's amount to one paid sum and settles what it completes |
| `LedgerMoney.EntryStep` | financial_dashboard/services/receivables.py:484-494 | Of the operations other than links, taps and edits, a merge alone may change a receivable, and only by settling it on its paid sum |
| `LedgerMoney.StatusStep` | financial_dashboard/services/receivables.py:96-103 | One operation that reads a current copy of a receivable keeps it short while open if only links add to it, and covered while settled if it is spared |
| `LedgerMoney.OpenStaysBelow` | financial_dashboard/services/receivables.py:96-103 | Along every run in which only links on current copies add to a receivable and nobody reopens it, it is never open and paid in full, whatever happens to the others |
| `LedgerMoney.SettledStaysPaid` | financial_dashboard/services/receivables.py:96-103 | Along every run that takes nothing from a settled receivable, does not raise its amount and settles nothing by hand there, it stays covered, whatever happens to the others |
| `LedgerMoney.EditTakesEffect` | financial_dashboard/services/receivables.py:294-322 | An edit on a current copy stores the amount and status asked for, settles an open receivable that its payments cover, and moves `closed_at` exactly with the status |
| `LedgerMoney.StaleEditKeepsTheRest` | financial_dashboard/services/receivables.py:309-322 | An edit from a stale copy overwrites only the columns that its request changed |
| `LedgerMoney.StaleAmountExact` | financial_dashboard/services/receivables.py:294-322 | An amount edit from a stale copy leaves a fully paid receivable open exactly when it is open, its paid sum covers the amount stored in the end, and the copy did not settle |
| `LedgerMoney.StaleAmountLeavesOpen` | financial_dashboard/services/receivables.py:294-322 | Witness: a request loads a receivable of 100, a payment of 60 is linked under the lock, and the request lowers the amount to 50; it stays open with 60 paid |
| `LedgerMoney.FoldEntry` | financial_dashboard/services/receivables.py:484-494 | A merge settles a receivable that its keeper pays and that is covered afterwards, and leaves every other as it was |
| `LedgerMoney.StaleAttachExact` | financial_dashboard/services/receivables.py:349-356 | A manual link made from a copy loaded before the write lock leaves a fully paid receivable open exactly when the payment completes the stored receivable and does not complete the copy |
| `LedgerMoney.StaleAttachLeavesOpen` | financial_dashboard/services/receivables.py:325-356 | Witness: two links of 60 on a receivable of 100, each from a copy with nothing paid, both commit and leave it open with 120 paid |
| `LedgerPrompts.TapFitsMessage` | financial_dashboard/services/receivable_matches.py:334-342 | A resolved tap acts on the prompt whose own delivery was the tapped message: its row is the row shown, and a linked row exists and goes to a receivable that the message offers |
| `LedgerPrompts.LinkTapSettles` | financial_dashboard/services/receivable_matches.py:347-383 | A successful link tap makes paid exactly equal to amount, settles that receivable, and changes no other receivable, row or message |
| `LedgerPrompts.OtherTapsChangeNothing` | financial_dashboard/services/receivable_matches.py:334-346 | Every refused tap writes nothing, and "Not this" only dismisses the prompt |
| `LedgerPrompts.LinkTapExact` | financial_dashboard/services/receivable_matches.py:334-378 | A tap on the message of a pending prompt links exactly when the row still fits and currency and indexes let it pay |
| `LedgerPrompts.PromptStep` | financial_dashboard/services/receivable_matches.py:198-236 | A prompt keeps its row, candidates and delivery, and its status only ever leaves pending, by a tap |
| `LedgerPrompts.OneTapPerDelivery` | financial_dashboard/services/receivable_matches.py:334-346 | In any run, with any reuse of ids, at most one tap on the messages of a delivery is resolved |
| `LedgerPrompts.PromptLives` | financial_dashboard/services/receivables.py:448-461 | A prompt found at the end of a run with an old delivery was there all along, and no step of the run took its row away |
| `LedgerPrompts.TapActsOnAskedRow` | financial_dashboard/services/receivable_matches.py:321-342 | From sweep to tap across any run: the tap acts on the very prompt that the sweep saved, and on the very row it asked about exactly when that row still existed when the prompt was saved |
| `LedgerPrompts.OrphanTapLinksALaterRow` | financial_dashboard/services/receivable_matches.py:288-297 | When the row was gone before its prompt was saved, a tap that links it links a row inserted later under the same id |
| `LedgerPrompts.StaleSweepLinksAnotherRow` | financial_dashboard/services/receivable_matches.py:276-297 | Witness: a row is read by a sweep, deleted, asked about, its id taken by another row, and a tap pays the receivable with that other row |
| `LedgerTables.DeleteThenUpdate` | financial_dashboard/services/receivables.py:472-483 | The delete followed by the update equals the one-step specification of a moved link table |
| `LedgerTables.UniqueAtEveryRow` | financial_dashboard/services/receivables.py:472-483 | Both indexes hold after every single row that the update writes |
| `LedgerTables.Tables.PaidSum` | financial_dashboard/services/receivables.py:84-93 | The loop computes the paid sum |
| `LedgerTables.Tables.CanInsert` | financial_dashboard/db/models.py:1098-1110 | The index check of one new link |
| `LedgerTables.Tables.AttachLink` | financial_dashboard/services/receivables.py:359-390 | Refines the linking step |
| `LedgerTables.Tables.FindRefusal` | financial_dashboard/services/receivables.py:124-163 | The first link of a new receivable that does not fit: unknown row, wrong direction, not INR, voided |
| `LedgerTables.Tables.CreateReceivable` | financial_dashboard/services/receivables.py:200-270 | Refines the creating step, with its refusals and conflicts |
| `LedgerTables.Tables.ApplyUpdate` | financial_dashboard/services/receivables.py:294-322 | Refines the editing step |
| `LedgerTables.Tables.RemoveLink` | financial_dashboard/services/receivables.py:393-424 | Refines the unlinking step; a missing link is reported and nothing written |
| `LedgerTables.Tables.DropLinks` | financial_dashboard/services/receivables.py:463-466 | Refines the clean-up of a deleted row |
| `LedgerTables.Tables.DeleteDropped` | financial_dashboard/services/receivables.py:467-480 | Refines the delete of a merge |
| `LedgerTables.Tables.RepointRows` | financial_dashboard/services/receivables.py:481-483 | The row-by-row update never meets an index and ends in the specified table |
| `LedgerTables.Tables.SettlePaidBy` | financial_dashboard/services/receivables.py:484-494 | Refines the settling of the receivables that the keeper pays |
| `LedgerTables.Tables.QueuePrompt` | financial_dashboard/services/receivable_matches.py:168-237 | Refines the saving of one prompt and its message, whether or not the row still exists; a row that has a prompt is skipped |
| `LedgerTables.Tables.MoveReceivableLinks` | financial_dashboard/services/receivables.py:427-499 | Refines the whole move of links in a merge, and no uniqueness error is ever raised |
| `LedgerTables.Tables.ResolveMatchTap` | financial_dashboard/services/receivable_matches.py:307-383 | Refines the button tap, answer by answer |
| `Matches.FindIdentity` | financial_dashboard/services/receivable_matches.py:84-122 | The loop finds the longest stored identifier in the row, or for an unknown person all long name words in the counterparty |
| `Matches.DroppedIsCovered` | financial_dashboard/services/receivable_matches.py:149-157 | Every receivable dropped by the containment filter is strictly contained in the identifier of one that is kept |
| `Matches.KeptAreIncomparable` | financial_dashboard/services/receivable_matches.py:149-157 | No kept identifier hides another kept one |
| `Matches.OffersAreCanonical` | financial_dashboard/services/receivable_matches.py:139-165 | The offered list does not depend on the order in which the receivables were read |
| `Matches.OffersFit` | financial_dashboard/services/receivable_matches.py:139-165 | At most three are offered, and each is open, payable by this row and named by it |
| `Matches.NothingOfferedExact` | financial_dashboard/services/receivable_matches.py:147-165 | Nothing is offered exactly when nothing matches or more than three stay visible |
| `MatchSweep.ReadSweep` | financial_dashboard/services/receivable_matches.py:261-290 | The query loops find exactly the questions that the tables call for: open receivables, rows with no currency or INR, not voided, not linked, not prompted |
| `MatchSweep.SavePrompts` | financial_dashboard/services/receivable_matches.py:287-304 | The insert loop, into tables that may have changed since, ends in the state of the run of its questions, and counts the prompts it saved |
| `MatchSweep.SweepOnlyAsks` | financial_dashboard/services/receivable_matches.py:270-301 | A sweep is a run that only adds prompts, each for a row that qualified when read, with exactly its offers |
| `MatchSweep.EveryNewButtonSettles` | financial_dashboard/services/receivable_matches.py:307-383 | Every Link button of a new prompt, tapped before anything else happens, finds the row still naming the person, links it and settles the receivable |
| `Reconciliation.RewriteCandidates` | financial_dashboard/services/duplicate_merge.py:241-246 | The candidate list with one id replaced or dropped and repeats removed |
| `Reconciliation.RewriteLines` | financial_dashboard/services/duplicate_merge.py:235-249 | Refines the rewriting of one group, and reports whether any entry named the row |
| `Reconciliation.RepointReconciliation` | financial_dashboard/services/duplicate_merge.py:226-252 | Refines the rewriting of both groups |
| `Reconciliation.DedupAbsorbs` | financial_dashboard/services/duplicate_merge.py:244-246 | Removing repeats before a substitution makes no difference once repeats are removed after it |
| `Reconciliation.RepointForgets` | financial_dashboard/services/duplicate_merge.py:226-252 | After the rewrite no entry names the row that went away, on a merge and on a delete |
| `Reconciliation.UntouchedStays` | financial_dashboard/services/duplicate_merge.py:251-252 | A stored reconciliation that does not name the row is unchanged |
| `SelfTransfer.MarkLegs` | financial_dashboard/services/categorization/self_transfer.py:93-139 | The loop marks the row and its legs, or nothing when it has no leg |
| `SelfTransfer.LegsAreMutual` | financial_dashboard/services/categorization/self_transfer.py:64-104 | Being legs of one transfer does not depend on which row runs the rule |
| `SelfTransfer.ManualLostExactly` | financial_dashboard/services/categorization/self_transfer.py:102-139 | A category that a person set is lost exactly on a row with a leg and on its legs; every other column of every row stays |
| `SelfTransfer.RuleIsIdempotent` | financial_dashboard/services/categorization/self_transfer.py:36-61 | Running the rule again changes nothing |
| `MergeBatch.PassingPairFolds` | financial_dashboard/services/duplicate_merge.py:168-223 | Every pair that passes the checks has one direction, and one amount unless the duplicate is not in rupees, so the ledger conditions of a merge hold |
| `MergeBatch.SourcesSurvive` | financial_dashboard/services/duplicate_merge.py:158-165 | Without a refusal, an SMS or email that either row owned is owned by the survivor |
| `MergeBatch.StatementReferenceSurvives` | financial_dashboard/services/duplicate_merge.py:141-155 | Without an override, a statement row's reference survives the merge, whichever row it was on |
| `MergeBatch.FoldingTwiceIsOnce` | financial_dashboard/services/duplicate_merge.py:508-551 | Folding the same facts in again changes nothing |
| `MergeBatch.DistinctnessIsSymmetric` | financial_dashboard/services/txn_merge.py:775-786 | Reference evidence does not depend on which row stays |
| `MergeBatch.SigmaMeans` | financial_dashboard/services/duplicate_merge.py:648-662 | The substitution of a batch is well defined and idempotent: it never lands on a deleted row |
| `MergeBatch.SigmaStep` | financial_dashboard/services/duplicate_merge.py:657-670 | One merge followed by the substitution of the remaining pairs is the substitution of all pairs |
| `MergeBatch.CandidatesStep` | financial_dashboard/services/duplicate_merge.py:241-246 | The same for candidate lists, with repeats removed at each step or once at the end |
| `MergeBatch.MergedLinkExact` | financial_dashboard/services/receivables.py:467-483 | Exactly which links one merge leaves, without mention of its delete and update |
| `MergeBatch.ImageStep` | financial_dashboard/services/receivables.py:467-483 | One merge followed by the image of the remaining pairs is the image of all pairs, for receivable links |
| `MergeBatch.AcceptedIsDisjoint` | financial_dashboard/services/duplicate_merge.py:448-462 | In an accepted batch no duplicate is listed twice and none is a keeper |
| `MergeBatch.BatchRows` | financial_dashboard/services/duplicate_merge.py:657-688 | An accepted batch deletes exactly the duplicates, keeps every keeper, and leaves the ledger valid |
| `MergeBatch.BatchReferences` | financial_dashboard/services/duplicate_merge.py:277-286 | Every single-row reference of every referring table is substituted at once |
| `MergeBatch.BatchUploads` | financial_dashboard/services/duplicate_merge.py:298-309 | Every stored reconciliation is substituted at once |
| `MergeBatch.BatchActions` | financial_dashboard/services/duplicate_merge.py:288-296 | Every audit row is substituted at once, and exactly one audit record is added for each overridden pair |
| `MergeBatch.BatchLinks` | financial_dashboard/services/receivables.py:427-499 | Receivable links after a batch, from the links before it alone: rows substituted, and of one family only its first payer's payment kept |
| `MergeBatch.BatchConserves` | financial_dashboard/services/receivables.py:427-499 | Each paid sum drops by the payments of the duplicates whose keeper, or an earlier duplicate of the same keeper, already paid, and by nothing else |
| `MergeBatch.BatchPrompts` | financial_dashboard/services/receivables.py:448-461 | A batch retires exactly the prompts of its duplicates and cancels exactly their unsent messages |
| `MergeBatch.BatchCommitsOrNothing` | financial_dashboard/services/duplicate_merge.py:654-688 | A batch with any refusal, and a dry run, leaves every table as it was |
| `MergeBatch.CommittedBatchForgets` | financial_dashboard/services/duplicate_merge.py:255-309 | After a committed batch no link, prompt, reference, audit row link or reconciliation entry names a deleted id |
| `MergeBatch.DeletedRowForgets` | financial_dashboard/services/duplicate_merge.py:258-262 | After a plain delete the same, except category reviews, which only expire, and audit targets, kept as history |
| `MergeBatch.DeletedRowIsKept` | financial_dashboard/services/duplicate_merge.py:258-262 | A plain delete keeps the reviews that named the row and the audit targets, and adds its own audit record |
| `MergeOutcome.BatchColumns` | financial_dashboard/services/duplicate_merge.py:516-518 | After a batch, each fillable column of a row that stays holds the first value that the row or one of its duplicates held before it, in the order of the batch |
| `MergeOutcome.ManualCategorySurvivesExactly` | financial_dashboard/services/duplicate_merge.py:312-332 | A category that a person set on either row of a pair survives exactly when no opposite row carries the survivor's reference on another account; otherwise the survivor becomes a self-transfer |
| `MergeOutcome.OthersLoseCategoriesExactly` | financial_dashboard/services/categorization/self_transfer.py:134-138 | A merge takes a person's category from a third row exactly when that row is a leg of the survivor |
| `MergeOutcome.MergeLosesManualCategories` | financial_dashboard/services/duplicate_merge.py:546-552 | Witness: a pair and a third row, all with manual categories and none alike in bank, reference and direction, of which a merge leaves no manual category |
| `MergeOutcome.BatchEntries` | financial_dashboard/services/receivables.py:484-494 | The receivables after a batch, from the tables before it alone: one is settled exactly when it was open and after some pair its keeper pays it and what is paid covers it |
| `MergeOutcome.BatchLeavesReceivables` | financial_dashboard/services/receivables.py:427-499 | While no open receivable is paid in full, a batch changes no receivable |
| `MergeSession.FindUnbacked` | financial_dashboard/services/duplicate_merge.py:676-683 | The overridden pairs that today's statement parse does not back |
| `MergeSession.Session.RepointUploads` | financial_dashboard/services/duplicate_merge.py:298-309 | Refines the loop over stored reconciliations |
| `MergeSession.Session.RepointActionRows` | financial_dashboard/services/duplicate_merge.py:277-296 | Refines the updates of the audit rows |
| `MergeSession.Session.MoveAllReferences` | financial_dashboard/services/duplicate_merge.py:255-309 | Refines the move of all references, on a merge and on a plain delete |
| `MergeSession.Session.MergeOne` | financial_dashboard/services/duplicate_merge.py:474-594 | Refines the fold of one pair |
| `MergeSession.Session.TryPair` | financial_dashboard/services/duplicate_merge.py:657-675 | One pair is merged exactly when it passes the checks and is no payment of a paid cycle, and is otherwise refused with the store untouched |
| `MergeSession.Session.RunAll` | financial_dashboard/services/duplicate_merge.py:657-675 | The loop over the pairs ends in the specified store with the specified refusals and overrides |
| `MergeSession.Session.MergeAll` | financial_dashboard/services/duplicate_merge.py:626-688 | The whole transaction: the specified store on success, the old one on any refusal or dry run |
| `Cycle.CollectAnchors` | financial_dashboard/services/cc_cycle.py:126-131 | The anchors are sorted and are exactly the due dates and ingestion times of the dated statements |
| `Cycle.LastBefore` | financial_dashboard/services/cc_cycle.py:135-137 | The last earlier anchor has the latest earlier due date |
| `Cycle.CycleWindow` | financial_dashboard/services/cc_cycle.py:75-149 | The imperative computation refines the window defined by the neighbouring due dates |
| `Cycle.WindowExact` | financial_dashboard/services/cc_cycle.py:141-149 | Exactly which days the window of a dated statement holds |
| `Cycle.SharedDueSharedWindow` | financial_dashboard/services/cc_cycle.py:133-149 | Statements that share a due date share one window |
| `Cycle.ClearsOnlyOne` | financial_dashboard/services/cc_cycle.py:3-8 | A day clears one due date only |
| `Cycle.ClearsSome` | financial_dashboard/services/cc_cycle.py:3-8 | A day always clears some due date |
| `Cycle.LaterDaysPartition` | financial_dashboard/services/cc_cycle.py:3-15 | A day after the earliest due date is in the window of the due date it clears and in no other, provided that a first group standing alone was ingested by then |
| `Cycle.EarlyDaysPartition` | financial_dashboard/services/cc_cycle.py:141-147 | An earlier day is at most in the first window, exactly from the first ingestion of that group on |
| `Cycle.WindowsNeverOverlap` | financial_dashboard/services/cc_cycle.py:10-16 | No day is in the windows of two due dates |
| `Cycle.LateSingleStatementLeavesGap` | financial_dashboard/services/cc_cycle.py:133-149 | Witness of a gap: a single statement due on day 10 and ingested on day 20 leaves day 15 in no window |
| `Cycle.NewDueLeavesOthers` | financial_dashboard/services/cc_cycle.py:75-149 | A new due date after the first leaves every window alone but the one that held it |
| `Cycle.NewDueSplitsOne` | financial_dashboard/services/cc_cycle.py:75-149 | That window becomes two that share no day and lose no day |
| `Cycle.NewEarliestMovesOneStart` | financial_dashboard/services/cc_cycle.py:63-72 | A new earliest due date moves only the start of the window that was first |
| `Cycle.UndatedMovesNothing` | financial_dashboard/services/cc_cycle.py:17-19 | A statement without a readable due date moves no window |
| `Cycle.SameDueMovesFirstStart` | financial_dashboard/services/cc_cycle.py:133-149 | A new statement with a due date that is there already moves at most the start of the first window, exactly when it was ingested before its group |
| `Cycle.DatelessRowsGoByDay` | financial_dashboard/services/cc_cycle.py:152-168 | A dateless row is in a window exactly when the day it was stored is |
| `ActiveStatement.StatementTable.Latest` | financial_dashboard/db/active_statement.py:24-38 | The loop finds the latest statement by due date, ties to the newer upload |
| `ActiveStatement.StatementTable.SetActiveStatement` | financial_dashboard/db/active_statement.py:13-56 | The two updates, in order |
| `ActiveStatement.IndexHoldsThroughout` | financial_dashboard/db/active_statement.py:40-55 | The one-active index allows the table after each of the two updates |
| `ActiveStatement.ExactlyTheLatestIsActive` | financial_dashboard/db/active_statement.py:38-56 | Afterwards a statement of the account is active exactly when it is the latest; other accounts are as they were |
| `ActiveStatement.ActiveCycleIsOpen` | financial_dashboard/db/active_statement.py:3-5 | The statements with an open cycle window are exactly those due with the active one |
| `NetWorth.LatestIsUnique` | financial_dashboard/services/networth.py:45-59 | Having the newest snapshot of each source on or before a date determines the map |
| `NetWorth.TotalWithout` | financial_dashboard/services/networth.py:262-269 | The totals do not depend on the order of the dict |
| `NetWorth.Totals` | financial_dashboard/services/networth.py:260-269 | The loop computes the INR totals of assets and liabilities |
| `NetWorth.LatestPerSource` | financial_dashboard/services/networth.py:45-59 | The loop computes the newest snapshot of each source at a date |
| `NetWorth.CurrentNetWorth` | financial_dashboard/services/networth.py:101-114 | Today's net worth, from the definition |
| `NetWorth.PrefixIsLatest` | financial_dashboard/services/networth.py:244-259 | The snapshots that the pointer has passed are exactly those that the cutoff admits, last write newest |
| `NetWorth.Advance` | financial_dashboard/services/networth.py:256-259 | One move of the pointer turns the map of an earlier month into that of this month |
| `NetWorth.MonthlyTrend` | financial_dashboard/services/networth.py:249-280 | The one-pass walk ends, and gives one point for each month from the first snapshot to today, each equal to the net worth recomputed from scratch at that month's cutoff |
| `NetWorth.LastPointIsToday` | financial_dashboard/services/networth.py:253-275 | The last point is the current net worth |
| `NetWorth.MonthsAreConsecutive` | financial_dashboard/services/networth.py:273-279 | Months follow each other, December by January, none skipped |
| `Attachments.SlotTable.UpdateIfOpen` | financial_dashboard/services/email_attachments.py:80-95 | The conditional update writes one row exactly when the slot is empty or already holds this source |
| `Attachments.LoadedRow.ClaimSlot` | financial_dashboard/services/email_attachments.py:53-101 | The claim on a loaded copy: table, copy and conflict |
| `Attachments.OwnerNeverChanges` | financial_dashboard/services/email_attachments.py:59-67 | Under every interleaving of claims on stale copies, an owned slot keeps its owner |
| `Attachments.WrittenAtMostOnce` | financial_dashboard/services/email_attachments.py:59-67 | A stored row's slot is written at most once |
| `Attachments.EnrichersOwnTheirSlot` | financial_dashboard/services/email_attachments.py:63-67 | Whoever enriched a row through a slot that looked open owns that slot |
| `Attachments.EmailsOnceExactly` | financial_dashboard/services/email_attachments.py:53-101 | A step without the lock leaves every email on one row exactly when the email it attaches, if any, is on none |
| `Attachments.UnlockedClaimsShareAnEmail` | financial_dashboard/services/email_attachments.py:53-101 | Witness: the claim alone lets two workers attach one email to two rows |
| `Attachments.ClaimRaisesExactly` | financial_dashboard/services/email_attachments.py:71-96 | A claim raises exactly when the slot looked open and another source has it by now, and then writes nothing |
| `EmailLock.WhereEmailsComeFrom` | financial_dashboard/services/emails.py:290-292 | A step brings no email to a row but a new one or the one that its committing writer holds |
| `EmailLock.NobodyElseAttaches` | financial_dashboard/services/email_attachments.py:33-50 | While a writer holds the lock of an email that no row has, no other step attaches it |
| `EmailLock.RunKeeps` | financial_dashboard/services/email_attachments.py:33-50 | Every interleaving keeps what a writer found under its lock: the lock is its own, and an email it looked for and missed is still on no row |
| `EmailLock.MutualExclusion` | financial_dashboard/services/email_attachments.py:36-50 | No two writers are in a transaction about one email |
| `EmailLock.StepExact` | financial_dashboard/services/emails.py:243-295 | A step leaves every email on one row exactly when it completes no row with an email that another row has |
| `EmailLock.AlwaysOnceExactly` | financial_dashboard/services/emails.py:243-295 | Under every interleaving of polls, text messages, merges, deletes, reparses and resolutions, an email is at all times on one row at most exactly when every completion writes an email that no other row has at that time |
| `EmailLock.EmailsStayOnce` | financial_dashboard/services/email_attachments.py:33-50 | If no completion goes for an open row although a row has its email when it looks, emails stay on one row, whatever comes between the look and the write |
| `EmailLock.ReparsedCompletionSharesAnEmail` | financial_dashboard/web/emails.py:779-784 | Witness: a completion, a merge, a text message and a reparse of the completion leave its email on two rows |
| `EmailLock.OwnerLostExactly` | financial_dashboard/services/emails.py:290-292 | A row that stays has its email replaced exactly when a completion that found it open writes after another email was attached |
| `EmailLock.CompletionTakesARow` | financial_dashboard/services/emails.py:290-292 | Witness: two emails under their own locks, of which the completion takes the row from the other |
| `EmailLock.JoinExact` | financial_dashboard/web/emails.py:423-496 | After any run since its check, a writer that claims a row gets it exactly when the row is still there without an email, and its email is then on no other row; otherwise it loses the slot and writes nothing |
| `EmailLock.FoldKeeps` | financial_dashboard/services/duplicate_merge.py:209-210 | A merge carries the duplicate's email over to the keeper and attaches no other |
| `Resolution.ComputeEnrichmentDiff` | financial_dashboard/services/txn_merge.py:264-324 | The field loop computes the diff of an email |
| `Resolution.DiffExplainsEveryField` | financial_dashboard/services/txn_merge.py:264-324 | After a diff each value is a filled one, an overwritten one whose reported old value was the stored one, or the kept one |
| `Resolution.OrmRow.ApplyEnrichment` | financial_dashboard/services/txn_merge.py:1281-1326 | The mutation, attribute by attribute: claim, diff on the claimed row, assignments, source label by channel |
| `Resolution.ProjectionIsExact` | financial_dashboard/services/duplicate_resolution.py:105-121 | What the preview projects is what the mutation leaves, diff and label included |
| `Resolution.RecheckNeverFires` | financial_dashboard/services/duplicate_resolution.py:386-391 | The recheck of the applied diff never fires: an apply is stale exactly when its token is |
| `Resolution.CommitKeepsPreview` | financial_dashboard/services/duplicate_resolution.py:353-407 | Whatever happened since the preview, a commit uses the previewed email, rule, parse and target columns, commits the previewed diff and ends in the previewed state; the card holder, which the token does not cover, agrees whenever the email states one |
| `Resolution.HolderChangeExact` | financial_dashboard/services/duplicate_resolution.py:54-88 | A change of the card holder alone between preview and apply is refused exactly when the parsed email states a card holder |
| `Resolution.HolderChangesUnseen` | financial_dashboard/services/duplicate_resolution.py:54-88 | Witness: a preview, a statement that names the card holder, and an apply that commits over it |
| `Resolution.CommitWritesOneRow` | financial_dashboard/services/duplicate_resolution.py:356-407 | A refused apply writes nothing; a commit attaches the email to this row alone and of other rows and emails changes at most a row's category |
| `Resolution.LegsRecategorised` | financial_dashboard/services/categorization/self_transfer.py:121-138 | Of other rows a commit recategorises exactly the legs of the enriched row |
| `Resolution.TokenIsSpent` | financial_dashboard/services/duplicate_resolution.py:224-244 | After a commit every further apply of that email is refused |
| `Resolution.FreshPreviewCommits` | financial_dashboard/services/duplicate_resolution.py:365-391 | An apply on an unchanged store always commits, through the recheck |
| `QuickCheck.CacheState.Cached` | financial_dashboard/services/database.py:228-234 | A hit needs a stored result whose expiry has not passed |
| `QuickCheck.CacheState.Enter` | financial_dashboard/services/database.py:411-413 | The look-up is repeated inside the lock; a hit leaves it at once |
| `QuickCheck.StepKeeps` | financial_dashboard/services/database.py:393-427 | Every arrival, lock entry, scan, answer, cancellation and tick keeps the protocol invariant |
| `QuickCheck.OneLiveScan` | financial_dashboard/services/database.py:411-422 | At most one request of an engine is inside a refresh |
| `QuickCheck.CacheAnswersAreFresh` | financial_dashboard/services/database.py:404-412 | Every answer labelled cache came from a completed live scan that had not expired when looked at |
| `QuickCheck.ScansAreSpaced` | financial_dashboard/services/database.py:237-243 | A live scan starts, and a result is stored, no sooner than 300 s after any earlier store |
| `QuickCheck.OnlyCompletedScansAreCached` | financial_dashboard/services/database.py:415-421 | No other step changes the cached result or its expiry |
| `QuickCheck.CancelFreesTheLock` | financial_dashboard/services/database.py:53-57 | After a cancelled refresh the next waiter can enter and refresh |
| `AmPm.Disambiguate` | financial_dashboard/services/emails.py:91-148 | The candidate loop returns the plausible reading closest to the arrival, the earlier on a tie, or the parsed time |
| `AmPm.RecoveryExact` | financial_dashboard/services/emails.py:104-112 | Exactly when the 12-hour form of a true time gives that time back, for all times and arrivals |
| `AmPm.PromptAlertsAreRecovered` | financial_dashboard/services/emails.py:77-88 | Every arrival from 5 minutes before to just under 11 h 55 min after the transaction recovers it |
| `AmPm.LaterAlertsTurnToAfternoon` | financial_dashboard/services/emails.py:133-148 | The bound is tight: at exactly 11 h 55 min every morning time comes back as afternoon |
| `AmPm.ResultKeepsTheFace` | financial_dashboard/services/emails.py:122-129 | The result always shows the time that was printed |
| `Masks.NormalizeMask` | financial_dashboard/core/masks.py:34-65 | The loop drops separators, unifies wildcards, and rejects a string with any other character |
| `Masks.TrailingVisibleDigits` | financial_dashboard/core/masks.py:68-86 | The loop counts the digits at the right edge |
| `Masks.MaskMatches` | financial_dashboard/core/masks.py:89-109 | The loop decides agreement over the right-aligned overlap |
| `Masks.MatchMeansCommonNumber` | financial_dashboard/core/masks.py:89-109 | Two non-empty masks match exactly when some full number is denoted by both |
| `Masks.MatchIsSymmetric` | financial_dashboard/core/masks.py:89-109 | Matching is symmetric |
| `Masks.RevealingNeverMatchesMore` | financial_dashboard/core/masks.py:92-95 | Showing hidden digits never creates a match |
| `Masks.OverhangIsIgnored` | financial_dashboard/core/masks.py:94-95 | More digits to the left of the overlap change nothing |
| `Masks.NormalizeIsIdempotent` | financial_dashboard/core/masks.py:34-65 | Normalizing twice is normalizing once |
| `Masks.SeparatorsAreIgnored` | financial_dashboard/core/masks.py:37-39 | A separator inserted anywhere changes nothing |
| `Masks.UnreadableMatchesNothing` | financial_dashboard/core/masks.py:41-45 | One stray character makes a mask match nothing |
| `Masks.NumbersMatchBySuffix` | financial_dashboard/core/masks.py:8-15 | Two numbers without wildcards match exactly when one ends in the other |
| `Linker.BuildLinkContext` | financial_dashboard/services/linker.py:150-193 | The loops build, for each bank, exactly its cards, masked accounts, accounts and account types |
| `Linker.FindCardMatch` | financial_dashboard/services/linker.py:196-221 | The only matching card of a bank, if there is exactly one |
| `Linker.FindAccountMatch` | financial_dashboard/services/linker.py:224-247 | The only matching account of a bank, if there is exactly one |
| `Linker.ListsAreSets` | financial_dashboard/services/linker.py:150-247 | A unique hit in the lookup lists is a unique member of the set of matching cards or accounts |
| `Linker.LinkedRow.LinkTransaction` | financial_dashboard/services/linker.py:255-380 | The four-level cascade: the unique match at the first level that has one, over the sets of accounts and cards; a linked row is left alone |
| `Linker.CardComesWithOwner` | financial_dashboard/services/linker.py:265-268 | A card is only set together with the account that owns it, in the row's bank |
| `Linker.OtherBanksDoNotMatter` | financial_dashboard/services/linker.py:287-353 | Accounts and cards of other banks never change a link |
| `Linker.LoadOrderDoesNotMatter` | financial_dashboard/services/linker.py:159-185 | Contexts loaded in any order find the same matches |
| `Linker.LeadingDigitsNeverLink` | financial_dashboard/core/masks.py:71-74 | Masks whose digits are not at the right end never link |
| `Inr.HalfUpExact` | financial_dashboard/core/templating.py:56 | The rounded amount is the only whole number of paise at most half a paisa away, on a tie the one farther from zero |
| `Inr.GroupDigits` | financial_dashboard/core/templating.py:58-67 | The loop over pairs places commas as the digit-by-digit rule does |
| `Inr.FormatInrExact` | financial_dashboard/core/templating.py:36-68 | The printer is sign, rupee sign, grouped digits, point, two paise digits |
| `Inr.PrintedReadsBack` | financial_dashboard/core/templating.py:56-68 | Dropping the rupee sign, commas and point gives the rounded paise back |
| `Inr.PrintingIsInjective` | financial_dashboard/core/templating.py:56-68 | Different paise amounts print differently |
| `Inr.SignExact` | financial_dashboard/core/templating.py:57 | A sign is printed exactly for amounts of minus half a paisa or less, so never for minus zero |
| `Inr.GroupedLength` | financial_dashboard/core/templating.py:59-67 | How many commas a number of digits gets |
| `Inr.CommaPlaces` | financial_dashboard/core/templating.py:39-41 | Commas stand at 3, 6, 9, … characters from the right end and nowhere else: a last group of three, twos above |
| `Lots.CostBasisWithinAPaisa` | financial_dashboard/services/investment_transactions.py:145-161 | A lot's cost basis is within one paisa of the whole-paise amount that the statement prints |
| `Lots.CostBasisCanDiffer` | financial_dashboard/services/investment_transactions.py:145-161 | The bound is reached |
| `Lots.LotIsAnAcquisition` | financial_dashboard/services/investment_transactions.py:79-143 | A lot comes only from a dated, identified mutual-fund acquisition that carries no disposal marker |
| `Lots.LotFigures` | financial_dashboard/services/investment_transactions.py:117-161 | Its units and price are positive and its cost basis is not negative |
| `Lots.ExtractLots` | financial_dashboard/services/investment_transactions.py:190-219 | The loop with its counters refines the numbered list of lots and the list of exclusions |
| `Lots.ExtractionNumbers` | financial_dashboard/services/investment_transactions.py:206-216 | A lot's occurrence is the number of lots before it with its source key |
| `Lots.OccurrencesNeverRepeat` | financial_dashboard/services/investment_transactions.py:206-216 | Under one key occurrences grow strictly and stay below the number of lots |
| `Lots.EveryOccurrenceIsUsed` | financial_dashboard/services/investment_transactions.py:206-216 | So under one key they are exactly 0, 1, …, k-1 |
| `Lots.NothingIsDropped` | financial_dashboard/services/investment_transactions.py:203-218 | Each transaction object becomes one lot or one exclusion |
| `LotStore.LotTable.LoadKeys` | financial_dashboard/services/investments.py:106-117 | The keys already stored for an upload |
| `LotStore.LotTable.CreateInvestmentLots` | financial_dashboard/services/investments.py:95-143 | Inserts the lots of the statement that are not stored for the upload yet, and counts them |
| `LotStore.LotTable.BackfillInvestmentLots` | financial_dashboard/services/investments.py:178-217 | Normalises the saved uploads in order and passes over the undecodable ones |
| `LotStore.CreatedExact` | financial_dashboard/services/investments.py:117-140 | Exactly the statement's lots are added to its upload, and no other upload gains one |
| `LotStore.CreatedTwice` | financial_dashboard/services/investments.py:98-104 | Normalising an upload again adds nothing |
| `LotStore.CreatedKeepsUnique` | financial_dashboard/db/models.py:416-425 | If all that is stored for an upload came from its statement, the unique constraint is never met |
| `LotStore.BackfilledExact` | financial_dashboard/services/investments.py:178-217 | A backfill adds to every upload exactly the lots that its own statement states |
| `LotStore.BackfilledTwice` | financial_dashboard/services/investments.py:181-186 | A second backfill creates nothing |
| `Cas.ClassTotals` | financial_dashboard/services/cas_ingestion.py:126-141 | The nested loops compute the breakdown by asset class |
| `Cas.BreakdownExact` | financial_dashboard/services/cas_ingestion.py:126-141 | The breakdown adds up to the larger of the stated total and the classified sum, each class holds its positions, and the unclassified rest is under "other" |
| `Cas.ClearedOneMore` | financial_dashboard/services/cas_ingestion.py:71-95 | Deleting uploads one after the other is deleting them together |
| `Cas.CasTables.AnyFromNsdl` | financial_dashboard/services/cas_ingestion.py:61-64 | Whether some upload to be replaced came from NSDL |
| `Cas.CasTables.DeleteUpload` | financial_dashboard/services/cas_ingestion.py:72-95 | Removes an upload with its snapshots, their holdings and its lots |
| `Cas.CasTables.DeletePrior` | financial_dashboard/services/cas_ingestion.py:71-95 | The loop removes every upload of the period |
| `Cas.CasTables.AddHoldings` | financial_dashboard/services/cas_ingestion.py:143-151 | Adds one holding for each asset class |
| `Cas.CasTables.IngestCasPayload` | financial_dashboard/services/cas_ingestion.py:32-161 | The whole import: its four refusals with nothing written, or the replaced store |
| `CasRuns.NsdlStep` | financial_dashboard/services/cas_ingestion.py:61-70 | One import leaves a period to NSDL exactly when it is from NSDL, or NSDL had it and the import is neither forced from CDSL nor from a third source |
| `CasRuns.NsdlExact` | financial_dashboard/services/cas_ingestion.py:61-70 | After any run, forced or not, the period is NSDL's exactly when folding that rule over the operations says so |
| `CasRuns.HealedMeans` | financial_dashboard/services/cas_ingestion.py:61-70 | The closed form: nothing ousts NSDL after its last import, or nothing does at all and it was there |
| `CasRuns.UnforcedNsdlStaysExactly` | financial_dashboard/services/cas_ingestion.py:61-70 | An unforced run keeps NSDL exactly when every import from a third source is followed by one from NSDL |
| `CasRuns.NsdlGivesWayToCdsl` | financial_dashboard/services/cas_ingestion.py:61-70 | Witness: imports from NSDL, another source and CDSL, none forced, end with CDSL |
| `CasRuns.ClearedKeeps` | financial_dashboard/services/cas_ingestion.py:71-95 | Deleting any uploads leaves no orphan and disturbs no other upload |
| `CasRuns.InsertedHoldings` | financial_dashboard/services/cas_ingestion.py:114-151 | A snapshot whose id was used before adopts no old holding |
| `CasRuns.InsertedLots` | financial_dashboard/services/cas_ingestion.py:160 | A new upload holds lots of its own statement only, without repeated keys |
| `CasRuns.IngestKeeps` | financial_dashboard/services/cas_ingestion.py:32-161 | An import keeps the store sound |
| `CasRuns.BackfillKeeps` | financial_dashboard/services/investments.py:178-217 | A backfill keeps the store sound |
| `CasRuns.RunKeeps` | financial_dashboard/services/cas_ingestion.py:32-161 | After any imports and backfills: one upload for a portfolio and date, one snapshot for an upload, no orphan snapshot, holding or lot, every breakdown and lot as its statement says |
| `CasRuns.NormalisedStays` | financial_dashboard/services/investments.py:98-104 | Once every upload has its lots, imports keep it so and backfills do nothing |
| `CasRuns.BackfillNormalises` | financial_dashboard/services/investments.py:178-186 | A backfill over all uploads gives each all its lots, however few were stored before |
| `CasRuns.OthersUntouched` | financial_dashboard/services/cas_ingestion.py:49-95 | An import leaves other periods' uploads, snapshots, holdings and lots and all other snapshots as they were |
| `CasRuns.ImportTwice` | financial_dashboard/services/cas_ingestion.py:49-161 | Importing the same statement again changes nothing |

## Left out

- Email, SMS and PDF parsing, mail and Telegram transport, the Paisa client, HTTP routes, templates and settings: input and output, or thin wrappers.
- Statement reparse (the proof behind a merge override) and the paid-card-cycle check: they rest on statement code outside the core files; an oracle may refuse for either reason.
- Person identifiers: extraction from raw text, learning and renaming are not modelled; a row comes with its squashed counterparty, VPAs, phones and name words, and a tap with whether the row still names the person.
- Columns that no modelled check reads (times, card mask and holder, raw text, source label and channel of a merge survivor; category metadata other than the category and whether a person set it; conflict reports): their folding only fills empty fields.
- The self-transfer rule on new rows and the retry of model categories (`requeue_after_enrichment`) after a merge: the rule is modelled where a merge or a resolution runs it, and the retry leaves manual categories alone.
- The card payment recompute after a merge (`resync_tracked_cc_payment_state`) and the unique transaction reference of a bank, but for the rows of `MergeOutcome.MergeLosesManualCategories`: their code is not part of this model.
- Rows edited outside the modelled operations: a row edit is assumed to keep the direction, and the rupee currency of a linked row; voiding a linked row is allowed.
- The text prefilter on stored reconciliations: the rewrite is applied to every one, and is proved to change only those that name the row.
- Prompt and delivery ids are parameters: any id free at the moment, so reuse is covered. The reads of a sweep, its inserts and the sending of its messages are separate steps.
- The net-worth query's filter on deactivated accounts and items: the snapshots given are those it returns.
- `merge_pair_no_commit`: one pair with two more refusals, inside a settlement transaction that is not part of this model.
- The order of rows from a query is a precondition or an arbitrary list, as the query sets it.
- The two due-date parsers: each statement comes with its parsed due date, and all statements are of one account.
- Tokens: JSON text and SHA-256 are one record, taken to be injective; parser, duplicate matcher and overwrite refusals are functions of what they read.
- The health check's cheap diagnostics, connectivity failures and the path without an engine: only whether a scan completed matters to the cache.
- Non-ASCII letters in case folding and in reference comparison, and Decimal precision limits (28 digits): text and numbers are exact.
- Storage scale of lots: quantity and unit cost are stored with six decimals and are taken to be exact there; a statement with more decimals is outside the idempotence results.
- Statement values of an import are whole paise; raw holdings JSON, labels and the portfolio reconciliation flags carry no logic.
- Current valuations, lot exclusion texts, `format_inr_compact`, `mask_last4` and `display_mask`: listings and display.
- LedgerTables.Tables.AttachLink: writes status and closing time of a stale copy together, because the code always sets them together.
- The email lock is modelled for one email at a time; the write lock of SQLite excludes every other writer besides, so its runs are among those modelled.
- Which row a completion leg completes (`_find_completion_primary`): any row may be the one found.
