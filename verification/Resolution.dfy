/** The preview-gated merge of a deferred email into a row: what a preview promises, an apply keeps. */
module Resolution {
  import opened Rows
  import T = SelfTransfer

  /******* Enrichment *******/

  datatype Field =
    | DateField | TimeField | Counterparty | CardMask | CardHolder | AccountMask
    | Reference | ChannelField | Balance | RawDescription

  /** The fields in the order the program visits them. */
  const FIELDS := [DateField, TimeField, Counterparty, CardMask, CardHolder, AccountMask,
                   Reference, ChannelField, Balance, RawDescription]

  /** Field values are opaque; an absent field has no entry. */
  type Values = map<Field, int>

  datatype Category = Category(slug: Option<string>, origin: Option<string>)

  /** A row. The token covers `covered` and every other column but the card holder and `uncovered`,
      which holds among others whether the name is a label that the user chose. */
  datatype Target = Target(
    values: Values, email: Option<int>, sms: Option<int>, source: Option<string>, category: Category,
    covered: map<string, int>, uncovered: map<string, int>)

  datatype Diff = Diff(filled: Values, overwritten: map<Field, (int, int)>)

  /** When a differing value of an email is refused: same mask digits, a later time or date, less
      information, or a user's label against a bank's name. It sees the fields but the card holder, and
      the uncovered columns. */
  type Refuses = (Field, Values, map<string, int>, Values) -> bool

  /** The fields that have such a rule. */
  predicate Refusable(f: Field) {
    f in {DateField, TimeField, Counterparty, CardMask, AccountMask, RawDescription}
  }

  /** The fields that previews and tokens show: all but the card holder. */
  function ShownValues(values: Values): Values {
    values - {CardHolder}
  }

  predicate Refused(row: Target, parsed: Values, refuses: Refuses, f: Field) {
    Refusable(f) && refuses(f, ShownValues(row.values), row.uncovered, parsed)
  }

  predicate Fills(row: Target, parsed: Values, f: Field) {
    f in parsed && f !in row.values
  }

  predicate Overwrites(row: Target, parsed: Values, refuses: Refuses, f: Field) {
    f in parsed && f in row.values && row.values[f] != parsed[f] && !Refused(row, parsed, refuses, f)
  }

  function Filled(fields: seq<Field>, row: Target, parsed: Values): Values {
    if fields == [] then map[]
    else
      var rest, f := Filled(fields[..|fields| - 1], row, parsed), fields[|fields| - 1];
      if Fills(row, parsed, f) then rest[f := parsed[f]] else rest
  }

  function Overwritten(fields: seq<Field>, row: Target, parsed: Values, refuses: Refuses): map<Field, (int, int)> {
    if fields == [] then map[]
    else
      var rest, f := Overwritten(fields[..|fields| - 1], row, parsed, refuses), fields[|fields| - 1];
      if Overwrites(row, parsed, refuses, f) then rest[f := (row.values[f], parsed[f])] else rest
  }

  function EnrichmentDiff(row: Target, parsed: Values, refuses: Refuses): Diff {
    Diff(Filled(FIELDS, row, parsed), Overwritten(FIELDS, row, parsed, refuses))
  }

  method ComputeEnrichmentDiff(row: Target, parsed: Values, refuses: Refuses) returns (diff: Diff)
    ensures diff == EnrichmentDiff(row, parsed, refuses)
  {
    var fields := FIELDS;
    diff := Diff(map[], map[]);
    for i := 0 to |fields|
      invariant diff.filled == Filled(fields[..i], row, parsed)
      invariant diff.overwritten == Overwritten(fields[..i], row, parsed, refuses)
    {
      assert fields[..i + 1][..i] == fields[..i];
      var f := fields[i];
      if f in parsed {
        if f !in row.values {
          diff := diff.(filled := diff.filled[f := parsed[f]]);
        } else if row.values[f] != parsed[f] && !Refused(row, parsed, refuses, f) {
          diff := diff.(overwritten := diff.overwritten[f := (row.values[f], parsed[f])]);
        }
      }
    }
    assert fields[..|fields|] == fields;
  }

  lemma {:induction false} FilledMeans(fields: seq<Field>, row: Target, parsed: Values, f: Field)
    ensures f in Filled(fields, row, parsed) <==> f in fields && Fills(row, parsed, f)
    ensures f in Filled(fields, row, parsed) ==> Filled(fields, row, parsed)[f] == parsed[f]
  {
    if fields != [] {
      assert fields == fields[..|fields| - 1] + [fields[|fields| - 1]];
      FilledMeans(fields[..|fields| - 1], row, parsed, f);
    }
  }

  lemma {:induction false} OverwrittenMeans(fields: seq<Field>, row: Target, parsed: Values, refuses: Refuses, f: Field)
    ensures f in Overwritten(fields, row, parsed, refuses) <==> f in fields && Overwrites(row, parsed, refuses, f)
    ensures f in Overwritten(fields, row, parsed, refuses) ==>
              Overwritten(fields, row, parsed, refuses)[f] == (row.values[f], parsed[f])
  {
    if fields != [] {
      assert fields == fields[..|fields| - 1] + [fields[|fields| - 1]];
      OverwrittenMeans(fields[..|fields| - 1], row, parsed, refuses, f);
    }
  }

  lemma EveryFieldIsVisited(f: Field)
    ensures f in FIELDS
  {
    match f
    case DateField => assert FIELDS[0] == f;
    case TimeField => assert FIELDS[1] == f;
    case Counterparty => assert FIELDS[2] == f;
    case CardMask => assert FIELDS[3] == f;
    case CardHolder => assert FIELDS[4] == f;
    case AccountMask => assert FIELDS[5] == f;
    case Reference => assert FIELDS[6] == f;
    case ChannelField => assert FIELDS[7] == f;
    case Balance => assert FIELDS[8] == f;
    case RawDescription => assert FIELDS[9] == f;
  }

  /** What a diff does to a value: a filled field was empty, an overwritten one held the reported old
      value, and every other field is kept. */
  lemma DiffExplainsEveryField(row: Target, parsed: Values, refuses: Refuses, f: Field)
    ensures var diff := EnrichmentDiff(row, parsed, refuses);
            var after := Patched(row.values, diff);
            && (f in diff.filled <==> Fills(row, parsed, f))
            && (f in diff.overwritten <==> Overwrites(row, parsed, refuses, f))
            && (f in diff.overwritten ==> diff.overwritten[f].0 == row.values[f])
            && (f in after <==> f in row.values || f in parsed)
            && (f in after ==>
                  after[f] == if f in diff.filled || f in diff.overwritten then parsed[f] else row.values[f])
  {
    EveryFieldIsVisited(f);
    FilledMeans(FIELDS, row, parsed, f);
    OverwrittenMeans(FIELDS, row, parsed, refuses, f);
  }

  /******* The projection of a preview *******/

  /** The values after a diff: filled ones added, overwritten ones replaced. */
  function Patched(values: Values, diff: Diff): Values {
    values + diff.filled + map f | f in diff.overwritten :: diff.overwritten[f].1
  }

  const SCREENSHOT := "screenshot"

  /** `s.split("+")`. */
  function Parts(s: string): seq<string> {
    if s == "" then [""]
    else if s[|s| - 1] == '+' then Parts(s[..|s| - 1]) + [""]
    else var front := Parts(s[..|s| - 1]); front[..|front| - 1] + [front[|front| - 1] + [s[|s| - 1]]]
  }

  function ProjectedSource(source: Option<string>): Option<string> {
    if source.Some? && source.value != "" && SCREENSHOT <= source.value
    then if "email" in Parts(source.value) then source else Some(source.value + "+email")
    else if source != Some("email") && source != None then Some("sms+email")
    else source
  }

  /** The part of a row that a response shows. */
  datatype Shown = Shown(values: Values, email: Option<int>, source: Option<string>)

  function State(row: Target): Shown {
    Shown(ShownValues(row.values), row.email, row.source)
  }

  function Projected(row: Target, diff: Diff, email: int): Shown {
    Shown(ShownValues(Patched(row.values, diff)), if row.email.None? then Some(email) else row.email,
          ProjectedSource(row.source))
  }

  /******* The mutation of an apply *******/

  datatype Channel = SmsChannel | EmailChannel

  function Label(channel: Channel): string {
    if channel == SmsChannel then "sms" else "email"
  }

  /** Claim the slot of the channel unless the row has an owner there. */
  function Claimed(row: Target, channel: Channel, source: int): Target {
    if channel == EmailChannel then row.(email := if row.email.Some? then row.email else Some(source))
    else row.(sms := if row.sms.Some? then row.sms else Some(source))
  }

  /** The source label of a row that a second channel joins. */
  function Joined(source: Option<string>, channel: Channel): Option<string> {
    match source
    case None => None
    case Some(name) =>
      if name != "" && SCREENSHOT <= name then
        if Label(channel) in Parts(name) then source else Some(name + "+" + Label(channel))
      else if name != Label(channel) then Some("sms+email")
      else source
  }

  /** One assignment after the other: the filled fields, then the overwritten ones. */
  function SetFilled(values: Values, fields: seq<Field>, diff: Diff): Values {
    if fields == [] then values
    else
      var before, f := SetFilled(values, fields[..|fields| - 1], diff), fields[|fields| - 1];
      if f in diff.filled then before[f := diff.filled[f]] else before
  }

  function SetOverwritten(values: Values, fields: seq<Field>, diff: Diff): Values {
    if fields == [] then values
    else
      var before, f := SetOverwritten(values, fields[..|fields| - 1], diff), fields[|fields| - 1];
      if f in diff.overwritten then before[f := diff.overwritten[f].1] else before
  }

  function Mutated(row: Target, parsed: Values, refuses: Refuses, channel: Channel, source: int): (Target, Diff) {
    var claimed := Claimed(row, channel, source);
    var diff := EnrichmentDiff(claimed, parsed, refuses);
    (claimed.(values := SetOverwritten(SetFilled(claimed.values, FIELDS, diff), FIELDS, diff),
              source := Joined(claimed.source, channel)),
     diff)
  }

  /** A row in the session, on which an enrichment works attribute by attribute. */
  class OrmRow {
    var values: Values
    var email: Option<int>
    var sms: Option<int>
    var source: Option<string>
    const category: Category
    const covered: map<string, int>
    const uncovered: map<string, int>

    constructor (row: Target)
      ensures Columns() == row
    {
      values, email, sms, source := row.values, row.email, row.sms, row.source;
      category, covered, uncovered := row.category, row.covered, row.uncovered;
    }

    function Columns(): Target
      reads this
    {
      Target(values, email, sms, source, category, covered, uncovered)
    }

    method SetFields(diff: Diff)
      modifies this`values
      ensures values == SetOverwritten(SetFilled(old(values), FIELDS, diff), FIELDS, diff)
    {
      var fields := FIELDS;
      for i := 0 to |fields|
        invariant values == SetFilled(old(values), fields[..i], diff)
      {
        assert fields[..i + 1][..i] == fields[..i];
        if fields[i] in diff.filled {
          values := values[fields[i] := diff.filled[fields[i]]];
        }
      }
      assert fields[..|fields|] == fields;
      ghost var filled := values;
      for i := 0 to |fields|
        invariant values == SetOverwritten(filled, fields[..i], diff)
      {
        assert fields[..i + 1][..i] == fields[..i];
        if fields[i] in diff.overwritten {
          values := values[fields[i] := diff.overwritten[fields[i]].1];
        }
      }
    }

    method ApplyEnrichment(parsed: Values, refuses: Refuses, channel: Channel, sourceId: int) returns (diff: Diff)
      modifies this
      ensures (Columns(), diff) == Mutated(old(Columns()), parsed, refuses, channel, sourceId)
    {
      if channel == EmailChannel {
        if email.None? { email := Some(sourceId); }
      } else {
        if sms.None? { sms := Some(sourceId); }
      }
      diff := ComputeEnrichmentDiff(Columns(), parsed, refuses);
      SetFields(diff);
      if source.Some? && source.value != "" && SCREENSHOT <= source.value {
        if Label(channel) !in Parts(source.value) {
          source := Some(source.value + "+" + Label(channel));
        }
      } else if source != Some(Label(channel)) && source.Some? {
        source := Some("sms+email");
      }
    }
  }

  /******* Projection and mutation agree *******/

  lemma {:induction false} SetMeans(values: Values, fields: seq<Field>, diff: Diff, f: Field)
    ensures f in SetFilled(values, fields, diff) <==> f in values || (f in fields && f in diff.filled)
    ensures f in SetFilled(values, fields, diff) ==>
              SetFilled(values, fields, diff)[f] == if f in fields && f in diff.filled then diff.filled[f] else values[f]
    ensures f in SetOverwritten(values, fields, diff) <==> f in values || (f in fields && f in diff.overwritten)
    ensures f in SetOverwritten(values, fields, diff) ==>
              SetOverwritten(values, fields, diff)[f]
              == if f in fields && f in diff.overwritten then diff.overwritten[f].1 else values[f]
  {
    if fields != [] {
      assert fields == fields[..|fields| - 1] + [fields[|fields| - 1]];
      SetMeans(values, fields[..|fields| - 1], diff, f);
    }
  }

  /** Assigning field by field gives the map that a preview computes. */
  lemma SettingIsPatching(values: Values, diff: Diff)
    ensures SetOverwritten(SetFilled(values, FIELDS, diff), FIELDS, diff) == Patched(values, diff)
  {
    var set1 := SetFilled(values, FIELDS, diff);
    var set2 := SetOverwritten(set1, FIELDS, diff);
    forall f: Field
      ensures f in set2 <==> f in Patched(values, diff)
      ensures f in set2 ==> set2[f] == Patched(values, diff)[f]
    {
      EveryFieldIsVisited(f);
      SetMeans(values, FIELDS, diff, f);
      SetMeans(set1, FIELDS, diff, f);
    }
  }

  lemma DiffIgnoresClaims(row: Target, parsed: Values, refuses: Refuses, channel: Channel, source: int)
    ensures EnrichmentDiff(Claimed(row, channel, source), parsed, refuses) == EnrichmentDiff(row, parsed, refuses)
  {
    SameDiff(FIELDS, row, Claimed(row, channel, source), parsed, refuses);
  }

  lemma {:induction false} SameDiff(fields: seq<Field>, row: Target, other: Target, parsed: Values, refuses: Refuses)
    requires other.values == row.values && other.uncovered == row.uncovered
    ensures Filled(fields, other, parsed) == Filled(fields, row, parsed)
    ensures Overwritten(fields, other, parsed, refuses) == Overwritten(fields, row, parsed, refuses)
  {
    if fields != [] {
      SameDiff(fields[..|fields| - 1], row, other, parsed, refuses);
    }
  }

  /** What a preview projects is what the mutation of an email leaves, label and diff included. */
  lemma ProjectionIsExact(row: Target, parsed: Values, refuses: Refuses, email: int)
    ensures var (mutated, applied) := Mutated(row, parsed, refuses, EmailChannel, email);
            var diff := EnrichmentDiff(row, parsed, refuses);
            applied == diff && State(mutated) == Projected(row, diff, email)
  {
    var diff := EnrichmentDiff(row, parsed, refuses);
    DiffIgnoresClaims(row, parsed, refuses, EmailChannel, email);
    SettingIsPatching(row.values, diff);
    assert Label(EmailChannel) == "email" && "+" + "email" == "+email";
    if row.source.Some? {
      assert row.source.value + "+" + "email" == row.source.value + "+email";
    }
  }

  /******* Rows and tokens *******/

  datatype EmailRow = EmailRow(status: string, error: Option<string>, rule: Option<int>, ids: map<string, int>)

  datatype Rule = Rule(bank: string, transactional: bool)

  datatype Store = Store(emails: map<int, EmailRow>, rules: map<int, Rule>, rows: map<int, Target>)

  /** The parser, the matcher and the refusal rules, which other modules own. The matcher reads no card
      holder. */
  datatype Matcher = Matcher(
    parse: (string, int) -> Option<Values>,
    qualifies: (Store, int, Values) -> bool,
    refuses: Refuses)

  /** What the token hashes. The hash is taken to be injective, so the payload stands for it. The target's
      card holder is no part of it. */
  datatype Token = Token(
    raw: int, email: int, emailRow: EmailRow, rule: int, ruleRow: Rule, target: int,
    values: Values, targetEmail: Option<int>, targetSms: Option<int>, source: Option<string>, category: Category,
    covered: map<string, int>, parsed: Values, diff: Diff)

  datatype Error =
    | EmailNotFound | RowNotFound | NotDeferred | EmailAttached | RowHasEmail | RuleNotFound | NotATransactionRule
    | ParserMadeNothing | NotADuplicate | PreviewIsStale

  datatype Result<T> = Ok(value: T) | Err(error: Error)

  const DEFERRED := "[dup-defer]"
  const SKIPPED := "skipped"
  const PARSED := "parsed"

  predicate Deferred(email: EmailRow) {
    email.status == SKIPPED && email.error.Some? && DEFERRED <= email.error.value
  }

  predicate Attached(s: Store, email: int) {
    exists t :: t in s.rows && s.rows[t].email == Some(email)
  }

  /** The database checks, in the program's order. */
  function Ineligible(s: Store, email: int, target: int): Option<Error> {
    if email !in s.emails then Some(EmailNotFound)
    else if target !in s.rows then Some(RowNotFound)
    else if !Deferred(s.emails[email]) then Some(NotDeferred)
    else if Attached(s, email) then Some(EmailAttached)
    else if s.rows[target].email.Some? then Some(RowHasEmail)
    else if s.emails[email].rule.None? || s.emails[email].rule.value !in s.rules then Some(RuleNotFound)
    else if !s.rules[s.emails[email].rule.value].transactional then Some(NotATransactionRule)
    else None
  }

  /** The store as the matcher sees it. */
  function Unheld(s: Store, target: int): Store
    requires target in s.rows
  {
    s.(rows := s.rows[target := s.rows[target].(values := ShownValues(s.rows[target].values))])
  }

  /** A preview: the token, the diff, and the row before and after. */
  datatype Evaluation = Evaluation(token: Token, diff: Diff, before: Shown, after: Shown)

  function TokenOf(s: Store, email: int, target: int, raw: int, parsed: Values, diff: Diff): Token
    requires Ineligible(s, email, target).None?
  {
    var emailRow, row := s.emails[email], s.rows[target];
    Token(raw, email, emailRow, emailRow.rule.value, s.rules[emailRow.rule.value], target, ShownValues(row.values),
          row.email, row.sms, row.source, row.category, row.covered, parsed, diff)
  }

  function Evaluate(s: Store, email: int, target: int, raw: int, m: Matcher): Result<Evaluation> {
    if Ineligible(s, email, target).Some? then Err(Ineligible(s, email, target).value)
    else
      var parsed := m.parse(s.rules[s.emails[email].rule.value].bank, raw);
      if parsed.None? then Err(ParserMadeNothing)
      else if !m.qualifies(Unheld(s, target), target, parsed.value) then Err(NotADuplicate)
      else
        var row := s.rows[target];
        var diff := EnrichmentDiff(row, parsed.value, m.refuses);
        Ok(Evaluation(TokenOf(s, email, target, raw, parsed.value, diff), diff, State(row), Projected(row, diff, email)))
  }

  /** What follows an enrichment outside the shown columns: the columns that the self-transfer rule reads,
      the retry of the category, the account link with the time stamp, and the marks of time and name. */
  datatype FollowUps = FollowUps(
    view: Target -> Row,
    requeue: Target -> Category,
    covered: Target -> map<string, int>,
    uncovered: Target -> map<string, int>)

  const TRANSFER := Category(Some(T.SELF_TRANSFER), Some("rule"))

  /** The rows of which the rule finds the target to be a leg. */
  function LegsOf(rows: map<int, Target>, target: int, f: FollowUps): set<int>
    requires target in rows
  {
    set t | t in rows && T.AreLegs(f.view(rows[target]), f.view(rows[t]))
  }

  /** The rows after the self-transfer rule of the target. */
  function Relabelled(rows: map<int, Target>, target: int, f: FollowUps): map<int, Target>
    requires target in rows
  {
    var legs := LegsOf(rows, target, f);
    map t | t in rows ::
      if t in legs || (t == target && legs != {}) then rows[t].(category := TRANSFER) else rows[t]
  }

  /** The follow-ups of an enriched target. */
  function FollowedUp(rows: map<int, Target>, target: int, f: FollowUps): map<int, Target>
    requires target in rows
  {
    var marked := Relabelled(rows[target := rows[target].(uncovered := f.uncovered(rows[target]))], target, f);
    var queued := marked[target].(category := f.requeue(marked[target]));
    marked[target := queued.(covered := f.covered(queued))]
  }

  datatype Applied = Applied(diff: Diff, before: Shown, after: Shown)

  /** One locked transaction: it commits the evaluation the token names, or writes nothing. */
  function Apply(s: Store, email: int, target: int, raw: int, token: Token, m: Matcher, f: FollowUps)
    : (r: (Store, Result<Applied>))
  {
    var evaluation := Evaluate(s, email, target, raw, m);
    if evaluation.Err? then (s, Err(evaluation.error))
    else if evaluation.value.token != token then (s, Err(PreviewIsStale))
    else
      var (mutated, applied) :=
        Mutated(s.rows[target], evaluation.value.token.parsed, m.refuses, EmailChannel, email);
      if applied != evaluation.value.diff then (s, Err(PreviewIsStale))
      else
        var rows := FollowedUp(s.rows[target := mutated], target, f);
        (s.(rows := rows, emails := s.emails[email := s.emails[email].(status := PARSED, error := None)]),
         Ok(Applied(applied, evaluation.value.before, State(rows[target]))))
  }

  /******* The guarantees *******/

  lemma FollowUpsKeep(rows: map<int, Target>, target: int, f: FollowUps)
    requires target in rows
    ensures var after := FollowedUp(rows, target, f);
            && after.Keys == rows.Keys
            && State(after[target]) == State(rows[target]) && after[target].values == rows[target].values
            && after[target].sms == rows[target].sms
            && (forall t :: t in rows && t != target ==>
                  after[t] == rows[t] || after[t] == rows[t].(category := TRANSFER))
  {
  }

  /** The recheck of the applied diff never fires: an apply is stale exactly when its token is. */
  lemma RecheckNeverFires(s: Store, email: int, target: int, raw: int, token: Token, m: Matcher, f: FollowUps)
    requires Evaluate(s, email, target, raw, m).Ok?
    ensures Apply(s, email, target, raw, token, m, f).1
         == (if Evaluate(s, email, target, raw, m).value.token != token then Err(PreviewIsStale)
             else var preview := Evaluate(s, email, target, raw, m).value;
                  Ok(Applied(preview.diff, preview.before, preview.after)))
  {
    var parsed := Evaluate(s, email, target, raw, m).value.token.parsed;
    ProjectionIsExact(s.rows[target], parsed, m.refuses, email);
    var (mutated, _) := Mutated(s.rows[target], parsed, m.refuses, EmailChannel, email);
    FollowUpsKeep(s.rows[target := mutated], target, f);
  }

  function HolderOf(row: Target): Option<int> {
    if CardHolder in row.values then Some(row.values[CardHolder]) else None
  }

  lemma HolderInDiff(row: Target, parsed: Values, refuses: Refuses)
    ensures var diff := EnrichmentDiff(row, parsed, refuses);
            && (CardHolder in diff.filled <==> CardHolder in parsed && HolderOf(row) == None)
            && (CardHolder in diff.overwritten <==>
                  CardHolder in parsed && HolderOf(row).Some? && HolderOf(row) != Some(parsed[CardHolder]))
            && (CardHolder in diff.overwritten ==> diff.overwritten[CardHolder].0 == HolderOf(row).value)
  {
    DiffExplainsEveryField(row, parsed, refuses, CardHolder);
  }

  /** Whatever happened between a preview and an apply, a commit uses the email, rule, parse and covered
      target columns that were previewed, commits the previewed diff, and ends in the row that the
      preview showed. The card holder agrees too whenever the email states one, because then the diff
      pins it. */
  lemma CommitKeepsPreview(then_: Store, now: Store, email: int, target: int, raw: int,
                           otherEmail: int, otherTarget: int, otherRaw: int, m: Matcher, later: Matcher, f: FollowUps)
    requires Evaluate(then_, email, target, raw, m).Ok?
    requires var preview := Evaluate(then_, email, target, raw, m).value;
             Apply(now, otherEmail, otherTarget, otherRaw, preview.token, later, f).1.Ok?
    ensures var preview := Evaluate(then_, email, target, raw, m).value;
            var (after, applied) := Apply(now, otherEmail, otherTarget, otherRaw, preview.token, later, f);
            && otherEmail == email && otherTarget == target && otherRaw == raw
            && email in now.emails && now.emails[email] == then_.emails[email]
            && target in now.rows && target in then_.rows && target in after.rows
            && now.rows[target] == then_.rows[target].(values := now.rows[target].values,
                                                       uncovered := now.rows[target].uncovered)
            && ShownValues(now.rows[target].values) == ShownValues(then_.rows[target].values)
            && (CardHolder in preview.token.parsed ==> now.rows[target].values == then_.rows[target].values)
            && applied.value == Applied(preview.diff, preview.before, preview.after)
            && State(after.rows[target]) == preview.after
  {
    var preview := Evaluate(then_, email, target, raw, m).value;
    var again := Evaluate(now, otherEmail, otherTarget, otherRaw, later);
    assert again.Ok? && again.value.token == preview.token;
    RecheckNeverFires(now, email, target, raw, preview.token, later, f);
    SamePreview(then_.rows[target], now.rows[target], preview.diff, email);
    var parsed := preview.token.parsed;
    HolderInDiff(then_.rows[target], parsed, m.refuses);
    HolderInDiff(now.rows[target], parsed, later.refuses);
    if CardHolder in parsed {
      SameHolder(then_.rows[target], now.rows[target]);
    }
    var (mutated, _) := Mutated(now.rows[target], parsed, later.refuses, EmailChannel, email);
    FollowUpsKeep(now.rows[target := mutated], target, f);
  }

  lemma SamePreview(a: Target, b: Target, diff: Diff, email: int)
    requires ShownValues(a.values) == ShownValues(b.values) && a.email == b.email && a.source == b.source
    ensures State(a) == State(b) && Projected(a, diff, email) == Projected(b, diff, email)
  {
    forall f | f != CardHolder
      ensures f in a.values <==> f in b.values
      ensures f in a.values ==> a.values[f] == b.values[f]
    {
      assert f in a.values <==> f in ShownValues(a.values);
      assert f in b.values <==> f in ShownValues(b.values);
    }
    SamePatches(a.values, b.values, diff);
  }

  lemma SamePatches(a: Values, b: Values, diff: Diff)
    requires forall f :: f != CardHolder ==> (f in a <==> f in b) && (f in a ==> a[f] == b[f])
    ensures ShownValues(Patched(a, diff)) == ShownValues(Patched(b, diff))
  {
  }

  lemma SameHolder(a: Target, b: Target)
    requires ShownValues(a.values) == ShownValues(b.values) && HolderOf(a) == HolderOf(b)
    ensures a.values == b.values
  {
    forall f: Field
      ensures f in a.values <==> f in b.values
      ensures f in a.values ==> a.values[f] == b.values[f]
    {
      if f != CardHolder {
        assert f in a.values <==> f in ShownValues(a.values);
        assert f in b.values <==> f in ShownValues(b.values);
      }
    }
  }

  /** The same row but for its card holder. */
  predicate OnlyHolderDiffers(a: Target, b: Target) {
    b == a.(values := b.values) && ShownValues(a.values) == ShownValues(b.values)
  }

  lemma {:induction false} DiffsDifferAtHolder(fields: seq<Field>, a: Target, b: Target, parsed: Values, refuses: Refuses)
    requires OnlyHolderDiffers(a, b)
    ensures CardHolder !in parsed ==>
              && Filled(fields, a, parsed) == Filled(fields, b, parsed)
              && Overwritten(fields, a, parsed, refuses) == Overwritten(fields, b, parsed, refuses)
  {
    if fields != [] {
      var f := fields[|fields| - 1];
      DiffsDifferAtHolder(fields[..|fields| - 1], a, b, parsed, refuses);
      if f != CardHolder {
        assert f in a.values <==> f in ShownValues(a.values);
        assert f in b.values <==> f in ShownValues(b.values);
      }
    }
  }

  /** A change of the card holder alone between preview and apply is refused exactly when the email states
      a card holder; otherwise the apply commits over it. */
  lemma HolderChangeExact(s: Store, email: int, target: int, raw: int, m: Matcher, f: FollowUps, changed: Target)
    requires Evaluate(s, email, target, raw, m).Ok? && OnlyHolderDiffers(s.rows[target], changed)
    requires changed != s.rows[target]
    ensures var preview := Evaluate(s, email, target, raw, m).value;
            var now := s.(rows := s.rows[target := changed]);
            Apply(now, email, target, raw, preview.token, m, f).1.Ok? <==> CardHolder !in preview.token.parsed
  {
    var preview := Evaluate(s, email, target, raw, m).value;
    var now := s.(rows := s.rows[target := changed]);
    var row, parsed := s.rows[target], preview.token.parsed;
    SameEligibility(s, now, email, target);
    assert Unheld(now, target) == Unheld(s, target) by {
      assert s.rows[target := changed][target := changed.(values := ShownValues(changed.values))]
          == s.rows[target := row.(values := ShownValues(row.values))];
    }
    DiffsDifferAtHolder(FIELDS, row, changed, parsed, m.refuses);
    HolderInDiff(row, parsed, m.refuses);
    HolderInDiff(changed, parsed, m.refuses);
    RecheckNeverFires(now, email, target, raw, preview.token, m, f);
    if HolderOf(row) == HolderOf(changed) {
      SameHolder(row, changed);
    }
  }

  lemma SameEligibility(s: Store, now: Store, email: int, target: int)
    requires target in s.rows && now == s.(rows := now.rows) && now.rows.Keys == s.rows.Keys
    requires forall t :: t in s.rows ==> now.rows[t].email == s.rows[t].email
    ensures Ineligible(now, email, target) == Ineligible(s, email, target)
  {
    if t :| t in s.rows && s.rows[t].email == Some(email) {
      assert t in now.rows && now.rows[t].email == Some(email);
    }
  }

  const BARE := Target(map[], None, None, Some("sms"), Category(None, None), map[], map[])

  /** A parser that reads a balance from every email, and a matcher that accepts every row. */
  const READS_BALANCE := Matcher((bank, raw) => Some(map[Balance := 5]), (s, t, p) => true, (f, v, u, p) => false)

  const DEFERRED_EMAIL := Store(map[1 := EmailRow(SKIPPED, Some(DEFERRED), Some(2), map[])],
                                map[2 := Rule("b", true)], map[3 := BARE])

  /** A preview, a statement that then names the card holder, and the apply of the preview: it commits, on
      a row that is not the one previewed. */
  lemma HolderChangesUnseen(f: FollowUps)
    ensures var named := BARE.(values := map[CardHolder := 7]);
            var preview := Evaluate(DEFERRED_EMAIL, 1, 3, 1, READS_BALANCE);
            && preview.Ok?
            && Apply(DEFERRED_EMAIL.(rows := map[3 := named]), 1, 3, 1, preview.value.token, READS_BALANCE, f).1.Ok?
  {
    var named := BARE.(values := map[CardHolder := 7]);
    assert ShownValues(BARE.values) == map[] && ShownValues(named.values) == map[];
    assert !Attached(DEFERRED_EMAIL, 1);
    assert Evaluate(DEFERRED_EMAIL, 1, 3, 1, READS_BALANCE).Ok?;
    assert DEFERRED_EMAIL.rows[3 := named] == map[3 := named];
    assert CardHolder in named.values && named != BARE;
    HolderChangeExact(DEFERRED_EMAIL, 1, 3, 1, READS_BALANCE, f, named);
  }

  /** A refused apply writes nothing. A commit attaches the email to this row alone and marks the email
      parsed; of other rows it changes only the category, and exactly of those that are legs of a
      transfer with the enriched row. */
  lemma CommitWritesOneRow(s: Store, email: int, target: int, raw: int, token: Token, m: Matcher, f: FollowUps)
    ensures var (after, applied) := Apply(s, email, target, raw, token, m, f);
            if applied.Err? then after == s
            else && email in after.emails && !Deferred(after.emails[email])
                 && (forall t :: t in after.rows ==> (after.rows[t].email == Some(email) <==> t == target))
                 && (forall t :: t in s.rows && t != target ==>
                       && t in after.rows
                       && after.rows[t] == s.rows[t].(category := after.rows[t].category))
                 && (forall e :: e in s.emails && e != email ==> e in after.emails && after.emails[e] == s.emails[e])
                 && after.rows.Keys == s.rows.Keys && after.rules == s.rules
  {
    if Apply(s, email, target, raw, token, m, f).1.Ok? {
      CommitRows(s, email, target, raw, token, m, f);
    }
  }

  lemma CommitRows(s: Store, email: int, target: int, raw: int, token: Token, m: Matcher, f: FollowUps)
    requires Apply(s, email, target, raw, token, m, f).1.Ok?
    ensures var rows := Apply(s, email, target, raw, token, m, f).0.rows;
            && target in s.rows && rows.Keys == s.rows.Keys && !Attached(s, email)
            && rows[target].email == Some(email)
            && (forall t :: t in s.rows && t != target ==> rows[t] == s.rows[t].(category := rows[t].category))
  {
    var parsed := Evaluate(s, email, target, raw, m).value.token.parsed;
    var (mutated, _) := Mutated(s.rows[target], parsed, m.refuses, EmailChannel, email);
    FollowUpsKeep(s.rows[target := mutated], target, f);
  }

  /** Which other rows a commit recategorises: exactly the legs, in the columns that the enriched row
      shows to the rule. */
  lemma LegsRecategorised(rows: map<int, Target>, target: int, f: FollowUps, t: int)
    requires target in rows && t in rows && t != target
    ensures var enriched := rows[target].(uncovered := f.uncovered(rows[target]));
            FollowedUp(rows, target, f)[t]
            == if T.AreLegs(f.view(enriched), f.view(rows[t])) then rows[t].(category := TRANSFER) else rows[t]
  {
  }

  /** A token is spent by its commit: the same request is refused, with nothing written, unless the
      email is deferred and detached again. */
  lemma TokenIsSpent(s: Store, email: int, target: int, raw: int, token: Token, m: Matcher, f: FollowUps,
                     other: int, otherRaw: int, any: Token)
    requires Apply(s, email, target, raw, token, m, f).1.Ok?
    ensures var after := Apply(s, email, target, raw, token, m, f).0;
            && Apply(after, email, other, otherRaw, any, m, f).1.Err?
            && Apply(after, email, other, otherRaw, any, m, f).0 == after
  {
    CommitWritesOneRow(s, email, target, raw, token, m, f);
  }

  /** An unchanged store always accepts the preview it just gave. */
  lemma FreshPreviewCommits(s: Store, email: int, target: int, raw: int, m: Matcher, f: FollowUps)
    requires Evaluate(s, email, target, raw, m).Ok?
    ensures Apply(s, email, target, raw, Evaluate(s, email, target, raw, m).value.token, m, f).1.Ok?
  {
    RecheckNeverFires(s, email, target, raw, Evaluate(s, email, target, raw, m).value.token, m, f);
  }
}
