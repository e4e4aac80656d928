/** Linking a row to the account, and where possible the card, that its masks denote. */
module Linker {
  import opened Rows
  import opened Masks

  datatype Account = Account(id: int, bank: string, number: Option<string>, kind: Option<string>)

  datatype Card = Card(id: int, account: int, mask: string)

  /** What the linker reads of a row. */
  datatype Incoming = Incoming(bank: string, cardMask: Option<string>, accountMask: Option<string>, emailType: Option<string>)

  datatype Link = Link(account: Option<int>, card: Option<int>)

  const UNLINKED := Link(None, None)
  const MIN_MASK_DIGITS := 3

  function BankKey(bank: string): string {
    Lower(Strip(bank))
  }

  function MaskOf(mask: Option<string>): string {
    if mask.Some? then Normalize(mask.value) else ""
  }

  predicate Usable(mask: string) {
    TrailingDigits(mask) >= MIN_MASK_DIGITS
  }

  predicate Blank(mask: Option<string>) {
    mask.None? || mask.value == ""
  }

  function ExpectedKind(emailType: Option<string>): Option<string> {
    if Blank(emailType) then None
    else if Contains(emailType.value, "_cc_") then Some("credit_card")
    else if Contains(emailType.value, "_account_") || Contains(emailType.value, "_dc_") then Some("bank_account")
    else None
  }

  /******* The intended cascade, over sets *******/

  function CardSet(accounts: set<Account>, cards: set<Card>, bank: string, mask: string): set<(int, int)> {
    set a, c | a in accounts && c in cards && c.account == a.id && BankKey(a.bank) == bank
               && Matches(mask, Normalize(c.mask)) :: (c.account, c.id)
  }

  function AccountSet(accounts: set<Account>, bank: string, mask: string): set<int> {
    set a | a in accounts && BankKey(a.bank) == bank && Matches(mask, MaskOf(a.number)) :: a.id
  }

  function BankSet(accounts: set<Account>, bank: string, kind: Option<string>): set<int> {
    set a | a in accounts && BankKey(a.bank) == bank && (kind.None? || a.kind == kind) :: a.id
  }

  /** The member of a set that has just one. */
  ghost function Only<T>(s: set<T>): Option<T> {
    if |s| == 1 then var x :| x in s; Some(x) else None
  }

  /** The unique match at the first of the four levels that has one. */
  ghost function Cascade(accounts: set<Account>, cards: set<Card>, row: Incoming): Link {
    var bank, cardMask, accountMask := BankKey(row.bank), MaskOf(row.cardMask), MaskOf(row.accountMask);
    var byCard := if Usable(cardMask) then Only(CardSet(accounts, cards, bank, cardMask)) else None;
    var byCardNumber := if Usable(cardMask) then Only(AccountSet(accounts, bank, cardMask)) else None;
    var byAccount := if Usable(accountMask) then Only(AccountSet(accounts, bank, accountMask)) else None;
    var byBank := if Blank(row.cardMask) && Blank(row.accountMask)
                  then Only(BankSet(accounts, bank, ExpectedKind(row.emailType))) else None;
    if byCard.Some? then Link(Some(byCard.value.0), Some(byCard.value.1))
    else if byCardNumber.Some? then Link(byCardNumber, None)
    else if byAccount.Some? then Link(byAccount, None)
    else Link(byBank, None)
  }

  /******* The lookup tables *******/

  datatype LinkContext = LinkContext(
    cards: map<string, seq<(string, int, int)>>,
    masked: map<string, seq<(string, int)>>,
    accounts: map<string, seq<int>>,
    kinds: map<int, string>)

  function Get<T>(m: map<string, seq<T>>, bank: string): seq<T> {
    if bank in m then m[bank] else []
  }

  function Appended<T>(m: map<string, seq<T>>, bank: string, x: T): map<string, seq<T>> {
    m[bank := Get(m, bank) + [x]]
  }

  function OwnerOf(accounts: seq<Account>, id: int): Option<Account> {
    if accounts == [] then None
    else if accounts[0].id == id then Some(accounts[0])
    else OwnerOf(accounts[1..], id)
  }

  function AccountsOf(accounts: seq<Account>, bank: string): seq<int> {
    if accounts == [] then []
    else
      var front, a := AccountsOf(accounts[..|accounts| - 1], bank), accounts[|accounts| - 1];
      if BankKey(a.bank) == bank then front + [a.id] else front
  }

  function MaskedOf(accounts: seq<Account>, bank: string): seq<(string, int)> {
    if accounts == [] then []
    else
      var front, a := MaskedOf(accounts[..|accounts| - 1], bank), accounts[|accounts| - 1];
      if BankKey(a.bank) == bank && MaskOf(a.number) != "" then front + [(MaskOf(a.number), a.id)] else front
  }

  predicate CardCounts(accounts: seq<Account>, c: Card, bank: string) {
    var owner := OwnerOf(accounts, c.account);
    Normalize(c.mask) != "" && owner.Some? && BankKey(owner.value.bank) == bank
  }

  function CardsOf(accounts: seq<Account>, cards: seq<Card>, bank: string): seq<(string, int, int)> {
    if cards == [] then []
    else
      var front, c := CardsOf(accounts, cards[..|cards| - 1], bank), cards[|cards| - 1];
      if CardCounts(accounts, c, bank) then front + [(Normalize(c.mask), c.account, c.id)] else front
  }

  predicate DistinctAccounts(accounts: seq<Account>) {
    forall i, j :: 0 <= i < j < |accounts| ==> accounts[i].id != accounts[j].id
  }

  predicate DistinctCards(cards: seq<Card>) {
    forall i, j :: 0 <= i < j < |cards| ==> cards[i].id != cards[j].id
  }

  ghost predicate CardsFit(m: map<string, seq<(string, int, int)>>, accounts: seq<Account>, cards: seq<Card>) {
    forall bank :: Get(m, bank) == CardsOf(accounts, cards, bank)
  }

  ghost predicate MaskedFits(m: map<string, seq<(string, int)>>, accounts: seq<Account>) {
    forall bank :: Get(m, bank) == MaskedOf(accounts, bank)
  }

  ghost predicate AccountsFit(m: map<string, seq<int>>, accounts: seq<Account>) {
    forall bank :: Get(m, bank) == AccountsOf(accounts, bank)
  }

  predicate HasKind(kinds: map<int, string>, a: Account) {
    if Blank(a.kind) then a.id !in kinds else a.id in kinds && kinds[a.id] == a.kind.value
  }

  ghost predicate KindsFit(kinds: map<int, string>, accounts: seq<Account>) {
    forall a :: a in accounts ==> HasKind(kinds, a)
  }

  ghost predicate IsContext(ctx: LinkContext, accounts: seq<Account>, cards: seq<Card>) {
    && CardsFit(ctx.cards, accounts, cards)
    && MaskedFits(ctx.masked, accounts)
    && AccountsFit(ctx.accounts, accounts)
    && KindsFit(ctx.kinds, accounts)
  }

  method LoadAccounts(accounts: seq<Account>)
    returns (byBank: map<string, seq<int>>, masked: map<string, seq<(string, int)>>)
    ensures AccountsFit(byBank, accounts) && MaskedFits(masked, accounts)
  {
    byBank, masked := map[], map[];
    for i := 0 to |accounts|
      invariant AccountsFit(byBank, accounts[..i]) && MaskedFits(masked, accounts[..i])
    {
      assert accounts[..i + 1][..i] == accounts[..i];
      var a := accounts[i];
      byBank := Appended(byBank, BankKey(a.bank), a.id);
      var stored := MaskOf(a.number);
      if stored != "" {
        masked := Appended(masked, BankKey(a.bank), (stored, a.id));
      }
    }
    assert accounts[..|accounts|] == accounts;
  }

  method LoadKinds(accounts: seq<Account>) returns (kinds: map<int, string>)
    requires DistinctAccounts(accounts)
    ensures KindsFit(kinds, accounts)
  {
    kinds := map[];
    for i := 0 to |accounts|
      invariant forall k :: 0 <= k < i ==> HasKind(kinds, accounts[k])
      invariant forall k :: i <= k < |accounts| ==> accounts[k].id !in kinds
    {
      var a := accounts[i];
      if !Blank(a.kind) {
        kinds := kinds[a.id := a.kind.value];
      }
    }
  }

  method LoadCards(accounts: seq<Account>, cards: seq<Card>) returns (byBank: map<string, seq<(string, int, int)>>)
    ensures CardsFit(byBank, accounts, cards)
  {
    byBank := map[];
    for i := 0 to |cards|
      invariant CardsFit(byBank, accounts, cards[..i])
    {
      assert cards[..i + 1][..i] == cards[..i];
      var c := cards[i];
      var stored := Normalize(c.mask);
      if stored == "" {
        continue;
      }
      var owner := OwnerOf(accounts, c.account);
      if owner.None? {
        continue;
      }
      byBank := Appended(byBank, BankKey(owner.value.bank), (stored, c.account, c.id));
    }
    assert cards[..|cards|] == cards;
  }

  method BuildLinkContext(accounts: seq<Account>, cards: seq<Card>) returns (ctx: LinkContext)
    requires DistinctAccounts(accounts)
    ensures IsContext(ctx, accounts, cards)
  {
    var byBank, masked := LoadAccounts(accounts);
    var kinds := LoadKinds(accounts);
    var byCard := LoadCards(accounts, cards);
    ctx := LinkContext(byCard, masked, byBank, kinds);
  }

  /******* Finding a match *******/

  function CardHits(stored: seq<(string, int, int)>, mask: string): seq<(int, int)> {
    if stored == [] then []
    else
      var front, s := CardHits(stored[..|stored| - 1], mask), stored[|stored| - 1];
      if Matches(mask, s.0) then front + [(s.1, s.2)] else front
  }

  function AccountHits(stored: seq<(string, int)>, mask: string): seq<int> {
    if stored == [] then []
    else
      var front, s := AccountHits(stored[..|stored| - 1], mask), stored[|stored| - 1];
      if Matches(mask, s.0) then front + [s.1] else front
  }

  function OfKind(ids: seq<int>, kinds: map<int, string>, kind: Option<string>): seq<int> {
    if ids == [] then []
    else
      var front, id := OfKind(ids[..|ids| - 1], kinds, kind), ids[|ids| - 1];
      if kind.None? || (id in kinds && kinds[id] == kind.value) then front + [id] else front
  }

  method FindCardMatch(ctx: LinkContext, bank: string, mask: string) returns (hit: Option<(int, int)>)
    ensures hit == Single(CardHits(Get(ctx.cards, bank), mask))
  {
    var stored := Get(ctx.cards, bank);
    var hits := [];
    for i := 0 to |stored|
      invariant hits == CardHits(stored[..i], mask)
    {
      assert stored[..i + 1][..i] == stored[..i];
      var ok := MaskMatches(mask, stored[i].0);
      if ok {
        hits := hits + [(stored[i].1, stored[i].2)];
      }
    }
    assert stored[..|stored|] == stored;
    return Single(hits);
  }

  method FindAccountMatch(ctx: LinkContext, bank: string, mask: string) returns (hit: Option<int>)
    ensures hit == Single(AccountHits(Get(ctx.masked, bank), mask))
  {
    var stored := Get(ctx.masked, bank);
    var hits := [];
    for i := 0 to |stored|
      invariant hits == AccountHits(stored[..i], mask)
    {
      assert stored[..i + 1][..i] == stored[..i];
      var ok := MaskMatches(mask, stored[i].0);
      if ok {
        hits := hits + [stored[i].1];
      }
    }
    assert stored[..|stored|] == stored;
    return Single(hits);
  }

  /** Several hits are ambiguous: no guess. */
  function Single<T>(hits: seq<T>): Option<T> {
    if |hits| == 1 then Some(hits[0]) else None
  }

  /** A row in the session; linking sets its two columns. */
  class LinkedRow {
    const row: Incoming
    var account: Option<int>
    var card: Option<int>

    constructor (row: Incoming)
      ensures this.row == row && account == None && card == None
    {
      this.row := row;
      account, card := None, None;
    }

    method LinkTransaction(ctx: LinkContext, ghost accounts: seq<Account>, ghost cards: seq<Card>) returns (linked: bool)
      requires DistinctAccounts(accounts) && DistinctCards(cards) && IsContext(ctx, accounts, cards)
      modifies this
      ensures if old(account).Some? then linked && account == old(account) && card == old(card)
              else && account == Cascade(SetOf(accounts), SetOf(cards), row).account
                   && card == (if Cascade(SetOf(accounts), SetOf(cards), row).card.Some?
                               then Cascade(SetOf(accounts), SetOf(cards), row).card else old(card))
                   && linked == account.Some?
    {
      if account.Some? {
        return true;
      }
      var bank := BankKey(row.bank);
      var cardMask, accountMask := MaskOf(row.cardMask), MaskOf(row.accountMask);
      ListsAreSets(ctx, accounts, cards, bank, cardMask, ExpectedKind(row.emailType));
      ListsAreSets(ctx, accounts, cards, bank, accountMask, ExpectedKind(row.emailType));
      if Usable(cardMask) {
        var hit := FindCardMatch(ctx, bank, cardMask);
        if hit.Some? {
          account, card := Some(hit.value.0), Some(hit.value.1);
          return true;
        }
      }
      if Usable(cardMask) {
        var hit := FindAccountMatch(ctx, bank, cardMask);
        if hit.Some? {
          account := hit;
          return true;
        }
      }
      if Usable(accountMask) {
        var hit := FindAccountMatch(ctx, bank, accountMask);
        if hit.Some? {
          account := hit;
          return true;
        }
      }
      if Blank(row.cardMask) && Blank(row.accountMask) {
        var ids := OfKind(Get(ctx.accounts, bank), ctx.kinds, ExpectedKind(row.emailType));
        if |ids| == 1 {
          account := Some(ids[0]);
          return true;
        }
      }
      return false;
    }
  }

  /******* Lists and sets *******/

  function SetOf<T>(s: seq<T>): set<T> {
    set x | x in s
  }

  predicate NoRepeats<T(==)>(s: seq<T>) {
    forall i, j :: 0 <= i < j < |s| ==> s[i] != s[j]
  }

  lemma {:induction false} SizeOfSet<T>(s: seq<T>)
    requires NoRepeats(s)
    ensures |SetOf(s)| == |s|
  {
    if s != [] {
      var front, last := s[..|s| - 1], s[|s| - 1];
      forall i, j | 0 <= i < j < |front| ensures front[i] != front[j] { assert s[i] != s[j]; }
      SizeOfSet(front);
      assert last !in front;
      assert SetOf(s) == SetOf(front) + {last};
    }
  }

  /** A list without repeats has a single member exactly when its set has. */
  lemma SingleIsOnly<T>(s: seq<T>, members: set<T>)
    requires NoRepeats(s) && SetOf(s) == members
    ensures Single(s) == Only(members)
  {
    SizeOfSet(s);
    if |s| == 1 {
      assert s[0] in s;
      assert members == {s[0]};
    }
  }

  lemma ListsAreSets(ctx: LinkContext, accounts: seq<Account>, cards: seq<Card>, bank: string, mask: string,
                     kind: Option<string>)
    requires DistinctAccounts(accounts) && DistinctCards(cards) && IsContext(ctx, accounts, cards)
    requires kind.Some? ==> kind.value != ""
    ensures Single(CardHits(Get(ctx.cards, bank), mask)) == Only(CardSet(SetOf(accounts), SetOf(cards), bank, mask))
    ensures Single(AccountHits(Get(ctx.masked, bank), mask)) == Only(AccountSet(SetOf(accounts), bank, mask))
    ensures Single(OfKind(Get(ctx.accounts, bank), ctx.kinds, kind)) == Only(BankSet(SetOf(accounts), bank, kind))
  {
    CardHitsMembers(accounts, cards, bank, mask);
    SingleIsOnly(CardHits(Get(ctx.cards, bank), mask), CardSet(SetOf(accounts), SetOf(cards), bank, mask));
    AccountHitsMembers(accounts, bank, mask);
    SingleIsOnly(AccountHits(Get(ctx.masked, bank), mask), AccountSet(SetOf(accounts), bank, mask));
    BankMembers(ctx.kinds, accounts, bank, kind);
    SingleIsOnly(OfKind(Get(ctx.accounts, bank), ctx.kinds, kind), BankSet(SetOf(accounts), bank, kind));
  }

  lemma {:induction false} OwnerIsTheAccount(accounts: seq<Account>, id: int)
    requires DistinctAccounts(accounts)
    ensures forall a :: a in accounts && a.id == id <==> OwnerOf(accounts, id) == Some(a)
  {
    if accounts != [] {
      var tail := accounts[1..];
      forall i, j | 0 <= i < j < |tail| ensures tail[i].id != tail[j].id {
        assert tail[i] == accounts[i + 1] && tail[j] == accounts[j + 1];
      }
      OwnerIsTheAccount(tail, id);
      forall a | a in tail ensures a.id != accounts[0].id {
        var k :| 0 <= k < |tail| && tail[k] == a;
        assert accounts[k + 1] == a;
      }
    }
  }

  /** One more member that was not there before. */
  lemma OneMore<T>(before: seq<T>, members: set<T>, x: T, counts: bool)
    requires NoRepeats(before) && SetOf(before) == members
    requires counts ==> x !in members
    ensures SetOf(before + if counts then [x] else []) == members + if counts then {x} else {}
    ensures NoRepeats(before + if counts then [x] else [])
  {
    if counts {
      forall i | 0 <= i < |before| ensures before[i] != x { assert before[i] in SetOf(before); }
    } else {
      assert before + [] == before;
    }
  }

  lemma CardSetStep(accounts: seq<Account>, front: seq<Card>, c: Card, bank: string, mask: string)
    requires DistinctAccounts(accounts) && DistinctCards(front + [c])
    ensures var counts := CardCounts(accounts, c, bank) && Matches(mask, Normalize(c.mask));
            CardSet(SetOf(accounts), SetOf(front + [c]), bank, mask)
            == CardSet(SetOf(accounts), SetOf(front), bank, mask) + (if counts then {(c.account, c.id)} else {})
    ensures (c.account, c.id) !in CardSet(SetOf(accounts), SetOf(front), bank, mask)
  {
    OwnerIsTheAccount(accounts, c.account);
    forall d | d in SetOf(front) ensures d.id != c.id {
      var k :| 0 <= k < |front| && front[k] == d;
      assert (front + [c])[k].id != (front + [c])[|front|].id;
    }
  }

  lemma {:induction false} CardHitsMembers(accounts: seq<Account>, cards: seq<Card>, bank: string, mask: string)
    requires DistinctAccounts(accounts) && DistinctCards(cards)
    ensures SetOf(CardHits(CardsOf(accounts, cards, bank), mask)) == CardSet(SetOf(accounts), SetOf(cards), bank, mask)
    ensures NoRepeats(CardHits(CardsOf(accounts, cards, bank), mask))
  {
    if cards != [] {
      var front, c := cards[..|cards| - 1], cards[|cards| - 1];
      assert cards == front + [c];
      CardHitsMembers(accounts, front, bank, mask);
      CardHitsStep(accounts, cards, bank, mask);
      CardSetStep(accounts, front, c, bank, mask);
      OneMore(CardHits(CardsOf(accounts, front, bank), mask), CardSet(SetOf(accounts), SetOf(front), bank, mask),
              (c.account, c.id), CardCounts(accounts, c, bank) && Matches(mask, Normalize(c.mask)));
    }
  }

  lemma CardHitsStep(accounts: seq<Account>, cards: seq<Card>, bank: string, mask: string)
    requires cards != []
    ensures var front, c := cards[..|cards| - 1], cards[|cards| - 1];
            CardHits(CardsOf(accounts, cards, bank), mask)
            == CardHits(CardsOf(accounts, front, bank), mask)
               + (if CardCounts(accounts, c, bank) && Matches(mask, Normalize(c.mask)) then [(c.account, c.id)] else [])
  {
    var front, c := cards[..|cards| - 1], cards[|cards| - 1];
    var before := CardsOf(accounts, front, bank);
    assert (before + [(Normalize(c.mask), c.account, c.id)])[..|before|] == before;
  }

  lemma AccountIsNew(front: seq<Account>, a: Account)
    requires DistinctAccounts(front + [a])
    ensures forall d :: d in SetOf(front) ==> d.id != a.id
    ensures DistinctAccounts(front)
  {
    var all := front + [a];
    forall d | d in SetOf(front) ensures d.id != a.id {
      var k :| 0 <= k < |front| && front[k] == d;
      assert all[k].id != all[|front|].id;
    }
    forall i, j | 0 <= i < j < |front| ensures front[i].id != front[j].id {
      assert all[i].id != all[j].id;
    }
  }

  lemma AccountHitsStep(front: seq<Account>, a: Account, bank: string, mask: string)
    requires DistinctAccounts(front + [a])
    ensures var counts := BankKey(a.bank) == bank && Matches(mask, MaskOf(a.number));
            && AccountHits(MaskedOf(front + [a], bank), mask)
               == AccountHits(MaskedOf(front, bank), mask) + (if counts then [a.id] else [])
            && AccountSet(SetOf(front + [a]), bank, mask)
               == AccountSet(SetOf(front), bank, mask) + (if counts then {a.id} else {})
    ensures a.id !in AccountSet(SetOf(front), bank, mask)
  {
    AccountIsNew(front, a);
    AccountHitsSnoc(front, a, bank, mask);
    SetOfSnoc(front, a);
    AccountSetGrows(SetOf(front), a, bank, mask);
  }

  lemma AccountSetGrows(accounts: set<Account>, a: Account, bank: string, mask: string)
    requires forall d :: d in accounts ==> d.id != a.id
    ensures var counts := BankKey(a.bank) == bank && Matches(mask, MaskOf(a.number));
            AccountSet(accounts + {a}, bank, mask)
            == AccountSet(accounts, bank, mask) + (if counts then {a.id} else {})
    ensures a.id !in AccountSet(accounts, bank, mask)
  {
  }

  lemma SetOfSnoc<T>(front: seq<T>, x: T)
    ensures SetOf(front + [x]) == SetOf(front) + {x}
  {
  }

  lemma AccountHitsSnoc(front: seq<Account>, a: Account, bank: string, mask: string)
    ensures var counts := BankKey(a.bank) == bank && Matches(mask, MaskOf(a.number));
            AccountHits(MaskedOf(front + [a], bank), mask)
            == AccountHits(MaskedOf(front, bank), mask) + (if counts then [a.id] else [])
  {
    assert (front + [a])[..|front|] == front;
    var stored := MaskedOf(front, bank);
    assert (stored + [(MaskOf(a.number), a.id)])[..|stored|] == stored;
  }

  lemma {:induction false} AccountHitsMembers(accounts: seq<Account>, bank: string, mask: string)
    requires DistinctAccounts(accounts)
    ensures SetOf(AccountHits(MaskedOf(accounts, bank), mask)) == AccountSet(SetOf(accounts), bank, mask)
    ensures NoRepeats(AccountHits(MaskedOf(accounts, bank), mask))
  {
    if accounts != [] {
      var front, a := accounts[..|accounts| - 1], accounts[|accounts| - 1];
      assert accounts == front + [a];
      AccountHitsMembers(front, bank, mask);
      AccountHitsStep(front, a, bank, mask);
      OneMore(AccountHits(MaskedOf(front, bank), mask), AccountSet(SetOf(front), bank, mask), a.id,
              BankKey(a.bank) == bank && Matches(mask, MaskOf(a.number)));
    }
  }

  lemma BankStep(kinds: map<int, string>, front: seq<Account>, a: Account, bank: string, kind: Option<string>)
    requires DistinctAccounts(front + [a]) && HasKind(kinds, a) && (kind.Some? ==> kind.value != "")
    ensures var counts := BankKey(a.bank) == bank && (kind.None? || a.kind == kind);
            && OfKind(AccountsOf(front + [a], bank), kinds, kind)
               == OfKind(AccountsOf(front, bank), kinds, kind) + (if counts then [a.id] else [])
            && BankSet(SetOf(front + [a]), bank, kind)
               == BankSet(SetOf(front), bank, kind) + (if counts then {a.id} else {})
    ensures a.id !in BankSet(SetOf(front), bank, kind)
  {
    AccountIsNew(front, a);
    assert (front + [a])[..|front|] == front;
    OfKindStep(AccountsOf(front, bank), kinds, kind, a);
  }

  lemma {:induction false} BankMembers(kinds: map<int, string>, accounts: seq<Account>, bank: string, kind: Option<string>)
    requires DistinctAccounts(accounts) && KindsFit(kinds, accounts) && (kind.Some? ==> kind.value != "")
    ensures SetOf(OfKind(AccountsOf(accounts, bank), kinds, kind)) == BankSet(SetOf(accounts), bank, kind)
    ensures NoRepeats(OfKind(AccountsOf(accounts, bank), kinds, kind))
  {
    if accounts != [] {
      var front, a := accounts[..|accounts| - 1], accounts[|accounts| - 1];
      assert accounts == front + [a];
      assert a in accounts;
      BankMembers(kinds, front, bank, kind);
      BankStep(kinds, front, a, bank, kind);
      OneMore(OfKind(AccountsOf(front, bank), kinds, kind), BankSet(SetOf(front), bank, kind), a.id,
              BankKey(a.bank) == bank && (kind.None? || a.kind == kind));
    }
  }

  lemma OfKindStep(ids: seq<int>, kinds: map<int, string>, kind: Option<string>, a: Account)
    requires HasKind(kinds, a) && (kind.Some? ==> kind.value != "")
    ensures OfKind(ids + [a.id], kinds, kind)
            == OfKind(ids, kinds, kind) + (if kind.None? || a.kind == kind then [a.id] else [])
  {
  }

  /******* What a link means *******/

  /** A card is only ever set together with the account that owns it, in the row's bank. */
  lemma CardComesWithOwner(accounts: set<Account>, cards: set<Card>, row: Incoming)
    requires Cascade(accounts, cards, row).card.Some?
    ensures var link := Cascade(accounts, cards, row);
            exists a, c :: a in accounts && c in cards && c.id == link.card.value && c.account == a.id
                           && link.account == Some(a.id) && BankKey(a.bank) == BankKey(row.bank)
  {
  }

  /** Accounts and cards of other banks never change a link. */
  lemma OtherBanksDoNotMatter(accounts: set<Account>, cards: set<Card>, others: set<Account>, otherCards: set<Card>,
                              row: Incoming)
    requires forall a :: a in others ==> BankKey(a.bank) != BankKey(row.bank)
    requires forall c, a :: c in otherCards && a in accounts && c.account == a.id ==> BankKey(a.bank) != BankKey(row.bank)
    ensures Cascade(accounts + others, cards + otherCards, row) == Cascade(accounts, cards, row)
  {
    var bank := BankKey(row.bank);
    var kind := ExpectedKind(row.emailType);
    assert BankSet(accounts + others, bank, kind) == BankSet(accounts, bank, kind);
    var cardMask, accountMask := MaskOf(row.cardMask), MaskOf(row.accountMask);
    assert CardSet(accounts + others, cards + otherCards, bank, cardMask) == CardSet(accounts, cards, bank, cardMask);
    assert AccountSet(accounts + others, bank, cardMask) == AccountSet(accounts, bank, cardMask);
    assert AccountSet(accounts + others, bank, accountMask) == AccountSet(accounts, bank, accountMask);
  }

  /** Contexts built from the same rows in any order link every row alike. */
  lemma LoadOrderDoesNotMatter(accounts: seq<Account>, cards: seq<Card>, accounts2: seq<Account>, cards2: seq<Card>,
                               ctx: LinkContext, ctx2: LinkContext, bank: string, mask: string, kind: Option<string>)
    requires DistinctAccounts(accounts) && DistinctCards(cards) && IsContext(ctx, accounts, cards)
    requires DistinctAccounts(accounts2) && DistinctCards(cards2) && IsContext(ctx2, accounts2, cards2)
    requires SetOf(accounts) == SetOf(accounts2) && SetOf(cards) == SetOf(cards2)
    requires kind.Some? ==> kind.value != ""
    ensures Single(CardHits(Get(ctx.cards, bank), mask)) == Single(CardHits(Get(ctx2.cards, bank), mask))
    ensures Single(AccountHits(Get(ctx.masked, bank), mask)) == Single(AccountHits(Get(ctx2.masked, bank), mask))
    ensures Single(OfKind(Get(ctx.accounts, bank), ctx.kinds, kind)) == Single(OfKind(Get(ctx2.accounts, bank), ctx2.kinds, kind))
  {
    ListsAreSets(ctx, accounts, cards, bank, mask, kind);
    ListsAreSets(ctx2, accounts2, cards2, bank, mask, kind);
  }

  /** A mask whose digits are all at the left identifies nothing and never links. */
  lemma LeadingDigitsNeverLink(accounts: set<Account>, cards: set<Card>, row: Incoming)
    requires !Usable(MaskOf(row.cardMask)) && !Usable(MaskOf(row.accountMask))
    requires !Blank(row.cardMask) || !Blank(row.accountMask)
    ensures Cascade(accounts, cards, row) == UNLINKED
  {
  }
}
