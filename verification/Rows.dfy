/** Transaction rows, as far as the ledger and the duplicate merge read or write them.
    Money is an integer number of paise, a date an integer day number. */
module Rows {

  datatype Option<+T> = None | Some(value: T)

  /** The first value when it is set, the second otherwise. */
  function Fill<T>(kept: Option<T>, offered: Option<T>): Option<T> {
    if kept.Some? then kept else offered
  }

  datatype Direction = Debit | Credit

  /** What the parser's row type tells the merge. */
  datatype RowType = BankStatementLine | CardStatementLine | CardPaymentAlert | OtherAlert

  /** `labelled` tells that the counterparty is a label the user chose, not a name a bank stated. */
  datatype Row = Row(
    rowType: RowType,
    account: Option<int>,
    direction: Direction,
    amount: int,
    currency: Option<string>,
    voided: bool,
    date: Option<int>,
    balance: Option<int>,
    reference: Option<string>,
    sms: Option<int>,
    email: Option<int>,
    cardStatement: Option<int>,
    bankStatement: Option<int>,
    card: Option<int>,
    attachment: Option<string>,
    category: Option<string>,
    manualCategory: bool,
    note: Option<string>,
    excluded: bool,
    bank: Option<string>,
    accountMask: Option<string>,
    counterparty: Option<string>,
    labelled: bool)

  /** The raw currency test of a ledger link: no code, an empty code, or exactly INR. */
  predicate IsInr(currency: Option<string>) {
    currency == None || currency.value == "" || currency.value == "INR"
  }

  predicate IsDigit(ch: char) {
    '0' <= ch <= '9'
  }

  predicate AllDigits(s: string) {
    forall i :: 0 <= i < |s| ==> IsDigit(s[i])
  }

  predicate EndsWith(s: string, tail: string) {
    |tail| <= |s| && s[|s| - |tail|..] == tail
  }

  /** A character that Python's `str.strip` and `str.isspace` treat as white space. */
  predicate IsSpace(ch: char) {
    var code := ch as int;
    || 0x09 <= code <= 0x0D
    || 0x1C <= code <= 0x20
    || code in {0x85, 0xA0, 0x1680, 0x2028, 0x2029, 0x202F, 0x205F, 0x3000}
    || 0x2000 <= code <= 0x200A
  }

  function StripLeft(s: string): string {
    if s != "" && IsSpace(s[0]) then StripLeft(s[1..]) else s
  }

  function StripRight(s: string): string {
    if s != "" && IsSpace(s[|s| - 1]) then StripRight(s[..|s| - 1]) else s
  }

  function Strip(s: string): string {
    StripRight(StripLeft(s))
  }

  /** Upper and lower case of ASCII letters; every other character is left alone. */
  function UpperChar(ch: char): char {
    if 'a' <= ch <= 'z' then (ch as int - 32) as char else ch
  }

  function LowerChar(ch: char): char {
    if 'A' <= ch <= 'Z' then (ch as int + 32) as char else ch
  }

  function Upper(s: string): string {
    seq(|s|, i requires 0 <= i < |s| => UpperChar(s[i]))
  }

  function Lower(s: string): string {
    seq(|s|, i requires 0 <= i < |s| => LowerChar(s[i]))
  }

  /** The merge's currency test: blank means INR, case and outer spaces do not matter. */
  function NormalizedCurrency(currency: Option<string>): string {
    Upper(Strip(if currency == None || currency.value == "" then "INR" else currency.value))
  }

  predicate InRupees(row: Row) {
    NormalizedCurrency(row.currency) == "INR"
  }

  /** A row the ledger accepts as INR is INR for the merge as well. */
  lemma InrNormalizes(currency: Option<string>)
    requires IsInr(currency)
    ensures NormalizedCurrency(currency) == "INR"
  {
  }

  /** Substring tests, as Python's `in`. */
  predicate At(text: string, part: string, i: nat) {
    i + |part| <= |text| && text[i..i + |part|] == part
  }

  predicate Contains(text: string, part: string) {
    exists i :: 0 <= i <= |text| && At(text, part, i)
  }

  lemma Member<T>(s: set<T>) returns (x: T)
    requires s != {}
    ensures x in s
  {
    x :| x in s;
  }

  /** Some member of a set, as a query without an order returns it. */
  method AnyOf<T>(s: set<T>) returns (x: T)
    requires s != {}
    ensures x in s
  {
    x :| x in s;
  }
}
