/** Exact rupee amounts: half-up rounding to paise and Indian digit grouping.

    An amount is an exact real number of rupees. The printer rounds it to whole paise, away from zero
    on a tie, and writes the last three integer digits as one group and all above them in twos. */
module Inr {
  import opened Rows

  const RUPEE: char := '\U{20B9}'

  // ---------- rounding ----------

  /** `quantize(Decimal("0.01"), ROUND_HALF_UP)`, as a number of paise. */
  function Paise(rupees: real): int {
    if rupees >= 0.0 then (rupees * 100.0 + 0.5).Floor else -((0.5 - rupees * 100.0).Floor)
  }

  /** The rounded amount is the only whole number of paise that is at most half a paisa away, the one
      farther from zero when two are. */
  lemma HalfUpExact(rupees: real, p: int)
    ensures p == Paise(rupees) <==>
            && (p as real) - 0.5 <= rupees * 100.0 <= (p as real) + 0.5
            && (rupees >= 0.0 ==> rupees * 100.0 != (p as real) + 0.5)
            && (rupees < 0.0 ==> rupees * 100.0 != (p as real) - 0.5)
  {
    var x := if rupees >= 0.0 then rupees * 100.0 + 0.5 else 0.5 - rupees * 100.0;
    var f := x.Floor;
    assert f as real <= x < (f + 1) as real;
    var q := if rupees >= 0.0 then p else -p;
    if q as real <= x < (q + 1) as real {
      assert q == f;
    }
  }

  // ---------- digits ----------

  function Digit(n: nat): (c: char)
    requires n < 10
    ensures IsDigit(c)
  {
    '0' + n as char
  }

  /** A natural number in decimal, without leading zeros. */
  function Digits(n: nat): (s: string)
    ensures s != "" && AllDigits(s)
  {
    if n < 10 then [Digit(n)] else Digits(n / 10) + [Digit(n % 10)]
  }

  /** The two digits after the decimal point. */
  function Fraction(n: nat): (s: string)
    requires n < 100
    ensures |s| == 2 && AllDigits(s)
  {
    [Digit(n / 10), Digit(n % 10)]
  }

  /** Reading a run of digits as a number. */
  function Number(s: string): nat
    requires AllDigits(s)
  {
    if s == "" then 0 else 10 * Number(s[..|s| - 1]) + (s[|s| - 1] - '0') as nat
  }

  lemma {:induction false} NumberOfDigits(n: nat)
    ensures Number(Digits(n)) == n
  {
    if n >= 10 {
      NumberOfDigits(n / 10);
      assert Digits(n)[..|Digits(n)| - 1] == Digits(n / 10);
    } else {
      assert Digits(n)[..0] == "";
    }
  }

  /** Rupee digits followed by paise digits read as the number of paise. */
  lemma NumberOfPaise(n: nat)
    ensures Number(Digits(n / 100) + Fraction(n % 100)) == n
  {
    var d, f := Digits(n / 100), Fraction(n % 100);
    var s := d + f;
    assert s[..|s| - 1] == d + [f[0]];
    assert (d + [f[0]])[..|d|] == d;
    NumberOfDigits(n / 100);
    assert Number(d + [f[0]]) == 10 * (n / 100) + n % 100 / 10;
  }

  // ---------- grouping ----------

  /** Digits with `right` more digits to follow them: a comma stands after a digit exactly when an odd
      number of digits, at least three, remains to its right. */
  function Grouped(d: string, right: nat): string {
    if d == "" then "" else Led(d[0], |d| - 1 + right) + Grouped(d[1..], right)
  }

  /** One digit, and its comma if it has one. */
  function Led(digit: char, rest: nat): string {
    if rest >= 3 && rest % 2 == 1 then [digit, ','] else [digit]
  }

  lemma {:induction false} GroupedConcat(a: string, b: string, right: nat)
    ensures Grouped(a + b, right) == Grouped(a, |b| + right) + Grouped(b, right)
  {
    if a == "" {
      assert a + b == b;
    } else {
      var led := Led(a[0], |a + b| - 1 + right);
      calc {
        Grouped(a + b, right);
        { assert (a + b)[1..] == a[1..] + b; }
        led + Grouped(a[1..] + b, right);
        { GroupedConcat(a[1..], b, right); }
        led + (Grouped(a[1..], |b| + right) + Grouped(b, right));
        (led + Grouped(a[1..], |b| + right)) + Grouped(b, right);
        Grouped(a, |b| + right) + Grouped(b, right);
      }
    }
  }

  lemma ShortHead(a: string, right: nat)
    requires 1 <= |a| <= 2 && right >= 3 && right % 2 == 1
    ensures Grouped(a, right) == a + ","
  {
  }

  lemma ShortTail(t: string)
    requires |t| <= 3
    ensures Grouped(t, 0) == t
  {
    if |t| == 1 {
      assert t == [t[0]];
    } else if |t| == 2 {
      assert t[1..][1..] == "";
      assert t == [t[0], t[1]];
    } else if |t| == 3 {
      assert t[1..][1..][1..] == "";
      assert t == [t[0], t[1], t[2]];
    }
  }

  /** `",".join(groups)` for at least one group. */
  function Join(groups: seq<string>): string
    requires groups != []
  {
    if |groups| == 1 then groups[0] else groups[0] + "," + Join(groups[1..])
  }

  /** Putting one or two digits in front of whole groups is one more group. */
  lemma PushGroup(g: string, groups: seq<string>, done: string)
    requires 1 <= |g| <= 2 && |done| >= 3 && |done| % 2 == 1
    requires groups != [] && Join(groups) == Grouped(done, 0)
    ensures Join([g] + groups) == Grouped(g + done, 0)
  {
    assert ([g] + groups)[1..] == groups;
    GroupedConcat(g, done, 0);
    ShortHead(g, |done|);
  }

  lemma MovePair(head: string, done: string)
    requires |head| > 2
    ensures head[..|head| - 2] + (head[|head| - 2..] + done) == head + done
  {
  }

  /** The grouping loop of the printer: pairs are taken off the end of the head. */
  method GroupDigits(digits: string) returns (r: string)
    ensures r == Grouped(digits, 0)
  {
    if |digits| <= 3 {
      ShortTail(digits);
      return digits;
    }
    var head, tail := digits[..|digits| - 3], digits[|digits| - 3..];
    var groups: seq<string> := [tail];
    ghost var done := tail;
    ShortTail(tail);
    while |head| > 2
      invariant head != "" && |done| >= 3 && |done| % 2 == 1
      invariant head + done == digits
      invariant groups != [] && Join(groups) == Grouped(done, 0)
    {
      var pair := head[|head| - 2..];
      PushGroup(pair, groups, done);
      groups := [pair] + groups;
      MovePair(head, done);
      head, done := head[..|head| - 2], pair + done;
    }
    PushGroup(head, groups, done);
    groups := [head] + groups;
    r := Join(groups);
  }

  // ---------- the printer ----------

  function Abs(p: int): nat {
    if p < 0 then -p else p
  }

  function Printed(p: int): string {
    (if p < 0 then "-" else "") + [RUPEE] + Grouped(Digits(Abs(p) / 100), 0) + "." + Fraction(Abs(p) % 100)
  }

  /** The printer on a number of rupees, or on no value at all. */
  method FormatInrExact(value: Option<real>) returns (r: string)
    ensures r == Printed(Paise(match value case Some(v) => v case None => 0.0))
  {
    var amount := Paise(if value.Some? then value.value else 0.0);
    var sign := if amount < 0 then "-" else "";
    var digits := GroupDigits(Digits(Abs(amount) / 100));
    r := sign + [RUPEE] + digits + "." + Fraction(Abs(amount) % 100);
  }

  // ---------- reading back ----------

  function KeptChar(c: char): (r: string)
    ensures AllDigits(r)
  {
    if IsDigit(c) then [c] else ""
  }

  /** Drop the currency sign, the commas and the decimal point. */
  function Kept(s: string): (r: string)
    ensures AllDigits(r)
  {
    if s == "" then "" else KeptChar(s[0]) + Kept(s[1..])
  }

  function ReadPaise(s: string): int {
    var n: int := Number(Kept(s));
    if s != "" && s[0] == '-' then -n else n
  }

  lemma {:induction false} KeptConcat(a: string, b: string)
    ensures Kept(a + b) == Kept(a) + Kept(b)
  {
    if a == "" {
      assert a + b == b;
    } else {
      calc {
        Kept(a + b);
        { assert (a + b)[1..] == a[1..] + b; }
        KeptChar(a[0]) + Kept(a[1..] + b);
        { KeptConcat(a[1..], b); }
        KeptChar(a[0]) + (Kept(a[1..]) + Kept(b));
        (KeptChar(a[0]) + Kept(a[1..])) + Kept(b);
        Kept(a) + Kept(b);
      }
    }
  }

  lemma {:induction false} KeptDigits(s: string)
    requires AllDigits(s)
    ensures Kept(s) == s
  {
    if s != "" {
      KeptDigits(s[1..]);
      assert s == [s[0]] + s[1..];
    }
  }

  lemma KeptLed(digit: char, rest: nat)
    requires IsDigit(digit)
    ensures Kept(Led(digit, rest)) == [digit]
  {
    assert Kept([digit]) == [digit];
    assert [digit, ','][1..] == [','];
    assert Kept([',']) == "";
  }

  lemma {:induction false} KeptGrouped(d: string, right: nat)
    requires AllDigits(d)
    ensures Kept(Grouped(d, right)) == d
  {
    if d != "" {
      KeptGrouped(d[1..], right);
      KeptConcat(Led(d[0], |d| - 1 + right), Grouped(d[1..], right));
      KeptLed(d[0], |d| - 1 + right);
      assert d == [d[0]] + d[1..];
    }
  }

  lemma KeptThree(a: string, b: string, c: string)
    ensures Kept(a + b + c) == Kept(a) + Kept(b) + Kept(c)
  {
    KeptConcat(a + b, c);
    KeptConcat(a, b);
  }

  lemma KeptParts(front: string, g: string, dot: string, f: string)
    requires Kept(front) == "" && Kept(dot) == ""
    ensures Kept(front + g + dot + f) == Kept(g) + Kept(f)
  {
    KeptThree(front + g, dot, f);
    KeptConcat(front, g);
  }

  lemma KeptPrinted(p: int)
    ensures Kept(Printed(p)) == Digits(Abs(p) / 100) + Fraction(Abs(p) % 100)
  {
    var front := (if p < 0 then "-" else "") + [RUPEE];
    var g := Grouped(Digits(Abs(p) / 100), 0);
    assert Kept(front) == "" by {
      assert Kept([RUPEE]) == "";
      assert p >= 0 ==> front == [RUPEE];
      assert p < 0 ==> front[1..] == [RUPEE];
    }
    KeptParts(front, g, ".", Fraction(Abs(p) % 100));
    KeptGrouped(Digits(Abs(p) / 100), 0);
    KeptDigits(Fraction(Abs(p) % 100));
  }

  /** Reading a printed amount gives back its paise, so different paise amounts print differently. */
  lemma PrintedReadsBack(p: int)
    ensures ReadPaise(Printed(p)) == p
  {
    KeptPrinted(p);
    NumberOfPaise(Abs(p));
    if p < 0 {
      assert Printed(p)[0] == '-';
    } else {
      assert Printed(p)[0] == RUPEE;
    }
  }

  lemma PrintingIsInjective(p: int, q: int)
    requires Printed(p) == Printed(q)
    ensures p == q
  {
    PrintedReadsBack(p);
    PrintedReadsBack(q);
  }

  /** A sign is printed exactly for amounts at or below minus half a paisa: minus zero, and any small
      negative amount that rounds to zero, prints without one. */
  lemma SignExact(rupees: real)
    ensures Printed(Paise(rupees))[0] == '-' <==> rupees <= -0.005
  {
    var p := Paise(rupees);
    HalfUpExact(rupees, p);
    assert p < 0 ==> Printed(p)[0] == '-';
    assert p >= 0 ==> Printed(p)[0] == RUPEE;
    if rupees <= -0.005 {
      assert rupees * 100.0 <= -0.5;
      assert p as real < 0.0;
    } else {
      assert rupees * 100.0 > -0.5;
      assert p as real > -1.0;
    }
  }

  // ---------- the shape ----------

  /** How many commas a run of `n` digits gets. */
  function Commas(n: nat): nat {
    if n <= 3 then 0 else (n - 2) / 2
  }

  lemma {:induction false} GroupedLength(d: string)
    ensures |Grouped(d, 0)| == |d| + Commas(|d|)
  {
    if d != "" {
      GroupedLength(d[1..]);
    }
  }

  /** The places, counted from the right, of a first digit and of its comma. */
  lemma FirstPlaces(n: nat)
    requires n > 0
    ensures n + Commas(n) == 1 || (n + Commas(n) - 1) % 3 != 0
    ensures n - 1 >= 3 && (n - 1) % 2 == 1 ==> (n - 1 + Commas(n - 1)) % 3 == 0
  {
  }

  /** Counting characters from the right end of the integer part, commas stand at 3, 6, 9, … and
      nowhere else: a last group of three, groups of two above it and a first group of one or two. */
  lemma {:induction false} CommaPlaces(d: string, i: nat)
    requires AllDigits(d) && d != "" && i < |Grouped(d, 0)|
    ensures Grouped(d, 0)[i] == ',' <==>
            |Grouped(d, 0)| - 1 - i > 0 && (|Grouped(d, 0)| - 1 - i) % 3 == 0
  {
    var front, back := Led(d[0], |d| - 1), Grouped(d[1..], 0);
    assert Grouped(d, 0) == front + back;
    GroupedLength(d);
    GroupedLength(d[1..]);
    if i >= |front| {
      assert (front + back)[i] == back[i - |front|];
      CommaPlaces(d[1..], i - |front|);
    } else {
      FirstPlaces(|d|);
      assert (front + back)[i] == front[i];
    }
  }
}
