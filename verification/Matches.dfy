/** Which open receivables a new row can pay, and in what order they are offered. */
module Matches {
  import opened Rows
  import opened Ledger

  /******* Naming a person *******/

  datatype IdentifierKind = Counterparty | Vpa | Phone

  /** What the row says: its squashed counterparty, and the VPAs and phones of its raw text. */
  datatype Evidence = Evidence(squashed: string, vpas: set<string>, phones: set<string>)

  datatype Found = Found(strong: bool, identifier: string)

  function CutAt(s: string, ch: char): (r: (string, string))
    ensures ch !in r.0
    ensures s == r.0 + (if ch in s then [ch] + r.1 else [])
  {
    if s == "" then ("", "")
    else if s[0] == ch then ("", s[1..])
    else var (head, tail) := CutAt(s[1..], ch); ([s[0]] + head, tail)
  }

  function RightStripDashes(s: string): string {
    if s != "" && s[|s| - 1] == '-' then RightStripDashes(s[..|s| - 1]) else s
  }

  function AfterLastDash(s: string): string {
    if s == "" || s[|s| - 1] == '-' then "" else AfterLastDash(s[..|s| - 1]) + [s[|s| - 1]]
  }

  /** Drop a narration prefix that a dash glued to a VPA. */
  function CanonicalVpa(vpa: string): string {
    var (local, bank) := CutAt(vpa, '@');
    AfterLastDash(RightStripDashes(local)) + "@" + bank
  }

  predicate Hits(evidence: Evidence, kind: IdentifierKind, value: string) {
    match kind
    case Counterparty => Contains(evidence.squashed, value)
    case Vpa => CanonicalVpa(value) in evidence.vpas
    case Phone => value in evidence.phones
  }

  predicate WordsNamed(words: seq<string>, squashed: string) {
    forall word :: word in words ==> Contains(squashed, word)
  }

  function Join(words: seq<string>): string {
    if words == [] then "" else words[0] + Join(words[1..])
  }

  /** The stored identifiers that hit, in stored order. */
  function HitValues(evidence: Evidence, known: seq<(IdentifierKind, string)>): seq<string> {
    if known == [] then []
    else
      var front := HitValues(evidence, known[..|known| - 1]);
      var (kind, value) := known[|known| - 1];
      if Hits(evidence, kind, value) then front + [value] else front
  }

  /** The first of the longest. */
  function Longest(values: seq<string>): (r: string)
    requires values != []
    ensures r in values && forall value :: value in values ==> |value| <= |r|
  {
    if |values| == 1 then values[0]
    else
      var best := Longest(values[..|values| - 1]);
      assert values == values[..|values| - 1] + [values[|values| - 1]];
      if |values[|values| - 1]| > |best| then values[|values| - 1] else best
  }

  /** `words` are the words of the person's name with four letters or more. */
  function Identity(evidence: Evidence, known: seq<(IdentifierKind, string)>, words: seq<string>): Option<Found> {
    var hits := HitValues(evidence, known);
    if hits != [] then Some(Found(true, Longest(hits)))
    else if known == [] && words != [] && WordsNamed(words, evidence.squashed) then Some(Found(false, Join(words)))
    else None
  }

  method FindIdentity(evidence: Evidence, known: seq<(IdentifierKind, string)>, words: seq<string>)
    returns (found: Option<Found>)
    ensures found == Identity(evidence, known, words)
  {
    var hits: seq<string> := [];
    for i := 0 to |known|
      invariant hits == HitValues(evidence, known[..i])
    {
      assert known[..i + 1][..i] == known[..i];
      var (kind, value) := known[i];
      if Hits(evidence, kind, value) {
        hits := hits + [value];
      }
    }
    assert known[..|known|] == known;
    if hits != [] {
      return Some(Found(true, Longest(hits)));
    }
    if known == [] && words != [] && WordsNamed(words, evidence.squashed) {
      return Some(Found(false, Join(words)));
    }
    return None;
  }

  /******* The offered list *******/

  /** An open receivable as the sweep read it. */
  datatype Claim = Claim(id: int, kind: Kind, status: Status, outstanding: int)

  datatype Match = Match(id: int, strong: bool, identifier: string)

  const MAX_CANDIDATES := 3

  predicate Payable(row: Row, claim: Claim) {
    claim.status == Open && row.direction == RoleDirection(claim.kind, Payment) && row.amount == claim.outstanding
  }

  function Matching(row: Row, claims: seq<Claim>, identify: int -> Option<Found>): seq<Match> {
    if claims == [] then []
    else
      var rest := Matching(row, claims[1..], identify);
      var found := identify(claims[0].id);
      if Payable(row, claims[0]) && found.Some?
      then [Match(claims[0].id, found.value.strong, found.value.identifier)] + rest
      else rest
  }

  /** The other match names more of the row. */
  predicate Hides(other: Match, m: Match) {
    |other.identifier| > |m.identifier| && Contains(other.identifier, m.identifier)
  }

  predicate Hidden(m: Match, matches: seq<Match>) {
    exists other :: other in matches && Hides(other, m)
  }

  function Unhidden(todo: seq<Match>, matches: seq<Match>): seq<Match> {
    if todo == [] then []
    else if Hidden(todo[0], matches) then Unhidden(todo[1..], matches)
    else [todo[0]] + Unhidden(todo[1..], matches)
  }

  /** Strong before weak, then the longer identifier, then the older receivable. */
  predicate Before(a: Match, b: Match) {
    if a.strong != b.strong then a.strong
    else if |a.identifier| != |b.identifier| then |a.identifier| > |b.identifier|
    else a.id < b.id
  }

  function Insert(m: Match, sorted: seq<Match>): seq<Match> {
    if sorted == [] || !Before(sorted[0], m) then [m] + sorted else [sorted[0]] + Insert(m, sorted[1..])
  }

  function Sort(matches: seq<Match>): seq<Match> {
    if matches == [] then [] else Insert(matches[0], Sort(matches[1..]))
  }

  function Ids(matches: seq<Match>): (ids: seq<int>)
    ensures |ids| == |matches| && forall i :: 0 <= i < |ids| ==> ids[i] == matches[i].id
  {
    seq(|matches|, i requires 0 <= i < |matches| => matches[i].id)
  }

  function Ranked(row: Row, claims: seq<Claim>, identify: int -> Option<Found>): seq<Match> {
    var matches := Matching(row, claims, identify);
    Sort(Unhidden(matches, matches))
  }

  function MatchReceivables(row: Row, claims: seq<Claim>, identify: int -> Option<Found>): seq<int> {
    var ranked := Ranked(row, claims, identify);
    if |ranked| <= MAX_CANDIDATES then Ids(ranked) else []
  }

  /******* The filter is complete *******/

  lemma ContainsTransitive(a: string, b: string, c: string)
    requires Contains(a, b) && Contains(b, c)
    ensures Contains(a, c)
  {
    var i :| 0 <= i <= |a| && At(a, b, i);
    var j :| 0 <= j <= |b| && At(b, c, j);
    forall k | 0 <= k < |c| ensures a[i + j..i + j + |c|][k] == c[k] {
      assert b[j..j + |c|][k] == b[j + k] == a[i..i + |b|][j + k];
    }
    assert At(a, c, i + j);
  }

  lemma {:induction false} UnhiddenMembers(todo: seq<Match>, matches: seq<Match>)
    ensures forall m :: m in Unhidden(todo, matches) <==> m in todo && !Hidden(m, matches)
  {
    if todo != [] { UnhiddenMembers(todo[1..], matches); }
  }

  /** Every dropped match is strictly contained in the identifier of one that is kept. */
  lemma {:induction false} DroppedIsCovered(matches: seq<Match>, m: Match, longest: nat)
    requires m in matches && Hidden(m, matches)
    requires forall other :: other in matches ==> |other.identifier| <= longest
    ensures exists k :: k in Unhidden(matches, matches) && Hides(k, m)
    decreases longest - |m.identifier|
  {
    UnhiddenMembers(matches, matches);
    var other :| other in matches && Hides(other, m);
    if Hidden(other, matches) {
      DroppedIsCovered(matches, other, longest);
      var k :| k in Unhidden(matches, matches) && Hides(k, other);
      ContainsTransitive(k.identifier, other.identifier, m.identifier);
      assert Hides(k, m);
    } else {
      assert other in Unhidden(matches, matches);
    }
  }

  /** No two kept matches hide each other. */
  lemma KeptAreIncomparable(matches: seq<Match>, a: Match, b: Match)
    requires a in Unhidden(matches, matches) && b in Unhidden(matches, matches)
    ensures !Hides(a, b)
  {
    UnhiddenMembers(matches, matches);
  }

  /******* The list is canonical *******/

  predicate DistinctIds(matches: seq<Match>) {
    forall i, j :: 0 <= i < j < |matches| ==> matches[i].id != matches[j].id
  }

  predicate Ordered(matches: seq<Match>) {
    forall i, j :: 0 <= i < j < |matches| ==> Before(matches[i], matches[j])
  }

  lemma {:induction false} InsertOrdered(m: Match, sorted: seq<Match>)
    requires Ordered(sorted) && forall other :: other in sorted ==> other.id != m.id
    ensures Ordered(Insert(m, sorted))
    ensures forall other :: other in Insert(m, sorted) <==> other == m || other in sorted
  {
    if sorted != [] {
      if Before(sorted[0], m) {
        forall i, j | 0 <= i < j < |sorted[1..]| ensures Before(sorted[1..][i], sorted[1..][j]) {
          assert sorted[1..][i] == sorted[i + 1] && sorted[1..][j] == sorted[j + 1];
        }
        InsertOrdered(m, sorted[1..]);
        var tail := Insert(m, sorted[1..]);
        forall other | other in tail ensures Before(sorted[0], other) {
          if other != m { var k :| 0 <= k < |sorted[1..]| && sorted[1..][k] == other; assert sorted[k + 1] == other; }
        }
      } else {
        assert Before(m, sorted[0]);
        forall i | 0 <= i < |sorted| ensures Before(m, sorted[i]) {
          if i > 0 { assert Before(sorted[0], sorted[i]); }
        }
      }
    }
  }

  lemma {:induction false} SortOrders(matches: seq<Match>)
    requires DistinctIds(matches)
    ensures Ordered(Sort(matches))
    ensures forall m :: m in Sort(matches) <==> m in matches
    ensures |Sort(matches)| == |matches|
  {
    if matches != [] {
      var tail := matches[1..];
      forall i, j | 0 <= i < j < |tail| ensures tail[i].id != tail[j].id {
        assert tail[i] == matches[i + 1] && tail[j] == matches[j + 1];
      }
      SortOrders(tail);
      forall other | other in Sort(tail) ensures other.id != matches[0].id {
        var k :| 0 <= k < |tail| && tail[k] == other;
        assert matches[k + 1] == other;
      }
      InsertOrdered(matches[0], Sort(tail));
      InsertLength(matches[0], Sort(tail));
    }
  }

  lemma {:induction false} InsertLength(m: Match, sorted: seq<Match>)
    ensures |Insert(m, sorted)| == |sorted| + 1
  {
    if sorted != [] { InsertLength(m, sorted[1..]); }
  }

  /** An ordered list is determined by its members. */
  lemma {:induction false} OrderedIsUnique(a: seq<Match>, b: seq<Match>)
    requires Ordered(a) && Ordered(b) && forall m :: m in a <==> m in b
    ensures a == b
  {
    assert (a != [] ==> a[0] in b) && (b != [] ==> b[0] in a);
    if a != [] {
      var i :| 0 <= i < |b| && b[i] == a[0];
      var j :| 0 <= j < |a| && a[j] == b[0];
      assert i == 0 && j == 0;
      forall m ensures m in a[1..] <==> m in b[1..] {
        if m in a[1..] {
          var k :| 0 <= k < |a[1..]| && a[1..][k] == m;
          assert a[k + 1] == m && Before(a[0], m);
          assert m in b;
        }
        if m in b[1..] {
          var k :| 0 <= k < |b[1..]| && b[1..][k] == m;
          assert b[k + 1] == m && Before(b[0], m);
          assert m in a;
        }
      }
      OrderedTail(a);
      OrderedTail(b);
      OrderedIsUnique(a[1..], b[1..]);
    }
  }

  lemma OrderedTail(a: seq<Match>)
    requires Ordered(a) && a != []
    ensures Ordered(a[1..])
  {
    forall i, j | 0 <= i < j < |a[1..]| ensures Before(a[1..][i], a[1..][j]) {
      assert a[1..][i] == a[i + 1] && a[1..][j] == a[j + 1];
    }
  }

  predicate DistinctClaims(claims: seq<Claim>) {
    forall i, j :: 0 <= i < j < |claims| ==> claims[i].id != claims[j].id
  }

  predicate Answers(row: Row, claim: Claim, identify: int -> Option<Found>, m: Match) {
    && Payable(row, claim) && identify(claim.id).Some?
    && m == Match(claim.id, identify(claim.id).value.strong, identify(claim.id).value.identifier)
  }

  lemma {:induction false} MatchingMembers(row: Row, claims: seq<Claim>, identify: int -> Option<Found>)
    ensures forall m :: m in Matching(row, claims, identify)
              <==> exists claim :: claim in claims && Answers(row, claim, identify, m)
  {
    if claims != [] {
      MatchingMembers(row, claims[1..], identify);
      forall m
        ensures m in Matching(row, claims, identify)
                <==> exists claim :: claim in claims && Answers(row, claim, identify, m)
      {
        assert m in Matching(row, claims, identify)
          <==> Answers(row, claims[0], identify, m) || m in Matching(row, claims[1..], identify);
        if m in Matching(row, claims[1..], identify) {
          var claim :| claim in claims[1..] && Answers(row, claim, identify, m);
          assert claim in claims;
        }
      }
    }
  }

  lemma {:induction false} MatchingDistinct(row: Row, claims: seq<Claim>, identify: int -> Option<Found>)
    requires DistinctClaims(claims)
    ensures DistinctIds(Matching(row, claims, identify))
  {
    if claims != [] {
      var tail := claims[1..];
      forall i, j | 0 <= i < j < |tail| ensures tail[i].id != tail[j].id {
        assert tail[i] == claims[i + 1] && tail[j] == claims[j + 1];
      }
      MatchingDistinct(row, tail, identify);
      MatchingMembers(row, tail, identify);
      forall m | m in Matching(row, tail, identify) ensures m.id != claims[0].id {
        var claim :| claim in tail && Answers(row, claim, identify, m);
        var k :| 0 <= k < |tail| && tail[k] == claim;
        assert claims[k + 1] == claim;
      }
    }
  }

  lemma {:induction false} UnhiddenDistinct(todo: seq<Match>, matches: seq<Match>)
    requires DistinctIds(todo)
    ensures DistinctIds(Unhidden(todo, matches))
  {
    if todo != [] {
      var tail := todo[1..];
      forall i, j | 0 <= i < j < |tail| ensures tail[i].id != tail[j].id {
        assert tail[i] == todo[i + 1] && tail[j] == todo[j + 1];
      }
      UnhiddenDistinct(tail, matches);
      UnhiddenMembers(tail, matches);
      forall m | m in tail ensures m.id != todo[0].id {
        var k :| 0 <= k < |tail| && tail[k] == m;
        assert todo[k + 1] == m;
      }
    }
  }

  lemma RankedMembers(row: Row, claims: seq<Claim>, identify: int -> Option<Found>)
    requires DistinctClaims(claims)
    ensures Ordered(Ranked(row, claims, identify))
    ensures var matches := Matching(row, claims, identify);
            forall m :: m in Ranked(row, claims, identify) <==> m in matches && !Hidden(m, matches)
  {
    var matches := Matching(row, claims, identify);
    MatchingDistinct(row, claims, identify);
    UnhiddenDistinct(matches, matches);
    UnhiddenMembers(matches, matches);
    SortOrders(Unhidden(matches, matches));
  }

  /** The offered list does not depend on the order in which the receivables were read. */
  lemma OffersAreCanonical(row: Row, claims: seq<Claim>, other: seq<Claim>, identify: int -> Option<Found>)
    requires DistinctClaims(claims) && DistinctClaims(other) && forall claim :: claim in claims <==> claim in other
    ensures MatchReceivables(row, claims, identify) == MatchReceivables(row, other, identify)
  {
    RankedMembers(row, claims, identify);
    RankedMembers(row, other, identify);
    MatchingMembers(row, claims, identify);
    MatchingMembers(row, other, identify);
    var a, b := Matching(row, claims, identify), Matching(row, other, identify);
    assert forall m :: m in a <==> m in b;
    assert forall m :: Hidden(m, a) <==> Hidden(m, b);
    OrderedIsUnique(Ranked(row, claims, identify), Ranked(row, other, identify));
  }

  /** What an offered receivable is: open, payable by this very row, and named by it. */
  lemma OffersFit(row: Row, claims: seq<Claim>, identify: int -> Option<Found>, id: int)
    requires DistinctClaims(claims) && id in MatchReceivables(row, claims, identify)
    ensures |MatchReceivables(row, claims, identify)| <= MAX_CANDIDATES
    ensures exists claim :: claim in claims && claim.id == id && Payable(row, claim) && identify(id).Some?
  {
    RankedMembers(row, claims, identify);
    MatchingMembers(row, claims, identify);
    var ranked := Ranked(row, claims, identify);
    var k :| 0 <= k < |ranked| && ranked[k].id == id;
    assert ranked[k] in Matching(row, claims, identify);
    var claim :| claim in claims && Answers(row, claim, identify, ranked[k]);
  }

  /** When nothing is offered: exactly when no receivable matches, or more than three stay visible. */
  lemma NothingOfferedExact(row: Row, claims: seq<Claim>, identify: int -> Option<Found>)
    requires DistinctClaims(claims)
    ensures MatchReceivables(row, claims, identify) == []
            <==> (Matching(row, claims, identify) == []
                  || |Unhidden(Matching(row, claims, identify), Matching(row, claims, identify))| > MAX_CANDIDATES)
  {
    var matches := Matching(row, claims, identify);
    MatchingDistinct(row, claims, identify);
    UnhiddenDistinct(matches, matches);
    SortOrders(Unhidden(matches, matches));
    UnhiddenMembers(matches, matches);
    if matches != [] && Unhidden(matches, matches) == [] {
      var bound := LongestBound(matches);
      assert matches[0] !in Unhidden(matches, matches);
      DroppedIsCovered(matches, matches[0], bound);
    }
  }

  function LongestBound(matches: seq<Match>): (r: nat)
    ensures forall m :: m in matches ==> |m.identifier| <= r
  {
    if matches == [] then 0
    else
      var rest := LongestBound(matches[1..]);
      if |matches[0].identifier| > rest then |matches[0].identifier| else rest
  }
}
