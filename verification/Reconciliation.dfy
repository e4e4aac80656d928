/** Stored statement reconciliations: the row ids they name, and how a merge rewrites them. */
module Reconciliation {
  import opened Rows

  datatype Line = Line(matched: Option<int>, imported: Option<int>, candidates: seq<int>)

  /** The two groups of a stored reconciliation; a group can be absent. */
  datatype Recon = Recon(matched: Option<seq<Line>>, missing: Option<seq<Line>>)

  /******* Lists without repeats *******/

  /** The list with the later copies of each id removed, order kept. */
  function Dedup(ids: seq<int>): seq<int> {
    if ids == [] then []
    else
      var front := Dedup(ids[..|ids| - 1]);
      if ids[|ids| - 1] in front then front else front + [ids[|ids| - 1]]
  }

  function Substitute(id: int, gone: int, keep: int): int {
    if id == gone then keep else id
  }

  function Replace(ids: seq<int>, gone: int, keep: int): seq<int> {
    seq(|ids|, i requires 0 <= i < |ids| => Substitute(ids[i], gone, keep))
  }

  function Without(ids: seq<int>, gone: int): seq<int> {
    if ids == [] then []
    else if ids[|ids| - 1] == gone then Without(ids[..|ids| - 1], gone)
    else Without(ids[..|ids| - 1], gone) + [ids[|ids| - 1]]
  }

  function RepointCandidates(ids: seq<int>, gone: int, keep: Option<int>): seq<int> {
    if gone !in ids then ids
    else if keep.Some? then Dedup(Replace(ids, gone, keep.value))
    else Dedup(Without(ids, gone))
  }

  predicate Names(line: Line, gone: int) {
    line.matched == Some(gone) || line.imported == Some(gone)
  }

  function RepointId(id: Option<int>, gone: int, keep: Option<int>): Option<int> {
    if id == Some(gone) then keep else id
  }

  function RepointLine(line: Line, gone: int, keep: Option<int>): Line {
    Line(RepointId(line.matched, gone, keep), RepointId(line.imported, gone, keep),
         RepointCandidates(line.candidates, gone, keep))
  }

  function RepointLines(lines: seq<Line>, gone: int, keep: Option<int>): seq<Line> {
    if lines == [] then []
    else
      var front := RepointLines(lines[..|lines| - 1], gone, keep);
      if keep.None? && Names(lines[|lines| - 1], gone) then front
      else front + [RepointLine(lines[|lines| - 1], gone, keep)]
  }

  function RepointGroup(group: Option<seq<Line>>, gone: int, keep: Option<int>): Option<seq<Line>> {
    if group.None? then None else Some(RepointLines(group.value, gone, keep))
  }

  function Repoint(recon: Recon, gone: int, keep: Option<int>): Recon {
    Recon(RepointGroup(recon.matched, gone, keep), RepointGroup(recon.missing, gone, keep))
  }

  predicate LineTouched(line: Line, gone: int) {
    Names(line, gone) || gone in line.candidates
  }

  predicate LinesTouched(lines: seq<Line>, gone: int) {
    exists line :: line in lines && LineTouched(line, gone)
  }

  predicate Touched(recon: Recon, gone: int) {
    || (recon.matched.Some? && LinesTouched(recon.matched.value, gone))
    || (recon.missing.Some? && LinesTouched(recon.missing.value, gone))
  }

  /******* The loops of the program *******/

  lemma ReplaceSnoc(ids: seq<int>, id: int, gone: int, keep: int)
    ensures Replace(ids + [id], gone, keep) == Replace(ids, gone, keep) + [Substitute(id, gone, keep)]
  {
  }

  lemma WithoutSnoc(ids: seq<int>, id: int, gone: int)
    ensures Without(ids + [id], gone) == if id == gone then Without(ids, gone) else Without(ids, gone) + [id]
  {
  }

  lemma DedupSnoc(ids: seq<int>, id: int)
    ensures Dedup(ids + [id]) == if id in Dedup(ids) then Dedup(ids) else Dedup(ids) + [id]
  {
  }

  /** Replace one id in a candidate list, and keep the first copy of each id. */
  method ReplaceCandidate(ids: seq<int>, gone: int, keep: int) returns (kept: seq<int>)
    ensures kept == Dedup(Replace(ids, gone, keep))
  {
    kept := [];
    for i := 0 to |ids|
      invariant kept == Dedup(Replace(ids[..i], gone, keep))
    {
      assert ids[..i + 1] == ids[..i] + [ids[i]];
      var id := Substitute(ids[i], gone, keep);
      ReplaceSnoc(ids[..i], ids[i], gone, keep);
      DedupSnoc(Replace(ids[..i], gone, keep), id);
      if id !in kept { kept := kept + [id]; }
    }
    assert ids[..|ids|] == ids;
  }

  /** Drop one id from a candidate list, and keep the first copy of each other. */
  method DropCandidate(ids: seq<int>, gone: int) returns (kept: seq<int>)
    ensures kept == Dedup(Without(ids, gone))
  {
    kept := [];
    for i := 0 to |ids|
      invariant kept == Dedup(Without(ids[..i], gone))
    {
      assert ids[..i + 1] == ids[..i] + [ids[i]];
      WithoutSnoc(ids[..i], ids[i], gone);
      if ids[i] != gone {
        DedupSnoc(Without(ids[..i], gone), ids[i]);
        if ids[i] !in kept { kept := kept + [ids[i]]; }
      }
    }
    assert ids[..|ids|] == ids;
  }

  method RewriteCandidates(ids: seq<int>, gone: int, keep: Option<int>) returns (kept: seq<int>)
    requires gone in ids
    ensures kept == RepointCandidates(ids, gone, keep)
  {
    if keep.Some? {
      kept := ReplaceCandidate(ids, gone, keep.value);
    } else {
      kept := DropCandidate(ids, gone);
    }
  }

  lemma TouchedSnoc(lines: seq<Line>, last: Line, gone: int)
    ensures LinesTouched(lines + [last], gone) <==> LinesTouched(lines, gone) || LineTouched(last, gone)
  {
    if LinesTouched(lines, gone) {
      var line :| line in lines && LineTouched(line, gone);
      assert line in lines + [last];
    }
    if LineTouched(last, gone) {
      assert last in lines + [last];
    }
  }

  method RewriteLines(lines: seq<Line>, gone: int, keep: Option<int>) returns (kept: seq<Line>, changed: bool)
    ensures kept == RepointLines(lines, gone, keep)
    ensures changed == LinesTouched(lines, gone)
  {
    kept, changed := [], false;
    for i := 0 to |lines|
      invariant kept == RepointLines(lines[..i], gone, keep)
      invariant changed == LinesTouched(lines[..i], gone)
    {
      TouchedSnoc(lines[..i], lines[i], gone);
      assert lines[..i + 1] == lines[..i] + [lines[i]];
      var line := lines[i];
      var named := false;
      if line.matched == Some(gone) { line := line.(matched := keep); named := true; }
      if line.imported == Some(gone) { line := line.(imported := keep); named := true; }
      if named { changed := true; }
      if gone in line.candidates {
        var candidates := RewriteCandidates(line.candidates, gone, keep);
        line := line.(candidates := candidates);
        changed := true;
      }
      if keep.Some? || !named {
        kept := kept + [line];
      }
    }
    assert lines[..|lines|] == lines;
  }

  /** Rewrite both groups, and tell whether any entry named the row. */
  method RepointReconciliation(recon: Recon, gone: int, keep: Option<int>) returns (after: Recon, changed: bool)
    ensures after == Repoint(recon, gone, keep)
    ensures changed == Touched(recon, gone)
  {
    after, changed := recon, false;
    if recon.matched.Some? {
      var kept, touched := RewriteLines(recon.matched.value, gone, keep);
      after := after.(matched := Some(kept));
      changed := touched;
    }
    if recon.missing.Some? {
      var kept, touched := RewriteLines(recon.missing.value, gone, keep);
      after := after.(missing := Some(kept));
      changed := changed || touched;
    }
  }

  /******* What the rewriting means *******/

  lemma {:induction false} DedupKeepsIds(ids: seq<int>)
    ensures forall id :: id in Dedup(ids) <==> id in ids
    ensures forall i, j :: 0 <= i < j < |Dedup(ids)| ==> Dedup(ids)[i] != Dedup(ids)[j]
  {
    if ids != [] {
      DedupKeepsIds(ids[..|ids| - 1]);
      assert ids == ids[..|ids| - 1] + [ids[|ids| - 1]];
    }
  }

  function MapIds(ids: seq<int>, f: int -> int): seq<int> {
    seq(|ids|, i requires 0 <= i < |ids| => f(ids[i]))
  }

  /** Removing repeats before a substitution changes nothing once repeats are removed after it. */
  lemma {:induction false} DedupAbsorbs(ids: seq<int>, f: int -> int)
    ensures Dedup(MapIds(Dedup(ids), f)) == Dedup(MapIds(ids, f))
  {
    if ids != [] {
      var front, last := ids[..|ids| - 1], ids[|ids| - 1];
      DedupAbsorbs(front, f);
      DedupKeepsIds(front);
      assert MapIds(ids, f)[..|ids| - 1] == MapIds(front, f);
      if last in front {
        var k :| 0 <= k < |front| && front[k] == last;
        assert MapIds(front, f)[k] == f(last);
        DedupKeepsIds(MapIds(front, f));
      } else {
        var kept := Dedup(front);
        assert Dedup(ids) == kept + [last];
        assert MapIds(kept + [last], f)[..|kept|] == MapIds(kept, f);
      }
    }
  }

  lemma {:induction false} LinesForget(lines: seq<Line>, gone: int, keep: Option<int>)
    requires keep != Some(gone)
    ensures !LinesTouched(RepointLines(lines, gone, keep), gone)
  {
    if lines != [] {
      LinesForget(lines[..|lines| - 1], gone, keep);
      var last := lines[|lines| - 1];
      if gone in last.candidates {
        DedupKeepsIds(if keep.Some? then Replace(last.candidates, gone, keep.value) else Without(last.candidates, gone));
        WithoutForgets(last.candidates, gone);
      }
    }
  }

  lemma {:induction false} WithoutForgets(ids: seq<int>, gone: int)
    ensures forall id :: id in Without(ids, gone) <==> id in ids && id != gone
  {
    if ids != [] {
      WithoutForgets(ids[..|ids| - 1], gone);
      assert ids == ids[..|ids| - 1] + [ids[|ids| - 1]];
    }
  }

  /** After the rewrite no entry names the row that went away, on a merge and on a delete. */
  lemma RepointForgets(recon: Recon, gone: int, keep: Option<int>)
    requires keep != Some(gone)
    ensures !Touched(Repoint(recon, gone, keep), gone)
  {
    if recon.matched.Some? { LinesForget(recon.matched.value, gone, keep); }
    if recon.missing.Some? { LinesForget(recon.missing.value, gone, keep); }
  }

  lemma {:induction false} UntouchedLines(lines: seq<Line>, gone: int, keep: Option<int>)
    requires !LinesTouched(lines, gone)
    ensures RepointLines(lines, gone, keep) == lines
  {
    if lines != [] {
      assert lines == lines[..|lines| - 1] + [lines[|lines| - 1]];
      assert !LineTouched(lines[|lines| - 1], gone);
      UntouchedLines(lines[..|lines| - 1], gone, keep);
    }
  }

  /** An entry list that does not name the row is stored back as it was. */
  lemma UntouchedStays(recon: Recon, gone: int, keep: Option<int>)
    requires !Touched(recon, gone)
    ensures Repoint(recon, gone, keep) == recon
  {
    if recon.matched.Some? { UntouchedLines(recon.matched.value, gone, keep); }
    if recon.missing.Some? { UntouchedLines(recon.missing.value, gone, keep); }
  }
}
