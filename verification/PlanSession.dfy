// Working on a plan: reordered any number of times, written to its file and read
// again after each change, as the tree of units does.
module PlanSession {
  import opened Text
  import opened Plan
  import opened PlanRoundTrip

  datatype Edit = MoveBy(from: nat, offset: int) | DropOn(paths: set<string>, target: Option<nat>)

  /** The file, what was parsed from it last, and the units as the tree holds them. */
  datatype Session = Session(text: string, plan: Parsed, units: seq<Unit>)

  function Edited(units: seq<Unit>, e: Edit): seq<Unit> {
    match e
    case MoveBy(from, offset) => MoveOf(units, from, offset)
    case DropOn(paths, target) => DropOf(units, paths, target)
  }

  /** The edit does something, and so is saved. */
  predicate Saves(units: seq<Unit>, e: Edit) {
    match e
    case MoveBy(from, offset) => from < |units| && 0 <= from + offset < |units|
    case DropOn(paths, _) => Keeping(units, paths, true) != []
  }

  lemma ParsedSlots(task: string -> Option<Unit>, text: string)
    ensures Slots(ParseOf(task, text))
  {
    UnitsAreSlotted(task, SplitLines(text), 0, None);
    hide UnitsFrom, ColumnsFrom, SplitLines;
  }

  /** Write the units into the plan, and parse what was written. */
  function Saved(task: string -> Option<Unit>, st: Session, units: seq<Unit>): (r: Session)
    requires Slots(st.plan)
    ensures r.plan == ParseOf(task, r.text) && r.units == units && Slots(r.plan)
  {
    var text := Join(Written(st.plan, units, Min(|units|, |st.plan.units|)), st.plan.eol);
    ParsedSlots(task, text);
    Session(text, ParseOf(task, text), units)
  }

  function Worked(task: string -> Option<Unit>, text: string, edits: seq<Edit>): (r: Session)
    ensures r.plan == ParseOf(task, r.text) && Slots(r.plan)
  {
    if edits == [] then
      ParsedSlots(task, text);
      Session(text, ParseOf(task, text), ParseOf(task, text).units)
    else
      var st, e := Worked(task, text, edits[..|edits| - 1]), edits[|edits| - 1];
      if Saves(st.units, e) then Saved(task, st, Edited(st.units, e)) else st
  }

  lemma EditedIs(units: seq<Unit>, e: Edit)
    ensures multiset(Edited(units, e)) == multiset(units) && |Edited(units, e)| == |units|
  {
    match e
    case MoveBy(from, offset) => MoveIs(units, from, offset);
    case DropOn(paths, target) => DropIs(units, paths, target);
  }

  // ---- writing over what was written ----------------------------------------

  /** What a unit writes into cell `i`, if it writes there. */
  function Own(u: Unit, c: Columns, i: nat): Option<string> {
    if c.commit == Some(i) then Some(u.commit)
    else if c.status == Some(i) then Some(u.status)
    else if c.rules == Some(i) then Some(Join(u.rules, ", "))
    else if c.classification == Some(i) then Some(u.classification)
    else if c.kind == Some(i) then Some(u.kind)
    else if c.path == i then Some(u.path)
    else None
  }

  lemma CellOfRow(u: Unit, c: Columns, template: string, i: nat)
    requires i < |RowCells(u, c, template)|
    ensures RowCells(u, c, template)[i]
         == Own(u, c, i).GetOr(if i < |SplitRow(template)| then SplitRow(template)[i] else "")
  {
    hide SplitRow, Join, Width, Put;
    var out := Padded(SplitRow(template), Width(SplitRow(template), c));
    var o1 := Put(out, Some(c.path), u.path);
    var o2 := Put(o1, c.kind, u.kind);
    var o3 := Put(o2, c.classification, u.classification);
    var o4 := Put(o3, c.rules, Join(u.rules, ", "));
    var o5 := Put(o4, c.status, u.status);
    PutAt(out, Some(c.path), u.path, i);
    PutAt(o1, c.kind, u.kind, i);
    PutAt(o2, c.classification, u.classification, i);
    PutAt(o3, c.rules, Join(u.rules, ", "), i);
    PutAt(o4, c.status, u.status, i);
    PutAt(o5, c.commit, u.commit, i);
  }

  lemma PutAt(out: seq<string>, index: Option<nat>, value: string, i: nat)
    requires i < |out|
    ensures Put(out, index, value)[i] == if index == Some(i) then value else out[i]
  {
  }

  lemma OwnIsTight(u: Unit, c: Columns, i: nat)
    requires FieldsFit(u, c) && Own(u, c, i).Some?
    ensures Tight(Own(u, c, i).value)
  {
    if c.rules.Some? { RulesCellIsTight(u.rules); }
    hide Join, LinkText;
  }

  /** What is read of a rendered row is what was rendered. */
  lemma RenderedCells(u: Unit, c: Columns, template: string)
    requires RowFits(u, c, template) && IsTableRow(template)
    ensures IsTableRow(RenderRow(u, c, template)) && SplitRow(RenderRow(u, c, template)) == RowCells(u, c, template)
  {
    FitsHasFields(u, c, template);
    var cells := RowCells(u, c, template);
    RowCellsAreClean(u, c, template);
    RowTextIs(cells);
    SplitRowCells(template);
    forall i | 0 <= i < |cells| ensures Trim(cells[i]) == cells[i] {
      CellOfRow(u, c, template, i);
      if Own(u, c, i).Some? { OwnIsTight(u, c, i); }
      assert i < |SplitRow(template)| ==> SplitRow(template)[i] in SplitRow(template);
      TightIsTrimmed(cells[i]);
    }
    hide RowCells, SplitRow, IsTableRow, Trim, RowFits, FieldsFit, Clean, Tight, Own;
    assert TrimAll(cells) == cells;
  }

  /** A row written over another unit's row is the row written over the original line. */
  lemma RenderOver(u: Unit, v: Unit, c: Columns, template: string)
    requires RowFits(v, c, template) && IsTableRow(template)
    ensures RenderRow(u, c, RenderRow(v, c, template)) == RenderRow(u, c, template)
  {
    RenderedCells(v, c, template);
    var first, row := RowCells(v, c, template), RenderRow(v, c, template);
    var over, direct := RowCells(u, c, row), RowCells(u, c, template);
    hide SplitRow, RowFits, IsTableRow, RowCells, RenderRow;
    WidthIsReached(SplitRow(template), first, c);
    assert |over| == |direct|;
    forall i | 0 <= i < |over| ensures over[i] == direct[i] {
      CellOfRow(u, c, row, i);
      CellOfRow(u, c, template, i);
      CellOfRow(v, c, template, i);
      SameCells(u, v, c, i);
    }
    assert over == direct;
    SameCellsSameRow(u, c, row, template);
  }

  lemma SameCellsSameRow(u: Unit, c: Columns, x: string, y: string)
    requires RowCells(u, c, x) == RowCells(u, c, y)
    ensures RenderRow(u, c, x) == RenderRow(u, c, y)
  {
    hide RowCells;
  }

  lemma SameCells(u: Unit, v: Unit, c: Columns, i: nat)
    ensures Own(u, c, i).Some? <==> Own(v, c, i).Some?
  {
  }

  lemma WidthIsReached(cells: seq<string>, wide: seq<string>, c: Columns)
    requires |wide| == Width(cells, c)
    ensures Width(wide, c) == |wide|
  {
  }

  // ---- the text depends on the order alone ----------------------------------

  /** A plan as it is after a save: the first one with its slots rewritten. */
  ghost predicate Follows(task: string -> Option<Unit>, plan0: Parsed, units: seq<Unit>, plan: Parsed) {
    && IsPlan(task, plan0) && Slots(plan0) && |units| == |plan0.units| && AllRows(units)
    && IsPlan(task, plan) && plan.eol == plan0.eol && plan.columns == plan0.columns
    && plan.units == Placed(units, plan0.units)
    && (plan.lines == plan0.lines || (AllFit(plan0, units) && plan.lines == Written(plan0, units, |units|)))
  }

  /** What is written next does not depend on what was written before. */
  lemma WrittenAgain(task: string -> Option<Unit>, plan0: Parsed, units: seq<Unit>, plan: Parsed, more: seq<Unit>)
    requires Follows(task, plan0, units, plan) && |more| == |units| && AllRows(more)
    ensures Slots(plan) && Written(plan, more, |more|) == Written(plan0, more, |more|)
  {
    hide Written, IsPlan, Slots, Rewritten, AllFit, AllRows;
    SlotsOfPlan(task, plan0);
    SlotsOfPlan(task, plan);
    assert |plan.units| == |more| && |plan.lines| == |plan0.lines|;
    RewrittenPlan(task, plan0, more);
    RewrittenPlan(task, plan, more);
    var x, y := Written(plan, more, |more|), Written(plan0, more, |more|);
    forall i | 0 <= i < |x| ensures x[i] == y[i] {
      AgainAt(task, plan0, units, plan, more, x, y, i);
    }
  }

  lemma AgainAt(task: string -> Option<Unit>, plan0: Parsed, units: seq<Unit>, plan: Parsed, more: seq<Unit>,
                x: seq<string>, y: seq<string>, i: nat)
    requires Follows(task, plan0, units, plan) && |more| == |units| == |plan.units| && i < |x| == |y| == |plan0.lines| == |plan.lines|
    requires Rewritten(plan, more, x) && Rewritten(plan0, more, y)
    ensures x[i] == y[i]
  {
    hide IsPlan, Written, RenderRow, RowFits, AllFit, AllRows;
    assert forall k | 0 <= k < |more| :: plan.units[k].line == plan0.units[k].line;
    hide Placed;
    if k :| 0 <= k < |more| && plan0.units[k].line == i {
      SlotsOfPlan(task, plan0);
      SlotAgain(task, plan0, units, plan, more, k);
    } else {
      OtherAgain(task, plan0, units, plan, i);
    }
  }

  lemma SlotsOfPlan(task: string -> Option<Unit>, plan: Parsed)
    requires IsPlan(task, plan)
    ensures Slots(plan) && plan.columns.Some? && forall k | 0 <= k < |plan.units| :: IsTableRow(plan.lines[plan.units[k].line])
  {
    SlotsAreRows(task, plan);
    hide UnitsFrom, ColumnsFrom, Joinable, IsTableRow, Slots;
  }

  lemma RewrittenPlan(task: string -> Option<Unit>, plan: Parsed, units: seq<Unit>)
    requires IsPlan(task, plan) && |units| == |plan.units| && AllRows(units)
    ensures Slots(plan) && Rewritten(plan, units, Written(plan, units, |units|))
  {
    WrittenIsRewritten(task, plan, units);
    hide Tabular, Joinable, Written, Rewritten, Slots;
  }

  lemma SlotAgain(task: string -> Option<Unit>, plan0: Parsed, units: seq<Unit>, plan: Parsed, more: seq<Unit>, k: nat)
    requires Follows(task, plan0, units, plan) && k < |units| == |more|
    requires plan0.columns.Some? && plan0.units[k].line < |plan0.lines| == |plan.lines| && IsTableRow(plan0.lines[plan0.units[k].line])
    ensures RenderRow(more[k], plan0.columns.value, plan.lines[plan0.units[k].line])
         == RenderRow(more[k], plan0.columns.value, plan0.lines[plan0.units[k].line])
  {
    hide IsPlan, Written, RenderRow, RowFits, IsTableRow;
    if plan.lines != plan0.lines {
      var slot := plan0.units[k].line;
      RewrittenPlan(task, plan0, units);
      assert RowFits(units[k], plan0.columns.value, plan0.lines[slot]);
      RenderOver(more[k], units[k], plan0.columns.value, plan0.lines[slot]);
    }
  }

  lemma OtherAgain(task: string -> Option<Unit>, plan0: Parsed, units: seq<Unit>, plan: Parsed, i: nat)
    requires Follows(task, plan0, units, plan) && i < |plan.lines| == |plan0.lines|
    requires forall k | 0 <= k < |units| :: plan0.units[k].line != i
    ensures plan.lines[i] == plan0.lines[i]
  {
    hide IsPlan, Written, RenderRow, RowFits;
    if plan.lines != plan0.lines { RewrittenPlan(task, plan0, units); }
  }

  // ---- the line end stays ---------------------------------------------------

  lemma {:induction false} FoldShortens(s: string)
    ensures |FoldCrLf(s)| <= |s| && (ContainsCrLf(s) ==> |FoldCrLf(s)| < |s|)
    decreases |s|
  {
    if |s| >= 2 && s[0] == '\r' && s[1] == '\n' {
      FoldShortens(s[2..]);
    } else if s != "" {
      FoldShortens(s[1..]);
      if k :| 0 <= k < |s| - 1 && s[k] == '\r' && s[k + 1] == '\n' {
        assert s[1..][k - 1] == '\r' && s[1..][k] == '\n';
      }
    }
  }

  lemma LineEndStays(lines: seq<string>, eol: string)
    requires |lines| >= 2 && Joinable(lines, eol) && (eol == "\n" || eol == "\r\n")
    ensures ContainsCrLf(Join(lines, eol)) <==> eol == "\r\n"
  {
    var text := Join(lines, eol);
    if eol == "\n" {
      FoldOfJoin(lines, eol);
      FoldShortens(text);
    } else {
      var k := |lines[0]|;
      assert text == lines[0] + "\r\n" + Join(lines[1..], eol);
      assert text[k] == '\r' && text[k + 1] == '\n' && k < |text| - 1;
    }
  }

  // ---- sessions -------------------------------------------------------------

  /** Every unit of the plan fits the row of every slot. */
  ghost predicate EveryUnitFits(plan: Parsed)
    requires plan.columns.Some? && Slots(plan)
  {
    forall i, k | 0 <= i < |plan.units| && 0 <= k < |plan.units| ::
      RowFits(plan.units[i], plan.columns.value, plan.lines[plan.units[k].line])
  }

  lemma AnyOrderFits(plan: Parsed, units: seq<Unit>)
    requires plan.columns.Some? && Slots(plan) && EveryUnitFits(plan) && multiset(units) == multiset(plan.units)
    ensures |units| == |plan.units| && AllFit(plan, units)
  {
    SameSize(units, plan.units);
    hide RowFits, Slots;
    forall k | 0 <= k < |units| ensures RowFits(units[k], plan.columns.value, plan.lines[plan.units[k].line]) {
      var i := PlaceIn(units, plan.units, k);
    }
    AllFitByRow(plan, units);
  }

  lemma PlaceIn(x: seq<Unit>, y: seq<Unit>, k: nat) returns (i: nat)
    requires multiset(x) == multiset(y) && k < |x|
    ensures i < |y| && y[i] == x[k]
  {
    assert x[k] in multiset(x) && x[k] in multiset(y);
    i :| 0 <= i < |y| && y[i] == x[k];
  }

  lemma AnyOrderIsRows(x: seq<Unit>, y: seq<Unit>)
    requires AllRows(x) && multiset(x) == multiset(y)
    ensures AllRows(y)
  {
    forall u | u in y ensures u.form == Table { assert u in multiset(x); }
  }

  /** What is parsed after a save of units that fit is the first plan with its slots rewritten. */
  lemma SaveFollows(task: string -> Option<Unit>, plan0: Parsed, st: Session, units: seq<Unit>)
    requires Follows(task, plan0, st.units, st.plan) && Slots(st.plan)
    requires |units| == |st.units| && AllRows(units) && AllFit(plan0, units)
    ensures var r := Saved(task, st, units);
      Follows(task, plan0, units, r.plan) && r.plan.lines == Written(plan0, units, |units|)
  {
    hide IsPlan, Written, Join, SplitLines, AllFit, UnitsFrom, ColumnsFrom;
    WrittenAgain(task, plan0, st.units, st.plan, units);
    RenderedTextReadsBack(task, plan0, units);
    var written := Written(plan0, units, |units|);
    assert Min(|units|, |st.plan.units|) == |units|;
    TwoLines(task, plan0);
    LineEndStays(written, plan0.eol);
    PlanAgain(task, plan0, units, Saved(task, st, units).plan);
  }

  lemma TwoLines(task: string -> Option<Unit>, plan: Parsed)
    requires IsPlan(task, plan)
    ensures |plan.lines| >= 2 && (plan.eol == "\n" || plan.eol == "\r\n")
  {
    NoLinesNoColumns(task, plan);
    hide Tabular, Joinable;
  }

  lemma PlanAgain(task: string -> Option<Unit>, plan0: Parsed, units: seq<Unit>, plan: Parsed)
    requires IsPlan(task, plan0) && |units| == |plan0.units| && AllRows(units)
    requires plan.units == UnitsFrom(task, plan.lines, 0, None) == Placed(units, plan0.units)
    requires plan.columns == ColumnsFrom(plan.lines, 0, None) == plan0.columns
    requires plan.eol == plan0.eol && Joinable(plan.lines, plan.eol)
    ensures IsPlan(task, plan)
  {
    hide UnitsFrom, ColumnsFrom, Joinable;
    forall u | u in plan.units ensures u.form == Table {
      var k :| 0 <= k < |units| && plan.units[k] == u;
      assert units[k] in units;
    }
  }

  lemma ParsedIsPlan(task: string -> Option<Unit>, text: string)
    requires Tabular(task, ParseOf(task, text))
    ensures var plan := ParseOf(task, text);
      IsPlan(task, plan) && Follows(task, plan, plan.units, plan)
  {
    ParsedLinesJoin(text);
    ParsedSlots(task, text);
    var plan := ParseOf(task, text);
    assert Placed(plan.units, plan.units) == plan.units;
    hide UnitsFrom, ColumnsFrom, Joinable, SplitLines, AllFit, Written;
  }

  /**
   * Over any sequence of moves and drops, each saved and read again: the file
   * reads as the units in the order the tree shows, none lost or repeated, and
   * its lines are those of the first plan with the slots written once, in that
   * order; every other line is as it was.
   */
  lemma {:induction false} SessionFollows(task: string -> Option<Unit>, text: string, edits: seq<Edit>)
    requires var plan := ParseOf(task, text); Tabular(task, plan) && Slots(plan) && EveryUnitFits(plan)
    ensures var plan, st := ParseOf(task, text), Worked(task, text, edits);
      && Follows(task, plan, st.units, st.plan) && multiset(st.units) == multiset(plan.units)
      && (forall i | 0 <= i < |plan.lines| && (forall k | 0 <= k < |plan.units| :: plan.units[k].line != i) ::
            i < |st.plan.lines| && st.plan.lines[i] == plan.lines[i])
    decreases |edits|
  {
    hide Tabular, Slots, EveryUnitFits, Follows, ParseOf, Saved, Edited, Saves;
    var plan := ParseOf(task, text);
    ParsedIsPlan(task, text);
    if edits != [] {
      var init, e := edits[..|edits| - 1], edits[|edits| - 1];
      SessionFollows(task, text, init);
      var st := Worked(task, text, init);
      if Saves(st.units, e) {
        EditedIs(st.units, e);
        var units := Edited(st.units, e);
        HasColumns(task, plan);
        EditFollows(task, plan, st, units);
      }
    }
    OthersStay(task, plan, Worked(task, text, edits).units, Worked(task, text, edits).plan);
  }

  lemma HasColumns(task: string -> Option<Unit>, plan: Parsed)
    requires Tabular(task, plan)
    ensures plan.columns.Some?
  {
  }

  lemma EditFollows(task: string -> Option<Unit>, plan: Parsed, st: Session, units: seq<Unit>)
    requires Slots(plan) && Follows(task, plan, st.units, st.plan) && Slots(st.plan)
    requires plan.columns.Some? && EveryUnitFits(plan) && multiset(units) == multiset(st.units) == multiset(plan.units)
    ensures Follows(task, plan, units, Saved(task, st, units).plan)
  {
    hide EveryUnitFits, Saved, IsPlan, AllFit, Written;
    AnyOrderFits(plan, units);
    AnyOrderIsRows(st.units, units);
    SaveFollows(task, plan, st, units);
  }

  lemma OthersStay(task: string -> Option<Unit>, plan0: Parsed, units: seq<Unit>, plan: Parsed)
    requires Follows(task, plan0, units, plan)
    ensures forall i | 0 <= i < |plan0.lines| && (forall k | 0 <= k < |plan0.units| :: plan0.units[k].line != i) ::
      i < |plan.lines| && plan.lines[i] == plan0.lines[i]
  {
    hide IsPlan, Written, RowFits, RenderRow;
    if plan.lines != plan0.lines { RewrittenPlan(task, plan0, units); }
  }

  /** The file reads as the units the tree holds, in its order, in the slots of the plan. */
  ghost predicate ReadsBack(plan0: Parsed, st: Session) {
    && |st.units| == |plan0.units| && st.plan.units == Placed(st.units, plan0.units) && st.plan.columns == plan0.columns
  }

  /** One move takes unit `i` to slot `k`; if the file then reads back, the unit fits that slot. */
  lemma OneMoveTells(task: string -> Option<Unit>, text: string, i: nat, k: nat)
    requires var plan := ParseOf(task, text);
      && Tabular(task, plan) && Slots(plan) && i < |plan.units| && k < |plan.units|
      && ReadsBack(plan, Worked(task, text, [MoveBy(i, k - i)]))
    ensures var plan := ParseOf(task, text); RowFits(plan.units[i], plan.columns.value, plan.lines[plan.units[k].line])
  {
    var plan, e := ParseOf(task, text), MoveBy(i, k - i);
    hide SplitLines, UnitsFrom, ColumnsFrom, RowFits, Written, Join, MoveOf, Slots, Joinable;
    MoveIs(plan.units, i, k - i);
    var units := MoveOf(plan.units, i, k - i);
    AnyOrderIsRows(plan.units, units);
    assert [e][..0] == [];
    assert Worked(task, text, []) == Session(text, plan, plan.units);
    var st := Session(text, plan, plan.units);
    assert Worked(task, text, [e]) == Saved(task, st, units);
    assert Min(|units|, |plan.units|) == |units|;
    ParsedIsPlan(task, text);
    RenderedTextReadsBack(task, plan, units);
  }

  /** Whatever is moved and dropped, the file reads back. */
  ghost predicate AlwaysReadsBack(task: string -> Option<Unit>, text: string, plan: Parsed) {
    forall edits :: ReadsBack(plan, Worked(task, text, edits))
  }

  lemma ReadingBackTells(task: string -> Option<Unit>, text: string, plan: Parsed)
    requires plan == ParseOf(task, text) && Tabular(task, plan) && Slots(plan) && plan.columns.Some?
    requires AlwaysReadsBack(task, text, plan)
    ensures EveryUnitFits(plan)
  {
    assert forall k | 0 <= k < |plan.units| :: plan.units[k].line < |plan.lines|;
    hide Tabular, Slots, ParseOf, RowFits, Worked, ReadsBack;
    forall i, k | 0 <= i < |plan.units| && 0 <= k < |plan.units|
      ensures RowFits(plan.units[i], plan.columns.value, plan.lines[plan.units[k].line])
    {
      assert ReadsBack(plan, Worked(task, text, [MoveBy(i, k - i)]));
      OneMoveTells(task, text, i, k);
    }
  }

  lemma FittingReadsBack(task: string -> Option<Unit>, text: string, plan: Parsed)
    requires plan == ParseOf(task, text) && Tabular(task, plan) && Slots(plan) && plan.columns.Some?
    requires EveryUnitFits(plan)
    ensures AlwaysReadsBack(task, text, plan)
  {
    hide Tabular, Slots, ParseOf, RowFits, Worked, IsPlan, EveryUnitFits, Written, AllFit, Placed;
    forall edits ensures ReadsBack(plan, Worked(task, text, edits)) {
      SessionFollows(task, text, edits);
    }
  }

  /** Every sequence of moves and drops leaves a file that reads back, if and only if every unit fits every slot. */
  lemma EverySessionReadsBack(task: string -> Option<Unit>, text: string, plan: Parsed)
    requires plan == ParseOf(task, text) && Tabular(task, plan) && Slots(plan) && plan.columns.Some?
    ensures AlwaysReadsBack(task, text, plan) <==> EveryUnitFits(plan)
  {
    hide Tabular, Slots, ParseOf, EveryUnitFits, AlwaysReadsBack;
    if AlwaysReadsBack(task, text, plan) { ReadingBackTells(task, text, plan); }
    if EveryUnitFits(plan) { FittingReadsBack(task, text, plan); }
  }
}
