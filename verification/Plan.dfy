// The migration plan: a Markdown table read into units and written back in a new
// order, into the lines it came from and no others.
module Plan {
  import opened Text

  datatype Form = Table | Task
  datatype Unit = Unit(path: string, kind: string, classification: string, rules: seq<string>,
                       status: string, commit: string, line: nat, form: Form)

  /** Which cell of a row holds what. A table without a path column is some other table. */
  datatype Columns = Columns(path: nat, kind: Option<nat>, classification: Option<nat>,
                             rules: Option<nat>, status: Option<nat>, commit: Option<nat>)

  datatype Parsed = Parsed(lines: seq<string>, units: seq<Unit>, columns: Option<Columns>, eol: string)

  // ---- cells ----------------------------------------------------------------

  predicate LineEnd(c: char) { c == '\n' || c == '\r' || c == '\U{2028}' || c == '\U{2029}' }
  predicate Rule(c: char) { IsSpace(c) || c == ':' || c == '|' || c == '-' }

  predicate IsTableRow(line: string) {
    var t := Trim(line);
    |t| >= 2 && t[0] == '|' && t[|t| - 1] == '|' && forall k | 0 <= k < |t| :: !LineEnd(t[k])
  }

  predicate IsDelimiterRow(line: string) {
    var t := Trim(line);
    |t| >= 3 && t[0] == '|' && t[|t| - 1] == '|' && forall k | 0 <= k < |t| :: Rule(t[k])
  }

  function TrimAll(cells: seq<string>): (r: seq<string>)
    ensures |r| == |cells|
  {
    seq(|cells|, k requires 0 <= k < |cells| => Trim(cells[k]))
  }

  /** One bar off each end, cut at the others, trim. */
  function SplitRow(line: string): (r: seq<string>)
    ensures |r| >= 1
  {
    var t := Trim(line);
    var a := if StartsWith(t, '|') then t[1..] else t;
    var b := if EndsWith(a, '|') then a[..|a| - 1] else a;
    TrimAll(Split(b, '|'))
  }

  predicate Markup(c: char) { c == '`' || c == '*' || c == '_' }

  function DropMarkup(s: string): string {
    if s == "" then "" else (if Markup(s[0]) then "" else [s[0]]) + DropMarkup(s[1..])
  }

  /** The text of `[text](href)`, or the href when the text is empty; `None` if it is no link. */
  function LinkText(s: string): Option<string> {
    if !StartsWith(s, '[') then None
    else
      var close :- IndexOf(s, ']');
      if close + 1 < |s| && s[close + 1] == '(' then
        var end :- IndexOf(s[close + 2..], ')');
        if end + close + 3 == |s| then Some(if close == 1 then s[close + 2..|s| - 1] else s[1..close]) else None
      else None
  }

  function StripMarkup(cell: string): string {
    Trim(DropMarkup(LinkText(Trim(cell)).GetOr(cell)))
  }

  predicate Gap(c: char) { IsSpace(c) || c == '-' }

  /** `s.replace(/[\s-]+/g, '_')`. */
  function Underscored(s: string): string {
    if s == "" then ""
    else if Gap(s[0]) then (if |s| > 1 && Gap(s[1]) then "" else "_") + Underscored(s[1..])
    else [s[0]] + Underscored(s[1..])
  }

  function Classification(cell: string): string {
    var value := Underscored(Upper(StripMarkup(cell)));
    if value == "" then "MIGRATE" else value
  }

  function CutRules(s: string): (r: seq<string>)
    ensures |r| >= 1
  {
    if s == "" then [""]
    else
      var rest := CutRules(s[1..]);
      if s[0] == ',' || s[0] == ';' then [""] + rest else [[s[0]] + rest[0]] + rest[1..]
  }

  function KeepRules(pieces: seq<string>): seq<string> {
    if pieces == [] then []
    else
      var r := Trim(pieces[0]);
      (if r == "" || r == "-" || r == "\U{2014}" then [] else [r]) + KeepRules(pieces[1..])
  }

  function SplitRules(cell: string): seq<string> { KeepRules(CutRules(StripMarkup(cell))) }

  function CellAt(cells: seq<string>, index: Option<nat>): string {
    if index.Some? && index.value < |cells| then cells[index.value] else ""
  }

  function UnitFromRow(cells: seq<string>, c: Columns, line: nat): Option<Unit> {
    var path := StripMarkup(CellAt(cells, Some(c.path)));
    if path == "" then None
    else
      var status := Lower(StripMarkup(CellAt(cells, c.status)));
      Some(Unit(path, StripMarkup(CellAt(cells, c.kind)), Classification(CellAt(cells, c.classification)),
                SplitRules(CellAt(cells, c.rules)), if status == "" then "pending" else status,
                StripMarkup(CellAt(cells, c.commit)), line, Table))
  }

  // ---- the header -----------------------------------------------------------

  function HeaderKey(cell: string): string { Trim(DropMarkup(Lower(cell))) }

  datatype Column = PathColumn | KindColumn | ClassColumn | RulesColumn | StatusColumn | CommitColumn

  /** The column a header spelling stands for. */
  function ColumnOf(key: string): Option<Column> {
    match key
    case "unit" => Some(PathColumn) case "path" => Some(PathColumn) case "file" => Some(PathColumn)
    case "handler" => Some(PathColumn) case "target" => Some(PathColumn)
    case "kind" => Some(KindColumn) case "type" => Some(KindColumn) case "layer" => Some(KindColumn)
    case "classification" => Some(ClassColumn) case "class" => Some(ClassColumn)
    case "decision" => Some(ClassColumn) case "action" => Some(ClassColumn)
    case "rules" => Some(RulesColumn) case "violations" => Some(RulesColumn) case "violated" => Some(RulesColumn)
    case "violated rules" => Some(RulesColumn) case "findings" => Some(RulesColumn)
    case "status" => Some(StatusColumn) case "state" => Some(StatusColumn) case "progress" => Some(StatusColumn)
    case "commit" => Some(CommitColumn) case "sha" => Some(CommitColumn) case "link" => Some(CommitColumn)
    case "commit link" => Some(CommitColumn)
    case _ => None
  }

  /** The first header cell spelled as this column. */
  function FirstSpelled(header: seq<string>, column: Column): (r: Option<nat>)
    ensures r.Some? ==> r.value < |header| && ColumnOf(HeaderKey(header[r.value])) == Some(column)
  {
    if header == [] then None
    else if ColumnOf(HeaderKey(header[0])) == Some(column) then Some(0)
    else
      var k :- FirstSpelled(header[1..], column);
      Some(k + 1)
  }

  function MapColumns(header: seq<string>): Option<Columns> {
    var path :- FirstSpelled(header, PathColumn);
    Some(Columns(path, FirstSpelled(header, KindColumn), FirstSpelled(header, ClassColumn),
                 FirstSpelled(header, RulesColumn), FirstSpelled(header, StatusColumn), FirstSpelled(header, CommitColumn)))
  }

  /** No two columns share a cell. */
  ghost predicate Apart(c: Columns) {
    var all := [Some(c.path), c.kind, c.classification, c.rules, c.status, c.commit];
    forall i, j | 0 <= i < j < 6 && all[i].Some? :: all[i] != all[j]
  }

  /** A cell is spelled one way, so it is one column at most. */
  lemma MappedColumnsAreApart(header: seq<string>)
    ensures MapColumns(header).Some? ==> Apart(MapColumns(header).value)
  {
    hide ColumnOf, HeaderKey;
  }

  // ---- parsing --------------------------------------------------------------

  /** `text.split(/\r?\n/)`. */
  function SplitLines(text: string): (r: seq<string>)
    ensures |r| >= 1 && forall l | l in r :: '\n' !in l
  {
    Split(FoldCrLf(text), '\n')
  }

  /** The header of the plan's table stands at `i`. */
  predicate HeaderAt(lines: seq<string>, i: nat)
    requires i < |lines|
  {
    IsTableRow(lines[i]) && i + 1 < |lines| && IsDelimiterRow(lines[i + 1]) && MapColumns(SplitRow(lines[i])).Some?
  }

  /** The unit read from line `i`, if it holds one; `task` reads the task-list form. */
  function UnitAt(task: string -> Option<Unit>, line: string, i: nat, columns: Option<Columns>): Option<Unit> {
    if columns.Some? && IsTableRow(line) && !IsDelimiterRow(line) then UnitFromRow(SplitRow(line), columns.value, i)
    else
      match task(line)
      case Some(u) => Some(u.(line := i, form := Task))
      case None => None
  }

  function UnitsFrom(task: string -> Option<Unit>, lines: seq<string>, i: nat, columns: Option<Columns>): seq<Unit>
    decreases |lines| - i
  {
    if i >= |lines| then []
    else if columns.None? && HeaderAt(lines, i) then UnitsFrom(task, lines, i + 2, MapColumns(SplitRow(lines[i])))
    else
      var u := UnitAt(task, lines[i], i, columns);
      (if u.Some? then [u.value] else []) + UnitsFrom(task, lines, i + 1, columns)
  }

  function ColumnsFrom(lines: seq<string>, i: nat, columns: Option<Columns>): Option<Columns>
    decreases |lines| - i
  {
    if i >= |lines| || columns.Some? then columns
    else if HeaderAt(lines, i) then ColumnsFrom(lines, i + 2, MapColumns(SplitRow(lines[i])))
    else ColumnsFrom(lines, i + 1, columns)
  }

  function ContainsCrLf(text: string): bool {
    exists k :: 0 <= k < |text| - 1 && text[k] == '\r' && text[k + 1] == '\n'
  }

  function ParseOf(task: string -> Option<Unit>, text: string): Parsed {
    var lines := SplitLines(text);
    Parsed(lines, UnitsFrom(task, lines, 0, None), ColumnsFrom(lines, 0, None), if ContainsCrLf(text) then "\r\n" else "\n")
  }

  lemma ParseHeader(task: string -> Option<Unit>, lines: seq<string>, i: nat)
    requires i < |lines| && HeaderAt(lines, i)
    ensures i + 1 < |lines|
    ensures UnitsFrom(task, lines, i, None) == UnitsFrom(task, lines, i + 2, MapColumns(SplitRow(lines[i])))
    ensures ColumnsFrom(lines, i, None) == ColumnsFrom(lines, i + 2, MapColumns(SplitRow(lines[i])))
    ensures MapColumns(SplitRow(lines[i])).Some?
  {
  }

  lemma ParseLine(task: string -> Option<Unit>, lines: seq<string>, i: nat, columns: Option<Columns>)
    requires i < |lines| && !(columns.None? && HeaderAt(lines, i))
    ensures var u := UnitAt(task, lines[i], i, columns);
      UnitsFrom(task, lines, i, columns) == (if u.Some? then [u.value] else []) + UnitsFrom(task, lines, i + 1, columns)
    ensures ColumnsFrom(lines, i, columns) == ColumnsFrom(lines, i + 1, columns)
  {
    hide UnitAt, HeaderAt;
  }

  lemma ParseEnd(task: string -> Option<Unit>, lines: seq<string>, i: nat, columns: Option<Columns>)
    requires i >= |lines|
    ensures UnitsFrom(task, lines, i, columns) == [] && ColumnsFrom(lines, i, columns) == columns
  {
  }

  /** A unit stands on the line it was read from; without columns it is a task. */
  lemma UnitIsAt(task: string -> Option<Unit>, line: string, i: nat, columns: Option<Columns>)
    requires UnitAt(task, line, i, columns).Some?
    ensures UnitAt(task, line, i, columns).value.line == i
    ensures UnitAt(task, line, i, columns).value.form == Table ==> columns.Some? && IsTableRow(line) && !IsDelimiterRow(line)
  {
  }

  lemma Snoc3<T>(x: seq<T>, y: seq<T>, z: seq<T>)
    ensures (x + y) + z == x + (y + z)
  {
  }

  /** Read the plan without claiming to understand the rest of the document. */
  method ParsePlan(task: string -> Option<Unit>, text: string) returns (plan: Parsed)
    ensures plan == ParseOf(task, text)
  {
    hide UnitAt, IsTableRow, IsDelimiterRow, SplitRow, MapColumns, SplitLines, ContainsCrLf, UnitsFrom, ColumnsFrom;
    var eol := if ContainsCrLf(text) then "\r\n" else "\n";
    var lines := SplitLines(text);
    var units: seq<Unit> := [];
    var columns: Option<Columns> := None;
    var i := 0;
    while i < |lines|
      invariant i >= 0
      invariant units + UnitsFrom(task, lines, i, columns) == UnitsFrom(task, lines, 0, None)
      invariant ColumnsFrom(lines, i, columns) == ColumnsFrom(lines, 0, None)
    {
      var line := lines[i];
      if columns.None? && IsTableRow(line) && i + 1 < |lines| && IsDelimiterRow(lines[i + 1]) {
        var mapped := MapColumns(SplitRow(line));
        if mapped.Some? {
          ParseHeader(task, lines, i);
          columns := mapped;
          i := i + 2;
          continue;
        }
      }
      ParseLine(task, lines, i, columns);
      var u := UnitAt(task, line, i, columns);
      Snoc3(units, if u.Some? then [u.value] else [], UnitsFrom(task, lines, i + 1, columns));
      if u.Some? { units := units + [u.value]; }
      i := i + 1;
    }
    ParseEnd(task, lines, i, columns);
    plan := Parsed(lines, units, columns, eol);
  }

  // ---- the slots ------------------------------------------------------------

  /** Units stand on distinct lines, in the order of the document. */
  ghost predicate Slotted(units: seq<Unit>, from: nat, to: nat) {
    && (forall k | 0 <= k < |units| :: from <= units[k].line < to)
    && (forall j, k | 0 <= j < k < |units| :: units[j].line < units[k].line)
  }

  lemma {:induction false} UnitsAreSlotted(task: string -> Option<Unit>, lines: seq<string>, i: nat, columns: Option<Columns>)
    ensures Slotted(UnitsFrom(task, lines, i, columns), i, |lines|)
    decreases |lines| - i
  {
    hide UnitsFrom, ColumnsFrom, UnitAt, HeaderAt, MapColumns, SplitRow, IsTableRow, IsDelimiterRow;
    if i >= |lines| {
      ParseEnd(task, lines, i, columns);
    } else if columns.None? && HeaderAt(lines, i) {
      ParseHeader(task, lines, i);
      UnitsAreSlotted(task, lines, i + 2, MapColumns(SplitRow(lines[i])));
    } else {
      ParseLine(task, lines, i, columns);
      if UnitAt(task, lines[i], i, columns).Some? { UnitIsAt(task, lines[i], i, columns); }
      UnitsAreSlotted(task, lines, i + 1, columns);
    }
  }

  // ---- rendering ------------------------------------------------------------

  function Max(a: nat, b: nat): nat { if a > b then a else b }

  function Reach(index: Option<nat>): nat { if index.Some? then index.value + 1 else 0 }

  function Width(cells: seq<string>, c: Columns): (w: nat)
    ensures w >= |cells| && w >= Reach(Some(c.path)) && w >= Reach(c.kind) && w >= Reach(c.classification)
    ensures w >= Reach(c.rules) && w >= Reach(c.status) && w >= Reach(c.commit)
  {
    Max(|cells|, Max(Reach(Some(c.path)), Max(Reach(c.kind), Max(Reach(c.classification),
      Max(Reach(c.rules), Max(Reach(c.status), Reach(c.commit)))))))
  }

  function Padded(cells: seq<string>, w: nat): (r: seq<string>)
    ensures |r| == w
  {
    seq(w, k requires 0 <= k < w => if k < |cells| then cells[k] else "")
  }

  function Put(out: seq<string>, index: Option<nat>, value: string): (r: seq<string>)
    ensures |r| == |out|
  {
    if index.Some? && index.value < |out| then out[index.value := value] else out
  }

  /** The cells of a rendered row: the unit's own, over what else the line held. */
  function RowCells(u: Unit, c: Columns, template: string): (r: seq<string>)
    ensures |r| == Width(SplitRow(template), c)
  {
    var out := Padded(SplitRow(template), Width(SplitRow(template), c));
    var o1 := Put(out, Some(c.path), u.path);
    var o2 := Put(o1, c.kind, u.kind);
    var o3 := Put(o2, c.classification, u.classification);
    var o4 := Put(o3, c.rules, Join(u.rules, ", "));
    var o5 := Put(o4, c.status, u.status);
    Put(o5, c.commit, u.commit)
  }

  function RenderRow(u: Unit, c: Columns, template: string): string {
    "| " + Join(RowCells(u, c, template), " | ") + " |"
  }

  function Part(present: bool, text: string): seq<string> { if present then [text] else [] }

  function RenderTask(u: Unit): string {
    var parts := [u.path, u.classification] + Part(u.kind != "", "kind: " + u.kind)
      + Part(u.rules != [], "rules: " + Join(u.rules, ", "))
      + Part(u.status != "", "status: " + u.status) + Part(u.commit != "", "commit: " + u.commit);
    "- [" + (if u.classification == "MIGRATE" then "x" else " ") + "] " + Join(parts, " \U{2014} ")
  }

  function RenderUnit(u: Unit, columns: Option<Columns>, template: string): string {
    if u.form == Table && columns.Some? then RenderRow(u, columns.value, template) else RenderTask(u)
  }

  /** The lines after the first `n` slots took the first `n` units. */
  function Written(plan: Parsed, units: seq<Unit>, n: nat): (r: seq<string>)
    requires n <= |units| && n <= |plan.units| && Slots(plan)
    ensures |r| == |plan.lines|
  {
    if n == 0 then plan.lines
    else
      var slot := plan.units[n - 1].line;
      Written(plan, units, n - 1)[slot := RenderUnit(units[n - 1], plan.columns, plan.lines[slot])]
  }

  predicate Slots(plan: Parsed) {
    && (forall k | 0 <= k < |plan.units| :: plan.units[k].line < |plan.lines|)
    && (forall j, k | 0 <= j < k < |plan.units| :: plan.units[j].line < plan.units[k].line)
  }

  function Min(a: nat, b: nat): nat { if a < b then a else b }

  lemma WriteNone(plan: Parsed, units: seq<Unit>)
    requires Slots(plan)
    ensures Written(plan, units, 0) == plan.lines
  {
  }

  lemma WriteOne(plan: Parsed, units: seq<Unit>, k: nat)
    requires Slots(plan) && k < |units| && k < |plan.units|
    ensures var slot := plan.units[k].line;
      Written(plan, units, k + 1) == Written(plan, units, k)[slot := RenderUnit(units[k], plan.columns, plan.lines[slot])]
  {
    hide RenderUnit;
  }

  /** Write the units back into the slots the parser claimed, in the new order. */
  method RenderPlan(plan: Parsed, units: seq<Unit>) returns (text: string)
    requires Slots(plan)
    ensures text == Join(Written(plan, units, Min(|units|, |plan.units|)), plan.eol)
  {
    var lines := plan.lines;
    hide RenderUnit, Written;
    WriteNone(plan, units);
    for k := 0 to |units|
      invariant lines == Written(plan, units, Min(k, |plan.units|))
    {
      if k < |plan.units| { WriteOne(plan, units, k); }
      if k < |plan.units| {
        var slot := plan.units[k].line;
        lines := lines[slot := RenderUnit(units[k], plan.columns, plan.lines[slot])];
      }
    }
    text := Join(lines, plan.eol);
  }

  /** Slot `k` holds unit `k`; every line the parser did not claim is as it was. */
  lemma {:induction false} OnlySlotsChange(plan: Parsed, units: seq<Unit>, n: nat)
    requires n <= |units| && n <= |plan.units| && Slots(plan)
    ensures forall k | 0 <= k < n ::
      Written(plan, units, n)[plan.units[k].line] == RenderUnit(units[k], plan.columns, plan.lines[plan.units[k].line])
    ensures forall i | 0 <= i < |plan.lines| && (forall k | 0 <= k < n :: plan.units[k].line != i) ::
      Written(plan, units, n)[i] == plan.lines[i]
    decreases n
  {
    hide RenderUnit;
    if n > 0 {
      OnlySlotsChange(plan, units, n - 1);
    }
  }

  // ---- reordering -----------------------------------------------------------

  function Keeping(units: seq<Unit>, paths: set<string>, moving: bool): seq<Unit> {
    if units == [] then []
    else
      var last := units[|units| - 1];
      Keeping(units[..|units| - 1], paths, moving) + if (last.path in paths) == moving then [last] else []
  }

  lemma {:induction false} KeepingSplits(units: seq<Unit>, paths: set<string>)
    ensures multiset(units) == multiset(Keeping(units, paths, true)) + multiset(Keeping(units, paths, false))
    decreases |units|
  {
    if units != [] {
      KeepingSplits(units[..|units| - 1], paths);
      assert units == units[..|units| - 1] + [units[|units| - 1]];
    }
  }

  function Inserted(units: seq<Unit>, u: Unit, at: nat): seq<Unit>
    requires at <= |units|
  {
    units[..at] + [u] + units[at..]
  }

  /** One unit moved by an offset; past either end nothing moves. */
  function MoveOf(units: seq<Unit>, from: nat, offset: int): seq<Unit> {
    if from < |units| && 0 <= from + offset < |units| then
      Inserted(units[..from] + units[from + 1..], units[from], from + offset)
    else units
  }

  /** Where among the units that stay the moved ones are set down: at the target, if it is one of them. */
  function Anchor(units: seq<Unit>, paths: set<string>, target: Option<nat>): (at: nat)
    ensures at <= |Keeping(units, paths, false)|
  {
    var rest := Keeping(units, paths, false);
    if target.Some? && target.value < |units| then Position(rest, units[target.value]).GetOr(|rest|) else |rest|
  }

  /** The units of some paths set down together before a target, or at the end. */
  function DropOf(units: seq<Unit>, paths: set<string>, target: Option<nat>): seq<Unit> {
    var moving, rest, at := Keeping(units, paths, true), Keeping(units, paths, false), Anchor(units, paths, target);
    if moving == [] then units else rest[..at] + moving + rest[at..]
  }

  lemma {:induction false} Kept(units: seq<Unit>, paths: set<string>, k: nat)
    requires k < |units|
    ensures units[k] in Keeping(units, paths, units[k].path in paths)
    decreases |units|
  {
    if k < |units| - 1 { Kept(units[..|units| - 1], paths, k); }
  }

  /** The moved units stand together, directly before the target, or at the end when it is absent or moved itself. */
  ghost predicate Landed(before: seq<Unit>, after: seq<Unit>, paths: set<string>, target: Option<nat>) {
    var moving, rest := Keeping(before, paths, true), Keeping(before, paths, false);
    if target.Some? && target.value < |before| && before[target.value].path !in paths
    then exists at :: 0 <= at < |rest| && rest[at] == before[target.value] && after == rest[..at] + moving + rest[at..]
    else after == rest + moving
  }

  lemma DropLands(units: seq<Unit>, paths: set<string>, target: Option<nat>)
    requires Keeping(units, paths, true) != []
    ensures Landed(units, DropOf(units, paths, target), paths, target)
  {
    KeptTwice(units, paths);
    var moving, rest, at := Keeping(units, paths, true), Keeping(units, paths, false), Anchor(units, paths, target);
    assert rest[..|rest|] + moving + rest[|rest|..] == rest + moving;
    if target.Some? && target.value < |units| {
      PositionIs(rest, units[target.value]);
      if units[target.value].path !in paths { Kept(units, paths, target.value); }
    }
    hide Keeping, Position;
  }

  lemma {:induction false} PositionIs(units: seq<Unit>, u: Unit)
    ensures Position(units, u).Some? <==> u in units
    ensures Position(units, u).Some? ==> units[Position(units, u).value] == u && u !in units[..Position(units, u).value]
    decreases |units|
  {
    if units != [] && units[0] != u {
      PositionIs(units[1..], u);
      assert units == [units[0]] + units[1..];
      if Position(units, u).Some? {
        var k := Position(units[1..], u).value;
        assert units[..k + 1] == [units[0]] + units[1..][..k];
      }
    }
  }

  /** A move puts one unit in its new place, and leaves the others in their order. */
  lemma MoveIs(units: seq<Unit>, from: nat, offset: int)
    ensures var r := MoveOf(units, from, offset);
      && multiset(r) == multiset(units) && |r| == |units|
      && (from < |units| && 0 <= from + offset < |units| ==>
            r[from + offset] == units[from]
            && r[..from + offset] + r[from + offset + 1..] == units[..from] + units[from + 1..])
  {
    if from < |units| && 0 <= from + offset < |units| {
      hide Inserted;
      var to, rest := from + offset, units[..from] + units[from + 1..];
      TakenOut(units, from);
      PutIn(rest, units[from], to);
      var r := Inserted(rest, units[from], to);
      assert MoveOf(units, from, offset) == r;
      SameSize(r, units);
    }
  }

  lemma TakenOut(units: seq<Unit>, from: nat)
    requires from < |units|
    ensures multiset(units) == multiset(units[..from] + units[from + 1..]) + multiset{units[from]}
  {
    assert units == units[..from] + [units[from]] + units[from + 1..];
  }

  lemma PutIn(rest: seq<Unit>, u: Unit, to: nat)
    requires to <= |rest|
    ensures var r := Inserted(rest, u, to);
      |r| == |rest| + 1 && multiset(r) == multiset(rest) + multiset{u} && r[to] == u && r[..to] + r[to + 1..] == rest
  {
    var r := rest[..to] + [u] + rest[to..];
    assert rest == rest[..to] + rest[to..];
    assert r[..to] == rest[..to] && r[to + 1..] == rest[to..];
  }

  /** A drop loses and repeats nothing, and keeps the order of the moved and of the rest. */
  lemma DropIs(units: seq<Unit>, paths: set<string>, target: Option<nat>)
    ensures var r := DropOf(units, paths, target);
      && multiset(r) == multiset(units) && |r| == |units|
      && Keeping(r, paths, true) == Keeping(units, paths, true)
      && Keeping(r, paths, false) == Keeping(units, paths, false)
  {
    hide Keeping, Anchor;
    var moving, rest, at := Keeping(units, paths, true), Keeping(units, paths, false), Anchor(units, paths, target);
    if moving != [] {
      KeepingSplits(units, paths);
      KeptTwice(units, paths);
      assert rest == rest[..at] + rest[at..];
      Regrouped(rest[..at], moving, rest[at..], paths);
      BlockSetDown(rest, moving, at);
      SameSize(DropOf(units, paths, target), units);
    }
  }

  lemma BlockSetDown(rest: seq<Unit>, block: seq<Unit>, at: nat)
    requires at <= |rest|
    ensures multiset(rest[..at] + block + rest[at..]) == multiset(block) + multiset(rest)
  {
    assert rest == rest[..at] + rest[at..];
  }

  /** The tree of units, reordered by key or by drop until the run is confirmed. */
  class Tree {
    var units: seq<Unit>
    var locked: bool

    constructor (units: seq<Unit>)
      ensures this.units == units && !locked
    {
      this.units, locked := units, false;
    }

    /** Move one unit by an offset; a move past either end does nothing. */
    method Move(from: nat, offset: int)
      modifies this`units
      ensures units == if locked then old(units) else MoveOf(old(units), from, offset)
      ensures multiset(units) == multiset(old(units)) && |units| == |old(units)|
      ensures !locked && from < |units| && 0 <= from + offset < |units| ==>
        units[from + offset] == old(units)[from]
        && units[..from + offset] + units[from + offset + 1..] == old(units)[..from] + old(units)[from + 1..]
    {
      MoveIs(units, from, offset);
      if locked || from >= |units| { return; }
      var to := from + offset;
      if to < 0 || to >= |units| { return; }
      var unit := units[from];
      var rest := units[..from] + units[from + 1..];
      units := rest[..to] + [unit] + rest[to..];
    }

    /** Drop the units of some paths before a target, or at the end. */
    method Drop(paths: set<string>, target: Option<nat>)
      modifies this`units
      ensures units == if locked then old(units) else DropOf(old(units), paths, target)
      ensures multiset(units) == multiset(old(units)) && |units| == |old(units)|
      ensures !locked && Keeping(old(units), paths, true) != [] ==> Landed(old(units), units, paths, target)
    {
      hide Keeping, Position, Landed;
      DropIs(units, paths, target);
      if locked { return; }
      var moving := Keeping(units, paths, true);
      if moving == [] { return; }
      DropLands(units, paths, target);
      var rest := Keeping(units, paths, false);
      var at := |rest|;
      if target.Some? && target.value < |units| {
        var found := Position(rest, units[target.value]);
        if found.Some? { at := found.value; }
      }
      units := rest[..at] + moving + rest[at..];
    }
  }

  lemma SameSize(x: seq<Unit>, y: seq<Unit>)
    requires multiset(x) == multiset(y)
    ensures |x| == |y|
  {
    assert |multiset(x)| == |x| && |multiset(y)| == |y|;
  }

  function Position(units: seq<Unit>, u: Unit): (r: Option<nat>)
    ensures r.Some? ==> r.value < |units|
  {
    if units == [] then None
    else if units[0] == u then Some(0)
    else
      var k :- Position(units[1..], u);
      Some(k + 1)
  }

  ghost predicate AllIn(units: seq<Unit>, paths: set<string>, moving: bool) {
    forall u | u in units :: (u.path in paths) == moving
  }

  lemma {:induction false} KeptTwice(units: seq<Unit>, paths: set<string>)
    ensures AllIn(Keeping(units, paths, true), paths, true) && AllIn(Keeping(units, paths, false), paths, false)
    decreases |units|
  {
    if units != [] { KeptTwice(units[..|units| - 1], paths); }
  }

  lemma {:induction false} KeepingAll(units: seq<Unit>, paths: set<string>, all: bool, moving: bool)
    requires AllIn(units, paths, all)
    ensures Keeping(units, paths, moving) == if all == moving then units else []
    decreases |units|
  {
    if units != [] {
      assert units == units[..|units| - 1] + [units[|units| - 1]];
      KeepingAll(units[..|units| - 1], paths, all, moving);
    }
  }

  lemma {:induction false} KeepingOfConcat(x: seq<Unit>, y: seq<Unit>, paths: set<string>, moving: bool)
    ensures Keeping(x + y, paths, moving) == Keeping(x, paths, moving) + Keeping(y, paths, moving)
    decreases |y|
  {
    if y == [] {
      assert x + y == x;
    } else {
      assert (x + y)[..|x + y| - 1] == x + y[..|y| - 1];
      KeepingOfConcat(x, y[..|y| - 1], paths, moving);
    }
  }

  lemma Grouped(x: seq<Unit>, moved: seq<Unit>, y: seq<Unit>, paths: set<string>, moving: bool)
    requires AllIn(moved, paths, true) && AllIn(x, paths, false) && AllIn(y, paths, false)
    ensures Keeping(x + moved + y, paths, moving) == if moving then moved else x + y
  {
    hide Keeping, AllIn;
    KeepingOfConcat(x + moved, y, paths, moving);
    KeepingOfConcat(x, moved, paths, moving);
    KeepingAll(x, paths, false, moving);
    KeepingAll(moved, paths, true, moving);
    KeepingAll(y, paths, false, moving);
  }

  /** A block set down between the rest keeps both orders. */
  lemma Regrouped(x: seq<Unit>, moved: seq<Unit>, y: seq<Unit>, paths: set<string>)
    requires AllIn(moved, paths, true) && AllIn(x + y, paths, false)
    ensures Keeping(x + moved + y, paths, true) == moved
    ensures Keeping(x + moved + y, paths, false) == x + y
  {
    assert AllIn(x, paths, false) by { assert forall u | u in x :: u in x + y; }
    assert AllIn(y, paths, false) by { assert forall u | u in y :: u in x + y; }
    Grouped(x, moved, y, paths, true);
    Grouped(x, moved, y, paths, false);
  }
}
