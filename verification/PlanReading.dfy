// What is read from a plan: which cells are which fields, which lines hold units,
// and what the text of a cell amounts to.
module PlanReading {
  import opened Text
  import opened Plan
  import opened PlanRoundTrip

  // ---- the columns ----------------------------------------------------------

  /** The header spellings of each field. */
  const PATHS: set<string> := {"unit", "path", "file", "handler", "target"}
  const KINDS: set<string> := {"kind", "type", "layer"}
  const CLASSES: set<string> := {"classification", "class", "decision", "action"}
  const RULES: set<string> := {"rules", "violations", "violated", "violated rules", "findings"}
  const STATUSES: set<string> := {"status", "state", "progress"}
  const COMMITS: set<string> := {"commit", "sha", "link", "commit link"}

  function SpellingsOf(c: Column): set<string> {
    match c
    case PathColumn => PATHS
    case KindColumn => KINDS
    case ClassColumn => CLASSES
    case RulesColumn => RULES
    case StatusColumn => STATUSES
    case CommitColumn => COMMITS
  }

  lemma SpelledSo(key: string, c: Column)
    ensures ColumnOf(key) == Some(c) <==> key in SpellingsOf(c)
  {
  }

  /** The first cell of the header spelled in one of these ways. */
  ghost predicate FirstIn(header: seq<string>, spellings: set<string>, index: Option<nat>) {
    match index
    case Some(k) => k < |header| && HeaderKey(header[k]) in spellings && forall j | 0 <= j < k :: HeaderKey(header[j]) !in spellings
    case None => forall j | 0 <= j < |header| :: HeaderKey(header[j]) !in spellings
  }

  lemma {:induction false} FirstSpelledIs(header: seq<string>, c: Column)
    ensures FirstIn(header, SpellingsOf(c), FirstSpelled(header, c))
    decreases |header|
  {
    hide HeaderKey, ColumnOf, SpellingsOf;
    if header != [] {
      SpelledSo(HeaderKey(header[0]), c);
      FirstSpelledIs(header[1..], c);
      assert forall j | 1 <= j < |header| :: header[j] == header[1..][j - 1];
      if ColumnOf(HeaderKey(header[0])) != Some(c) && FirstSpelled(header[1..], c).Some? {
        var k := FirstSpelled(header[1..], c).value;
        assert header[1..][k] == header[k + 1];
      }
    }
  }

  /** For every header: a field is its first cell with one of the field's spellings; a table without a path is none. */
  lemma ColumnsRead(header: seq<string>)
    ensures match MapColumns(header)
      case None => FirstIn(header, PATHS, None)
      case Some(c) =>
        && FirstIn(header, PATHS, Some(c.path)) && FirstIn(header, KINDS, c.kind) && FirstIn(header, CLASSES, c.classification)
        && FirstIn(header, RULES, c.rules) && FirstIn(header, STATUSES, c.status) && FirstIn(header, COMMITS, c.commit)
  {
    FirstSpelledIs(header, PathColumn);
    FirstSpelledIs(header, KindColumn);
    FirstSpelledIs(header, ClassColumn);
    FirstSpelledIs(header, RulesColumn);
    FirstSpelledIs(header, StatusColumn);
    FirstSpelledIs(header, CommitColumn);
    hide FirstIn, FirstSpelled;
  }

  /** The cell under the first header cell so spelled; empty when there is none. */
  ghost predicate CellUnder(header: seq<string>, cells: seq<string>, spellings: set<string>, text: string) {
    exists index: Option<nat> :: FirstIn(header, spellings, index) && text == if index.Some? && index.value < |cells| then cells[index.value] else ""
  }

  /** For every row of the table, each field of the unit is the cleaned text of its cell. */
  lemma FieldsRead(header: seq<string>, cells: seq<string>, line: nat)
      returns (path: string, kind: string, decision: string, rules: string, status: string, commit: string)
    requires MapColumns(header).Some?
    ensures CellUnder(header, cells, PATHS, path) && CellUnder(header, cells, KINDS, kind) && CellUnder(header, cells, CLASSES, decision)
    ensures CellUnder(header, cells, RULES, rules) && CellUnder(header, cells, STATUSES, status) && CellUnder(header, cells, COMMITS, commit)
    ensures UnitFromRow(cells, MapColumns(header).value, line)
         == if StripMarkup(path) == "" then None
            else Some(Unit(StripMarkup(path), StripMarkup(kind), Classification(decision), SplitRules(rules), StatusOf(status),
                           StripMarkup(commit), line, Table))
  {
    ColumnsRead(header);
    var c := MapColumns(header).value;
    path, kind, decision := CellAt(cells, Some(c.path)), CellAt(cells, c.kind), CellAt(cells, c.classification);
    rules, status, commit := CellAt(cells, c.rules), CellAt(cells, c.status), CellAt(cells, c.commit);
    ReadFields(cells, c, line);
    hide FirstIn, StripMarkup, Classification, SplitRules, StatusOf, MapColumns, UnitFromRow;
  }

  // ---- the text of a row ----------------------------------------------------

  ghost predicate Blank(s: string) { forall k | 0 <= k < |s| :: IsSpace(s[k]) }

  lemma {:induction false} StartTrimmed(before: string, s: string)
    requires Blank(before)
    ensures TrimStart(before + s) == TrimStart(s)
    decreases |before|
  {
    if before == "" {
      assert before + s == s;
    } else {
      assert (before + s)[1..] == before[1..] + s;
      StartTrimmed(before[1..], s);
    }
  }

  lemma {:induction false} EndTrimmed(s: string, after: string)
    requires Blank(after)
    ensures TrimEnd(s + after) == TrimEnd(s)
    decreases |after|
  {
    if after == "" {
      assert s + after == s;
    } else {
      assert (s + after)[..|s + after| - 1] == s + after[..|after| - 1];
      EndTrimmed(s, after[..|after| - 1]);
    }
  }

  lemma {:induction false} StartIsBlank(s: string) returns (before: string)
    ensures Blank(before) && s == before + TrimStart(s)
    decreases |s|
  {
    before := "";
    if s != "" && IsSpace(s[0]) {
      var more := StartIsBlank(s[1..]);
      before := [s[0]] + more;
    }
  }

  lemma {:induction false} EndIsBlank(s: string) returns (after: string)
    ensures Blank(after) && s == TrimEnd(s) + after
    decreases |s|
  {
    after := "";
    if s != "" && IsSpace(s[|s| - 1]) {
      var more := EndIsBlank(s[..|s| - 1]);
      after := more + [s[|s| - 1]];
    }
  }

  /** The text between the blanks at either end. */
  ghost predicate Between(s: string, before: string, t: string, after: string) {
    s == before + t + after && Blank(before) && Blank(after) && Tight(t)
  }

  lemma {:induction false} AllBlank(s: string)
    requires Blank(s)
    ensures TrimStart(s) == ""
    decreases |s|
  {
    if s != "" { AllBlank(s[1..]); }
  }

  /** Trimming takes the blanks off both ends and nothing else. */
  lemma TrimExactly(s: string, t: string)
    ensures Trim(s) == t <==> exists before, after :: Between(s, before, t, after)
  {
    hide TrimStart, TrimEnd;
    if Trim(s) == t {
      var before := StartIsBlank(s);
      var after := EndIsBlank(TrimStart(s));
      TrimIsTight(s);
      assert s == before + (t + after) == before + t + after;
      assert Between(s, before, t, after);
    }
    if before, after :| Between(s, before, t, after) {
      hide Blank;
      assert s == before + (t + after);
      StartTrimmed(before, t + after);
      if t == "" {
        assert t + after == after;
        AllBlank(after);
        TightIsTrimmed("");
        StartIsTight("");
      } else {
        StartIsTight(t + after);
        EndTrimmed(t, after);
        EndIsTight(t);
      }
    }
  }

  lemma StartIsTight(s: string)
    requires s == "" || !IsSpace(s[0])
    ensures TrimStart(s) == s
  {
  }

  lemma EndIsTight(s: string)
    requires s == "" || !IsSpace(s[|s| - 1])
    ensures TrimEnd(s) == s
  {
  }

  /** A line that is a row: bars around a text on one line, with blanks at most outside them. */
  ghost predicate Barred(line: string, before: string, inner: string, after: string) {
    line == before + ("|" + inner + "|") + after && Blank(before) && Blank(after)
  }

  lemma BarredTrim(line: string, before: string, inner: string, after: string)
    requires Barred(line, before, inner, after)
    ensures Trim(line) == "|" + inner + "|"
  {
    assert Between(line, before, "|" + inner + "|", after);
    TrimExactly(line, "|" + inner + "|");
  }

  lemma TrimmedBars(line: string) returns (before: string, inner: string, after: string)
    requires |Trim(line)| >= 2 && Trim(line)[0] == '|' && Trim(line)[|Trim(line)| - 1] == '|'
    ensures Barred(line, before, inner, after)
  {
    var t := Trim(line);
    hide Trim;
    TrimExactly(line, t);
    before, after :| Between(line, before, t, after);
    inner := t[1..|t| - 1];
    assert t == "|" + inner + "|";
  }

  /** What may stand between the bars of a row, and between those of the row below a header. */
  ghost predicate RowText(inner: string) { forall k | 0 <= k < |inner| :: inner[k] !in "\n\r\U{2028}\U{2029}" }
  ghost predicate RuleText(inner: string) { inner != "" && forall k | 0 <= k < |inner| :: IsSpace(inner[k]) || inner[k] in ":|-" }

  ghost predicate Row(line: string) { exists before, inner, after :: Barred(line, before, inner, after) && RowText(inner) }
  ghost predicate Ruled(line: string) { exists before, inner, after :: Barred(line, before, inner, after) && RuleText(inner) }

  /** What is taken for a row, and what is taken for the row below a header. */
  lemma RowsAre(line: string)
    ensures IsTableRow(line) <==> Row(line)
    ensures IsDelimiterRow(line) <==> Ruled(line)
  {
    hide Trim;
    if IsTableRow(line) || IsDelimiterRow(line) {
      var before, inner, after := TrimmedBars(line);
      BarredTrim(line, before, inner, after);
      assert forall k | 0 <= k < |inner| :: inner[k] == Trim(line)[k + 1];
    }
    if before, inner, after :| Barred(line, before, inner, after) && RowText(inner) { BarredTrim(line, before, inner, after); }
    if before, inner, after :| Barred(line, before, inner, after) && RuleText(inner) { BarredTrim(line, before, inner, after); }
  }

  lemma RowOf(line: string, inner: string)
    requires Trim(line) == "|" + inner + "|"
    ensures SplitRow(line) == TrimAll(Split(inner, '|'))
  {
    hide Trim, Split, TrimAll;
    var t := "|" + inner + "|";
    assert t[1..] == inner + "|" && EndsWith(inner + "|", '|') && (inner + "|")[..|inner|] == inner;
  }

  /** The cells of a row are what its inner bars divide, each without the blanks around it. */
  lemma BarsDivide(line: string, before: string, inner: string, after: string, cells: seq<string>)
    requires Barred(line, before, inner, after) && cells != [] && inner == Join(cells, "|") && forall c | c in cells :: '|' !in c
    ensures |SplitRow(line)| == |cells| && forall k | 0 <= k < |cells| :: SplitRow(line)[k] == Trim(cells[k])
  {
    BarredTrim(line, before, inner, after);
    hide Trim, Split, Join, Barred;
    SplitOfJoin(cells, '|');
    RowOf(line, inner);
  }

  // ---- the lines ------------------------------------------------------------

  /** A row with a path among its cells, and a ruled line below it. */
  ghost predicate Heads(lines: seq<string>, i: nat)
    requires i < |lines|
  {
    Row(lines[i]) && i + 1 < |lines| && Ruled(lines[i + 1])
    && exists k :: 0 <= k < |SplitRow(lines[i])| && HeaderKey(SplitRow(lines[i])[k]) in PATHS
  }

  lemma HeadsIs(lines: seq<string>, i: nat)
    requires i < |lines|
    ensures HeaderAt(lines, i) <==> Heads(lines, i)
  {
    RowsAre(lines[i]);
    if i + 1 < |lines| { RowsAre(lines[i + 1]); }
    ColumnsRead(SplitRow(lines[i]));
    hide IsTableRow, IsDelimiterRow, SplitRow, HeaderKey, MapColumns, Row, Ruled;
  }

  /** Where the plan's table has its header: the first line that can be one. */
  ghost predicate HeaderIs(lines: seq<string>, at: Option<nat>) {
    match at
    case Some(h) => h < |lines| && Heads(lines, h) && forall i | 0 <= i < h :: !Heads(lines, i)
    case None => forall i | 0 <= i < |lines| :: !Heads(lines, i)
  }

  /** The unit on line `i`: a row below the header, or a task anywhere but in the header. */
  ghost function UnitOn(task: string -> Option<Unit>, lines: seq<string>, at: Option<nat>, i: nat): Option<Unit>
    requires i < |lines|
  {
    if at.Some? && (i == at.value || i == at.value + 1) then None
    else if at.Some? && i > at.value + 1 && at.value < |lines| && Row(lines[i]) && !Ruled(lines[i]) then
      match MapColumns(SplitRow(lines[at.value]))
      case Some(c) => UnitFromRow(SplitRow(lines[i]), c, i)
      case None => None
    else
      match task(lines[i])
      case Some(u) => Some(u.(line := i, form := Task))
      case None => None
  }

  /** The units from line `i` on are those on the lines from there. */
  ghost predicate UnitsOn(task: string -> Option<Unit>, lines: seq<string>, at: Option<nat>, i: nat, units: seq<Unit>) {
    && (forall u | u in units :: i <= u.line < |lines| && UnitOn(task, lines, at, u.line) == Some(u))
    && (forall k | i <= k < |lines| && UnitOn(task, lines, at, k).Some? :: UnitOn(task, lines, at, k).value in units)
  }

  lemma UnitOnLine(task: string -> Option<Unit>, lines: seq<string>, at: Option<nat>, i: nat)
    requires i < |lines| && UnitOn(task, lines, at, i).Some?
    ensures UnitOn(task, lines, at, i).value.line == i
  {
  }

  lemma OnRow(task: string -> Option<Unit>, lines: seq<string>, h: nat, i: nat)
    requires h < |lines| && HeaderAt(lines, h) && h + 2 <= i < |lines|
    ensures UnitAt(task, lines[i], i, MapColumns(SplitRow(lines[h]))) == UnitOn(task, lines, Some(h), i)
  {
    RowsAre(lines[i]);
    hide IsTableRow, IsDelimiterRow, MapColumns, SplitRow, UnitFromRow, Row, Ruled;
  }

  lemma OneMoreUnit(task: string -> Option<Unit>, lines: seq<string>, at: Option<nat>, i: nat, more: seq<Unit>)
    requires i < |lines| && UnitsOn(task, lines, at, i + 1, more)
    ensures var u := UnitOn(task, lines, at, i); UnitsOn(task, lines, at, i, (if u.Some? then [u.value] else []) + more)
  {
    hide UnitOn;
    var u := UnitOn(task, lines, at, i);
    var here := if u.Some? then [u.value] else [];
    if u.Some? { UnitOnLine(task, lines, at, i); }
    forall x | x in here + more ensures i <= x.line < |lines| && UnitOn(task, lines, at, x.line) == Some(x) {
      if x in more { assert UnitOn(task, lines, at, x.line) == Some(x); }
    }
    forall k | i <= k < |lines| && UnitOn(task, lines, at, k).Some? ensures UnitOn(task, lines, at, k).value in here + more {
      if k > i { assert UnitOn(task, lines, at, k).value in more; }
    }
  }

  lemma {:induction false} UnitsBelow(task: string -> Option<Unit>, lines: seq<string>, h: nat, i: nat)
    requires h < |lines| && HeaderAt(lines, h) && h + 2 <= i
    ensures UnitsOn(task, lines, Some(h), i, UnitsFrom(task, lines, i, MapColumns(SplitRow(lines[h]))))
    decreases |lines| - i
  {
    hide IsTableRow, IsDelimiterRow, SplitRow, UnitFromRow, UnitsFrom, UnitOn, UnitAt;
    var columns := MapColumns(SplitRow(lines[h]));
    if i >= |lines| {
      ParseEnd(task, lines, i, columns);
    } else {
      assert columns.Some?;
      hide MapColumns, HeaderAt, UnitsOn;
      ParseLine(task, lines, i, columns);
      UnitsBelow(task, lines, h, i + 1);
      OnRow(task, lines, h, i);
      OneMoreUnit(task, lines, Some(h), i, UnitsFrom(task, lines, i + 1, columns));
    }
  }

  lemma {:induction false} UnitsAbove(task: string -> Option<Unit>, lines: seq<string>, at: Option<nat>, i: nat)
    requires HeaderIs(lines, at) && (at.Some? ==> i <= at.value)
    ensures UnitsOn(task, lines, at, i, UnitsFrom(task, lines, i, None))
    decreases |lines| - i
  {
    hide IsTableRow, IsDelimiterRow, MapColumns, SplitRow, UnitFromRow, UnitsFrom, HeaderAt, Heads, Row, Ruled;
    if i >= |lines| {
      ParseEnd(task, lines, i, None);
    } else if at == Some(i) {
      HeadsIs(lines, i);
      ParseHeader(task, lines, i);
      UnitsBelow(task, lines, i, i + 2);
    } else {
      HeadsIs(lines, i);
      ParseLine(task, lines, i, None);
      UnitsAbove(task, lines, at, i + 1);
      assert UnitAt(task, lines[i], i, None) == UnitOn(task, lines, at, i);
      hide UnitAt;
      hide UnitOn;
      OneMoreUnit(task, lines, at, i, UnitsFrom(task, lines, i + 1, None));
    }
  }

  lemma {:induction false} FindHeader(lines: seq<string>, i: nat) returns (at: Option<nat>)
    requires i <= |lines| && forall k | 0 <= k < i :: !Heads(lines, k)
    ensures HeaderIs(lines, at)
    ensures ColumnsFrom(lines, i, None) == if at.Some? then MapColumns(SplitRow(lines[at.value])) else None
    decreases |lines| - i
  {
    hide MapColumns, SplitRow, HeaderAt, Heads;
    if i < |lines| { HeadsIs(lines, i); }
    if i == |lines| {
      at := None;
    } else if HeaderAt(lines, i) {
      at := Some(i);
      HeaderSettles(lines, i);
    } else {
      at := FindHeader(lines, i + 1);
    }
  }

  /**
   * The parse of any text: the columns are those of the first header, and the units
   * are exactly those on their lines, in document order.
   */
  lemma UnitsAreOnTheirLines(task: string -> Option<Unit>, text: string) returns (at: Option<nat>)
    ensures var plan := ParseOf(task, text);
      && HeaderIs(plan.lines, at)
      && plan.columns == (if at.Some? then MapColumns(SplitRow(plan.lines[at.value])) else None)
      && UnitsOn(task, plan.lines, at, 0, plan.units) && Slotted(plan.units, 0, |plan.lines|)
      && Join(plan.lines, "\n") == FoldCrLf(text) && (forall l | l in plan.lines :: '\n' !in l)
      && (plan.eol == "\r\n" <==> exists k :: 0 <= k < |text| - 1 && text[k] == '\r' && text[k + 1] == '\n') && (plan.eol == "\r\n" || plan.eol == "\n")
  {
    hide MapColumns, SplitRow, UnitsFrom, UnitsOn, Slotted, ColumnsFrom, HeaderIs, Heads, Split, FoldCrLf, Join;
    var lines := SplitLines(text);
    at := FindHeader(lines, 0);
    assert HeaderIs(lines, at);
    UnitsAbove(task, lines, at, 0);
    UnitsAreSlotted(task, lines, 0, None);
    JoinOfSplit(FoldCrLf(text), '\n');
  }

  // ---- the text of a cell ---------------------------------------------------

  lemma {:induction false} IndexFound(s: string, c: char, k: nat)
    requires k < |s| && s[k] == c && c !in s[..k]
    ensures IndexOf(s, c) == Some(k)
    decreases |s|
  {
    if k > 0 {
      assert s[..k][0] == s[0] && s[1..][..k - 1] == s[..k][1..];
      IndexFound(s[1..], c, k - 1);
    }
  }

  lemma MarkupOne(c: char, y: string)
    ensures DropMarkup([c] + y) == (if c in "`*_" then "" else [c]) + DropMarkup(y)
  {
    assert ([c] + y)[1..] == y;
  }

  /** Stars, underscores and back-ticks go, and nothing else. */
  lemma {:induction false} MarkupGoes(x: string, c: char, y: string)
    ensures DropMarkup(x + [c] + y) == DropMarkup(x) + (if c in "`*_" then "" else [c]) + DropMarkup(y)
    decreases |x|
  {
    var s := x + [c] + y;
    if x == "" {
      assert s == [c] + y && DropMarkup("") == "";
      MarkupOne(c, y);
    } else {
      hide DropMarkup;
      var rest := x[1..] + [c] + y;
      assert s == [x[0]] + rest && x == [x[0]] + x[1..];
      MarkupGoes(x[1..], c, y);
      MarkupOne(x[0], rest);
      MarkupOne(x[0], x[1..]);
    }
  }

  ghost predicate LinkIs(s: string, text: string, href: string) {
    s == "[" + text + "](" + href + ")" && ']' !in text && ')' !in href
  }

  lemma IndexIs(s: string, x: string, c: char, y: string)
    requires s == x + [c] + y && c !in x
    ensures IndexOf(s, c) == Some(|x|)
  {
    assert s[|x|] == c && s[..|x|] == x;
    IndexFound(s, c, |x|);
  }

  lemma LinkEnds(s: string, close: nat, end: nat)
    requires StartsWith(s, '[') && IndexOf(s, ']') == Some(close) && close + 1 < |s| && s[close + 1] == '('
    requires IndexOf(s[close + 2..], ')') == Some(end) && end + close + 3 == |s|
    ensures LinkText(s) == Some(if close == 1 then s[close + 2..|s| - 1] else s[1..close])
  {
    hide IndexOf;
  }

  lemma LinkReads(s: string, text: string, href: string)
    requires LinkIs(s, text, href)
    ensures LinkText(s) == Some(if text == "" then href else text)
  {
    hide IndexOf, LinkText;
    var rest := "(" + href + ")";
    var close := |text| + 1;
    assert s == ("[" + text) + [']'] + rest;
    IndexIs(s, "[" + text, ']', rest);
    assert s[close + 2..] == href + [')'] + "";
    IndexIs(s[close + 2..], href, ')', "");
    LinkEnds(s, close, |href|);
    assert s[1..close] == text && s[close + 2..|s| - 1] == href;
  }

  lemma LinkIsWritten(s: string) returns (text: string, href: string)
    requires LinkText(s).Some?
    ensures LinkIs(s, text, href)
  {
    var close := IndexOf(s, ']').value;
    var end := IndexOf(s[close + 2..], ')').value;
    text, href := s[1..close], s[close + 2..|s| - 1];
    hide IndexOf, LinkText;
    LinkParts(s, close);
    assert forall k | 0 <= k < |text| :: text[k] == s[..close][k + 1];
    assert href == s[close + 2..][..end];
  }

  lemma LinkParts(s: string, close: nat)
    requires 0 < close && close + 2 < |s| && s[0] == '[' && s[close] == ']' && s[close + 1] == '(' && s[|s| - 1] == ')'
    ensures s == "[" + s[1..close] + "](" + s[close + 2..|s| - 1] + ")"
  {
    var t, h := s[1..close], s[close + 2..|s| - 1];
    assert s[..close] == "[" + t;
    assert s[close..close + 2] == "](";
    assert s[close + 2..] == h + ")";
    assert s == s[..close] + s[close..close + 2] + s[close + 2..];
  }

  /** Of a link the text is read, or the address when it has none; of any other cell all of it. */
  lemma CellText(cell: string)
    ensures forall text, href | LinkIs(Trim(cell), text, href) :: StripMarkup(cell) == Trim(DropMarkup(if text == "" then href else text))
    ensures (forall text, href :: !LinkIs(Trim(cell), text, href)) ==> StripMarkup(cell) == Trim(DropMarkup(cell))
  {
    hide Trim, DropMarkup, LinkText;
    forall text, href | LinkIs(Trim(cell), text, href)
      ensures StripMarkup(cell) == Trim(DropMarkup(if text == "" then href else text))
    {
      LinkReads(Trim(cell), text, href);
    }
    if LinkText(Trim(cell)).Some? { var text, href := LinkIsWritten(Trim(cell)); }
  }

  lemma SameSpaces(s: string)
    ensures Trim(Lower(s)) == Lower(Trim(s))
  {
    var t := Trim(s);
    TrimExactly(s, t);
    hide Trim;
    var before, after :| Between(s, before, t, after);
    assert Lower(s) == Lower(before) + Lower(t) + Lower(after);
    assert Between(Lower(s), Lower(before), Lower(t), Lower(after));
    TrimExactly(Lower(s), Lower(t));
  }

  lemma {:induction false} SameMarkup(s: string)
    ensures DropMarkup(Lower(s)) == Lower(DropMarkup(s))
    decreases |s|
  {
    if s != "" {
      SameMarkup(s[1..]);
      assert Lower(s)[1..] == Lower(s[1..]);
      hide DropMarkup;
      MarkupOne(s[0], s[1..]);
      MarkupOne(LowerChar(s[0]), Lower(s[1..]));
      assert [s[0]] + s[1..] == s && [LowerChar(s[0])] + Lower(s[1..]) == Lower(s);
      assert Lower(DropMarkup(s)) == (if s[0] in "`*_" then "" else [LowerChar(s[0])]) + Lower(DropMarkup(s[1..]));
    }
  }

  /** A header cell is spelled with its letters in any case, markup anywhere and blanks around it. */
  lemma HeaderSpelling(cell: string, key: string)
    ensures HeaderKey(cell) == key <==> exists before, word, after :: Between(DropMarkup(cell), before, word, after) && Lower(word) == key
  {
    SameMarkup(cell);
    SameSpaces(DropMarkup(cell));
    var bare := DropMarkup(cell);
    hide DropMarkup, Trim, Lower;
    assert HeaderKey(cell) == Lower(Trim(bare));
    TrimExactly(bare, Trim(bare));
    if before, word, after :| Between(bare, before, word, after) && Lower(word) == key { TrimExactly(bare, word); }
  }

  // ---- what a cell stands for -----------------------------------------------

  ghost predicate AllGap(s: string) { forall k | 0 <= k < |s| :: IsSpace(s[k]) || s[k] == '-' }
  ghost predicate NoGap(s: string) { forall k | 0 <= k < |s| :: !IsSpace(s[k]) && s[k] != '-' }

  lemma {:induction false} GapBecomesOne(gap: string, rest: string)
    requires gap != "" && AllGap(gap) && (rest == "" || NoGap(rest[..1]))
    ensures Underscored(gap + rest) == "_" + Underscored(rest)
    decreases |gap|
  {
    assert (gap + rest)[1..] == gap[1..] + rest;
    if |gap| == 1 {
      assert gap[1..] + rest == rest;
      assert rest != "" ==> rest[..1][0] == rest[0];
    } else {
      assert (gap + rest)[1] == gap[1];
      GapBecomesOne(gap[1..], rest);
    }
  }

  /** In a classification each run of blanks and dashes becomes one underscore, and nothing else changes. */
  lemma {:induction false} GapsJoin(word: string, gap: string, rest: string)
    requires NoGap(word) && AllGap(gap) && (rest == "" || NoGap(rest[..1])) && (gap == "" ==> rest == "")
    ensures Underscored(word + gap + rest) == word + (if gap == "" then "" else "_") + Underscored(rest)
    decreases |word|
  {
    var s := word + gap + rest;
    if word == "" {
      assert s == gap + rest;
      if gap != "" { GapBecomesOne(gap, rest); }
    } else {
      assert s[1..] == word[1..] + gap + rest && s[0] == word[0];
      GapsJoin(word[1..], gap, rest);
      assert [word[0]] + word[1..] == word;
    }
  }

  ghost predicate RulePieces(pieces: seq<string>, separators: string) {
    && |pieces| == |separators| + 1 && (forall k | 0 <= k < |separators| :: separators[k] in ",;")
    && forall k | 0 <= k < |pieces| :: ',' !in pieces[k] && ';' !in pieces[k]
  }

  lemma {:induction false} CutAt(p: string, c: char, rest: string)
    requires c in ",;" && ',' !in p && ';' !in p
    ensures CutRules(p + [c] + rest) == [p] + CutRules(rest)
    decreases |p|
  {
    var s := p + [c] + rest;
    if p == "" {
      assert s[1..] == rest;
    } else {
      assert s[1..] == p[1..] + [c] + rest;
      assert p[0] in p;
      CutAt(p[1..], c, rest);
      assert [s[0]] + p[1..] == p;
    }
  }

  lemma {:induction false} SplicedIsCut(pieces: seq<string>, separators: string)
    requires RulePieces(pieces, separators)
    ensures CutRules(Spliced(pieces, separators)) == pieces
    decreases |separators|
  {
    if separators == "" {
      CutNothing(pieces[0]);
    } else {
      SplicedIsCut(pieces[1..], separators[1..]);
      CutAt(pieces[0], separators[0], Spliced(pieces[1..], separators[1..]));
      assert pieces == [pieces[0]] + pieces[1..];
    }
  }

  /** Every text is such pieces, in one way only. */
  lemma {:induction false} EveryTextIsSpliced(s: string) returns (pieces: seq<string>, separators: string)
    ensures RulePieces(pieces, separators) && Spliced(pieces, separators) == s
    decreases |s|
  {
    if s == "" {
      pieces, separators := [""], "";
    } else {
      pieces, separators := EveryTextIsSpliced(s[1..]);
      if s[0] in ",;" {
        pieces, separators := [""] + pieces, [s[0]] + separators;
        assert pieces[1..] + [] == pieces[1..] && separators[1..] + "" == separators[1..];
      } else {
        var was := pieces;
        pieces := [[s[0]] + pieces[0]] + pieces[1..];
        assert pieces[1..] == was[1..];
        assert forall k | 1 <= k < |pieces| :: pieces[k] == was[k];
      }
    }
  }

  predicate NoRule(piece: string) { Trim(piece) == "" || Trim(piece) == "-" || Trim(piece) == "\U{2014}" }

  /** `rules` are the trimmed pieces at the places `at`, in order; what stands elsewhere is no rule. */
  ghost predicate Picked(pieces: seq<string>, at: seq<nat>, rules: seq<string>) {
    && |at| == |rules| && (forall i, j | 0 <= i < j < |at| :: at[i] < at[j])
    && (forall i | 0 <= i < |at| :: at[i] < |pieces| && rules[i] == Trim(pieces[at[i]]))
    && forall k: nat | k < |pieces| :: k in at <==> !NoRule(pieces[k])
  }

  lemma {:induction false} RulesArePicked(pieces: seq<string>) returns (at: seq<nat>)
    ensures Picked(pieces, at, KeepRules(pieces))
    decreases |pieces|
  {
    hide Trim;
    if pieces == [] {
      at := [];
    } else {
      var n := |pieces| - 1;
      at := RulesArePicked(pieces[..n]);
      assert pieces == pieces[..n] + [pieces[n]];
      KeepRulesLast(pieces[..n], pieces[n]);
      if !NoRule(pieces[n]) { at := at + [n]; }
    }
  }

  lemma {:induction false} KeepRulesLast(pieces: seq<string>, last: string)
    ensures KeepRules(pieces + [last]) == KeepRules(pieces) + (if NoRule(last) then [] else [Trim(last)])
    decreases |pieces|
  {
    hide Trim;
    if pieces == [] {
      assert pieces + [last] == [last] && [last][1..] == [];
      assert KeepRules([]) == [];
    } else {
      assert (pieces + [last])[1..] == pieces[1..] + [last];
      KeepRulesLast(pieces[1..], last);
    }
  }

  /** The rules of a cell are its pieces between commas and semicolons, trimmed, without the empty ones and the dashes. */
  lemma RulesRead(cell: string, pieces: seq<string>, separators: string) returns (at: seq<nat>)
    requires RulePieces(pieces, separators) && Spliced(pieces, separators) == StripMarkup(cell)
    ensures Picked(pieces, at, SplitRules(cell))
  {
    SplicedIsCut(pieces, separators);
    at := RulesArePicked(pieces);
    hide StripMarkup, CutRules, KeepRules, Picked, Spliced;
  }

  // ---- a task line ----------------------------------------------------------

  const DASH: string := " \U{2014} "

  /** A field of a task: its name and text behind a dash, when there is something to show. */
  function Labelled(shown: bool, text: string): string { if shown then DASH + text else "" }

  /** A task line: ticked for a migration, then the path, the classification and the fields that hold something. */
  lemma TaskLine(u: Unit)
    ensures RenderTask(u) == "- [" + (if u.classification == "MIGRATE" then "x" else " ") + "] "
      + (u.path + DASH + u.classification
         + Labelled(u.kind != "", "kind: " + u.kind) + Labelled(u.rules != [], "rules: " + Join(u.rules, ", "))
         + Labelled(u.status != "", "status: " + u.status) + Labelled(u.commit != "", "commit: " + u.commit))
  {
    hide Join, Labelled;
    FieldsJoin(u.path, u.classification, u.kind != "", "kind: " + u.kind, u.rules != [], "rules: " + Join(u.rules, ", "),
               u.status != "", "status: " + u.status, u.commit != "", "commit: " + u.commit);
    hide Part;
  }

  lemma FieldsJoin(x: string, y: string, b1: bool, t1: string, b2: bool, t2: string, b3: bool, t3: string, b4: bool, t4: string)
    ensures Join([x, y] + Part(b1, t1) + Part(b2, t2) + Part(b3, t3) + Part(b4, t4), DASH)
         == x + DASH + y + Labelled(b1, t1) + Labelled(b2, t2) + Labelled(b3, t3) + Labelled(b4, t4)
  {
    hide Join, Labelled, Part, DASH;
    JoinTwo(x, y, DASH);
    JoinMore([x, y], b1, t1);
    JoinMore([x, y] + Part(b1, t1), b2, t2);
    JoinMore([x, y] + Part(b1, t1) + Part(b2, t2), b3, t3);
    JoinMore([x, y] + Part(b1, t1) + Part(b2, t2) + Part(b3, t3), b4, t4);
  }

  lemma JoinTwo(x: string, y: string, sep: string)
    ensures Join([x, y], sep) == x + sep + y
  {
    assert [x, y][1..] == [y];
  }

  lemma {:induction false} JoinMore(parts: seq<string>, shown: bool, text: string)
    requires parts != []
    ensures Join(parts + Part(shown, text), DASH) == Join(parts, DASH) + Labelled(shown, text)
    decreases |parts|
  {
    hide DASH;
    if !shown {
      assert parts + [] == parts;
    } else if |parts| == 1 {
      assert parts + [text] == [parts[0], text];
      JoinTwo(parts[0], text, DASH);
    } else {
      assert (parts + [text])[1..] == parts[1..] + [text];
      JoinMore(parts[1..], shown, text);
    }
  }
}
