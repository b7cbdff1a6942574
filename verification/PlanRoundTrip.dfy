// Reordering a plan and reading it back: the rendered rows are rows, they hold
// the units written into them, and nothing else in the document changed meaning.
module PlanRoundTrip {
  import opened Text
  import opened Plan

  // ---- trimming -------------------------------------------------------------

  lemma {:induction false} TrimStartIs(s: string)
    ensures |TrimStart(s)| <= |s| && TrimStart(s) == s[|s| - |TrimStart(s)|..]
    ensures TrimStart(s) != "" ==> !IsSpace(TrimStart(s)[0])
    decreases |s|
  {
    if s != "" && IsSpace(s[0]) { TrimStartIs(s[1..]); }
  }

  lemma {:induction false} TrimEndIs(s: string)
    ensures |TrimEnd(s)| <= |s| && TrimEnd(s) == s[..|TrimEnd(s)|]
    ensures TrimEnd(s) != "" ==> !IsSpace(TrimEnd(s)[|TrimEnd(s)| - 1])
    decreases |s|
  {
    if s != "" && IsSpace(s[|s| - 1]) { TrimEndIs(s[..|s| - 1]); }
  }

  /** Nothing to trim: empty, or no white space at either end. */
  predicate Tight(s: string) { s == "" || (!IsSpace(s[0]) && !IsSpace(s[|s| - 1])) }

  lemma TrimIsTight(s: string)
    ensures Tight(Trim(s)) && forall c | c in Trim(s) :: c in s
  {
    TrimStartIs(s);
    TrimEndIs(TrimStart(s));
  }

  lemma TightIsTrimmed(s: string)
    requires Tight(s)
    ensures Trim(s) == s
  {
  }

  lemma TrimmedIsTight(s: string)
    requires Trim(s) == s
    ensures Tight(s)
  {
    TrimIsTight(s);
  }

  /** A blank before a tight text is all that is trimmed. */
  lemma TrimOfPadded(s: string, pad: string)
    requires Tight(s) && (pad == "" || pad == " ")
    ensures Trim(pad + s) == s
  {
    TightIsTrimmed(s);
    if pad == "" {
      assert pad + s == s;
    } else {
      assert (pad + s)[1..] == s;
      assert TrimStart(pad + s) == TrimStart(s);
    }
    hide TrimStart, TrimEnd;
  }

  lemma TrimShortens(s: string)
    ensures |Trim(s)| <= |s| && (|Trim(s)| == |s| ==> Trim(s) == s)
  {
    TrimStartIs(s);
    TrimEndIs(TrimStart(s));
  }

  lemma {:induction false} TrimStartBefore(v: string)
    ensures TrimStart(v + " ") == if TrimStart(v) == "" then "" else TrimStart(v) + " "
    decreases |v|
  {
    if v == "" {
      assert v + " " == " " && " "[1..] == "";
    } else if IsSpace(v[0]) {
      assert (v + " ")[1..] == v[1..] + " ";
      TrimStartBefore(v[1..]);
    }
  }

  /** A blank either side of any text makes no difference to what is left of it. */
  lemma TrimPadded(v: string)
    ensures Trim(" " + v + " ") == Trim(v)
  {
    var p := " " + v + " ";
    assert p[0] == ' ' && p[1..] == v + " ";
    TrimStartBefore(v);
    var t := TrimStart(v);
    if t != "" { assert (t + " ")[|t|] == ' ' && (t + " ")[..|t|] == t; }
  }

  // ---- cells the parser leaves alone ----------------------------------------

  /** Nothing to trim, no markup, and not a link. */
  predicate Verbatim(s: string) { Tight(s) && LinkText(s) == None && forall c | c in s :: !Markup(c) }

  lemma {:induction false} DropMarkupIs(s: string)
    ensures |DropMarkup(s)| <= |s| && (|DropMarkup(s)| == |s| ==> DropMarkup(s) == s)
    ensures forall c | c in DropMarkup(s) :: c in s && !Markup(c)
    ensures (forall c | c in s :: !Markup(c)) ==> DropMarkup(s) == s
    decreases |s|
  {
    if s != "" {
      DropMarkupIs(s[1..]);
      assert s == [s[0]] + s[1..];
    }
  }

  lemma LinkShortens(s: string)
    ensures LinkText(s).Some? ==> |LinkText(s).value| < |s| && forall c | c in LinkText(s).value :: c in s
  {
  }

  /** Stripping shortens every cell but the verbatim ones. */
  lemma StripShortens(s: string)
    ensures |StripMarkup(s)| <= |s| && (|StripMarkup(s)| == |s| <==> Verbatim(s))
    ensures Verbatim(s) ==> StripMarkup(s) == s
    ensures Tight(StripMarkup(s)) && forall c | c in StripMarkup(s) :: c in s && !Markup(c)
  {
    var t := LinkText(Trim(s)).GetOr(s);
    TrimShortens(s);
    TrimIsTight(s);
    LinkShortens(Trim(s));
    DropMarkupIs(t);
    TrimShortens(DropMarkup(t));
    TrimIsTight(DropMarkup(t));
    if Verbatim(s) { TightIsTrimmed(s); }
    if |StripMarkup(s)| == |s| { TrimmedIsTight(s); }
    hide Trim, DropMarkup, LinkText;
  }

  /** A text written into a cell is read from it exactly when it is verbatim. */
  lemma CellExactly(s: string)
    ensures StripMarkup(Trim(s)) == s <==> Verbatim(s)
  {
    TrimShortens(s);
    StripShortens(Trim(s));
    if Verbatim(s) { TightIsTrimmed(s); }
    hide Trim, StripMarkup;
  }

  predicate ClassFits(s: string) { s != "" && Verbatim(s) && forall c | c in s :: !Gap(c) && UpperChar(c) == c }

  lemma {:induction false} UnderscoredIs(s: string)
    ensures |Underscored(s)| <= |s| && (s != "" ==> Underscored(s) != "")
    ensures if forall c | c in s :: !Gap(c) then Underscored(s) == s else '_' in Underscored(s)
    ensures forall c | c in Underscored(s) :: c in s || c == '_'
    decreases |s|
  {
    if s != "" {
      UnderscoredIs(s[1..]);
      assert s == [s[0]] + s[1..];
    }
  }

  lemma UpperIs(s: string)
    ensures |Upper(s)| == |s| && (Upper(s) == s <==> forall c | c in s :: UpperChar(c) == c)
  {
    if Upper(s) == s {
      forall c | c in s ensures UpperChar(c) == c { var k :| 0 <= k < |s| && s[k] == c; }
    } else {
      var k :| 0 <= k < |s| && Upper(s)[k] != s[k];
      assert s[k] in s;
    }
  }

  lemma LowerIs(s: string)
    ensures |Lower(s)| == |s| && (Lower(s) == s <==> forall c | c in s :: LowerChar(c) == c)
  {
    if Lower(s) == s {
      forall c | c in s ensures LowerChar(c) == c { var k :| 0 <= k < |s| && s[k] == c; }
    } else {
      var k :| 0 <= k < |s| && Lower(s)[k] != s[k];
      assert s[k] in s;
    }
  }

  lemma NoClassReadsMigrate(s: string)
    requires StripMarkup(Trim(s)) == ""
    ensures Classification(Trim(s)) == "MIGRATE" && s != "MIGRATE"
  {
    assert Upper("") == "" && Underscored("") == "";
    if s == "MIGRATE" {
      assert Verbatim(s);
      CellExactly(s);
    }
  }

  /** A classification is read as written exactly when it is verbatim, in capitals and without blanks or dashes. */
  lemma ClassExactly(s: string)
    ensures Classification(Trim(s)) == s <==> ClassFits(s)
  {
    var t := StripMarkup(Trim(s));
    CellExactly(s);
    if t == "" {
      NoClassReadsMigrate(s);
    } else {
      TrimShortens(s);
      StripShortens(Trim(s));
      UpperIs(t);
      UnderscoredIs(Upper(t));
      hide Trim, StripMarkup, Underscored, Upper;
      if ClassFits(s) {
        assert t == s && Upper(t) == s;
      }
      if Classification(Trim(s)) == s {
        assert |t| == |Trim(s)| == |s|;
        assert t == s && '_' !in s;
        assert Upper(t) == s;
      }
    }
  }

  predicate StatusFits(s: string) { s != "" && Verbatim(s) && forall c | c in s :: LowerChar(c) == c }

  /** The status a cell stands for. */
  function StatusOf(cell: string): string {
    var status := Lower(StripMarkup(cell));
    if status == "" then "pending" else status
  }

  /** A status is read as written exactly when it is verbatim and in small letters. */
  lemma StatusExactly(s: string)
    ensures StatusOf(Trim(s)) == s <==> StatusFits(s)
  {
    var t := StripMarkup(Trim(s));
    CellExactly(s);
    TrimShortens(s);
    StripShortens(Trim(s));
    LowerIs(t);
    if s == "pending" { assert Verbatim(s); }
    hide Trim, StripMarkup, Lower;
  }

  predicate RuleFits(s: string) {
    s != "" && Tight(s) && s != "-" && s != "\U{2014}" && forall c | c in s :: c != ',' && c != ';' && !Markup(c)
  }

  /** Rules that survive being joined into a cell, which must not look like a link. */
  ghost predicate RulesFit(rules: seq<string>) {
    (forall r | r in rules :: RuleFits(r)) && LinkText(Join(rules, ", ")) == None
  }

  lemma {:induction false} CutAfter(p: string, rest: string)
    requires forall c | c in p :: c != ',' && c != ';'
    ensures CutRules(p + "," + rest) == [p] + CutRules(rest)
    decreases |p|
  {
    var s := p + "," + rest;
    if p == "" {
      assert s[1..] == rest;
    } else {
      assert s[1..] == p[1..] + "," + rest;
      assert p[0] in p && forall c | c in p[1..] :: c in p;
      CutAfter(p[1..], rest);
      assert [s[0]] + p[1..] == p;
    }
  }

  lemma {:induction false} CutNothing(p: string)
    requires forall c | c in p :: c != ',' && c != ';'
    ensures CutRules(p) == [p]
    decreases |p|
  {
    if p != "" {
      assert p[0] in p && forall c | c in p[1..] :: c in p;
      CutNothing(p[1..]);
      assert [p[0]] + p[1..] == p;
    }
  }

  lemma OneRule(r: string, pad: string, more: seq<string>)
    requires RuleFits(r) && (pad == "" || pad == " ")
    ensures KeepRules([pad + r] + more) == [r] + KeepRules(more)
    ensures forall c | c in pad + r :: c != ',' && c != ';'
  {
    TrimOfPadded(r, pad);
    assert ([pad + r] + more)[1..] == more;
    assert forall c | c in pad + r :: c in r || c == ' ';
  }

  lemma {:induction false} RulesCut(rules: seq<string>, pad: string)
    requires rules != [] && (pad == "" || pad == " ") && forall r | r in rules :: RuleFits(r)
    ensures KeepRules(CutRules(pad + Join(rules, ", "))) == rules
    decreases |rules|
  {
    hide RuleFits, KeepRules, CutRules;
    var r := rules[0];
    assert r in rules;
    assert rules == [r] + rules[1..];
    if |rules| == 1 {
      OneRule(r, pad, []);
      CutNothing(pad + r);
      assert [pad + r] + [] == [pad + r];
      NoRules();
    } else {
      var more := " " + Join(rules[1..], ", ");
      OneRule(r, pad, CutRules(more));
      assert pad + Join(rules, ", ") == (pad + r) + "," + more;
      CutAfter(pad + r, more);
      assert forall x | x in rules[1..] :: x in rules;
      RulesCut(rules[1..], " ");
    }
  }

  lemma NoRules()
    ensures KeepRules([]) == []
  {
  }

  lemma {:induction false} RulesCellIsTight(rules: seq<string>)
    requires forall r | r in rules :: RuleFits(r)
    ensures var cell := Join(rules, ", ");
      Tight(cell) && (rules != [] ==> cell != "") && forall c | c in cell :: !Markup(c)
    decreases |rules|
  {
    if rules != [] {
      var r := rules[0];
      assert r in rules;
      if |rules| > 1 {
        assert forall x | x in rules[1..] :: x in rules;
        RulesCellIsTight(rules[1..]);
        var cell, rest := Join(rules, ", "), Join(rules[1..], ", ");
        assert cell == r + ", " + rest;
        assert cell[0] == r[0] && cell[|cell| - 1] == rest[|rest| - 1];
      }
    }
  }

  lemma NoRulesAtAll()
    ensures SplitRules("") == []
  {
    StripShortens("");
    assert CutRules("") == [""] && [""][1..] == [];
    assert KeepRules([""]) == [] + KeepRules([]);
  }

  lemma FittingRulesSurvive(rules: seq<string>)
    requires RulesFit(rules)
    ensures Verbatim(Join(rules, ", ")) && SplitRules(Trim(Join(rules, ", "))) == rules
  {
    var cell := Join(rules, ", ");
    RulesCellIsTight(rules);
    TightIsTrimmed(cell);
    StripShortens(cell);
    if rules != [] {
      RulesCut(rules, "");
      assert "" + cell == cell;
    } else {
      NoRulesAtAll();
    }
  }

  lemma {:induction false} PiecesCut(s: string)
    ensures forall p, c | p in CutRules(s) && c in p :: c in s && c != ',' && c != ';'
    decreases |s|
  {
    if s != "" { PiecesCut(s[1..]); }
  }

  lemma {:induction false} RulesKept(pieces: seq<string>)
    ensures forall r | r in KeepRules(pieces) ::
      r != "" && Tight(r) && r != "-" && r != "\U{2014}" && exists p :: p in pieces && forall c | c in r :: c in p
    decreases |pieces|
  {
    if pieces != [] {
      RulesKept(pieces[1..]);
      TrimIsTight(pieces[0]);
      var r := Trim(pieces[0]);
      assert pieces[0] in pieces && forall p | p in pieces[1..] :: p in pieces;
      forall x | x in KeepRules(pieces)
        ensures x != "" && Tight(x) && x != "-" && x != "\U{2014}" && exists p :: p in pieces && forall c | c in x :: c in p
      {
        if x in KeepRules(pieces[1..]) {
          var p :| p in pieces[1..] && forall c | c in x :: c in p;
        } else {
          assert x == r;
        }
      }
    }
  }

  /** Whatever is read from a rules cell fits, and is made of what stripping left of it. */
  lemma ReadRulesFit(cell: string)
    ensures forall r | r in SplitRules(cell) :: RuleFits(r) && forall c | c in r :: c in StripMarkup(cell)
  {
    var s := StripMarkup(cell);
    StripShortens(cell);
    PiecesCut(s);
    RulesKept(CutRules(s));
    forall r | r in SplitRules(cell) ensures RuleFits(r) && forall c | c in r :: c in s {
      var p :| p in CutRules(s) && forall c | c in r :: c in p;
    }
    hide StripMarkup, CutRules, KeepRules;
  }

  /** Every character of a joined text is in the separator or in a piece. */
  lemma {:induction false} CharsOfJoin(parts: seq<string>, sep: string)
    ensures forall c | c in Join(parts, sep) :: c in sep || exists p :: p in parts && c in p
    ensures forall p, c | p in parts && c in p :: c in Join(parts, sep)
    decreases |parts|
  {
    if |parts| > 0 {
      var first := parts[0];
      CharsOfJoin(parts[1..], sep);
      assert parts == [first] + parts[1..];
      if |parts| > 1 {
        assert Join(parts, sep) == first + sep + Join(parts[1..], sep);
      }
    }
  }

  /** A link loses a bracket that its text had outside. */
  lemma LinkLosesOne(s: string) returns (c: char)
    requires LinkText(s).Some?
    ensures c in s && c !in LinkText(s).value && (c == ']' || c == ')')
  {
    var close := IndexOf(s, ']').value;
    if close == 1 {
      c := ')';
      var end := IndexOf(s[close + 2..], ')').value;
      assert s[|s| - 1] == s[close + 2..][end];
      assert s[close + 2..][..end] == s[close + 2..|s| - 1];
    } else {
      c := ']';
      assert forall x | x in s[1..close] :: x in s[..close];
    }
  }

  /** What is left of a link's cell is in its text. */
  lemma StripOfLink(cell: string)
    requires Tight(cell) && LinkText(cell).Some?
    ensures forall c | c in StripMarkup(cell) :: c in LinkText(cell).value
  {
    TightIsTrimmed(cell);
    var t := LinkText(cell).value;
    DropMarkupIs(t);
    TrimIsTight(DropMarkup(t));
    hide Trim, DropMarkup, LinkText, Tight;
  }

  lemma RulesAreNoLink(rules: seq<string>)
    requires SplitRules(Trim(Join(rules, ", "))) == rules && forall r | r in rules :: RuleFits(r)
    ensures LinkText(Join(rules, ", ")) == None
  {
    var cell := Join(rules, ", ");
    hide SplitRules, RuleFits, LinkText, Trim, Join, StripMarkup, Tight;
    RulesCellIsTight(rules);
    TightIsTrimmed(cell);
    if LinkText(cell).Some? {
      var c := LinkLosesOne(cell);
      CharsOfJoin(rules, ", ");
      assert exists r :: r in rules && c in r by { NotInSeparator(c); }
      ReadRulesFit(cell);
      StripOfLink(cell);
    }
  }

  lemma NotInSeparator(c: char)
    requires c == ']' || c == ')'
    ensures c !in ", "
  {
  }

  /** Rules joined into a cell are read from it exactly when each fits and the cell is no link. */
  lemma RulesExactly(rules: seq<string>)
    ensures SplitRules(Trim(Join(rules, ", "))) == rules <==> RulesFit(rules)
  {
    if SplitRules(Trim(Join(rules, ", "))) == rules {
      ReadRulesFit(Trim(Join(rules, ", ")));
      RulesAreNoLink(rules);
    }
    if RulesFit(rules) { FittingRulesSurvive(rules); }
    hide SplitRules, Join, Trim, LinkText, RuleFits;
  }

  // ---- one row --------------------------------------------------------------

  /** Text that stays within its cell and its line. */
  predicate Clean(s: string) { forall c | c in s :: c != '|' && !LineEnd(c) }

  /** What a unit writes into its row is clean. */
  ghost predicate OwnClean(u: Unit, c: Columns) {
    && Clean(u.path) && (c.kind.Some? ==> Clean(u.kind)) && (c.classification.Some? ==> Clean(u.classification))
    && (c.rules.Some? ==> Clean(Join(u.rules, ", ")))
    && (c.status.Some? ==> Clean(u.status)) && (c.commit.Some? ==> Clean(u.commit))
  }

  /** What a unit writes is read as written, and what it cannot write is what an absent cell stands for. */
  ghost predicate FieldsFit(u: Unit, c: Columns) {
    && u.form == Table
    && Verbatim(u.path) && u.path != ""
    && (if c.kind.Some? then Verbatim(u.kind) else u.kind == "")
    && (if c.classification.Some? then ClassFits(u.classification) else u.classification == "MIGRATE")
    && (if c.rules.Some? then RulesFit(u.rules) else u.rules == [])
    && (if c.status.Some? then StatusFits(u.status) else u.status == "pending")
    && (if c.commit.Some? then Verbatim(u.commit) else u.commit == "")
  }

  /** Some cell has a character that no delimiter row has. */
  ghost predicate Lettered(cells: seq<string>) { exists k :: 0 <= k < |cells| && exists c :: c in cells[k] && !Rule(c) }

  /** The row a unit makes of a line of the table is read as that unit. */
  ghost predicate RowFits(u: Unit, c: Columns, template: string) {
    FieldsFit(u, c) && OwnClean(u, c) && Lettered(RowCells(u, c, template))
  }

  lemma {:induction false} PiecesOf(s: string, sep: char)
    ensures forall p, c | p in Split(s, sep) && c in p :: c in s && c != sep
    decreases |s|
  {
    if s != "" { PiecesOf(s[1..], sep); }
  }

  /** Cells as `SplitRow` gives them for a row: clean and trimmed. */
  lemma SplitRowCells(line: string)
    requires IsTableRow(line)
    ensures forall cell | cell in SplitRow(line) :: Clean(cell) && Tight(cell)
  {
    var t := Trim(line);
    var a := t[1..];
    var b := if EndsWith(a, '|') then a[..|a| - 1] else a;
    PiecesOf(b, '|');
    var pieces := Split(b, '|');
    forall k | 0 <= k < |pieces| ensures Clean(Trim(pieces[k])) && Tight(Trim(pieces[k])) {
      TrimIsTight(pieces[k]);
      forall c | c in Trim(pieces[k]) ensures c != '|' && !LineEnd(c) {
        assert pieces[k] in pieces && c in pieces[k] && c in b && c in t;
        var j :| 0 <= j < |t| && t[j] == c;
      }
    }
  }

  lemma PutKeeps(out: seq<string>, index: Option<nat>, value: string)
    requires (forall k | 0 <= k < |out| :: Clean(out[k])) && (index.Some? ==> Clean(value))
    ensures forall k | 0 <= k < |out| :: Clean(Put(out, index, value)[k])
  {
  }

  lemma RowCellsAreClean(u: Unit, c: Columns, template: string)
    requires OwnClean(u, c) && IsTableRow(template)
    ensures forall k | 0 <= k < |RowCells(u, c, template)| :: Clean(RowCells(u, c, template)[k])
  {
    SplitRowCells(template);
    var cells := SplitRow(template);
    var w := Width(cells, c);
    forall k | 0 <= k < w ensures Clean(Padded(cells, w)[k]) {
      if k < |cells| { assert cells[k] in cells; }
    }
    hide Clean, SplitRow, Width;
    var o1 := Put(Padded(cells, w), Some(c.path), u.path);
    PutKeeps(Padded(cells, w), Some(c.path), u.path);
    var o2 := Put(o1, c.kind, u.kind);
    PutKeeps(o1, c.kind, u.kind);
    var o3 := Put(o2, c.classification, u.classification);
    PutKeeps(o2, c.classification, u.classification);
    var o4 := Put(o3, c.rules, Join(u.rules, ", "));
    PutKeeps(o3, c.rules, Join(u.rules, ", "));
    var o5 := Put(o4, c.status, u.status);
    PutKeeps(o4, c.status, u.status);
    PutKeeps(o5, c.commit, u.commit);
  }

  lemma StripIsClean(s: string)
    requires Clean(s)
    ensures Clean(StripMarkup(s))
  {
    StripShortens(s);
  }

  lemma ClassIsClean(s: string)
    requires Clean(s)
    ensures Clean(Classification(s))
  {
    StripIsClean(s);
    var t := StripMarkup(s);
    UnderscoredIs(Upper(t));
    forall c | c in Upper(t) ensures c != '|' && !LineEnd(c) {
      var k :| 0 <= k < |t| && Upper(t)[k] == c;
      assert t[k] in t;
    }
    hide StripMarkup, Underscored, Upper;
  }

  lemma StatusIsClean(s: string)
    requires Clean(s)
    ensures Clean(StatusOf(s))
  {
    StripIsClean(s);
    var t := StripMarkup(s);
    forall c | c in Lower(t) ensures c != '|' && !LineEnd(c) {
      var k :| 0 <= k < |t| && Lower(t)[k] == c;
      assert t[k] in t;
    }
  }

  lemma RulesAreClean(s: string)
    requires Clean(s)
    ensures Clean(Join(SplitRules(s), ", "))
  {
    StripIsClean(s);
    ReadRulesFit(s);
    CharsOfJoin(SplitRules(s), ", ");
  }

  /** What is read from a row is clean, so a unit that is not never reads back. */
  lemma ReadUnitIsClean(cells: seq<string>, c: Columns, line: nat)
    requires (forall cell | cell in cells :: Clean(cell)) && UnitFromRow(cells, c, line).Some?
    ensures OwnClean(UnitFromRow(cells, c, line).value, c)
  {
    assert forall index :: Clean(CellAt(cells, index));
    StripIsClean(CellAt(cells, Some(c.path)));
    StripIsClean(CellAt(cells, c.kind));
    ClassIsClean(CellAt(cells, c.classification));
    RulesAreClean(CellAt(cells, c.rules));
    StatusIsClean(CellAt(cells, c.status));
    StripIsClean(CellAt(cells, c.commit));
    hide Clean, StripMarkup, Classification, SplitRules, Lower;
  }

  lemma CellsOfColumns(u: Unit, c: Columns, template: string)
    requires Apart(c)
    ensures var r := RowCells(u, c, template);
      && CellAt(r, Some(c.path)) == u.path
      && CellAt(r, c.kind) == (if c.kind.Some? then u.kind else "")
      && CellAt(r, c.classification) == (if c.classification.Some? then u.classification else "")
      && CellAt(r, c.rules) == (if c.rules.Some? then Join(u.rules, ", ") else "")
      && CellAt(r, c.status) == (if c.status.Some? then u.status else "")
      && CellAt(r, c.commit) == (if c.commit.Some? then u.commit else "")
  {
    ApartPairs(c);
    hide SplitRow, Apart, Join;
  }

  lemma ApartPairs(c: Columns)
    requires Apart(c)
    ensures Some(c.path) != c.kind && Some(c.path) != c.classification && Some(c.path) != c.rules
         && Some(c.path) != c.status && Some(c.path) != c.commit
    ensures c.kind.Some? ==> c.kind != c.classification && c.kind != c.rules && c.kind != c.status && c.kind != c.commit
    ensures c.classification.Some? ==> c.classification != c.rules && c.classification != c.status && c.classification != c.commit
    ensures c.rules.Some? ==> c.rules != c.status && c.rules != c.commit
    ensures c.status.Some? ==> c.status != c.commit
  {
    var all := [Some(c.path), c.kind, c.classification, c.rules, c.status, c.commit];
    assert all[0] == Some(c.path) && all[1] == c.kind && all[2] == c.classification
        && all[3] == c.rules && all[4] == c.status && all[5] == c.commit;
  }

  lemma TrimmedCell(cells: seq<string>, index: Option<nat>)
    ensures CellAt(TrimAll(cells), index) == Trim(CellAt(cells, index))
  {
  }

  /** Reading the cells a unit was written into gives the unit, exactly when its fields fit. */
  lemma UnitOfCells(u: Unit, c: Columns, template: string, line: nat)
    requires Apart(c) && u.form == Table
    ensures UnitFromRow(TrimAll(RowCells(u, c, template)), c, line) == Some(u.(line := line)) <==> FieldsFit(u, c)
  {
    hide RowCells, TrimAll, Trim, Verbatim, ClassFits, StatusFits, RulesFit, StripMarkup, Classification, SplitRules, StatusOf, Apart, UnitFromRow, CellAt, Join;
    var cells := RowCells(u, c, template);
    CellsOfColumns(u, c, template);
    TrimmedCell(cells, Some(c.path));
    TrimmedCell(cells, c.kind);
    TrimmedCell(cells, c.classification);
    TrimmedCell(cells, c.rules);
    TrimmedCell(cells, c.status);
    TrimmedCell(cells, c.commit);
    CellExactly(u.path);
    CellExactly(u.kind);
    ClassExactly(u.classification);
    RulesExactly(u.rules);
    StatusExactly(u.status);
    CellExactly(u.commit);
    AbsentCell();
    ReadFields(TrimAll(cells), c, line);
  }

  lemma ReadFields(cells: seq<string>, c: Columns, line: nat)
    ensures UnitFromRow(cells, c, line)
         == var path := StripMarkup(CellAt(cells, Some(c.path)));
            if path == "" then None
            else Some(Unit(path, StripMarkup(CellAt(cells, c.kind)), Classification(CellAt(cells, c.classification)),
                           SplitRules(CellAt(cells, c.rules)), StatusOf(CellAt(cells, c.status)),
                           StripMarkup(CellAt(cells, c.commit)), line, Table))
  {
  }

  lemma AbsentCell()
    ensures Trim("") == "" && StripMarkup("") == "" && Classification("") == "MIGRATE" && SplitRules("") == [] && StatusOf("") == "pending"
  {
    StripShortens("");
    NoRulesAtAll();
    assert Upper("") == "" && Underscored("") == "" && Lower("") == "";
  }

  // ---- the row as text ------------------------------------------------------

  lemma TrimAllCons(p: string, more: seq<string>)
    ensures TrimAll([p] + more) == [Trim(p)] + TrimAll(more)
  {
  }

  lemma JoinCons(cells: seq<string>)
    requires |cells| > 1
    ensures " " + Join(cells, " | ") + " " == (" " + cells[0] + " ") + ['|'] + (" " + Join(cells[1..], " | ") + " ")
  {
  }

  lemma OneCell(v: string)
    requires Clean(v)
    ensures '|' !in " " + v + " " && Trim(" " + v + " ") == Trim(v)
    ensures TrimAll(Split(" " + Join([v], " | ") + " ", '|')) == [Trim(v)]
  {
    TrimPadded(v);
    assert '|' !in " " + v + " ";
    SplitNone(" " + v + " ", '|');
  }

  lemma {:induction false} SplitPadded(cells: seq<string>)
    requires cells != [] && forall k | 0 <= k < |cells| :: Clean(cells[k])
    ensures TrimAll(Split(" " + Join(cells, " | ") + " ", '|')) == TrimAll(cells)
    decreases |cells|
  {
    hide Trim, TrimAll, Split, Join, Clean;
    var v := cells[0];
    OneCell(v);
    assert cells == [v] + cells[1..];
    TrimAllCons(v, cells[1..]);
    if |cells| == 1 {
      assert cells == [v];
      TrimAllCons(v, []);
      TrimNone();
      assert [v] + [] == [v];
    } else {
      var p, rest := " " + v + " ", " " + Join(cells[1..], " | ") + " ";
      SplitPadded(cells[1..]);
      JoinCons(cells);
      SplitHead(p, rest, '|');
      TrimAllCons(p, Split(rest, '|'));
    }
  }

  lemma TrimNone()
    ensures TrimAll([]) == []
  {
  }

  lemma JoinOfClean(cells: seq<string>)
    requires forall k | 0 <= k < |cells| :: Clean(cells[k])
    ensures forall c | c in Join(cells, " | ") :: !LineEnd(c)
  {
    CharsOfJoin(cells, " | ");
  }

  lemma BarredRow(inner: string)
    requires forall c | c in inner :: !LineEnd(c)
    ensures var row := "|" + inner + "|";
      Trim(row) == row && IsTableRow(row) && SplitRow(row) == TrimAll(Split(inner, '|'))
  {
    var row := "|" + inner + "|";
    TightIsTrimmed(row);
    hide Trim, TrimAll, Split;
    assert forall k | 0 <= k < |row| :: row[k] == '|' || row[k] in inner;
    assert row[1..] == inner + "|" && EndsWith(inner + "|", '|');
    assert (inner + "|")[..|inner|] == inner;
  }

  lemma PaddedText(joined: string)
    requires forall c | c in joined :: !LineEnd(c)
    ensures forall c | c in " " + joined + " " :: !LineEnd(c)
    ensures "| " + joined + " |" == "|" + (" " + joined + " ") + "|"
  {
  }

  lemma RowTextIs(cells: seq<string>)
    requires cells != [] && forall k | 0 <= k < |cells| :: Clean(cells[k])
    ensures var row := "| " + Join(cells, " | ") + " |";
      IsTableRow(row) && SplitRow(row) == TrimAll(cells) && Trim(row) == row
  {
    hide IsTableRow, SplitRow, Trim, Clean, TrimAll, Split, Join, LineEnd;
    JoinOfClean(cells);
    SplitPadded(cells);
    PaddedText(Join(cells, " | "));
    BarredRow(" " + Join(cells, " | ") + " ");
  }

  /** Only a row without a letter in any cell can be taken for a delimiter. */
  lemma DelimiterExactly(cells: seq<string>)
    requires cells != []
    requires var row := "| " + Join(cells, " | ") + " |"; Trim(row) == row
    ensures IsDelimiterRow("| " + Join(cells, " | ") + " |") <==> !Lettered(cells)
  {
    var inner := Join(cells, " | ");
    var row := "| " + inner + " |";
    CharsOfJoin(cells, " | ");
    if Lettered(cells) {
      var k, c :| 0 <= k < |cells| && c in cells[k] && !Rule(c);
      assert c in inner;
      var i :| 0 <= i < |inner| && inner[i] == c;
      assert row[i + 2] == c;
    } else {
      forall i | 0 <= i < |row| ensures Rule(row[i]) {
        if 2 <= i < |inner| + 2 {
          assert row[i] == inner[i - 2] && inner[i - 2] in inner;
          if inner[i - 2] !in " | " {
            var p :| p in cells && inner[i - 2] in p;
            var k :| 0 <= k < |cells| && cells[k] == p;
          }
        }
      }
    }
    hide Join, Trim;
  }

  /** The line is a row of the table and holds the unit. */
  ghost predicate Holds(row: string, u: Unit, c: Columns, line: nat) {
    IsTableRow(row) && !IsDelimiterRow(row) && UnitFromRow(SplitRow(row), c, line) == Some(u.(line := line))
  }

  /** A unit's row reads back as the unit if and only if its fields fit, stay in their cells and leave a letter. */
  lemma RowRoundTrip(u: Unit, c: Columns, template: string, line: nat)
    requires Apart(c) && IsTableRow(template) && u.form == Table
    ensures Holds(RenderRow(u, c, template), u, c, line) <==> RowFits(u, c, template)
  {
    var cells, row := RowCells(u, c, template), RenderRow(u, c, template);
    if Holds(row, u, c, line) {
      SplitRowCells(row);
      ReadUnitIsClean(SplitRow(row), c, line);
      assert OwnClean(u, c);
    }
    if OwnClean(u, c) {
      RowCellsAreClean(u, c, template);
      RowTextIs(cells);
      DelimiterExactly(cells);
      UnitOfCells(u, c, template, line);
    }
    hide RowCells, IsTableRow, IsDelimiterRow, SplitRow, UnitFromRow, FieldsFit, OwnClean, Lettered;
  }

  // ---- one of the four classifications --------------------------------------

  lemma {:induction false} DropMarkupOfConcat(x: string, y: string)
    ensures DropMarkup(x + y) == DropMarkup(x) + DropMarkup(y)
    decreases |x|
  {
    if x == "" {
      assert x + y == y;
    } else {
      assert (x + y)[1..] == x[1..] + y;
      DropMarkupOfConcat(x[1..], y);
    }
  }

  predicate Capitals(s: string) { s != "" && forall c | c in s :: 'A' <= c <= 'Z' }

  lemma CapitalsAre(s: string)
    requires Capitals(s)
    ensures Tight(s) && s[0] != '[' && forall c | c in s :: !Markup(c) && !Gap(c) && UpperChar(c) == c
  {
    assert s[0] in s && s[|s| - 1] in s;
  }

  lemma CapitalsRead(s: string)
    requires Capitals(s)
    ensures Tight(s) && DropMarkup(s) == s && Underscored(Upper(s)) == s
  {
    CapitalsAre(s);
    hide Capitals, Tight, Markup, Gap, UpperChar, DropMarkup, Underscored, Upper;
    DropMarkupIs(s);
    UpperIs(s);
    UnderscoredIs(s);
  }

  lemma UnderscoreDropped(x: string, y: string)
    requires Capitals(x) && Capitals(y)
    ensures StripMarkup(x + "_" + y) == x + y && Capitals(x + y)
  {
    var cell := x + "_" + y;
    CapitalsRead(x);
    CapitalsRead(y);
    DropMarkupOfConcat(x + "_", y);
    DropMarkupOfConcat(x, "_");
    assert DropMarkup("_") == "" by { assert "_"[1..] == ""; }
    assert x + "" == x;
    assert cell[0] in x && cell[|cell| - 1] in y;
    TightIsTrimmed(cell);
    CapitalsRead(x + y);
    TightIsTrimmed(x + y);
    hide Trim, DropMarkup;
  }

  /** An underscore within a classification does not survive. */
  lemma UnderscoreIsLost(x: string, y: string)
    requires Capitals(x) && Capitals(y)
    ensures Classification(x + "_" + y) == x + y && Trim(x + "_" + y) == x + "_" + y
  {
    UnderscoreDropped(x, y);
    CapitalsRead(x + y);
    var cell := x + "_" + y;
    assert cell[0] in x && cell[|cell| - 1] in y;
    TightIsTrimmed(cell);
    hide Trim, StripMarkup, Underscored, Upper;
  }

  lemma AlreadyMigratedReads()
    ensures Classification("ALREADY_MIGRATED") == "ALREADYMIGRATED" && Trim("ALREADY_MIGRATED") == "ALREADY_MIGRATED"
  {
    hide Classification, Trim;
    var x, y := "ALREADY", "MIGRATED";
    assert x + "_" + y == "ALREADY_MIGRATED";
    assert x + y == "ALREADYMIGRATED";
    UnderscoreIsLost(x, y);
  }

  lemma AlreadyMigratedHasMarkup(u: Unit, c: Columns, template: string)
    requires c.classification.Some? && u.classification == "ALREADY_MIGRATED"
    ensures !RowFits(u, c, template) && Clean(u.classification)
  {
    UnderscoreIsMarkup();
    hide Lettered, OwnClean, Verbatim, StatusFits, RulesFit, Clean;
  }

  lemma UnderscoreIsMarkup()
    ensures !ClassFits("ALREADY_MIGRATED") && Clean("ALREADY_MIGRATED")
  {
    var s := "ALREADY_MIGRATED";
    assert s[7] == '_' && s[7] in s && Markup('_');
    hide Tight, LinkText;
  }

  /** A unit marked as already migrated is read back as something that is no classification. */
  lemma AlreadyMigratedIsLost(u: Unit, c: Columns, template: string, line: nat)
    requires Apart(c) && IsTableRow(template) && c.classification.Some? && u.classification == "ALREADY_MIGRATED"
    requires RowFits(u.(classification := "MIGRATE"), c, template)
    ensures !RowFits(u, c, template)
    ensures UnitFromRow(SplitRow(RenderRow(u, c, template)), c, line) == Some(u.(classification := "ALREADYMIGRATED", line := line))
  {
    var v := u.(classification := "MIGRATE");
    var cells := RowCells(u, c, template);
    AlreadyMigratedHasMarkup(u, c, template);
    assert OwnClean(u, c);
    hide Clean, OwnClean, RowFits, RowCells, SplitRow, UnitFromRow, FieldsFit, Trim, TrimAll, Classification, IsTableRow, Lettered;
    RowCellsAreClean(u, c, template);
    RowTextIs(cells);
    AlreadyMigratedReads();
    assert FieldsFit(v, c) && v.form == Table by { FitsHasFields(v, c, template); }
    UnitOfCells(v, c, template, line);
    SameButClass(u, v, c, template, line);
  }

  lemma FitsHasFields(u: Unit, c: Columns, template: string)
    requires RowFits(u, c, template)
    ensures FieldsFit(u, c) && OwnClean(u, c) && u.form == Table
  {
  }

  lemma SameButClass(u: Unit, v: Unit, c: Columns, template: string, line: nat)
    requires Apart(c) && v == u.(classification := v.classification) && c.classification.Some?
    ensures var x, y := UnitFromRow(TrimAll(RowCells(u, c, template)), c, line), UnitFromRow(TrimAll(RowCells(v, c, template)), c, line);
      y.Some? ==> x == Some(y.value.(classification := Classification(Trim(u.classification))))
  {
    var a, b := RowCells(u, c, template), RowCells(v, c, template);
    CellsOfColumns(u, c, template);
    CellsOfColumns(v, c, template);
    TrimmedCell(a, Some(c.path)); TrimmedCell(b, Some(c.path));
    TrimmedCell(a, c.kind); TrimmedCell(b, c.kind);
    TrimmedCell(a, c.classification);
    TrimmedCell(a, c.rules); TrimmedCell(b, c.rules);
    TrimmedCell(a, c.status); TrimmedCell(b, c.status);
    TrimmedCell(a, c.commit); TrimmedCell(b, c.commit);
    ReadFields(TrimAll(a), c, line);
    ReadFields(TrimAll(b), c, line);
    hide RowCells, TrimAll, Trim, UnitFromRow, StripMarkup, Classification, SplitRules, StatusOf, Apart, CellAt;
  }

  // ---- the document ---------------------------------------------------------

  /** The units in their new order, each on the line of its slot. */
  function Placed(units: seq<Unit>, slots: seq<Unit>): seq<Unit>
    requires |units| == |slots|
  {
    seq(|units|, k requires 0 <= k < |units| => units[k].(line := slots[k].line))
  }

  /** A plan read from lines, all of it in the table. */
  ghost predicate Tabular(task: string -> Option<Unit>, plan: Parsed) {
    && plan.units == UnitsFrom(task, plan.lines, 0, None) && plan.columns == ColumnsFrom(plan.lines, 0, None)
    && plan.columns.Some? && (forall u | u in plan.units :: u.form == Table)
  }

  /** The lines the units stand on, which must exist. */
  ghost predicate AllFit(plan: Parsed, units: seq<Unit>)
    requires plan.columns.Some? && Slots(plan) && |units| == |plan.units|
  {
    forall k | 0 <= k < |units| :: RowFits(units[k], plan.columns.value, plan.lines[plan.units[k].line])
  }

  ghost predicate AllRows(units: seq<Unit>) { forall u | u in units :: u.form == Table }

  lemma {:induction false} ColumnsAreApart(lines: seq<string>, i: nat, columns: Option<Columns>)
    requires columns.Some? ==> Apart(columns.value)
    ensures ColumnsFrom(lines, i, columns).Some? ==> Apart(ColumnsFrom(lines, i, columns).value)
    decreases |lines| - i
  {
    hide MapColumns, SplitRow, HeaderAt, Apart;
    if i < |lines| && columns.None? {
      if HeaderAt(lines, i) {
        MappedColumnsAreApart(SplitRow(lines[i]));
        ColumnsAreApart(lines, i + 2, MapColumns(SplitRow(lines[i])));
      } else {
        ColumnsAreApart(lines, i + 1, columns);
      }
    }
  }

  /** The state of a parse that has reached line `i` with `k` units behind it. */
  ghost predicate Reached(task: string -> Option<Unit>, plan: Parsed, i: nat, k: nat, columns: Option<Columns>) {
    && k <= |plan.units|
    && UnitsFrom(task, plan.lines, i, columns) == plan.units[k..]
    && ColumnsFrom(plan.lines, i, columns) == plan.columns
    && (columns.Some? ==> columns == plan.columns)
    && (forall j | 0 <= j < k :: plan.units[j].line < i)
  }

  lemma PastHeader(task: string -> Option<Unit>, plan: Parsed, i: nat, k: nat)
    requires Reached(task, plan, i, k, None) && i < |plan.lines| && HeaderAt(plan.lines, i)
    ensures Reached(task, plan, i + 2, k, MapColumns(SplitRow(plan.lines[i])))
  {
    hide MapColumns, SplitRow, HeaderAt, UnitsFrom, ColumnsFrom;
    ParseHeader(task, plan.lines, i);
    HeaderSettles(plan.lines, i);
  }

  lemma PastUnit(task: string -> Option<Unit>, plan: Parsed, i: nat, k: nat, columns: Option<Columns>)
    requires Reached(task, plan, i, k, columns) && i < |plan.lines| && !(columns.None? && HeaderAt(plan.lines, i))
    requires UnitAt(task, plan.lines[i], i, columns).Some?
    ensures k < |plan.units| && UnitAt(task, plan.lines[i], i, columns) == Some(plan.units[k]) && plan.units[k].line == i
    ensures Reached(task, plan, i + 1, k + 1, columns)
  {
    hide HeaderAt, UnitsFrom, ColumnsFrom, UnitAt;
    ParseLine(task, plan.lines, i, columns);
    UnitIsAt(task, plan.lines[i], i, columns);
    var u, more := UnitAt(task, plan.lines[i], i, columns).value, UnitsFrom(task, plan.lines, i + 1, columns);
    var rest := plan.units[k..];
    assert rest == [u] + more;
    assert rest[0] == u && rest[1..] == more && rest[1..] == plan.units[k + 1..];
  }

  lemma PastOther(task: string -> Option<Unit>, plan: Parsed, i: nat, k: nat, columns: Option<Columns>)
    requires Reached(task, plan, i, k, columns) && i < |plan.lines| && !(columns.None? && HeaderAt(plan.lines, i))
    requires UnitAt(task, plan.lines[i], i, columns).None?
    ensures Reached(task, plan, i + 1, k, columns) && (k < |plan.units| ==> i < plan.units[k].line)
  {
    hide HeaderAt, UnitsFrom, ColumnsFrom, UnitAt;
    ParseLine(task, plan.lines, i, columns);
    assert [] + UnitsFrom(task, plan.lines, i + 1, columns) == UnitsFrom(task, plan.lines, i + 1, columns);
    UnitsAreSlotted(task, plan.lines, i + 1, columns);
    assert k < |plan.units| ==> plan.units[k] == plan.units[k..][0];
  }

  /** What the rewritten lines have in common with the old ones. */
  ghost predicate Rewritten(plan: Parsed, units: seq<Unit>, lines: seq<string>) {
    && |lines| == |plan.lines| && |units| == |plan.units| && plan.columns.Some? && Slots(plan)
    && (forall k | 0 <= k < |units| ::
         lines[plan.units[k].line] == RenderRow(units[k], plan.columns.value, plan.lines[plan.units[k].line]))
    && (forall i | 0 <= i < |lines| && (forall k | 0 <= k < |units| :: plan.units[k].line != i) :: lines[i] == plan.lines[i])
  }

  /** No slot lies at `i` when the next slot lies beyond it. */
  lemma NotASlot(plan: Parsed, units: seq<Unit>, lines: seq<string>, i: nat, k: nat)
    requires Rewritten(plan, units, lines) && i < |lines| && k <= |units|
    requires forall j | 0 <= j < k :: plan.units[j].line < i
    requires k < |units| ==> i < plan.units[k].line
    ensures lines[i] == plan.lines[i]
  {
    hide RenderRow;
    forall j | 0 <= j < |units| ensures plan.units[j].line != i {
      if j > k { assert plan.units[k].line < plan.units[j].line; }
    }
  }

  /** Reading the rewritten lines from `i` gives the new units from `k`. */
  lemma {:induction false} Reread(task: string -> Option<Unit>, plan: Parsed, units: seq<Unit>, lines: seq<string>,
                                  i: nat, k: nat, columns: Option<Columns>)
    requires Tabular(task, plan) && Rewritten(plan, units, lines) && |lines| == |plan.lines| && |units| == |plan.units|
    requires Reached(task, plan, i, k, columns)
    requires plan.columns.Some? && k <= |units|
    requires Apart(plan.columns.value) && AllFit(plan, units)
    ensures UnitsFrom(task, lines, i, columns) == Placed(units, plan.units)[k..]
    ensures ColumnsFrom(lines, i, columns) == plan.columns
    decreases |lines| - i
  {
    hide AllFit, Apart, RenderRow, MapColumns, SplitRow, UnitAt, HeaderAt, UnitsFrom, ColumnsFrom, Rewritten, Reached, Tabular;
    var placed := Placed(units, plan.units);
    if i >= |lines| {
      RereadEnd(task, plan, units, lines, i, k, columns);
    } else if columns.None? && HeaderAt(plan.lines, i) {
      HeaderStays(task, plan, units, lines, i, k, columns);
      PastHeader(task, plan, i, k);
      ParseHeader(task, lines, i);
      Reread(task, plan, units, lines, i + 2, k, MapColumns(SplitRow(plan.lines[i])));
    } else if UnitAt(task, plan.lines[i], i, columns).Some? {
      PastUnit(task, plan, i, k, columns);
      SlotReread(task, plan, units, lines, i, k, columns);
      ParseLine(task, lines, i, columns);
      Reread(task, plan, units, lines, i + 1, k + 1, columns);
      assert placed[k..] == [placed[k]] + placed[k + 1..];
    } else {
      PastOther(task, plan, i, k, columns);
      StillOther(task, plan, units, lines, i, k, columns);
      ParseLine(task, lines, i, columns);
      Reread(task, plan, units, lines, i + 1, k, columns);
      assert [] + placed[k..] == placed[k..];
    }
  }

  lemma RereadEnd(task: string -> Option<Unit>, plan: Parsed, units: seq<Unit>, lines: seq<string>,
                  i: nat, k: nat, columns: Option<Columns>)
    requires |lines| == |plan.lines| && |units| == |plan.units| && i >= |lines| && Reached(task, plan, i, k, columns)
    ensures k <= |units|
    ensures UnitsFrom(task, lines, i, columns) == Placed(units, plan.units)[k..] && ColumnsFrom(lines, i, columns) == plan.columns
  {
    ParseEnd(task, plan.lines, i, columns);
    ParseEnd(task, lines, i, columns);
    hide UnitsFrom, ColumnsFrom;
    assert |plan.units[k..]| == 0;
    assert Placed(units, plan.units)[k..] == [];
  }

  /** A line that was neither header nor unit is neither now. */
  lemma StillOther(task: string -> Option<Unit>, plan: Parsed, units: seq<Unit>, lines: seq<string>,
                   i: nat, k: nat, columns: Option<Columns>)
    requires Tabular(task, plan) && Rewritten(plan, units, lines) && |lines| == |plan.lines| && |units| == |plan.units|
    requires Reached(task, plan, i, k, columns) && (k < |plan.units| ==> i < plan.units[k].line)
    requires i < |lines| && !(columns.None? && HeaderAt(plan.lines, i)) && UnitAt(task, plan.lines[i], i, columns) == None
    ensures lines[i] == plan.lines[i] && !(columns.None? && HeaderAt(lines, i))
  {
    hide HeaderAt, UnitsFrom, ColumnsFrom, UnitAt, Rewritten, Tabular;
    NotASlot(plan, units, lines, i, k);
    NoNewHeader(task, plan, units, lines, i, k, columns);
  }

  lemma {:induction false} ColumnsSettled(lines: seq<string>, i: nat, c: Columns)
    ensures ColumnsFrom(lines, i, Some(c)) == Some(c)
  {
  }

  lemma HeaderSettles(lines: seq<string>, i: nat)
    requires i < |lines| && HeaderAt(lines, i)
    ensures ColumnsFrom(lines, i, None) == MapColumns(SplitRow(lines[i]))
  {
    ColumnsSettled(lines, i + 2, MapColumns(SplitRow(lines[i])).value);
  }

  lemma HeaderStays(task: string -> Option<Unit>, plan: Parsed, units: seq<Unit>, lines: seq<string>,
                    i: nat, k: nat, columns: Option<Columns>)
    requires Rewritten(plan, units, lines) && |lines| == |plan.lines| && |units| == |plan.units|
    requires Reached(task, plan, i, k, columns)
    requires i < |lines| && columns.None? && HeaderAt(plan.lines, i)
    ensures HeaderAt(lines, i) && lines[i] == plan.lines[i]
  {
    hide Rewritten, MapColumns, SplitRow, IsTableRow, IsDelimiterRow, UnitsFrom, ColumnsFrom;
    var more := MapColumns(SplitRow(plan.lines[i]));
    ParseHeader(task, plan.lines, i);
    UnitsAreSlotted(task, plan.lines, i + 2, more);
    assert k < |plan.units| ==> plan.units[k] == plan.units[k..][0];
    NextSlot(plan, units, lines, i, k);
  }

  lemma NextSlot(plan: Parsed, units: seq<Unit>, lines: seq<string>, i: nat, k: nat)
    requires Rewritten(plan, units, lines) && i + 1 < |lines| && k <= |units|
    requires forall j | 0 <= j < k :: plan.units[j].line < i
    requires k < |units| ==> i + 2 <= plan.units[k].line
    ensures lines[i] == plan.lines[i] && lines[i + 1] == plan.lines[i + 1]
  {
    NotASlot(plan, units, lines, i, k);
    NotASlot(plan, units, lines, i + 1, k);
  }

  /** A slot's new row is read in the same place as the unit put into it. */
  lemma SlotReread(task: string -> Option<Unit>, plan: Parsed, units: seq<Unit>, lines: seq<string>,
                   i: nat, k: nat, columns: Option<Columns>)
    requires Tabular(task, plan) && Rewritten(plan, units, lines) && Reached(task, plan, i, k, columns)
    requires |lines| == |plan.lines| && |units| == |plan.units|
    requires Apart(plan.columns.value) && AllFit(plan, units)
    requires i < |lines| && k < |plan.units| && !(columns.None? && HeaderAt(plan.lines, i))
    requires UnitAt(task, plan.lines[i], i, columns) == Some(plan.units[k]) && plan.units[k].line == i
    ensures columns.Some? && UnitAt(task, lines[i], i, columns) == Some(Placed(units, plan.units)[k])
  {
    assert plan.units[k] in plan.units;
    UnitIsAt(task, plan.lines[i], i, columns);
    FitsHasFields(units[k], plan.columns.value, plan.lines[i]);
    RowRoundTrip(units[k], plan.columns.value, plan.lines[i], i);
    hide RowFits, Apart, RenderRow, SplitRow, UnitFromRow, IsTableRow, IsDelimiterRow, UnitsFrom, ColumnsFrom;
  }

  /** A line that was no header is none now: a slot never follows a line outside the table. */
  lemma NoNewHeader(task: string -> Option<Unit>, plan: Parsed, units: seq<Unit>, lines: seq<string>,
                    i: nat, k: nat, columns: Option<Columns>)
    requires Tabular(task, plan) && Rewritten(plan, units, lines) && Reached(task, plan, i, k, columns)
    requires |lines| == |plan.lines| && |units| == |plan.units|
    requires i < |lines| && !(columns.None? && HeaderAt(plan.lines, i)) && lines[i] == plan.lines[i]
    requires UnitAt(task, plan.lines[i], i, columns) == None
    ensures !(columns.None? && HeaderAt(lines, i))
  {
    hide Rewritten, MapColumns, SplitRow, IsTableRow, IsDelimiterRow, UnitsFrom, ColumnsFrom, UnitAt;
    if columns.None? && i + 1 < |plan.lines| {
      ParseLine(task, plan.lines, i, columns);
      assert [] + UnitsFrom(task, plan.lines, i + 1, None) == UnitsFrom(task, plan.lines, i + 1, None);
      FirstUnitLater(task, plan, i + 1, k);
      NextLineStays(plan, units, lines, i, k);
    }
  }

  lemma NextLineStays(plan: Parsed, units: seq<Unit>, lines: seq<string>, i: nat, k: nat)
    requires Rewritten(plan, units, lines) && i + 1 < |lines| && k <= |units|
    requires forall j | 0 <= j < k :: plan.units[j].line < i
    requires k < |units| ==> i + 1 < plan.units[k].line
    ensures lines[i + 1] == plan.lines[i + 1]
  {
    NotASlot(plan, units, lines, i + 1, k);
  }

  /** Without columns, the next table unit is not on the very next line. */
  lemma FirstUnitLater(task: string -> Option<Unit>, plan: Parsed, i: nat, k: nat)
    requires Tabular(task, plan) && k <= |plan.units| && i < |plan.lines|
    requires plan.units[k..] == UnitsFrom(task, plan.lines, i, None)
    ensures k < |plan.units| ==> i < plan.units[k].line
  {
    hide MapColumns, SplitRow, HeaderAt, UnitsFrom, ColumnsFrom, UnitAt;
    if k < |plan.units| {
      var rest := plan.units[k..];
      assert rest[0] == plan.units[k] && plan.units[k] in plan.units;
      if HeaderAt(plan.lines, i) {
        ParseHeader(task, plan.lines, i);
        UnitsAreSlotted(task, plan.lines, i + 2, MapColumns(SplitRow(plan.lines[i])));
      } else {
        ParseLine(task, plan.lines, i, None);
        UnitsAreSlotted(task, plan.lines, i + 1, None);
        OnlyTasksWithoutColumns(task, plan.lines[i], i);
      }
    }
  }

  lemma OnlyTasksWithoutColumns(task: string -> Option<Unit>, line: string, i: nat)
    ensures UnitAt(task, line, i, None).Some? ==> UnitAt(task, line, i, None).value.form == Task
  {
  }

  /** What is read as a row of the table is read from its own line, with the table's columns. */
  lemma {:induction false} ReadFromItsLine(task: string -> Option<Unit>, lines: seq<string>, i: nat, columns: Option<Columns>)
    ensures forall u | u in UnitsFrom(task, lines, i, columns) && u.form == Table ::
      && u.line < |lines| && ColumnsFrom(lines, i, columns).Some?
      && Holds(lines[u.line], u, ColumnsFrom(lines, i, columns).value, u.line)
    decreases |lines| - i
  {
    hide UnitsFrom, ColumnsFrom, UnitAt, HeaderAt, MapColumns, SplitRow, IsTableRow, IsDelimiterRow, Holds;
    if i >= |lines| {
      ParseEnd(task, lines, i, columns);
    } else if columns.None? && HeaderAt(lines, i) {
      ParseHeader(task, lines, i);
      ReadFromItsLine(task, lines, i + 2, MapColumns(SplitRow(lines[i])));
    } else {
      ParseLine(task, lines, i, columns);
      ReadFromItsLine(task, lines, i + 1, columns);
      if columns.Some? { ColumnsSettled(lines, i, columns.value); }
      if UnitAt(task, lines[i], i, columns).Some? { HeldAt(task, lines[i], i, columns); }
    }
  }

  lemma HeldAt(task: string -> Option<Unit>, line: string, i: nat, columns: Option<Columns>)
    requires UnitAt(task, line, i, columns).Some?
    ensures var u := UnitAt(task, line, i, columns).value;
      u.line == i && (u.form == Table ==> columns.Some? && Holds(line, u, columns.value, i))
  {
  }

  /** In a plan kept in a table every slot is a row of it. */
  lemma SlotsAreRows(task: string -> Option<Unit>, plan: Parsed)
    requires Tabular(task, plan)
    ensures Slots(plan) && forall k | 0 <= k < |plan.units| :: IsTableRow(plan.lines[plan.units[k].line])
  {
    UnitsAreSlotted(task, plan.lines, 0, None);
    ReadFromItsLine(task, plan.lines, 0, None);
    hide UnitsFrom, ColumnsFrom, IsTableRow, IsDelimiterRow;
    forall k | 0 <= k < |plan.units| ensures IsTableRow(plan.lines[plan.units[k].line]) {
      assert plan.units[k] in plan.units;
    }
  }

  lemma WrittenIsRewritten(task: string -> Option<Unit>, plan: Parsed, units: seq<Unit>)
    requires Tabular(task, plan) && |units| == |plan.units| && AllRows(units)
    ensures Slots(plan) && Rewritten(plan, units, Written(plan, units, |units|))
  {
    SlotsAreRows(task, plan);
    hide UnitsFrom, ColumnsFrom, RenderUnit, RenderRow, Written, IsTableRow;
    OnlySlotsChange(plan, units, |units|);
    var lines := Written(plan, units, |units|);
    hide Slots;
    forall k | 0 <= k < |units|
      ensures lines[plan.units[k].line] == RenderRow(units[k], plan.columns.value, plan.lines[plan.units[k].line])
    {
      assert units[k] in units;
      TableUnitIsRow(units[k], plan.columns, plan.lines[plan.units[k].line]);
    }
  }

  lemma TableUnitIsRow(u: Unit, columns: Option<Columns>, template: string)
    requires u.form == Table && columns.Some?
    ensures RenderUnit(u, columns, template) == RenderRow(u, columns.value, template)
  {
  }

  /** The lines read as the units, each in its slot, and as the same table. */
  ghost predicate ReadsAs(task: string -> Option<Unit>, plan: Parsed, units: seq<Unit>, lines: seq<string>)
    requires |units| == |plan.units|
  {
    UnitsFrom(task, lines, 0, None) == Placed(units, plan.units) && ColumnsFrom(lines, 0, None) == plan.columns
  }

  /**
   * A plan kept in a table, written back with units in any order, reads as those
   * units in that order in the same slots, if and only if each fits its row.
   */
  lemma ReorderedPlanReadsBack(task: string -> Option<Unit>, plan: Parsed, units: seq<Unit>)
    requires Tabular(task, plan) && |units| == |plan.units| && AllRows(units)
    ensures Slots(plan)
    ensures ReadsAs(task, plan, units, Written(plan, units, |units|)) <==> AllFit(plan, units)
  {
    SlotsAreRows(task, plan);
    hide UnitsFrom, ColumnsFrom, RowFits, RenderRow, Written, Apart, IsTableRow, IsDelimiterRow, AllFit, Holds;
    ColumnsAreApart(plan.lines, 0, None);
    WrittenIsRewritten(task, plan, units);
    var lines := Written(plan, units, |units|);
    if AllFit(plan, units) {
      assert plan.units[0..] == plan.units && Placed(units, plan.units)[0..] == Placed(units, plan.units);
      Reread(task, plan, units, lines, 0, 0, None);
    }
    if ReadsAs(task, plan, units, lines) {
      ReadFromItsLine(task, lines, 0, None);
      forall k | 0 <= k < |units| ensures RowFits(units[k], plan.columns.value, plan.lines[plan.units[k].line]) {
        HeldInSlot(plan, units, lines, task, k);
      }
      AllFitByRow(plan, units);
    }
  }

  lemma AllFitByRow(plan: Parsed, units: seq<Unit>)
    requires plan.columns.Some? && Slots(plan) && |units| == |plan.units|
    requires forall k | 0 <= k < |units| :: RowFits(units[k], plan.columns.value, plan.lines[plan.units[k].line])
    ensures AllFit(plan, units)
  {
  }

  lemma HeldInSlot(plan: Parsed, units: seq<Unit>, lines: seq<string>, task: string -> Option<Unit>, k: nat)
    requires Rewritten(plan, units, lines) && |units| == |plan.units| && k < |units| && AllRows(units)
    requires Apart(plan.columns.value) && IsTableRow(plan.lines[plan.units[k].line])
    requires UnitsFrom(task, lines, 0, None) == Placed(units, plan.units)
    requires forall u | u in UnitsFrom(task, lines, 0, None) && u.form == Table ::
      u.line < |lines| && Holds(lines[u.line], u, plan.columns.value, u.line)
    ensures RowFits(units[k], plan.columns.value, plan.lines[plan.units[k].line])
  {
    assert units[k] in units;
    var placed := Placed(units, plan.units);
    assert placed[k] in placed;
    var slot := plan.units[k].line;
    HoldsAnyLine(lines[slot], placed[k], units[k], plan.columns.value, slot);
    RowRoundTrip(units[k], plan.columns.value, plan.lines[slot], slot);
    hide RowFits, RenderRow, Holds;
  }

  lemma HoldsAnyLine(row: string, u: Unit, v: Unit, c: Columns, line: nat)
    requires Holds(row, u, c, line) && u == v.(line := line)
    ensures Holds(row, v, c, line)
  {
    assert u.(line := line) == v.(line := line);
  }

  // ---- the document as text -------------------------------------------------

  /** Lines that survive being joined: no LF inside, and no CR where an LF would follow. */
  ghost predicate Joinable(lines: seq<string>, eol: string) {
    && (forall l | l in lines :: '\n' !in l)
    && (eol == "\n" ==> forall k | 0 <= k < |lines| - 1 :: !EndsWith(lines[k], '\r'))
  }

  lemma FoldOfLine(l: string)
    requires '\n' !in l
    ensures FoldCrLf(l) == l
  {
    assert forall k | 0 <= k < |l| :: l[k] in l;
    FoldWithoutPair(l);
  }

  lemma FoldOfBreak(l: string, eol: string, rest: string)
    requires '\n' !in l && (eol == "\r\n" || (eol == "\n" && !EndsWith(l, '\r')))
    ensures FoldCrLf(l + eol + rest) == l + "\n" + FoldCrLf(rest)
  {
    FoldOfLine(l);
    assert l + eol + rest == l + (eol + rest);
    FoldOfConcat(l, eol + rest);
    if eol == "\r\n" {
      FoldPair(rest);
    } else {
      FoldChar('\n', rest);
      assert ['\n'] + rest == eol + rest;
    }
  }

  lemma {:induction false} FoldOfJoin(lines: seq<string>, eol: string)
    requires lines != [] && (eol == "\n" || eol == "\r\n") && Joinable(lines, eol)
    ensures FoldCrLf(Join(lines, eol)) == Join(lines, "\n")
    decreases |lines|
  {
    hide FoldCrLf;
    var l := lines[0];
    assert l in lines;
    if |lines| == 1 {
      FoldOfLine(l);
    } else {
      assert forall x | x in lines[1..] :: x in lines;
      FoldOfJoin(lines[1..], eol);
      FoldOfBreak(l, eol, Join(lines[1..], eol));
    }
  }

  /** Joined lines split back into themselves. */
  lemma JoinedLinesSplit(lines: seq<string>, eol: string)
    requires lines != [] && (eol == "\n" || eol == "\r\n") && Joinable(lines, eol)
    ensures SplitLines(Join(lines, eol)) == lines
  {
    FoldOfJoin(lines, eol);
    SplitOfJoin(lines, '\n');
  }

  /** A line that ends in CR and is not the last was cut at a CRLF. */
  lemma {:induction false} NoCrBeforeCut(s: string)
    requires forall k | 0 <= k < |s| - 1 :: !(s[k] == '\r' && s[k + 1] == '\n')
    ensures forall k | 0 <= k < |Split(s, '\n')| - 1 :: !EndsWith(Split(s, '\n')[k], '\r')
    decreases |s|
  {
    if s != "" {
      NoCrBeforeCut(s[1..]);
      var rest := Split(s[1..], '\n');
      if s[0] != '\n' && rest[0] == "" && |rest| > 1 {
        FirstPieceEmpty(s[1..]);
        assert s[1] == '\n';
      }
    }
  }

  lemma FirstPieceEmpty(s: string)
    requires |Split(s, '\n')| > 1 && Split(s, '\n')[0] == ""
    ensures s != "" && s[0] == '\n'
  {
  }

  lemma ParsedLinesJoin(text: string)
    ensures Joinable(SplitLines(text), if ContainsCrLf(text) then "\r\n" else "\n")
  {
    if !ContainsCrLf(text) {
      FoldWithoutPair(text);
      NoCrBeforeCut(text);
    }
  }

  lemma RenderedIsOneLine(u: Unit, c: Columns, template: string)
    requires OwnClean(u, c) && IsTableRow(template)
    ensures '\n' !in RenderRow(u, c, template) && !EndsWith(RenderRow(u, c, template), '\r')
  {
    RowCellsAreClean(u, c, template);
    RowTextIs(RowCells(u, c, template));
    var row := RenderRow(u, c, template);
    assert Trim(row) == row;
    assert forall k | 0 <= k < |row| :: !LineEnd(row[k]);
    hide RowCells, OwnClean;
  }

  lemma JoinableByLine(lines: seq<string>, eol: string)
    requires forall i | 0 <= i < |lines| :: '\n' !in lines[i]
    requires eol == "\n" ==> forall i | 0 <= i < |lines| - 1 :: !EndsWith(lines[i], '\r')
    ensures Joinable(lines, eol)
  {
  }

  ghost predicate AllClean(plan: Parsed, units: seq<Unit>)
    requires plan.columns.Some?
  {
    forall u | u in units :: OwnClean(u, plan.columns.value)
  }

  /** Each written line is an old one or a rendered row. */
  lemma WrittenLine(task: string -> Option<Unit>, plan: Parsed, units: seq<Unit>, i: nat)
    requires Tabular(task, plan) && Slots(plan) && |units| == |plan.units| && i < |plan.lines|
    requires AllRows(units) && AllClean(plan, units)
    ensures var line := Written(plan, units, |units|)[i];
      line == plan.lines[i] || ('\n' !in line && !EndsWith(line, '\r'))
  {
    SlotsAreRows(task, plan);
    WrittenIsRewritten(task, plan, units);
    hide Written, UnitsFrom, ColumnsFrom, RenderRow, IsTableRow, OwnClean;
    if k :| 0 <= k < |units| && plan.units[k].line == i {
      assert units[k] in units;
      RenderedIsOneLine(units[k], plan.columns.value, plan.lines[i]);
    }
  }

  lemma WrittenJoins(task: string -> Option<Unit>, plan: Parsed, units: seq<Unit>)
    requires Tabular(task, plan) && Slots(plan) && |units| == |plan.units| && Joinable(plan.lines, plan.eol)
    requires AllRows(units) && AllClean(plan, units)
    ensures Joinable(Written(plan, units, |units|), plan.eol)
  {
    hide Written, Tabular, Slots, AllClean;
    var lines := Written(plan, units, |units|);
    forall i | 0 <= i < |lines|
      ensures '\n' !in lines[i] && (plan.eol == "\n" && i < |lines| - 1 ==> !EndsWith(lines[i], '\r'))
    {
      WrittenLine(task, plan, units, i);
      assert plan.lines[i] in plan.lines;
    }
    JoinableByLine(lines, plan.eol);
  }

  /** A unit that can be read at all is clean. */
  lemma ReadUnitsAreClean(task: string -> Option<Unit>, plan: Parsed, units: seq<Unit>, lines: seq<string>)
    requires |units| == |plan.units| && plan.columns.Some? && AllRows(units) && ReadsAs(task, plan, units, lines)
    ensures AllClean(plan, units)
  {
    ReadFromItsLine(task, lines, 0, None);
    hide UnitsFrom, ColumnsFrom, Holds, OwnClean;
    var placed := Placed(units, plan.units);
    forall u | u in units ensures OwnClean(u, plan.columns.value) {
      var k :| 0 <= k < |units| && units[k] == u;
      assert placed[k] in placed;
      HeldIsClean(lines[placed[k].line], placed[k], u, plan.columns.value);
    }
  }

  lemma HeldIsClean(row: string, held: Unit, u: Unit, c: Columns)
    requires Holds(row, held, c, held.line) && held == u.(line := held.line)
    ensures OwnClean(u, c)
  {
    SplitRowCells(row);
    ReadUnitIsClean(SplitRow(row), c, held.line);
    assert UnitFromRow(SplitRow(row), c, held.line) == Some(held);
    hide SplitRow, UnitFromRow, Clean, Join, IsTableRow, IsDelimiterRow;
  }

  /** A document read from its text as a plan kept in a table. */
  ghost predicate IsPlan(task: string -> Option<Unit>, plan: Parsed) {
    Tabular(task, plan) && Joinable(plan.lines, plan.eol) && (plan.eol == "\n" || plan.eol == "\r\n")
  }

  /** The text written for a plan kept in a table is the plan in its new order, if and only if each unit fits its row. */
  lemma RenderedTextReadsBack(task: string -> Option<Unit>, plan: Parsed, units: seq<Unit>)
    requires IsPlan(task, plan) && |units| == |plan.units| && AllRows(units)
    ensures Slots(plan)
    ensures var written := Written(plan, units, |units|);
      var lines := SplitLines(Join(written, plan.eol));
      && (ReadsAs(task, plan, units, lines) <==> AllFit(plan, units))
      && (AllFit(plan, units) ==> lines == written && Joinable(written, plan.eol))
  {
    ReorderedPlanReadsBack(task, plan, units);
    var written := Written(plan, units, |units|);
    var lines := SplitLines(Join(written, plan.eol));
    hide UnitsFrom, ColumnsFrom, SplitLines, Joinable, Written, Join, AllFit, AllClean, RowFits;
    assert |written| == |plan.lines|;
    if AllFit(plan, units) { FittingIsClean(plan, units); }
    if ReadsAs(task, plan, units, lines) { ReadUnitsAreClean(task, plan, units, lines); }
    if AllClean(plan, units) && plan.lines != [] {
      WrittenJoins(task, plan, units);
      JoinedLinesSplit(written, plan.eol);
    }
    if plan.lines == [] { NoLinesNoColumns(task, plan); }
  }

  lemma NoLinesNoColumns(task: string -> Option<Unit>, plan: Parsed)
    requires Tabular(task, plan)
    ensures |plan.lines| >= 2
  {
    ColumnsNeedTwoLines(plan.lines, 0);
    hide UnitsFrom, ColumnsFrom;
  }

  lemma {:induction false} ColumnsNeedTwoLines(lines: seq<string>, i: nat)
    ensures ColumnsFrom(lines, i, None).Some? ==> i + 1 < |lines|
    decreases |lines| - i
  {
    hide MapColumns, SplitRow, IsTableRow, IsDelimiterRow;
    if i < |lines| && !HeaderAt(lines, i) { ColumnsNeedTwoLines(lines, i + 1); }
  }

  lemma FittingIsClean(plan: Parsed, units: seq<Unit>)
    requires plan.columns.Some? && Slots(plan) && |units| == |plan.units| && AllFit(plan, units)
    ensures AllClean(plan, units)
  {
    forall u | u in units ensures OwnClean(u, plan.columns.value) {
      var k :| 0 <= k < |units| && units[k] == u;
      FitsHasFields(u, plan.columns.value, plan.lines[plan.units[k].line]);
    }
    hide RowFits, OwnClean;
  }
}
