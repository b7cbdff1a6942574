// What the printed diff is for: a reader recovers the hunks that were printed,
// and applying them, forwards or backwards, turns one side into the other.
module TextPatch {
  import opened Text
  import opened TextDiff

  // ---- applying hunks -------------------------------------------------------

  /**
   * Apply hunks to the lines from `line` on, producing lines from `newLine` on.
   * A hunk that overlaps its predecessor, names the wrong line on either side,
   * or does not find the lines it removes and keeps, is refused. An empty side
   * is numbered like any other: the hunk starts at offset `start - 1`.
   */
  function Apply(rest: seq<string>, line: int, newLine: int, hs: seq<Hunk>): Option<seq<string>>
    decreases |hs|
  {
    if hs == [] then Some(rest)
    else
      var h := hs[0];
      var gap := h.oldStart - line;
      if 0 <= gap && 0 <= h.oldSpan && gap + h.oldSpan <= |rest| && h.newStart - newLine == gap
         && rest[gap..gap + h.oldSpan] == Old(h.ops) && h.newSpan == |New(h.ops)| then
        var tail :- Apply(rest[gap + h.oldSpan..], h.oldStart + h.oldSpan, h.newStart + h.newSpan, hs[1..]);
        Some(rest[..gap] + New(h.ops) + tail)
      else None
  }

  function Patch(lines: seq<string>, hs: seq<Hunk>): Option<seq<string>> { Apply(lines, 1, 1, hs) }

  /** Everything a mask drops is an unchanged line. */
  ghost predicate Covers(keep: seq<bool>, ops: seq<Op>) {
    |keep| == |ops| && forall k | 0 <= k < |ops| && !keep[k] :: ops[k].kind == Keep
  }

  lemma MaskCovers(ops: seq<Op>)
    ensures Covers(Mask(ops), ops)
  {
    forall k | 0 <= k < |ops| && !Mask(ops)[k] ensures ops[k].kind == Keep {
      assert !Shown(ops, k);
    }
  }

  /** A hunk whose lines are in place is applied, and the rest goes on behind it. */
  lemma ApplyOne(skip: seq<string>, run: seq<Op>, z: seq<string>, line: int, newLine: int, hs: seq<Hunk>, tail: seq<string>)
    requires Apply(z, line + |skip| + |Old(run)|, newLine + |skip| + |New(run)|, hs) == Some(tail)
    ensures Apply(skip + Old(run) + z, line, newLine,
                  [Hunk(line + |skip|, |Old(run)|, newLine + |skip|, |New(run)|, run)] + hs)
         == Some(skip + New(run) + tail)
  {
    var rest := skip + Old(run) + z;
    var h := Hunk(line + |skip|, |Old(run)|, newLine + |skip|, |New(run)|, run);
    assert ([h] + hs)[1..] == hs;
    assert rest[|skip|..|skip| + |Old(run)|] == Old(run);
    assert rest[|skip| + |Old(run)|..] == z;
    assert rest[..|skip|] == skip;
  }

  lemma SplitAt(ops: seq<Op>, i: nat, e: nat)
    requires i <= e <= |ops|
    ensures Old(ops[i..]) == Old(ops[i..e]) + Old(ops[e..])
    ensures New(ops[i..]) == New(ops[i..e]) + New(ops[e..])
  {
    assert ops[i..] == ops[i..e] + ops[e..];
    OldNewOfConcat(ops[i..e], ops[e..]);
  }

  lemma OneKept(ops: seq<Op>, i: nat)
    requires i < |ops| && ops[i].kind == Keep
    ensures Old(ops[i..i + 1]) == [ops[i].text] == New(ops[i..i + 1])
  {
    assert ops[i..i + 1] == [ops[i]];
    assert [ops[i]][1..] == [];
  }

  /** With the lines in `skip` passed over, the hunks still to come finish the job. */
  ghost predicate AppliesFrom(skip: seq<string>, ops: seq<Op>, keep: seq<bool>, i: nat, line: int, newLine: int)
    requires |keep| == |ops| && i <= |ops|
  {
    Apply(skip + Old(ops[i..]), line, newLine, Cut(ops, keep, i, line + |skip|, newLine + |skip|))
    == Some(skip + New(ops[i..]))
  }

  lemma ApplyNothing(skip: seq<string>, ops: seq<Op>, keep: seq<bool>, line: int, newLine: int)
    requires |keep| == |ops|
    ensures AppliesFrom(skip, ops, keep, |ops|, line, newLine)
  {
    assert ops[|ops|..] == [];
  }

  lemma ApplyHidden(skip: seq<string>, ops: seq<Op>, keep: seq<bool>, i: nat, line: int, newLine: int)
    requires |keep| == |ops| && i < |ops| && !keep[i] && ops[i].kind == Keep
    requires AppliesFrom(skip + [ops[i].text], ops, keep, i + 1, line, newLine)
    ensures AppliesFrom(skip, ops, keep, i, line, newLine)
  {
    var text := ops[i].text;
    SplitAt(ops, i, i + 1);
    OneKept(ops, i);
    assert skip + Old(ops[i..]) == (skip + [text]) + Old(ops[i + 1..]);
    assert skip + New(ops[i..]) == (skip + [text]) + New(ops[i + 1..]);
  }

  lemma CutAtRun(ops: seq<Op>, keep: seq<bool>, i: nat, e: nat, run: seq<Op>, line: int, newLine: int)
    requires |keep| == |ops| && i < |ops| && keep[i] && e == RunEnd(keep, i) && run == ops[i..e]
    ensures Cut(ops, keep, i, line, newLine)
         == [Hunk(line, |Old(run)|, newLine, |New(run)|, run)]
            + Cut(ops, keep, e, line + |Old(run)|, newLine + |New(run)|)
  {
  }

  lemma ApplyShown(skip: seq<string>, ops: seq<Op>, keep: seq<bool>, i: nat, e: nat, run: seq<Op>, line: int, newLine: int)
    requires |keep| == |ops| && i < |ops| && keep[i] && e == RunEnd(keep, i) && run == ops[i..e]
    requires AppliesFrom([], ops, keep, e, line + |skip| + |Old(run)|, newLine + |skip| + |New(run)|)
    ensures AppliesFrom(skip, ops, keep, i, line, newLine)
  {
    hide Apply, Cut, Old, New, RunEnd;
    var oldTail, newTail := Old(ops[e..]), New(ops[e..]);
    var more := Cut(ops, keep, e, line + |skip| + |Old(run)|, newLine + |skip| + |New(run)|);
    assert [] + oldTail == oldTail && [] + newTail == newTail;
    ApplyOne(skip, run, oldTail, line, newLine, more, newTail);
    CutAtRun(ops, keep, i, e, run, line + |skip|, newLine + |skip|);
    assert skip + Old(ops[i..]) == skip + Old(run) + oldTail
        && skip + New(ops[i..]) == skip + New(run) + newTail by {
      SplitAt(ops, i, e);
    }
  }

  lemma {:induction false} ApplyCut(skip: seq<string>, ops: seq<Op>, keep: seq<bool>, i: nat, line: int, newLine: int)
    requires Covers(keep, ops) && i <= |ops|
    ensures AppliesFrom(skip, ops, keep, i, line, newLine)
    decreases |ops| - i
  {
    hide Apply, Cut, Old, New, AppliesFrom, RunEnd;
    if i == |ops| {
      ApplyNothing(skip, ops, keep, line, newLine);
    } else if !keep[i] {
      ApplyCut(skip + [ops[i].text], ops, keep, i + 1, line, newLine);
      ApplyHidden(skip, ops, keep, i, line, newLine);
    } else {
      var e := RunEnd(keep, i);
      ApplyCut([], ops, keep, e, line + |skip| + |Old(ops[i..e])|, newLine + |skip| + |New(ops[i..e])|);
      ApplyShown(skip, ops, keep, i, e, ops[i..e], line, newLine);
    }
  }

  /** The hunks of any script turn the lines it consumes into the lines it produces. */
  lemma PatchHunks(ops: seq<Op>)
    ensures Patch(Old(ops), Hunks(ops)) == Some(New(ops))
  {
    MaskCovers(ops);
    assert ops[0..] == ops && [] + Old(ops) == Old(ops) && [] + New(ops) == New(ops);
    ApplyCut([], ops, Mask(ops), 0, 1, 1);
  }

  // ---- reversing hunks ------------------------------------------------------

  function FlipKind(k: Kind): Kind {
    match k case Keep => Keep case Add => Remove case Remove => Add
  }

  function Flip(ops: seq<Op>): seq<Op> {
    seq(|ops|, k requires 0 <= k < |ops| => Op(FlipKind(ops[k].kind), ops[k].text))
  }

  function Reverse(hs: seq<Hunk>): seq<Hunk> {
    seq(|hs|, k requires 0 <= k < |hs| =>
      Hunk(hs[k].newStart, hs[k].newSpan, hs[k].oldStart, hs[k].oldSpan, Flip(hs[k].ops)))
  }

  lemma {:induction false} FlipSwapsSides(ops: seq<Op>)
    ensures Old(Flip(ops)) == New(ops) && New(Flip(ops)) == Old(ops)
    decreases |ops|
  {
    if ops != [] {
      assert Flip(ops)[1..] == Flip(ops[1..]);
      FlipSwapsSides(ops[1..]);
    }
  }

  lemma {:induction false} ReverseOfCut(ops: seq<Op>, keep: seq<bool>, i: nat, oldLine: int, newLine: int)
    requires |keep| == |ops| && i <= |ops|
    ensures Reverse(Cut(ops, keep, i, oldLine, newLine)) == Cut(Flip(ops), keep, i, newLine, oldLine)
    decreases |ops| - i
  {
    if i < |ops| {
      if keep[i] {
        var e := RunEnd(keep, i);
        var run := ops[i..e];
        assert Flip(ops)[i..e] == Flip(run);
        FlipSwapsSides(run);
        ReverseOfCut(ops, keep, e, oldLine + |Old(run)|, newLine + |New(run)|);
      } else {
        ReverseOfCut(ops, keep, i + 1,
          if ops[i].kind != Add then oldLine + 1 else oldLine,
          if ops[i].kind != Remove then newLine + 1 else newLine);
      }
    }
  }

  lemma FlipKeepsMask(ops: seq<Op>)
    ensures Mask(Flip(ops)) == Mask(ops)
  {
    forall k | 0 <= k < |ops| ensures Shown(Flip(ops), k) == Shown(ops, k) {
      assert forall c | 0 <= c < |ops| :: Flip(ops)[c].kind != Keep <==> ops[c].kind != Keep;
    }
  }

  lemma UnpatchHunks(ops: seq<Op>)
    ensures Patch(New(ops), Reverse(Hunks(ops))) == Some(Old(ops))
  {
    FlipKeepsMask(ops);
    ReverseOfCut(ops, Mask(ops), 0, 1, 1);
    FlipSwapsSides(ops);
    PatchHunks(Flip(ops));
  }

  // ---- order and separation -------------------------------------------------

  /** `next` starts beyond the end of `h`, equally far on both sides. */
  ghost predicate Apart(h: Hunk, next: Hunk) {
    && h.oldStart + h.oldSpan < next.oldStart
    && next.oldStart - (h.oldStart + h.oldSpan) == next.newStart - (h.newStart + h.newSpan)
  }

  lemma {:induction false} CutIsOrdered(ops: seq<Op>, keep: seq<bool>, i: nat, oldLine: int, newLine: int)
    requires Covers(keep, ops) && i <= |ops|
    ensures var hs := Cut(ops, keep, i, oldLine, newLine);
      && (hs != [] ==> hs[0].oldStart - oldLine == hs[0].newStart - newLine
                       && hs[0].oldStart >= oldLine + (if keep[i] then 0 else 1))
      && (forall k | 0 <= k < |hs| - 1 :: Apart(hs[k], hs[k + 1]))
    decreases |ops| - i
  {
    if i < |ops| {
      if keep[i] {
        var e := RunEnd(keep, i);
        var run := ops[i..e];
        CutIsOrdered(ops, keep, e, oldLine + |Old(run)|, newLine + |New(run)|);
        var hs := Cut(ops, keep, i, oldLine, newLine);
        var tail := Cut(ops, keep, e, oldLine + |Old(run)|, newLine + |New(run)|);
        assert hs[1..] == tail;
        forall k | 0 <= k < |hs| - 1 ensures Apart(hs[k], hs[k + 1]) {
          assert hs[k + 1] == tail[k];
          if k > 0 { assert hs[k] == tail[k - 1] && Apart(tail[k - 1], tail[k]); }
        }
      } else {
        CutIsOrdered(ops, keep, i + 1, oldLine + 1, newLine + 1);
      }
    }
  }

  /** Hunks come in order, never touch, and skip as many lines on one side as on the other. */
  lemma HunksAreApart(ops: seq<Op>)
    ensures forall k | 0 <= k < |Hunks(ops)| - 1 :: Apart(Hunks(ops)[k], Hunks(ops)[k + 1])
  {
    MaskCovers(ops);
    CutIsOrdered(ops, Mask(ops), 0, 1, 1);
  }

  function HunkChanges(hs: seq<Hunk>): nat {
    if hs == [] then 0 else Changes(hs[0].ops) + HunkChanges(hs[1..])
  }

  lemma {:induction false} CutKeepsChanges(ops: seq<Op>, keep: seq<bool>, i: nat, oldLine: int, newLine: int)
    requires Covers(keep, ops) && i <= |ops|
    ensures HunkChanges(Cut(ops, keep, i, oldLine, newLine)) == Changes(ops[i..])
    decreases |ops| - i
  {
    if i < |ops| {
      if keep[i] {
        var e := RunEnd(keep, i);
        assert ops[i..] == ops[i..e] + ops[e..];
        CountKindOfConcat(ops[i..e], ops[e..], Add);
        CountKindOfConcat(ops[i..e], ops[e..], Remove);
        CutAtRun(ops, keep, i, e, ops[i..e], oldLine, newLine);
        CutKeepsChanges(ops, keep, e, oldLine + |Old(ops[i..e])|, newLine + |New(ops[i..e])|);
      } else {
        assert ops[i..][1..] == ops[i + 1..];
        CutKeepsChanges(ops, keep, i + 1, oldLine + 1, newLine + 1);
      }
    }
  }

  /** A run of shown operations always holds a change, so no hunk is context alone. */
  lemma RunHoldsChange(ops: seq<Op>, i: nat)
    requires i < |ops| && Mask(ops)[i]
    requires i == 0 || !Mask(ops)[i - 1]
    ensures Changes(ops[i..RunEnd(Mask(ops), i)]) > 0
  {
    var e := RunEnd(Mask(ops), i);
    assert Shown(ops, i);
    var c :| 0 <= c < |ops| && i - CONTEXT <= c <= i + CONTEXT && ops[c].kind != Keep;
    assert i <= c by { assert i > 0 ==> !Shown(ops, i - 1); }
    assert c < e by { assert e < |ops| ==> !Shown(ops, e); }
    var run := ops[i..e];
    assert run[c - i].kind != Keep;
    if Changes(run) == 0 { NoChangesMeansEqual(run); }
  }

  lemma {:induction false} CutHoldsChanges(ops: seq<Op>, i: nat, oldLine: int, newLine: int)
    requires i <= |ops|
    requires i == 0 || i == |ops| || !Mask(ops)[i] || !Mask(ops)[i - 1]
    ensures forall h | h in Cut(ops, Mask(ops), i, oldLine, newLine) :: Changes(h.ops) > 0
    decreases |ops| - i
  {
    if i < |ops| {
      if Mask(ops)[i] {
        RunHoldsChange(ops, i);
        var e := RunEnd(Mask(ops), i);
        CutHoldsChanges(ops, e, oldLine + |Old(ops[i..e])|, newLine + |New(ops[i..e])|);
      } else {
        CutHoldsChanges(ops, i + 1,
          if ops[i].kind != Add then oldLine + 1 else oldLine,
          if ops[i].kind != Remove then newLine + 1 else newLine);
      }
    }
  }

  /** The hunks hold exactly the changes of the script, and each holds at least one. */
  lemma HunksHoldTheChanges(ops: seq<Op>)
    ensures HunkChanges(Hunks(ops)) == Changes(ops)
    ensures forall h | h in Hunks(ops) :: Changes(h.ops) > 0
  {
    MaskCovers(ops);
    assert ops[0..] == ops;
    CutKeepsChanges(ops, Mask(ops), 0, 1, 1);
    CutHoldsChanges(ops, 0, 1, 1);
  }

  // ---- reading --------------------------------------------------------------

  function Expect(s: string, prefix: string): Option<string> {
    if prefix <= s then Some(s[|prefix|..]) else None
  }

  /** Read `start,span` and the text after it. */
  function ReadRange(s: string): Option<(nat, nat, string)> {
    var (start, s1) :- ReadNat(s);
    var s2 :- Expect(s1, ",");
    var (span, s3) :- ReadNat(s2);
    Some((start, span, s3))
  }

  function ReadHeader(s: string): Option<(nat, nat, nat, nat)> {
    var s1 :- Expect(s, "@@ -");
    var (a, b, s2) :- ReadRange(s1);
    var s3 :- Expect(s2, " +");
    var (c, d, s4) :- ReadRange(s3);
    if s4 == " @@" then Some((a, b, c, d)) else None
  }

  /**
   * Consume body lines until the spans the header promised are used up. Only
   * the first character of a line is looked at, so content cannot pass for a
   * header.
   */
  function TakeOps(ls: seq<string>, oldLeft: nat, newLeft: nat): (r: Option<(seq<Op>, seq<string>)>)
    ensures r.Some? ==> |ls| == |r.value.0| + |r.value.1|
  {
    if oldLeft == 0 && newLeft == 0 then Some(([], ls))
    else if ls == [] || ls[0] == "" then None
    else
      var text := ls[0][1..];
      if ls[0][0] == ' ' && oldLeft > 0 && newLeft > 0 then
        var (ops, rest) :- TakeOps(ls[1..], oldLeft - 1, newLeft - 1);
        Some(([Op(Keep, text)] + ops, rest))
      else if ls[0][0] == '-' && oldLeft > 0 then
        var (ops, rest) :- TakeOps(ls[1..], oldLeft - 1, newLeft);
        Some(([Op(Remove, text)] + ops, rest))
      else if ls[0][0] == '+' && newLeft > 0 then
        var (ops, rest) :- TakeOps(ls[1..], oldLeft, newLeft - 1);
        Some(([Op(Add, text)] + ops, rest))
      else None
  }

  function PrintedSize(hs: seq<Hunk>): nat {
    if hs == [] then 0 else 1 + |hs[0].ops| + PrintedSize(hs[1..])
  }

  function ReadHunks(ls: seq<string>): (r: Option<seq<Hunk>>)
    ensures r.Some? ==> |ls| == PrintedSize(r.value)
    decreases |ls|
  {
    if ls == [] then Some([])
    else
      var (a, b, c, d) :- ReadHeader(ls[0]);
      var (ops, rest) :- TakeOps(ls[1..], b, d);
      var more :- ReadHunks(rest);
      var all := [Hunk(a, b, c, d, ops)] + more;
      assert all[1..] == more;
      Some(all)
  }

  /** Read a diff text; `headed` says whether the two file lines come first. */
  function ReadDiff(text: string, path: string): Option<seq<Hunk>> {
    if text == "" then Some([])
    else
      var ls := Split(text, '\n');
      if path == "" then ReadHunks(ls)
      else if |ls| >= 2 && ls[0] == "--- a/" + path && ls[1] == "+++ b/" + path then ReadHunks(ls[2..])
      else None
  }

  lemma ExpectOf(prefix: string, rest: string)
    ensures Expect(prefix + rest, prefix) == Some(rest)
  {
    assert (prefix + rest)[|prefix|..] == rest;
  }

  lemma ReadOfRange(start: nat, span: nat, rest: string)
    requires rest == "" || !IsDigit(rest[0])
    ensures ReadRange(Range(start, span, rest)) == Some((start, span, rest))
  {
    ReadOfDecimal(start, "," + (Decimal(span) + rest));
    ExpectOf(",", Decimal(span) + rest);
    ReadOfDecimal(span, rest);
  }

  lemma ReadOfHeader(a: nat, b: nat, c: nat, d: nat)
    ensures ReadHeader(Header(a, b, c, d)) == Some((a, b, c, d))
  {
    var t2 := Range(c, d, " @@");
    ExpectOf("@@ -", Range(a, b, " +" + t2));
    ReadOfRange(a, b, " +" + t2);
    ExpectOf(" +", t2);
    ReadOfRange(c, d, " @@");
  }

  lemma TakeOne(op: Op, more: seq<string>, old': nat, new': nat, ops: seq<Op>, rest: seq<string>)
    requires TakeOps(more, old', new') == Some((ops, rest))
    ensures TakeOps([PrintOp(op)] + more,
                    if op.kind == Add then old' else old' + 1,
                    if op.kind == Remove then new' else new' + 1) == Some(([op] + ops, rest))
  {
    var ls := [PrintOp(op)] + more;
    assert ls[1..] == more;
    assert ls[0][0] == Symbol(op.kind) && ls[0][1..] == op.text;
    assert op == Op(op.kind, op.text);
  }

  lemma {:induction false} TakePrinted(ops: seq<Op>, rest: seq<string>)
    ensures TakeOps(PrintOps(ops) + rest, |Old(ops)|, |New(ops)|) == Some((ops, rest))
    decreases |ops|
  {
    if ops == [] {
      assert PrintOps(ops) + rest == rest;
    } else {
      hide TakeOps, PrintOp;
      var op, tail := ops[0], ops[1..];
      TakePrinted(tail, rest);
      TakeOne(op, PrintOps(tail) + rest, |Old(tail)|, |New(tail)|, tail, rest);
      assert PrintOps(ops) + rest == [PrintOp(op)] + (PrintOps(tail) + rest);
      assert ops == [op] + tail;
    }
  }

  /** The spans a hunk's header states are those of its own lines. */
  ghost predicate Spanned(h: Hunk) {
    h.oldSpan == |Old(h.ops)| && h.newSpan == |New(h.ops)|
  }

  /** Printing then reading is the identity on hunks, whatever their lines contain. */
  lemma {:induction false} ReadPrinted(hs: seq<Hunk>)
    requires forall h | h in hs :: Numbered(h) && Spanned(h)
    ensures ReadHunks(PrintHunks(hs)) == Some(hs)
    ensures |PrintHunks(hs)| == PrintedSize(hs)
    decreases |hs|
  {
    if hs != [] {
      var h := hs[0];
      var ls := PrintHunks(hs);
      assert h in hs;
      assert ls == [Header(h.oldStart, h.oldSpan, h.newStart, h.newSpan)] + (PrintOps(h.ops) + PrintHunks(hs[1..]));
      ReadOfHeader(h.oldStart, h.oldSpan, h.newStart, h.newSpan);
      TakePrinted(h.ops, PrintHunks(hs[1..]));
      ReadPrinted(hs[1..]);
      assert [h] + hs[1..] == hs;
    }
  }

  lemma {:induction false} CutIsSpanned(ops: seq<Op>, keep: seq<bool>, i: nat, oldLine: int, newLine: int)
    requires |keep| == |ops| && i <= |ops| && oldLine >= 0 && newLine >= 0
    ensures forall h | h in Cut(ops, keep, i, oldLine, newLine) :: Numbered(h) && Spanned(h) && forall op | op in h.ops :: op in ops
    decreases |ops| - i
  {
    if i < |ops| {
      if keep[i] {
        var e := RunEnd(keep, i);
        CutIsSpanned(ops, keep, e, oldLine + |Old(ops[i..e])|, newLine + |New(ops[i..e])|);
      } else {
        CutIsSpanned(ops, keep, i + 1,
          if ops[i].kind != Add then oldLine + 1 else oldLine,
          if ops[i].kind != Remove then newLine + 1 else newLine);
      }
    }
  }

  // ---- no line end inside a printed line ------------------------------------

  lemma {:induction false} ScriptTexts(a: seq<string>, b: seq<string>, i: nat, j: nat)
    requires i <= |a| && j <= |b|
    ensures forall op | op in Script(a, b, i, j) :: op.text in a || op.text in b
    decreases |a| - i + |b| - j
  {
    if i < |a| && j < |b| && a[i] == b[j] {
      ScriptTexts(a, b, i + 1, j + 1);
    } else if i < |a| && (j == |b| || Lcs(a, b, i + 1, j) >= Lcs(a, b, i, j + 1)) {
      ScriptTexts(a, b, i + 1, j);
    } else if j < |b| {
      ScriptTexts(a, b, i, j + 1);
    }
  }

  lemma HeaderIsOneLine(a: nat, b: nat, c: nat, d: nat)
    ensures '\n' !in Header(a, b, c, d)
  {
    assert forall n: nat :: '\n' !in Decimal(n);
  }

  lemma {:induction false} OpsPrintOneLineEach(ops: seq<Op>)
    requires forall op | op in ops :: '\n' !in op.text
    ensures forall l | l in PrintOps(ops) :: '\n' !in l
    decreases |ops|
  {
    if ops != [] {
      OpsPrintOneLineEach(ops[1..]);
      assert '\n' !in PrintOp(ops[0]) by { assert ops[0] in ops; }
    }
  }

  lemma {:induction false} HunksPrintOneLineEach(hs: seq<Hunk>)
    requires forall h | h in hs :: Numbered(h) && forall op | op in h.ops :: '\n' !in op.text
    ensures forall l | l in PrintHunks(hs) :: '\n' !in l
    decreases |hs|
  {
    if hs != [] {
      var h := hs[0];
      assert h in hs;
      HeaderIsOneLine(h.oldStart, h.oldSpan, h.newStart, h.newSpan);
      OpsPrintOneLineEach(h.ops);
      HunksPrintOneLineEach(hs[1..]);
    }
  }

  // ---- the diff of two texts ------------------------------------------------

  function HunksOf(before: string, after: string): seq<Hunk> {
    Hunks(Script(Lines(before), Lines(after), 0, 0))
  }

  /** The hunks of two texts are well formed, and none exist exactly when no line differs. */
  lemma HunksOfTexts(before: string, after: string)
    ensures forall h | h in HunksOf(before, after) ::
      Numbered(h) && Spanned(h) && forall op | op in h.ops :: '\n' !in op.text
    ensures HunksOf(before, after) == [] <==> Lines(before) == Lines(after)
  {
    var a, b := Lines(before), Lines(after);
    var ops := Script(a, b, 0, 0);
    CutIsSpanned(ops, Mask(ops), 0, 1, 1);
    ScriptTexts(a, b, 0, 0);
    ScriptChangesNothing(a, b);
    HunksHoldTheChanges(ops);
  }

  /** A fine diff is silent exactly when the two sides have the same lines. */
  lemma SilentDiff(before: string, after: string, path: string)
    ensures !Unify(before, after, path).coarse ==>
      (Unify(before, after, path).text == "" <==> Lines(before) == Lines(after))
  {
    var d := Unify(before, after, path);
    var a, b := Lines(before), Lines(after);
    ScriptChangesNothing(a, b);
    if !d.coarse && before != after && a != b {
      HunksOfTexts(before, after);
      var hs := HunksOf(before, after);
      var ls := FileHeader(path) + PrintHunks(hs);
      assert |PrintHunks(hs)| >= 1;
      if |ls| == 1 { assert ls[0] == Header(hs[0].oldStart, hs[0].oldSpan, hs[0].newStart, hs[0].newSpan); }
      assert |Join(ls, "\n")| > 0;
    }
  }

  /** What is printed when anything is. */
  lemma PrintedText(before: string, after: string, path: string)
    requires Unify(before, after, path).text != ""
    ensures forall h | h in HunksOf(before, after) :: Numbered(h)
    ensures Unify(before, after, path).text == Join(FileHeader(path) + PrintHunks(HunksOf(before, after)), "\n")
    ensures ReadHunks(PrintHunks(HunksOf(before, after))) == Some(HunksOf(before, after))
    ensures |PrintHunks(HunksOf(before, after))| == PrintedSize(HunksOf(before, after)) >= 1
    ensures forall l | l in PrintHunks(HunksOf(before, after)) :: '\n' !in l
  {
    SilentDiff(before, after, path);
    HunksOfTexts(before, after);
    ReadPrinted(HunksOf(before, after));
    HunksPrintOneLineEach(HunksOf(before, after));
  }

  /** A path on one line keeps the two file lines apart from the hunks. */
  lemma SplitHeaded(path: string, body: seq<string>)
    requires |body| >= 1 && forall l | l in body :: '\n' !in l
    requires '\n' !in path
    ensures Split(Join(FileHeader(path) + body, "\n"), '\n') == FileHeader(path) + body
  {
    SplitOfJoin(FileHeader(path) + body, '\n');
  }

  /** A path over several lines is on no line of its own. */
  lemma SplitMisheaded(path: string, text: string)
    requires '\n' in path && text != ""
    ensures ReadDiff(text, path) == None
  {
    var ls := Split(text, '\n');
    assert '\n' in "--- a/" + path;
    assert ls[0] in ls;
    hide Split, ReadHunks;
  }

  /**
   * The printed text reads back to the printed hunks exactly when the path is a
   * single line (or nothing was printed at all).
   */
  lemma ReadBack(before: string, after: string, path: string)
    requires !Unify(before, after, path).coarse
    ensures ReadDiff(Unify(before, after, path).text, path) == Some(HunksOf(before, after))
       <==> ('\n' !in path || Unify(before, after, path).text == "")
  {
    SilentDiff(before, after, path);
    HunksOfTexts(before, after);
    if Unify(before, after, path).text != "" {
      PrintedText(before, after, path);
      HeadedReads(path, PrintHunks(HunksOf(before, after)), Unify(before, after, path).text, HunksOf(before, after));
    }
    hide Unify, ReadDiff, HunksOf, PrintHunks;
  }

  /** The lines under the two that name the path are read as the hunks they print. */
  lemma HeadedReads(path: string, body: seq<string>, text: string, hs: seq<Hunk>)
    requires text != "" && text == Join(FileHeader(path) + body, "\n") && |body| >= 1
    requires (forall l | l in body :: '\n' !in l) && ReadHunks(body) == Some(hs)
    ensures ReadDiff(text, path) == Some(hs) <==> '\n' !in path
  {
    hide ReadHunks, Join, Split, ReadDiff, FileHeader;
    if '\n' in path {
      SplitMisheaded(path, text);
    } else {
      SplitHeaded(path, body);
      ReadsUnderHeader(path, body, text);
    }
  }

  lemma ReadsUnderHeader(path: string, body: seq<string>, text: string)
    requires text != "" && Split(text, '\n') == FileHeader(path) + body
    ensures ReadDiff(text, path) == ReadHunks(body)
  {
    hide ReadHunks, Split;
    var ls := FileHeader(path) + body;
    if path == "" { assert ls == body; } else { assert ls[2..] == body; }
  }

  /**
   * The diff can be applied: what a reader recovers from the text turns the
   * old lines into the new ones, and reversed turns them back.
   */
  lemma DiffApplies(before: string, after: string, path: string)
    requires !Unify(before, after, path).coarse && '\n' !in path
    ensures var hs := ReadDiff(Unify(before, after, path).text, path);
      && hs.Some?
      && Patch(Lines(before), hs.value) == Some(Lines(after))
      && Patch(Lines(after), Reverse(hs.value)) == Some(Lines(before))
  {
    ReadBack(before, after, path);
    var a, b := Lines(before), Lines(after);
    assert a[0..] == a && b[0..] == b;
    ScriptEdits(a, b, 0, 0);
    PatchHunks(Script(a, b, 0, 0));
    UnpatchHunks(Script(a, b, 0, 0));
  }

  // ---- the format's own numbering -------------------------------------------

  /**
   * What a header means in the unified format, where an empty side names the
   * line before it: its start is one more in the numbering of `Apply`.
   */
  function FormatHunk(h: Hunk): Hunk {
    h.(oldStart := if h.oldSpan == 0 then h.oldStart + 1 else h.oldStart,
       newStart := if h.newSpan == 0 then h.newStart + 1 else h.newStart)
  }

  function FormatHunks(hs: seq<Hunk>): seq<Hunk> { seq(|hs|, k requires 0 <= k < |hs| => FormatHunk(hs[k])) }

  /** A patch as the unified format has it. */
  function FormatPatch(lines: seq<string>, hs: seq<Hunk>): Option<seq<string>> { Patch(lines, FormatHunks(hs)) }

  lemma KeptLineOnBothSides(run: seq<Op>, k: nat)
    requires k < |run| && run[k].kind == Keep
    ensures Old(run) != [] && New(run) != []
  {
    assert run[0..] == run;
    SplitAt(run, 0, k);
    SplitAt(run, k, k + 1);
    OneKept(run, k);
  }

  /** A hunk has lines on both sides whenever both texts have lines: it starts or ends with context, or is all. */
  lemma RunHasBothSides(ops: seq<Op>, i: nat)
    requires i < |ops| && Mask(ops)[i] && (i == 0 || !Mask(ops)[i - 1])
    requires Old(ops) != [] && New(ops) != []
    ensures var run := ops[i..RunEnd(Mask(ops), i)]; Old(run) != [] && New(run) != []
  {
    var e := RunEnd(Mask(ops), i);
    var run := ops[i..e];
    assert i < e by { RunHoldsChange(ops, i); }
    if i > 0 {
      assert !Shown(ops, i - 1);
      assert run[0].kind == Keep;
      KeptLineOnBothSides(run, 0);
    } else if e < |ops| {
      assert !Shown(ops, e);
      assert run[e - 1].kind == Keep;
      KeptLineOnBothSides(run, e - 1);
    } else {
      assert run == ops;
    }
  }

  lemma {:induction false} CutHasBothSides(ops: seq<Op>, i: nat, oldLine: int, newLine: int)
    requires i <= |ops| && Old(ops) != [] && New(ops) != []
    requires i == 0 || i == |ops| || !Mask(ops)[i] || !Mask(ops)[i - 1]
    ensures forall h | h in Cut(ops, Mask(ops), i, oldLine, newLine) :: h.oldSpan > 0 && h.newSpan > 0
    decreases |ops| - i
  {
    if i < |ops| {
      if Mask(ops)[i] {
        RunHasBothSides(ops, i);
        var e := RunEnd(Mask(ops), i);
        CutHasBothSides(ops, e, oldLine + |Old(ops[i..e])|, newLine + |New(ops[i..e])|);
      } else {
        CutHasBothSides(ops, i + 1,
          if ops[i].kind != Add then oldLine + 1 else oldLine,
          if ops[i].kind != Remove then newLine + 1 else newLine);
      }
    }
  }

  /** Hunks that fit, but leave one side empty, do not fit by the format's numbers. */
  lemma EmptySideMisnumbered(a: seq<string>, b: seq<string>, hs: seq<Hunk>)
    requires hs != [] && Patch(a, hs) == Some(b) && (a == [] || b == []) && Changes(hs[0].ops) > 0
    ensures FormatPatch(a, hs) == None
  {
    var h := hs[0];
    var f := FormatHunks(hs)[0];
    assert h.ops != [];
    var gap := h.oldStart - 1;
    if a == [] {
      assert h.oldSpan == 0 && f.oldStart == h.oldStart + 1;
    } else {
      assert New(h.ops) == [] && h.newSpan == 0;
      SomeSide(h.ops);
      assert h.oldSpan > 0;
      assert f.newStart - 1 == gap + 1;
    }
  }

  lemma SomeSide(ops: seq<Op>)
    requires ops != [] && New(ops) == []
    ensures Old(ops) != []
  {
  }

  /**
   * By the format's own numbers the hunks patch the old lines to the new ones if
   * and only if there are none or neither text is empty: an empty side's start is
   * printed one too high.
   */
  lemma FormatAccepts(before: string, after: string)
    ensures var a, b, hs := Lines(before), Lines(after), HunksOf(before, after);
      && (FormatPatch(a, hs) == Some(b) <==> hs == [] || (a != [] && b != []))
      && (hs != [] && (a == [] || b == []) ==> FormatPatch(a, hs) == None)
  {
    var a, b, hs := Lines(before), Lines(after), HunksOf(before, after);
    var ops := Script(a, b, 0, 0);
    assert a[0..] == a && b[0..] == b;
    ScriptEdits(a, b, 0, 0);
    PatchHunks(ops);
    HunksHoldTheChanges(ops);
    if hs == [] {
      assert FormatHunks(hs) == hs;
    } else if a != [] && b != [] {
      CutHasBothSides(ops, 0, 1, 1);
      assert forall k | 0 <= k < |hs| :: hs[k] in hs && FormatHunk(hs[k]) == hs[k];
      assert FormatHunks(hs) == hs;
    } else {
      assert hs[0] in hs;
      EmptySideMisnumbered(a, b, hs);
    }
    hide Cut, Script;
  }

  /** A coarse summary is given exactly for texts that differ and pass the line cap. */
  lemma CoarseDiff(before: string, after: string, path: string)
    ensures Unify(before, after, path).coarse
       <==> before != after && (|Lines(before)| > MAX_LINES || |Lines(after)| > MAX_LINES)
    ensures var d := Unify(before, after, path);
      |Lines(after)| + d.stat.removed == |Lines(before)| + d.stat.added
      || before == after
  {
    var a, b := Lines(before), Lines(after);
    assert a[0..] == a && b[0..] == b;
    ScriptEdits(a, b, 0, 0);
    Bookkeeping(Script(a, b, 0, 0));
  }

  // ---- the counts -----------------------------------------------------------

  /** How many lines of a kind the hunks hold. */
  function LinesOfKind(hs: seq<Hunk>, k: Kind): nat {
    if hs == [] then 0 else CountKind(hs[0].ops, k) + LinesOfKind(hs[1..], k)
  }

  lemma {:induction false} CutKeepsKind(ops: seq<Op>, keep: seq<bool>, i: nat, oldLine: int, newLine: int, k: Kind)
    requires Covers(keep, ops) && i <= |ops| && k != Keep
    ensures LinesOfKind(Cut(ops, keep, i, oldLine, newLine), k) == CountKind(ops[i..], k)
    decreases |ops| - i
  {
    if i < |ops| {
      if keep[i] {
        var e := RunEnd(keep, i);
        assert ops[i..] == ops[i..e] + ops[e..];
        CountKindOfConcat(ops[i..e], ops[e..], k);
        CutAtRun(ops, keep, i, e, ops[i..e], oldLine, newLine);
        CutKeepsKind(ops, keep, e, oldLine + |Old(ops[i..e])|, newLine + |New(ops[i..e])|, k);
      } else {
        assert ops[i..][1..] == ops[i + 1..];
        CutKeepsKind(ops, keep, i + 1, oldLine + 1, newLine + 1, k);
      }
    }
  }

  /**
   * A diff of texts within the cap counts the '+' and '-' lines that a reader
   * finds in its text, and no script between the two sides has fewer of them.
   */
  lemma StatIsRead(before: string, after: string, path: string)
    requires !Unify(before, after, path).coarse
    ensures var d, hs := Unify(before, after, path), HunksOf(before, after);
      && d.stat.added == LinesOfKind(hs, Add) && d.stat.removed == LinesOfKind(hs, Remove)
      && ('\n' !in path ==> ReadDiff(d.text, path) == Some(hs))
      && forall other | Edits(other, Lines(before), Lines(after)) :: d.stat.added + d.stat.removed <= Changes(other)
  {
    var a, b := Lines(before), Lines(after);
    var ops := Script(a, b, 0, 0);
    if '\n' !in path { ReadBack(before, after, path); }
    MaskCovers(ops);
    assert ops[0..] == ops;
    CutKeepsKind(ops, Mask(ops), 0, 1, 1, Add);
    CutKeepsKind(ops, Mask(ops), 0, 1, 1, Remove);
    if before == after { ScriptChangesNothing(a, b); }
    forall other | Edits(other, a, b) ensures Changes(ops) <= Changes(other) { ScriptIsOptimal(a, b, other); }
    hide Cut, Script, Lines, ReadDiff;
  }

  /** Past the cap of 3000 lines it counts the lines of the two sides, and prints nothing. */
  lemma CoarseStat(before: string, after: string, path: string)
    ensures var d, a, b := Unify(before, after, path), Lines(before), Lines(after);
      && (d.coarse <==> before != after && (|a| > 3000 || |b| > 3000))
      && (d.coarse ==> d.text == "" && d.stat.added == |b| && d.stat.removed == |a|)
  {
  }
}
