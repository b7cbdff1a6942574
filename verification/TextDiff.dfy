// The line diff shown on the approval card: an LCS table, the edit script walked
// out of it, and the hunks and header arithmetic of the unified format.
module TextDiff {
  import opened Text

  const MAX_LINES := 3000
  const CONTEXT := 3

  /** An element of the table's typed rows. */
  newtype uint32 = x: int | 0 <= x < 0x1_0000_0000

  datatype Kind = Keep | Add | Remove
  datatype Op = Op(kind: Kind, text: string)
  datatype Stat = Stat(added: nat, removed: nat)
  datatype UnifiedDiff = UnifiedDiff(text: string, stat: Stat, coarse: bool)
  datatype Hunk = Hunk(oldStart: int, oldSpan: int, newStart: int, newSpan: int, ops: seq<Op>)

  // ---- edit scripts ---------------------------------------------------------

  /** The lines a script consumes: its ' ' and '-' lines. */
  function Old(ops: seq<Op>): seq<string> {
    if ops == [] then []
    else (if ops[0].kind == Add then [] else [ops[0].text]) + Old(ops[1..])
  }

  /** The lines a script produces: its ' ' and '+' lines. */
  function New(ops: seq<Op>): seq<string> {
    if ops == [] then []
    else (if ops[0].kind == Remove then [] else [ops[0].text]) + New(ops[1..])
  }

  function CountKind(ops: seq<Op>, k: Kind): nat {
    if ops == [] then 0
    else (if ops[0].kind == k then 1 else 0) + CountKind(ops[1..], k)
  }

  /** What a script costs: its '+' and '-' lines. */
  function Changes(ops: seq<Op>): nat { CountKind(ops, Add) + CountKind(ops, Remove) }

  ghost predicate Edits(ops: seq<Op>, before: seq<string>, after: seq<string>) {
    Old(ops) == before && New(ops) == after
  }

  lemma {:induction false} OldOfConcat(x: seq<Op>, y: seq<Op>)
    ensures Old(x + y) == Old(x) + Old(y)
    decreases |x|
  {
    if x == [] {
      assert x + y == y;
    } else {
      assert (x + y)[1..] == x[1..] + y;
      OldOfConcat(x[1..], y);
    }
  }

  lemma {:induction false} NewOfConcat(x: seq<Op>, y: seq<Op>)
    ensures New(x + y) == New(x) + New(y)
    decreases |x|
  {
    if x == [] {
      assert x + y == y;
    } else {
      assert (x + y)[1..] == x[1..] + y;
      NewOfConcat(x[1..], y);
    }
  }

  lemma OldNewOfConcat(x: seq<Op>, y: seq<Op>)
    ensures Old(x + y) == Old(x) + Old(y)
    ensures New(x + y) == New(x) + New(y)
  {
    OldOfConcat(x, y);
    NewOfConcat(x, y);
    hide Old, New;
  }

  lemma {:induction false} CountKindOfConcat(x: seq<Op>, y: seq<Op>, k: Kind)
    ensures CountKind(x + y, k) == CountKind(x, k) + CountKind(y, k)
    decreases |x|
  {
    if x == [] {
      assert x + y == y;
    } else {
      assert (x + y)[1..] == x[1..] + y;
      CountKindOfConcat(x[1..], y, k);
    }
  }

  /** Both sides together hold every kept line twice and every changed line once. */
  lemma {:induction false} Bookkeeping(ops: seq<Op>)
    ensures |Old(ops)| == CountKind(ops, Keep) + CountKind(ops, Remove)
    ensures |New(ops)| == CountKind(ops, Keep) + CountKind(ops, Add)
    decreases |ops|
  {
    if ops != [] { Bookkeeping(ops[1..]); }
  }

  // ---- the recurrence -------------------------------------------------------

  /** The recurrence the table holds: common lines still reachable from (i, j). */
  function Lcs(a: seq<string>, b: seq<string>, i: nat, j: nat): (r: nat)
    requires i <= |a| && j <= |b|
    ensures r <= |a| - i && r <= |b| - j
    decreases |a| - i + |b| - j
  {
    if i == |a| || j == |b| then 0
    else if a[i] == b[j] then Lcs(a, b, i + 1, j + 1) + 1
    else
      var down := Lcs(a, b, i + 1, j);
      var right := Lcs(a, b, i, j + 1);
      if down >= right then down else right
  }

  /** Skipping one line on either side loses at most one common line, and gains none. */
  lemma {:induction false} LcsNeighbours(a: seq<string>, b: seq<string>, i: nat, j: nat)
    requires i <= |a| && j <= |b|
    ensures i < |a| ==> Lcs(a, b, i + 1, j) <= Lcs(a, b, i, j) <= Lcs(a, b, i + 1, j) + 1
    ensures j < |b| ==> Lcs(a, b, i, j + 1) <= Lcs(a, b, i, j) <= Lcs(a, b, i, j + 1) + 1
    decreases |a| - i + |b| - j
  {
    if i < |a| && j < |b| {
      LcsNeighbours(a, b, i + 1, j);
      LcsNeighbours(a, b, i, j + 1);
    }
  }

  /** No script keeps more lines than the recurrence promises. */
  lemma {:induction false} KeepsAtMostLcs(s: seq<Op>, a: seq<string>, b: seq<string>, i: nat, j: nat)
    requires i <= |a| && j <= |b|
    requires Edits(s, a[i..], b[j..])
    ensures CountKind(s, Keep) <= Lcs(a, b, i, j)
    decreases |s|
  {
    if s != [] {
      LcsNeighbours(a, b, i, j);
      assert Old(s) == a[i..] && New(s) == b[j..];
      match s[0].kind
      case Keep =>
        assert a[i] == Old(s)[0] && b[j] == New(s)[0];
        assert a[i + 1..] == Old(s)[1..] && b[j + 1..] == New(s)[1..];
        KeepsAtMostLcs(s[1..], a, b, i + 1, j + 1);
      case Remove =>
        assert a[i] == Old(s)[0];
        assert a[i + 1..] == Old(s)[1..];
        KeepsAtMostLcs(s[1..], a, b, i + 1, j);
      case Add =>
        assert b[j] == New(s)[0];
        assert b[j + 1..] == New(s)[1..];
        KeepsAtMostLcs(s[1..], a, b, i, j + 1);
    }
  }

  // ---- the walk -------------------------------------------------------------

  /** The script the walk takes: equal heads kept, otherwise delete on ties. */
  function Script(a: seq<string>, b: seq<string>, i: nat, j: nat): seq<Op>
    requires i <= |a| && j <= |b|
    decreases |a| - i + |b| - j
  {
    if i < |a| && j < |b| then
      if a[i] == b[j] then [Op(Keep, a[i])] + Script(a, b, i + 1, j + 1)
      else if Lcs(a, b, i + 1, j) >= Lcs(a, b, i, j + 1) then [Op(Remove, a[i])] + Script(a, b, i + 1, j)
      else [Op(Add, b[j])] + Script(a, b, i, j + 1)
    else if i < |a| then [Op(Remove, a[i])] + Script(a, b, i + 1, j)
    else if j < |b| then [Op(Add, b[j])] + Script(a, b, i, j + 1)
    else []
  }

  lemma {:induction false} ScriptEdits(a: seq<string>, b: seq<string>, i: nat, j: nat)
    requires i <= |a| && j <= |b|
    ensures Edits(Script(a, b, i, j), a[i..], b[j..])
    ensures CountKind(Script(a, b, i, j), Keep) == Lcs(a, b, i, j)
    decreases |a| - i + |b| - j
  {
    var s := Script(a, b, i, j);
    if i < |a| { assert a[i..] == [a[i]] + a[i + 1..]; }
    if j < |b| { assert b[j..] == [b[j]] + b[j + 1..]; }
    if i < |a| && j < |b| && a[i] == b[j] {
      ScriptEdits(a, b, i + 1, j + 1);
      assert s[1..] == Script(a, b, i + 1, j + 1);
    } else if i < |a| && (j == |b| || Lcs(a, b, i + 1, j) >= Lcs(a, b, i, j + 1)) {
      ScriptEdits(a, b, i + 1, j);
      assert s[1..] == Script(a, b, i + 1, j);
    } else if j < |b| {
      ScriptEdits(a, b, i, j + 1);
      assert s[1..] == Script(a, b, i, j + 1);
    }
  }

  /** The greedy walk loses nothing: no script between the two sides is cheaper. */
  lemma ScriptIsOptimal(a: seq<string>, b: seq<string>, other: seq<Op>)
    requires Edits(other, a, b)
    ensures Edits(Script(a, b, 0, 0), a, b)
    ensures Changes(Script(a, b, 0, 0)) <= Changes(other)
  {
    assert a[0..] == a && b[0..] == b;
    ScriptEdits(a, b, 0, 0);
    KeepsAtMostLcs(other, a, b, 0, 0);
    Bookkeeping(other);
    Bookkeeping(Script(a, b, 0, 0));
  }

  /** After the walk has preferred to add, it does not remove. */
  lemma NoRemoveAfterAdd(a: seq<string>, b: seq<string>, i: nat, j: nat)
    requires i < |a| && j < |b| && a[i] != b[j] && Lcs(a, b, i + 1, j) < Lcs(a, b, i, j + 1)
    ensures var rest := Script(a, b, i, j + 1); rest != [] ==> rest[0].kind != Remove
  {
    LcsNeighbours(a, b, i + 1, j);
    assert j + 1 < |b|;
    if a[i] != b[j + 1] { assert Lcs(a, b, i, j + 1) > Lcs(a, b, i + 1, j + 1); }
  }

  /** On ties the walk deletes: no added line stands directly before a removed one. */
  lemma {:induction false} RemovesFirst(a: seq<string>, b: seq<string>, i: nat, j: nat)
    requires i <= |a| && j <= |b|
    ensures var s := Script(a, b, i, j); forall k | 0 <= k < |s| - 1 && s[k].kind == Add :: s[k + 1].kind != Remove
    decreases |a| - i + |b| - j
  {
    var s := Script(a, b, i, j);
    if i < |a| && j < |b| && a[i] == b[j] {
      RemovesFirst(a, b, i + 1, j + 1);
      assert s[1..] == Script(a, b, i + 1, j + 1);
    } else if i < |a| && (j == |b| || Lcs(a, b, i + 1, j) >= Lcs(a, b, i, j + 1)) {
      RemovesFirst(a, b, i + 1, j);
      assert s[1..] == Script(a, b, i + 1, j);
    } else if j < |b| {
      RemovesFirst(a, b, i, j + 1);
      if i < |a| { NoRemoveAfterAdd(a, b, i, j); }
      assert s[1..] == Script(a, b, i, j + 1);
    }
    forall k | 0 <= k < |s| - 1 && s[k].kind == Add ensures s[k + 1].kind != Remove {
      assert s[k + 1] == s[1..][k];
      if k > 0 { assert s[k] == s[1..][k - 1]; }
    }
  }

  /** Equal heads are kept: wherever the walk stands before two equal lines, it takes both. */
  lemma HeadMoves(o: Op, rest: seq<Op>, k: nat)
    requires 0 < k <= |rest| + 1
    ensures Old(([o] + rest)[..k]) == (if o.kind == Add then [] else [o.text]) + Old(rest[..k - 1])
    ensures New(([o] + rest)[..k]) == (if o.kind == Remove then [] else [o.text]) + New(rest[..k - 1])
  {
    var t := ([o] + rest)[..k];
    assert t[1..] == rest[..k - 1];
  }

  lemma ScriptGoesOn(a: seq<string>, b: seq<string>, i: nat, j: nat) returns (i': nat, j': nat)
    requires i <= |a| && j <= |b| && Script(a, b, i, j) != []
    ensures var o := Script(a, b, i, j)[0];
      && i' == (if o.kind == Add then i else i + 1) && j' == (if o.kind == Remove then j else j + 1) && i' <= |a| && j' <= |b|
      && Script(a, b, i, j) == [o] + Script(a, b, i', j')
      && (i < |a| && j < |b| && a[i] == b[j] ==> o.kind == Keep)
  {
    var o := Script(a, b, i, j)[0];
    i', j' := if o.kind == Add then i else i + 1, if o.kind == Remove then j else j + 1;
    hide Lcs;
  }

  lemma {:induction false} EqualHeadsKept(a: seq<string>, b: seq<string>, i: nat, j: nat, k: nat)
    requires i <= |a| && j <= |b| && k < |Script(a, b, i, j)|
    ensures var s := Script(a, b, i, j);
      var x, y := i + |Old(s[..k])|, j + |New(s[..k])|;
      x < |a| && y < |b| && a[x] == b[y] ==> s[k].kind == Keep
    decreases k
  {
    hide Script;
    var s := Script(a, b, i, j);
    var i', j' := ScriptGoesOn(a, b, i, j);
    if k > 0 {
      var rest := Script(a, b, i', j');
      HeadMoves(s[0], rest, k);
      EqualHeadsKept(a, b, i', j', k - 1);
      assert s[k] == rest[k - 1];
      hide Old, New;
    }
  }

  /** A script without changes exists exactly between equal sides. */
  lemma {:induction false} NoChangesMeansEqual(ops: seq<Op>)
    requires Changes(ops) == 0
    ensures Old(ops) == New(ops)
    ensures forall k | 0 <= k < |ops| :: ops[k].kind == Keep
    decreases |ops|
  {
    if ops != [] {
      NoChangesMeansEqual(ops[1..]);
      assert forall k | 1 <= k < |ops| :: ops[k] == ops[1..][k - 1];
    }
  }

  lemma {:induction false} KeepScript(a: seq<string>) returns (ops: seq<Op>)
    ensures Edits(ops, a, a) && Changes(ops) == 0
    decreases |a|
  {
    ops := [];
    if a != [] {
      var rest := KeepScript(a[1..]);
      ops := [Op(Keep, a[0])] + rest;
      assert ops[1..] == rest;
    }
  }

  lemma ScriptChangesNothing(a: seq<string>, b: seq<string>)
    ensures Changes(Script(a, b, 0, 0)) == 0 <==> a == b
  {
    assert a[0..] == a && b[0..] == b;
    ScriptEdits(a, b, 0, 0);
    if a == b {
      var ops := KeepScript(a);
      ScriptIsOptimal(a, b, ops);
    }
    if Changes(Script(a, b, 0, 0)) == 0 { NoChangesMeansEqual(Script(a, b, 0, 0)); }
  }

  ghost predicate Sized(before: seq<string>, after: seq<string>, table: array2<uint32>) {
    |before| <= MAX_LINES && |after| <= MAX_LINES
    && table.Length0 == |before| + 1 && table.Length1 == |after| + 1
  }

  /** From column `from` on, row `p` of the table holds the recurrence. */
  ghost predicate RowHolds(before: seq<string>, after: seq<string>, table: array2<uint32>, p: nat, from: nat)
    requires Sized(before, after, table) && p <= |before|
    reads table
  {
    forall q | from <= q <= |after| :: table[p, q] as int == Lcs(before, after, p, q)
  }

  /** Fill one row right to left from the row below it. */
  method FillRow(before: seq<string>, after: seq<string>, table: array2<uint32>, i: nat)
    requires Sized(before, after, table) && i < |before|
    requires RowHolds(before, after, table, i + 1, 0)
    requires table[i, |after|] == 0
    modifies table
    ensures RowHolds(before, after, table, i, 0)
    ensures forall p, q | 0 <= p <= |before| && p != i && 0 <= q <= |after| :: table[p, q] == old(table[p, q])
  {
    var j := |after|;
    while j > 0
      invariant 0 <= j <= |after|
      invariant RowHolds(before, after, table, i + 1, 0)
      invariant RowHolds(before, after, table, i, j)
      invariant forall p, q | 0 <= p <= |before| && p != i && 0 <= q <= |after| :: table[p, q] == old(table[p, q])
    {
      j := j - 1;
      if before[i] == after[j] {
        table[i, j] := table[i + 1, j + 1] + 1;
      } else {
        table[i, j] := if table[i + 1, j] >= table[i, j + 1] then table[i + 1, j] else table[i, j + 1];
      }
    }
  }

  /** Fill the table bottom-up, in place, one typed row per line of `before`. */
  method FillTable(before: seq<string>, after: seq<string>) returns (table: array2<uint32>)
    requires |before| <= MAX_LINES && |after| <= MAX_LINES
    ensures fresh(table) && Sized(before, after, table)
    ensures forall p | 0 <= p <= |before| :: RowHolds(before, after, table, p, 0)
  {
    table := new uint32[|before| + 1, |after| + 1]((_, _) => 0);
    var i := |before|;
    assert RowHolds(before, after, table, i, 0);
    while i > 0
      invariant 0 <= i <= |before|
      invariant forall p | i <= p <= |before| :: RowHolds(before, after, table, p, 0)
      invariant forall p | 0 <= p <= |before| :: table[p, |after|] == 0
    {
      i := i - 1;
      label Above:
      FillRow(before, after, table, i);
      assert table[i, |after|] as int == Lcs(before, after, i, |after|);
      forall p | i < p <= |before| ensures RowHolds(before, after, table, p, 0) {
        assert old@Above(RowHolds(before, after, table, p, 0));
      }
    }
  }

  lemma Push<T>(xs: seq<T>, x: T, rest: seq<T>)
    ensures xs + ([x] + rest) == (xs + [x]) + rest
  {
  }

  /** Walk the table from the top-left corner with two cursors. */
  method Walk(before: seq<string>, after: seq<string>, table: array2<uint32>) returns (ops: seq<Op>)
    requires Sized(before, after, table)
    requires forall p | 0 <= p <= |before| :: RowHolds(before, after, table, p, 0)
    ensures ops == Script(before, after, 0, 0)
  {
    var n, m := |before|, |after|;
    var i, j := 0, 0;
    ops := [];
    ghost var whole := Script(before, after, 0, 0);
    while i < n && j < m
      invariant 0 <= i <= n && 0 <= j <= m
      invariant ops + Script(before, after, i, j) == whole
      decreases n - i + m - j
    {
      if before[i] == after[j] {
        Push(ops, Op(Keep, before[i]), Script(before, after, i + 1, j + 1));
        ops := ops + [Op(Keep, before[i])];
        i, j := i + 1, j + 1;
      } else if table[i + 1, j] >= table[i, j + 1] {
        assert RowHolds(before, after, table, i, 0) && RowHolds(before, after, table, i + 1, 0);
        Push(ops, Op(Remove, before[i]), Script(before, after, i + 1, j));
        ops := ops + [Op(Remove, before[i])];
        i := i + 1;
      } else {
        assert RowHolds(before, after, table, i, 0) && RowHolds(before, after, table, i + 1, 0);
        Push(ops, Op(Add, after[j]), Script(before, after, i, j + 1));
        ops := ops + [Op(Add, after[j])];
        j := j + 1;
      }
    }
    while i < n
      invariant 0 <= i <= n && 0 <= j <= m && (i < n ==> j == m)
      invariant ops + Script(before, after, i, j) == whole
    {
      Push(ops, Op(Remove, before[i]), Script(before, after, i + 1, j));
      ops := ops + [Op(Remove, before[i])];
      i := i + 1;
    }
    while j < m
      invariant i == n && 0 <= j <= m
      invariant ops + Script(before, after, i, j) == whole
    {
      Push(ops, Op(Add, after[j]), Script(before, after, i, j + 1));
      ops := ops + [Op(Add, after[j])];
      j := j + 1;
    }
    assert Script(before, after, n, m) == [];
  }

  /**
   * An optimal edit script, or `None` when the pair is past the line cap, in
   * which case no table is allocated.
   */
  method Operations(before: seq<string>, after: seq<string>) returns (r: Option<seq<Op>>)
    ensures r.None? <==> |before| > 3000 || |after| > 3000
    ensures r.Some? ==> r.value == Script(before, after, 0, 0)
    ensures r.Some? ==> Edits(r.value, before, after)
    ensures r.Some? ==> forall other | Edits(other, before, after) :: Changes(r.value) <= Changes(other)
  {
    if |before| > MAX_LINES || |after| > MAX_LINES { return None; }
    var table := FillTable(before, after);
    var ops := Walk(before, after, table);
    forall other | Edits(other, before, after) ensures Changes(ops) <= Changes(other) {
      ScriptIsOptimal(before, after, other);
    }
    assert before[0..] == before && after[0..] == after;
    ScriptEdits(before, after, 0, 0);
    return Some(ops);
  }

  // ---- lines ----------------------------------------------------------------

  /** Split that invents no empty last line for a text ending in LF. */
  function Lines(text: string): (r: seq<string>)
    ensures forall l | l in r :: '\n' !in l
  {
    var normalised := FoldCrLf(text);
    if normalised == "" then []
    else
      var out := Split(normalised, '\n');
      if out[|out| - 1] == "" then out[..|out| - 1] else out
  }

  /** A text with CRLF folded and one final LF dropped. */
  function Canonical(text: string): string {
    var s := FoldCrLf(text);
    if EndsWith(s, '\n') then s[..|s| - 1] else s
  }

  lemma {:induction false} SplitAtEnd(s: string)
    ensures Split(s + "\n", '\n') == Split(s, '\n') + [""]
    decreases |s|
  {
    if s == "" {
      assert s + "\n" == "\n" && "\n"[1..] == "";
    } else {
      assert (s + "\n")[1..] == s[1..] + "\n";
      SplitAtEnd(s[1..]);
    }
  }

  lemma {:induction false} LastPieceEmpty(s: string)
    requires s != ""
    ensures var out := Split(s, '\n'); out[|out| - 1] == "" <==> EndsWith(s, '\n')
    decreases |s|
  {
    if |s| == 1 {
      assert s[1..] == "";
    } else {
      LastPieceEmpty(s[1..]);
      var rest := Split(s[1..], '\n');
      if s[0] != '\n' && |rest| == 1 {
        SplitLength(s[1..], '\n');
        CountZero(s[1..], '\n');
        assert s[|s| - 1] == s[1..][|s| - 2];
      }
    }
  }

  lemma LinesOfCanonical(text: string)
    requires FoldCrLf(text) != ""
    ensures Lines(text) == Split(Canonical(text), '\n')
  {
    hide FoldCrLf, Split;
    var s := FoldCrLf(text);
    LastPieceEmpty(s);
    if EndsWith(s, '\n') {
      var t := s[..|s| - 1];
      assert s == t + "\n";
      SplitAtEnd(t);
      assert (Split(t, '\n') + [""])[..|Split(t, '\n')|] == Split(t, '\n');
    }
  }

  /**
   * What the diff cannot see: two texts have the same lines exactly when they
   * differ at most in CRLF against LF and in one final line end, and either
   * both or neither are empty.
   */
  lemma SameLines(x: string, y: string)
    ensures Lines(x) == Lines(y)
       <==> Canonical(x) == Canonical(y) && (FoldCrLf(x) == "" <==> FoldCrLf(y) == "")
  {
    if FoldCrLf(x) != "" { LinesOfCanonical(x); JoinOfSplit(Canonical(x), '\n'); }
    if FoldCrLf(y) != "" { LinesOfCanonical(y); JoinOfSplit(Canonical(y), '\n'); }
  }

  // ---- context and hunks ----------------------------------------------------

  /** The mask shows an operation exactly when a change lies within three of it. */
  lemma ShownWithinThree(ops: seq<Op>, k: nat)
    requires k < |ops|
    ensures Mask(ops)[k] <==> exists c :: 0 <= c < |ops| && -3 <= c - k <= 3 && ops[c].kind != Keep
  {
    if c :| 0 <= c < |ops| && -3 <= c - k <= 3 && ops[c].kind != Keep { assert Shown(ops, k); }
  }

  /** An operation is shown when a change lies within CONTEXT operations of it. */
  predicate Shown(ops: seq<Op>, k: int)
    requires 0 <= k < |ops|
  {
    exists c :: 0 <= c < |ops| && k - CONTEXT <= c <= k + CONTEXT && ops[c].kind != Keep
  }

  ghost predicate IsMask(keep: seq<bool>, ops: seq<Op>) {
    |keep| == |ops| && forall k | 0 <= k < |ops| :: keep[k] <==> Shown(ops, k)
  }

  function Mask(ops: seq<Op>): (keep: seq<bool>)
    ensures IsMask(keep, ops)
  {
    seq(|ops|, k requires 0 <= k < |ops| => Shown(ops, k))
  }

  function RunEnd(keep: seq<bool>, i: nat): (e: nat)
    requires i <= |keep|
    ensures i <= e <= |keep|
    ensures forall k | i <= k < e :: keep[k]
    ensures e < |keep| ==> !keep[e]
    decreases |keep| - i
  {
    if i < |keep| && keep[i] then RunEnd(keep, i + 1) else i
  }

  /** Cut the shown runs out of the script, numbering lines from the two counters. */
  function Cut(ops: seq<Op>, keep: seq<bool>, i: nat, oldLine: int, newLine: int): seq<Hunk>
    requires |keep| == |ops| && i <= |ops|
    decreases |ops| - i
  {
    if i == |ops| then []
    else if !keep[i] then
      Cut(ops, keep, i + 1,
          if ops[i].kind != Add then oldLine + 1 else oldLine,
          if ops[i].kind != Remove then newLine + 1 else newLine)
    else
      var e := RunEnd(keep, i);
      var run := ops[i..e];
      [Hunk(oldLine, |Old(run)|, newLine, |New(run)|, run)]
      + Cut(ops, keep, e, oldLine + |Old(run)|, newLine + |New(run)|)
  }

  function Hunks(ops: seq<Op>): seq<Hunk> { Cut(ops, Mask(ops), 0, 1, 1) }

  // ---- printing -------------------------------------------------------------

  function Symbol(k: Kind): char {
    match k case Keep => ' ' case Add => '+' case Remove => '-'
  }

  function PrintOp(op: Op): string { [Symbol(op.kind)] + op.text }

  function PrintOps(ops: seq<Op>): (r: seq<string>)
    ensures |r| == |ops|
  {
    if ops == [] then [] else [PrintOp(ops[0])] + PrintOps(ops[1..])
  }

  function Range(start: nat, span: nat, rest: string): string {
    Decimal(start) + ("," + (Decimal(span) + rest))
  }

  function Header(oldStart: nat, oldSpan: nat, newStart: nat, newSpan: nat): string {
    "@@ -" + Range(oldStart, oldSpan, " +" + Range(newStart, newSpan, " @@"))
  }

  /** Line numbers printed in headers are never negative. */
  predicate Numbered(h: Hunk) { h.oldStart >= 0 && h.oldSpan >= 0 && h.newStart >= 0 && h.newSpan >= 0 }

  function PrintHunk(h: Hunk): seq<string>
    requires Numbered(h)
  {
    [Header(h.oldStart, h.oldSpan, h.newStart, h.newSpan)] + PrintOps(h.ops)
  }

  function PrintHunks(hs: seq<Hunk>): seq<string>
    requires forall h | h in hs :: Numbered(h)
  {
    if hs == [] then [] else PrintHunk(hs[0]) + PrintHunks(hs[1..])
  }

  function FileHeader(path: string): seq<string> {
    if path == "" then [] else ["--- a/" + path, "+++ b/" + path]
  }

  lemma {:induction false} CutIsNumbered(ops: seq<Op>, keep: seq<bool>, i: nat, oldLine: int, newLine: int)
    requires |keep| == |ops| && i <= |ops| && oldLine >= 0 && newLine >= 0
    ensures forall h | h in Cut(ops, keep, i, oldLine, newLine) :: Numbered(h)
    decreases |ops| - i
  {
    if i < |ops| {
      if keep[i] {
        var e := RunEnd(keep, i);
        CutIsNumbered(ops, keep, e, oldLine + |Old(ops[i..e])|, newLine + |New(ops[i..e])|);
      } else {
        CutIsNumbered(ops, keep, i + 1,
          if ops[i].kind != Add then oldLine + 1 else oldLine,
          if ops[i].kind != Remove then newLine + 1 else newLine);
      }
    }
  }

  lemma {:induction false} PrintHunksOfConcat(x: seq<Hunk>, y: seq<Hunk>)
    requires forall h | h in x + y :: Numbered(h)
    ensures forall h | h in x :: h in x + y
    ensures forall h | h in y :: h in x + y
    ensures PrintHunks(x + y) == PrintHunks(x) + PrintHunks(y)
    decreases |x|
  {
    if x == [] {
      assert x + y == y;
    } else {
      assert (x + y)[1..] == x[1..] + y;
      PrintHunksOfConcat(x[1..], y);
    }
  }

  lemma {:induction false} PrintOpsOfConcat(x: seq<Op>, y: seq<Op>)
    ensures PrintOps(x + y) == PrintOps(x) + PrintOps(y)
    decreases |x|
  {
    if x == [] {
      assert x + y == y;
    } else {
      assert (x + y)[1..] == x[1..] + y;
      PrintOpsOfConcat(x[1..], y);
    }
  }

  /** The printed diff of two texts, as one value. */
  function Unify(before: string, after: string, path: string): UnifiedDiff {
    var left, right := Lines(before), Lines(after);
    if before == after then UnifiedDiff("", Stat(0, 0), false)
    else if |left| > MAX_LINES || |right| > MAX_LINES then UnifiedDiff("", Stat(|right|, |left|), true)
    else
      var ops := Script(left, right, 0, 0);
      var stat := Stat(CountKind(ops, Add), CountKind(ops, Remove));
      if Changes(ops) == 0 then UnifiedDiff("", stat, false)
      else
        CutIsNumbered(ops, Mask(ops), 0, 1, 1);
        UnifiedDiff(Join(FileHeader(path) + PrintHunks(Hunks(ops)), "\n"), stat, false)
  }

  /** Print one hunk: everything kept, until the first dropped operation. */
  method PrintRun(ops: seq<Op>, keep: seq<bool>, start: nat)
    returns (hunk: seq<string>, oldSpan: nat, newSpan: nat, i: nat)
    requires |keep| == |ops| && start < |ops| && keep[start]
    ensures i == RunEnd(keep, start)
    ensures hunk == PrintOps(ops[start..i])
    ensures oldSpan == |Old(ops[start..i])| && newSpan == |New(ops[start..i])|
  {
    hunk, oldSpan, newSpan, i := [], 0, 0, start;
    while i < |ops| && keep[i]
      invariant start <= i <= |ops|
      invariant RunEnd(keep, i) == RunEnd(keep, start)
      invariant hunk == PrintOps(ops[start..i])
      invariant oldSpan == |Old(ops[start..i])| && newSpan == |New(ops[start..i])|
    {
      assert ops[start..i + 1] == ops[start..i] + [ops[i]];
      OldNewOfConcat(ops[start..i], [ops[i]]);
      PrintOpsOfConcat(ops[start..i], [ops[i]]);
      hunk := hunk + [PrintOp(ops[i])];
      if ops[i].kind != Add { oldSpan := oldSpan + 1; }
      if ops[i].kind != Remove { newSpan := newSpan + 1; }
      i := i + 1;
    }
  }

  /** What the cursor finds at `i`. */
  lemma CutStep(ops: seq<Op>, keep: seq<bool>, i: nat, oldLine: int, newLine: int)
    requires |keep| == |ops| && i <= |ops|
    ensures Cut(ops, keep, i, oldLine, newLine)
         == if i == |ops| then []
            else if !keep[i] then
              Cut(ops, keep, i + 1, if ops[i].kind != Add then oldLine + 1 else oldLine, if ops[i].kind != Remove then newLine + 1 else newLine)
            else
              var run := ops[i..RunEnd(keep, i)];
              [Hunk(oldLine, |Old(run)|, newLine, |New(run)|, run)]
              + Cut(ops, keep, RunEnd(keep, i), oldLine + |Old(run)|, newLine + |New(run)|)
  {
  }

  lemma NoHunks()
    ensures PrintHunks([]) == []
  {
  }

  lemma PrintOneMore(done: seq<Hunk>, h: Hunk)
    requires (forall x | x in done :: Numbered(x)) && Numbered(h)
    ensures PrintHunks(done + [h]) == PrintHunks(done) + [Header(h.oldStart, h.oldSpan, h.newStart, h.newSpan)] + PrintOps(h.ops)
  {
    PrintHunksOfConcat(done, [h]);
    assert PrintHunks([h]) == PrintHunk(h) + PrintHunks([]);
  }

  /** One hunk goes from what is left to what is done. */
  lemma PrintedStep(done: seq<Hunk>, h: Hunk, rest: seq<Hunk>, all: seq<Hunk>)
    requires done + ([h] + rest) == all && forall x | x in all :: Numbered(x)
    ensures Numbered(h) && (forall x | x in done :: Numbered(x)) && (forall x | x in done + [h] :: Numbered(x))
    ensures (done + [h]) + rest == all
    ensures PrintHunks(done + [h]) == PrintHunks(done) + [Header(h.oldStart, h.oldSpan, h.newStart, h.newSpan)] + PrintOps(h.ops)
  {
    assert (done + [h]) + rest == all;
    assert forall x | x in done + [h] :: x in (done + [h]) + rest;
    assert h in done + [h];
    hide PrintHunks, Header, PrintOps, Numbered;
    PrintOneMore(done, h);
  }

  /** The hunk of the run that starts at `i`. */
  function HunkAt(ops: seq<Op>, keep: seq<bool>, i: nat, oldLine: int, newLine: int): Hunk
    requires |keep| == |ops| && i < |ops|
  {
    var run := ops[i..RunEnd(keep, i)];
    Hunk(oldLine, |Old(run)|, newLine, |New(run)|, run)
  }

  lemma PrintedRun(ops: seq<Op>, keep: seq<bool>, i: nat, oldLine: nat, newLine: nat, done: seq<Hunk>, all: seq<Hunk>)
    requires |keep| == |ops| && i < |ops| && keep[i] && done + Cut(ops, keep, i, oldLine, newLine) == all && forall x | x in all :: Numbered(x)
    ensures var h := HunkAt(ops, keep, i, oldLine, newLine);
      (done + [h]) + Cut(ops, keep, RunEnd(keep, i), oldLine + h.oldSpan, newLine + h.newSpan) == all
    ensures forall x | x in done + [HunkAt(ops, keep, i, oldLine, newLine)] :: Numbered(x)
    ensures var h := HunkAt(ops, keep, i, oldLine, newLine);
      PrintHunks(done + [h]) == PrintHunks(done) + [Header(oldLine, h.oldSpan, newLine, h.newSpan)] + PrintOps(h.ops)
  {
    CutStep(ops, keep, i, oldLine, newLine);
    var h := HunkAt(ops, keep, i, oldLine, newLine);
    hide PrintHunk, PrintHunks, RunEnd, Old, New, Cut, Numbered, Header, PrintOps;
    PrintedStep(done, h, Cut(ops, keep, RunEnd(keep, i), oldLine + h.oldSpan, newLine + h.newSpan), all);
  }

  /** Cut and print every hunk, counting lines as the cursor moves. */
  method PrintAll(ops: seq<Op>, keep: seq<bool>) returns (out: seq<string>)
    requires |keep| == |ops|
    ensures forall h | h in Cut(ops, keep, 0, 1, 1) :: Numbered(h)
    ensures out == PrintHunks(Cut(ops, keep, 0, 1, 1))
  {
    CutIsNumbered(ops, keep, 0, 1, 1);
    hide PrintHunk, PrintHunks, RunEnd, Old, New, Cut, Numbered, Header, PrintOps;
    NoHunks();
    ghost var all := Cut(ops, keep, 0, 1, 1);
    out := [];
    ghost var done: seq<Hunk> := [];
    var oldLine: nat, newLine: nat, i := 1, 1, 0;
    assert done + all == all;
    while i < |ops|
      invariant 0 <= i <= |ops|
      invariant done + Cut(ops, keep, i, oldLine, newLine) == all
      invariant forall h | h in done :: Numbered(h)
      invariant out == PrintHunks(done)
    {
      if !keep[i] {
        CutStep(ops, keep, i, oldLine, newLine);
        if ops[i].kind != Add { oldLine := oldLine + 1; }
        if ops[i].kind != Remove { newLine := newLine + 1; }
        i := i + 1;
      } else {
        PrintedRun(ops, keep, i, oldLine, newLine, done, all);
        var hunk, oldSpan, newSpan, e := PrintRun(ops, keep, i);
        out := out + [Header(oldLine, oldSpan, newLine, newSpan)] + hunk;
        done := done + [HunkAt(ops, keep, i, oldLine, newLine)];
        oldLine, newLine, i := oldLine + oldSpan, newLine + newSpan, e;
      }
    }
    CutStep(ops, keep, |ops|, oldLine, newLine);
    assert done + [] == done;
  }

  method CountChanges(ops: seq<Op>) returns (stat: Stat)
    ensures stat == Stat(CountKind(ops, Add), CountKind(ops, Remove))
  {
    var added, removed := 0, 0;
    for k := 0 to |ops|
      invariant added == CountKind(ops[..k], Add) && removed == CountKind(ops[..k], Remove)
    {
      assert ops[..k + 1] == ops[..k] + [ops[k]];
      CountKindOfConcat(ops[..k], [ops[k]], Add);
      CountKindOfConcat(ops[..k], [ops[k]], Remove);
      if ops[k].kind == Add { added := added + 1; }
      if ops[k].kind == Remove { removed := removed + 1; }
    }
    assert ops[..|ops|] == ops;
    stat := Stat(added, removed);
  }

  /** The whole diff: lines, script, counts, context, hunks, text. */
  method Unified(before: string, after: string, path: string) returns (d: UnifiedDiff)
    ensures d == Unify(before, after, path)
  {
    if before == after { return UnifiedDiff("", Stat(0, 0), false); }
    var left, right := Lines(before), Lines(after);
    var found := Operations(left, right);
    if found.None? { return UnifiedDiff("", Stat(|right|, |left|), true); }
    var ops := found.value;
    var stat := CountChanges(ops);
    var keep := MarkContext(ops);
    if stat.added == 0 && stat.removed == 0 { return UnifiedDiff("", stat, false); }
    var out := PrintAll(ops, keep);
    return UnifiedDiff(Join(FileHeader(path) + out, "\n"), stat, false);
  }

  /** Spread every change over its context, in a boolean array. */
  method MarkContext(ops: seq<Op>) returns (mask: seq<bool>)
    ensures mask == Mask(ops)
  {
    var keep := new bool[|ops|](_ => false);
    for i := 0 to |ops|
      invariant forall k | 0 <= k < |ops| ::
        keep[k] <==> exists c :: 0 <= c < i && k - CONTEXT <= c <= k + CONTEXT && ops[c].kind != Keep
    {
      if ops[i].kind != Keep {
        var lo := if i - CONTEXT > 0 then i - CONTEXT else 0;
        var hi := if i + CONTEXT < |ops| - 1 then i + CONTEXT else |ops| - 1;
        for k := lo to hi + 1
          invariant forall x | 0 <= x < |ops| ::
            keep[x] <==> (lo <= x < k || exists c :: 0 <= c < i && x - CONTEXT <= c <= x + CONTEXT && ops[c].kind != Keep)
        {
          keep[k] := true;
        }
      }
    }
    mask := keep[..];
  }

  /** Lines joined by either line end, with a final one or without, are those lines. */
  lemma LinesOfJoined(ls: seq<string>, last: string)
    requires ls != [] && (last == "" || last == "\n") && (last == "" ==> ls[|ls| - 1] != "")
    requires forall l | l in ls :: '\n' !in l && '\r' !in l
    ensures var text := Join(ls, "\n") + last; Lines(text) == ls && Lines(ToCrLf(text)) == ls
  {
    var text := Join(ls, "\n") + last;
    var ls' := if last == "" then ls else ls + [""];
    JoinEnded(ls);
    assert text == Join(ls', "\n") by { if last == "" { assert text == Join(ls, "\n"); } }
    NoCrInJoin(ls');
    SplitOfJoin(ls', '\n');
    FoldWithoutCr(text);
    FoldOfToCrLf(text);
    assert (ls + [""])[..|ls|] == ls;
    assert Split("", '\n') == [""] != ls';
    hide Split, Join, FoldCrLf, ToCrLf;
  }

  lemma {:induction false} JoinEnded(ls: seq<string>)
    requires ls != []
    ensures Join(ls + [""], "\n") == Join(ls, "\n") + "\n"
    decreases |ls|
  {
    assert (ls + [""])[1..] == ls[1..] + [""];
    if |ls| == 1 {
      assert ls[1..] + [""] == [""];
    } else {
      JoinEnded(ls[1..]);
    }
  }

  lemma {:induction false} NoCrInJoin(ls: seq<string>)
    requires forall l | l in ls :: '\r' !in l
    ensures '\r' !in Join(ls, "\n")
    decreases |ls|
  {
    if |ls| > 1 { NoCrInJoin(ls[1..]); }
  }
}
