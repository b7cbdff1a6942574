// The gate ladder: stage by attempt, derived from the history of gate runs.
module Ladder {
  import opened Text

  datatype Stage = Stage(name: string, ok: bool, content: string)
  datatype Gate = Gate(kind: string, stages: seq<Stage>, notRun: seq<string>, blockedBy: string)
  datatype GateRun = GateRun(turn: int, attempt: int, gate: Gate)

  datatype LadderRow = LadderRow(name: string, cells: seq<Option<Stage>>)
  datatype GateLadder = GateLadder(attempts: seq<int>, rows: seq<LadderRow>, notRun: seq<string>, blockedBy: string)

  // ---- what a ladder is -----------------------------------------------------

  /** Every stage result in the order it was recorded, with its attempt. */
  function Results(gates: seq<GateRun>): seq<(int, Stage)> {
    if gates == [] then []
    else Results(gates[..|gates| - 1]) + Stamped(gates[|gates| - 1].attempt, gates[|gates| - 1].gate.stages)
  }

  function Stamped(attempt: int, stages: seq<Stage>): seq<(int, Stage)> {
    seq(|stages|, k requires 0 <= k < |stages| => (attempt, stages[k]))
  }

  /** Results are all of one stage name up to an index: the name's first appearance. */
  ghost predicate FirstAt(results: seq<(int, Stage)>, name: string, k: int) {
    0 <= k < |results| && results[k].1.name == name && forall j | 0 <= j < k :: results[j].1.name != name
  }

  ghost predicate Appears(results: seq<(int, Stage)>, name: string) { exists k :: FirstAt(results, name, k) }

  /** The last result recorded for a stage in an attempt. */
  ghost predicate LastAt(results: seq<(int, Stage)>, name: string, attempt: int, k: int) {
    && 0 <= k < |results| && results[k].0 == attempt && results[k].1.name == name
    && forall j | k < j < |results| :: !(results[j].0 == attempt && results[j].1.name == name)
  }

  /** Names are distinct, cover the results, and stand in order of first appearance. */
  ghost predicate Appearances(results: seq<(int, Stage)>, names: seq<string>) {
    && (forall i | 0 <= i < |names| :: Appears(results, names[i]))
    && (forall k | 0 <= k < |results| :: results[k].1.name in names)
    && (forall i, j, k, m | 0 <= i < j < |names| && FirstAt(results, names[i], k) && FirstAt(results, names[j], m) :: k < m)
  }

  ghost predicate CellIs(results: seq<(int, Stage)>, name: string, attempt: int, cell: Option<Stage>) {
    match cell
    case Some(stage) => exists k :: LastAt(results, name, attempt, k) && results[k].1 == stage
    case None => forall k | 0 <= k < |results| :: !(results[k].0 == attempt && results[k].1.name == name)
  }

  ghost predicate Ascending(xs: seq<int>) { forall i, j | 0 <= i < j < |xs| :: xs[i] < xs[j] }

  ghost predicate AttemptsOf(gates: seq<GateRun>, attempts: seq<int>) {
    && (forall g | g in gates :: g.attempt in attempts)
    && (forall a | a in attempts :: exists g :: g in gates && g.attempt == a)
  }

  function Names(rows: seq<LadderRow>): (r: seq<string>)
    ensures |r| == |rows|
  {
    seq(|rows|, k requires 0 <= k < |rows| => rows[k].name)
  }

  /** Columns ascending, rows in first-appearance order, each cell the last word on it. */
  ghost predicate IsLadder(gates: seq<GateRun>, l: GateLadder) {
    && Ascending(l.attempts) && AttemptsOf(gates, l.attempts)
    && Appearances(Results(gates), Names(l.rows))
    && (forall r | r in l.rows :: RowIs(Results(gates), l.attempts, r))
    && l.notRun == (if gates == [] then [] else gates[|gates| - 1].gate.notRun)
    && l.blockedBy == (if gates == [] then "" else gates[|gates| - 1].gate.blockedBy)
  }

  // ---- a ladder is determined by the history --------------------------------

  lemma LastIsLargest(xs: seq<int>)
    requires Ascending(xs) && xs != []
    ensures forall v :: v in xs[..|xs| - 1] <==> v in xs && v != xs[|xs| - 1]
    ensures forall v | v in xs :: v <= xs[|xs| - 1]
    ensures Ascending(xs[..|xs| - 1])
  {
    var init, last := xs[..|xs| - 1], xs[|xs| - 1];
    assert xs == init + [last];
  }

  lemma NonEmptyToo(xs: seq<int>, ys: seq<int>)
    requires forall x :: x in xs ==> x in ys
    requires xs != []
    ensures ys != []
  {
    var x := xs[0];
    assert x in xs && x in ys;
  }

  lemma {:induction false} AscendingUnique(xs: seq<int>, ys: seq<int>)
    requires Ascending(xs) && Ascending(ys)
    requires forall x :: x in xs <==> x in ys
    ensures xs == ys
    decreases |xs|
  {
    if xs != [] { NonEmptyToo(xs, ys); }
    if ys != [] { NonEmptyToo(ys, xs); }
    if xs != [] {
      assert xs[|xs| - 1] in xs && ys[|ys| - 1] in ys;
      LastIsLargest(xs);
      LastIsLargest(ys);
      hide Ascending;
      var x, y := xs[|xs| - 1], ys[|ys| - 1];
      assert x in ys && y in xs && x == y;
      var xs', ys' := xs[..|xs| - 1], ys[..|ys| - 1];
      forall v ensures v in xs' <==> v in ys' {
        assert v in xs <==> v in ys;
      }
      AscendingUnique(xs', ys');
      assert xs == xs[..|xs| - 1] + [x] && ys == ys[..|ys| - 1] + [y];
    }
  }

  /** Two lists of names in first-appearance order are the same list. */
  lemma AppearancesUnique(results: seq<(int, Stage)>, xs: seq<string>, ys: seq<string>)
    requires Appearances(results, xs) && Appearances(results, ys)
    ensures xs == ys
  {
    var px, py := Positions(results, xs), Positions(results, ys);
    forall v ensures v in px <==> v in py {
      SamePositions(results, xs, ys, v);
      SamePositions(results, ys, xs, v);
    }
    AscendingUnique(px, py);
    forall i | 0 <= i < |xs| ensures xs[i] == ys[i] {
      assert FirstAt(results, xs[i], px[i]) && FirstAt(results, ys[i], py[i]);
    }
  }

  ghost function Positions(results: seq<(int, Stage)>, xs: seq<string>): (r: seq<int>)
    requires Appearances(results, xs)
    ensures |r| == |xs| && Ascending(r)
    ensures forall i | 0 <= i < |xs| :: FirstAt(results, xs[i], r[i])
  {
    seq(|xs|, i requires 0 <= i < |xs| => PositionOf(results, xs[i]))
  }

  ghost function PositionOf(results: seq<(int, Stage)>, name: string): (k: int)
    requires Appears(results, name)
    ensures FirstAt(results, name, k)
  {
    var k :| FirstAt(results, name, k); k
  }

  lemma SamePositions(results: seq<(int, Stage)>, xs: seq<string>, ys: seq<string>, v: int)
    requires Appearances(results, xs) && Appearances(results, ys)
    ensures v in Positions(results, xs) ==> v in Positions(results, ys)
  {
    if v in Positions(results, xs) {
      var i :| 0 <= i < |xs| && Positions(results, xs)[i] == v;
      assert FirstAt(results, xs[i], v);
      assert results[v].1.name in ys;
      var j :| 0 <= j < |ys| && ys[j] == xs[i];
      assert FirstAt(results, ys[j], Positions(results, ys)[j]);
      assert Positions(results, ys)[j] == v;
    }
  }

  lemma CellUnique(results: seq<(int, Stage)>, name: string, attempt: int, x: Option<Stage>, y: Option<Stage>)
    requires CellIs(results, name, attempt, x) && CellIs(results, name, attempt, y)
    ensures x == y
  {
    if x.Some? && y.Some? {
      var k :| LastAt(results, name, attempt, k) && results[k].1 == x.value;
      var m :| LastAt(results, name, attempt, m) && results[m].1 == y.value;
      assert k == m;
    }
  }

  /** A remembered ladder equals any rebuild from the same history. */
  lemma LadderUnique(gates: seq<GateRun>, x: GateLadder, y: GateLadder)
    requires IsLadder(gates, x) && IsLadder(gates, y)
    ensures x == y
  {
    forall a ensures a in x.attempts <==> a in y.attempts {
      if a in x.attempts { var g :| g in gates && g.attempt == a; }
      if a in y.attempts { var g :| g in gates && g.attempt == a; }
    }
    AscendingUnique(x.attempts, y.attempts);
    AppearancesUnique(Results(gates), Names(x.rows), Names(y.rows));
    assert |x.rows| == |Names(x.rows)| == |y.rows|;
    forall i | 0 <= i < |x.rows| ensures x.rows[i] == y.rows[i] {
      var r, s := x.rows[i], y.rows[i];
      assert r in x.rows && s in y.rows;
      assert r.name == Names(x.rows)[i] == Names(y.rows)[i] == s.name;
      forall k | 0 <= k < |x.attempts| ensures r.cells[k] == s.cells[k] {
        CellUnique(Results(gates), r.name, x.attempts[k], r.cells[k], s.cells[k]);
      }
      assert r.cells == s.cells;
    }
  }

  // ---- building one ---------------------------------------------------------

  /** `attempts.sort((a, b) => a - b)`, for distinct attempts. */
  function Insert(xs: seq<int>, x: int): (r: seq<int>)
    requires Ascending(xs) && x !in xs
    ensures Ascending(r) && forall v :: v in r <==> v in xs || v == x
  {
    if xs == [] || x < xs[0] then [x] + xs
    else
      assert forall v :: v in xs <==> v == xs[0] || v in xs[1..];
      var tail := Insert(xs[1..], x);
      assert forall v | v in xs[1..] :: xs[0] < v;
      assert xs[0] in xs && xs[0] < x;
      assert forall k | 0 <= k < |tail| :: tail[k] in tail && xs[0] < tail[k];
      [xs[0]] + tail
  }

  function Sorted(xs: seq<int>): (r: seq<int>)
    requires forall i, j | 0 <= i < j < |xs| :: xs[i] != xs[j]
    ensures Ascending(r) && forall v :: v in r <==> v in xs
  {
    if xs == [] then []
    else
      assert forall v :: v in xs <==> v == xs[0] || v in xs[1..];
      Insert(Sorted(xs[1..]), xs[0])
  }

  /** The stages seen so far: row order, and the cell each name and attempt holds. */
  class Table {
    var order: seq<string>
    var cells: map<string, map<int, Stage>>
    ghost var results: seq<(int, Stage)>

    ghost predicate Valid()
      reads this
    {
      && Appearances(results, order)
      && (forall name :: name in cells <==> name in order)
      && (forall name, attempt :: CellIs(results, name, attempt, Cell(name, attempt)))
    }

    function Cell(name: string, attempt: int): Option<Stage>
      reads this
    {
      if name in cells && attempt in cells[name] then Some(cells[name][attempt]) else None
    }

    constructor ()
      ensures Valid() && results == []
    {
      order, cells, results := [], map[], [];
    }

    method Set(attempt: int, stage: Stage)
      requires Valid()
      modifies this
      ensures Valid() && results == old(results) + [(attempt, stage)]
    {
      if stage.name !in cells {
        cells := cells[stage.name := map[]];
        order := order + [stage.name];
      }
      cells := cells[stage.name := cells[stage.name][attempt := stage]];
      results := results + [(attempt, stage)];
      AppearanceStep(old(results), old(order), attempt, stage);
      forall name, a ensures CellIs(results, name, a, Cell(name, a)) {
        assert CellIs(old(results), name, a, old(Cell(name, a)));
        CellStep(old(results), name, a, old(Cell(name, a)), attempt, stage);
      }
    }
  }

  lemma AppearanceStep(results: seq<(int, Stage)>, names: seq<string>, attempt: int, stage: Stage)
    requires Appearances(results, names)
    ensures Appearances(results + [(attempt, stage)],
                        if stage.name in names then names else names + [stage.name])
  {
    var more := results + [(attempt, stage)];
    var after := if stage.name in names then names else names + [stage.name];
    forall i | 0 <= i < |after| ensures Appears(more, after[i]) {
      if i < |names| {
        var k :| FirstAt(results, names[i], k);
        assert after[i] == names[i];
        assert FirstAt(more, after[i], k);
      } else {
        assert after[i] == stage.name && forall j | 0 <= j < |results| :: results[j].1.name in names;
        assert FirstAt(more, after[i], |results|);
      }
    }
    assert forall r | 0 <= r < |results| :: more[r] == results[r] && more[r].1.name in names;
    forall i, j, k, m | 0 <= i < j < |after| && FirstAt(more, after[i], k) && FirstAt(more, after[j], m) ensures k < m {
      var k' :| FirstAt(results, names[i], k');
      FirstStays(results, (attempt, stage), names[i], k', k);
      if j < |names| {
        var m' :| FirstAt(results, names[j], m');
        FirstStays(results, (attempt, stage), names[j], m', m);
      }
    }
    forall k | 0 <= k < |more| ensures more[k].1.name in after {
      if k < |results| {
        assert more[k] == results[k] && results[k].1.name in names;
      } else {
        assert more[k].1.name == stage.name;
        assert stage.name in names || after[|names|] == stage.name;
      }
    }
  }

  lemma FirstStays(results: seq<(int, Stage)>, e: (int, Stage), name: string, k: int, m: int)
    requires FirstAt(results, name, k) && FirstAt(results + [e], name, m)
    ensures k == m
  {
    assert (results + [e])[k] == results[k];
    assert forall j | 0 <= j < |results| :: (results + [e])[j] == results[j];
  }

  lemma CellStep(results: seq<(int, Stage)>, name: string, a: int, cell: Option<Stage>, attempt: int, stage: Stage)
    requires CellIs(results, name, a, cell)
    ensures CellIs(results + [(attempt, stage)], name, a,
                   if name == stage.name && a == attempt then Some(stage) else cell)
  {
    var more := results + [(attempt, stage)];
    if name == stage.name && a == attempt {
      assert LastAt(more, name, a, |results|);
    } else if cell.Some? {
      var k :| LastAt(results, name, a, k) && results[k].1 == cell.value;
      assert LastAt(more, name, a, k);
    }
  }

  /** Record the stages of one run. */
  method Record(table: Table, run: GateRun)
    requires table.Valid()
    modifies table
    ensures table.Valid()
    ensures table.results == old(table.results) + Stamped(run.attempt, run.gate.stages)
  {
    var stages := run.gate.stages;
    for s := 0 to |stages|
      invariant table.Valid()
      invariant table.results == old(table.results) + Stamped(run.attempt, stages[..s])
    {
      table.Set(run.attempt, stages[s]);
      assert Stamped(run.attempt, stages[..s + 1]) == Stamped(run.attempt, stages[..s]) + [(run.attempt, stages[s])];
    }
    assert stages[..|stages|] == stages;
  }

  ghost predicate RowIs(results: seq<(int, Stage)>, attempts: seq<int>, r: LadderRow) {
    |r.cells| == |attempts|
    && forall k | 0 <= k < |attempts| :: CellIs(results, r.name, attempts[k], r.cells[k])
  }

  /** One row per stage, one cell per attempt. */
  method Rows(table: Table, attempts: seq<int>) returns (rows: seq<LadderRow>)
    requires table.Valid()
    ensures Names(rows) == table.order
    ensures forall r | r in rows :: RowIs(table.results, attempts, r)
  {
    rows := [];
    for i := 0 to |table.order|
      invariant Names(rows) == table.order[..i]
      invariant forall r | r in rows :: RowIs(table.results, attempts, r)
    {
      var name := table.order[i];
      var cells: seq<Option<Stage>> := [];
      for k := 0 to |attempts|
        invariant |cells| == k
        invariant forall m | 0 <= m < k :: CellIs(table.results, name, attempts[m], cells[m])
      {
        cells := cells + [table.Cell(name, attempts[k])];
      }
      var row := LadderRow(name, cells);
      assert RowIs(table.results, attempts, row);
      assert Names(rows + [row]) == Names(rows) + [name];
      rows := rows + [row];
    }
  }

  lemma AttemptStep(gates: seq<GateRun>, attempts: seq<int>, run: GateRun)
    requires AttemptsOf(gates, attempts)
    ensures AttemptsOf(gates + [run], if run.attempt in attempts then attempts else attempts + [run.attempt])
  {
    var more := if run.attempt in attempts then attempts else attempts + [run.attempt];
    forall a | a in more ensures exists g :: g in gates + [run] && g.attempt == a {
      if a in attempts {
        var g :| g in gates && g.attempt == a;
        assert g in gates + [run];
      } else {
        assert run in gates + [run];
      }
    }
  }

  /** Rebuild the ladder from the gate history. */
  method Build(gates: seq<GateRun>) returns (l: GateLadder)
    ensures IsLadder(gates, l)
  {
    var attempts: seq<int> := [];
    var table := new Table();
    for k := 0 to |gates|
      invariant fresh(table) && table.Valid() && table.results == Results(gates[..k])
      invariant forall i, j | 0 <= i < j < |attempts| :: attempts[i] != attempts[j]
      invariant AttemptsOf(gates[..k], attempts)
    {
      assert gates[..k + 1] == gates[..k] + [gates[k]];
      assert gates[..k + 1][..k] == gates[..k];
      AttemptStep(gates[..k], attempts, gates[k]);
      if gates[k].attempt !in attempts { attempts := attempts + [gates[k].attempt]; }
      Record(table, gates[k]);
    }
    assert gates[..|gates|] == gates;
    assert AttemptsOf(gates, Sorted(attempts));
    attempts := Sorted(attempts);
    var rows := Rows(table, attempts);
    l := GateLadder(attempts, rows,
                    if gates == [] then [] else gates[|gates| - 1].gate.notRun,
                    if gates == [] then "" else gates[|gates| - 1].gate.blockedBy);
  }
}
