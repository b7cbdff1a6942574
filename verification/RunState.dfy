// The run state machine: one object that follows an event stream and derives
// every number on screen from it.
module RunState {
  import opened Text
  import opened Ladder
  import opened RunSpec
  import Spec = RunSpec

  /** A row in memory; a tool row is written to when its result arrives. */
  datatype Entry = Entry(row: Row, result: Option<Outcome>)

  function View(rows: seq<Row>, results: map<int, Outcome>, k: nat): Entry
    requires k < |rows|
  {
    Entry(rows[k], if k in results then Some(results[k]) else None)
  }

  function Views(rows: seq<Row>, results: map<int, Outcome>): seq<Entry> {
    seq(|rows|, k requires 0 <= k < |rows| => View(rows, results, k))
  }

  // ---- eviction and the index of tool rows ----------------------------------

  /** The row pushed out when one more is appended belongs to this call. */
  ghost predicate Evicts(rows: seq<Row>, call: string) {
    |rows| >= TRANSCRIPT_CAP && IsTool(rows[|rows| - TRANSCRIPT_CAP], call)
  }

  /** How one more row changes which tool rows can be reached. */
  lemma ReachStep(rows: seq<Row>, row: Row, call: string, p: int)
    ensures Reaches(rows + [row], call, p)
       <==> !Evicts(rows, call) && (if IsCall(row, call) then p == |rows| else Reaches(rows, call, p))
  {
    var more := rows + [row];
    assert more[|rows|] == row;
    assert forall k | 0 <= k < |rows| :: more[k] == rows[k];
    if IsCall(row, call) {
      if p == |rows| && !Evicts(rows, call) {
        forall q | 0 <= q < |more| && p - TRANSCRIPT_CAP <= q < |more| - TRANSCRIPT_CAP ensures !IsTool(more[q], call) {
          assert q == |rows| - TRANSCRIPT_CAP;
        }
      }
      assert IsCall(more[|rows|], call);
    } else if 0 <= p < |rows| {
      var gone := |rows| - TRANSCRIPT_CAP;
      if Reaches(rows, call, p) && !Evicts(rows, call) {
        forall q | 0 <= q < |more| && p - TRANSCRIPT_CAP <= q < |more| - TRANSCRIPT_CAP ensures !IsTool(more[q], call) {
          assert q < gone || q == gone;
        }
      }
      if Reaches(more, call, p) && gone >= 0 {
        assert p - TRANSCRIPT_CAP <= gone < |more| - TRANSCRIPT_CAP;
        assert !IsTool(more[gone], call);
      }
    }
  }

  /** Only rows still in memory can be reached, and at most one per call. */
  lemma ReachedIsKept(rows: seq<Row>, call: string, p: int)
    requires Reaches(rows, call, p)
    ensures |rows| - 500 <= p
    ensures RowOfCall(rows, call) == Some(p)
  {
    assert IsTool(rows[p], call);
    var r := RowOfCall(rows, call);
    assert r.Some? && Reaches(rows, call, r.value);
    assert IsCall(rows[p], call) && IsCall(rows[r.value], call);
  }

  /** The index of open calls holds exactly the rows that can still be reached. */
  ghost predicate IndexOk(rows: seq<Row>, index: map<string, int>) {
    && (forall call | call in index :: Reaches(rows, call, index[call]))
    && (forall call, p | Reaches(rows, call, p) :: call in index)
  }

  /** Open the appended row's call, then forget the call of the row pushed out. */
  ghost predicate IndexMoves(rows: seq<Row>, row: Row, index: map<string, int>, index': map<string, int>) {
    forall call ::
      && (call in index' <==> !Evicts(rows, call) && (IsCall(row, call) || call in index))
      && (call in index' ==> index'[call] == if IsCall(row, call) || call !in index then |rows| else index[call])
  }

  lemma IndexStep(rows: seq<Row>, row: Row, index: map<string, int>, index': map<string, int>)
    requires IndexOk(rows, index) && IndexMoves(rows, row, index, index')
    ensures IndexOk(rows + [row], index')
  {
    hide Reaches, Evicts;
    forall call | call in index' ensures Reaches(rows + [row], call, index'[call]) {
      ReachStep(rows, row, call, index'[call]);
    }
    forall call, p | Reaches(rows + [row], call, p) ensures call in index' {
      ReachStep(rows, row, call, p);
    }
  }

  /** What a push does to the tool index, seen on the history. */
  lemma PushMovesIndex(rows: seq<Row>, results: map<int, Outcome>, evicted: seq<Entry>, entries: seq<Entry>,
                       row: Row, result: Option<Outcome>, index: map<string, int>, index': map<string, int>)
    requires evicted + entries == Views(rows, results) && |evicted| == (if |rows| > TRANSCRIPT_CAP then |rows| - TRANSCRIPT_CAP else 0)
    requires var marked := if row.body.ToolRow? && row.body.called then index[row.body.call := |evicted| + |entries|] else index;
      var oldest := (entries + [Entry(row, result)])[0].row;
      index' == if |entries| == TRANSCRIPT_CAP && oldest.body.ToolRow? then marked - {oldest.body.call} else marked
    ensures IndexMoves(rows, row, index, index')
  {
    assert |evicted + entries| == |rows|;
    if |entries| == TRANSCRIPT_CAP { assert entries[0] == (evicted + entries)[|evicted|]; }
  }

  lemma ViewsStep(rows: seq<Row>, results: map<int, Outcome>, row: Row, result: Option<Outcome>)
    requires |rows| !in results
    ensures Views(rows + [row], if result.Some? then results[|rows| := result.value] else results)
         == Views(rows, results) + [Entry(row, result)]
  {
  }

  lemma ViewsUpdate(rows: seq<Row>, results: map<int, Outcome>, gone: seq<Entry>, kept: seq<Entry>, at: int, result: Outcome)
    requires gone + kept == Views(rows, results) && |gone| <= at < |rows|
    ensures gone + kept[at - |gone| := kept[at - |gone|].(result := Some(result))] == Views(rows, results[at := result])
  {
    var all := gone + kept;
    var kept' := kept[at - |gone| := kept[at - |gone|].(result := Some(result))];
    assert kept[at - |gone|] == all[at];
    forall k | 0 <= k < |rows| ensures (gone + kept')[k] == View(rows, results[at := result], k) {
      assert all[k] == View(rows, results, k);
    }
  }

  // ---- reconnecting ---------------------------------------------------------

  /** The backoff table, in milliseconds; the last entry repeats. */
  function Backoff(index: nat): nat {
    match index
    case 0 => 250 case 1 => 500 case 2 => 1000 case 3 => 2000 case 4 => 4000 case 5 => 8000
    case _ => 15000
  }

  /** The table starts at a quarter of a second, doubles up to eight, and stays at fifteen. */
  lemma BackoffTable(k: nat)
    ensures Backoff(0) == 250 && (k < 5 ==> Backoff(k + 1) == 2 * Backoff(k)) && (k > 5 ==> Backoff(k) == 15000)
  {
  }

  /** `Math.random()` gives a real in [0, 1). */
  type Roll = r: real | 0.0 <= r < 1.0 witness 0.0

  function RetryDelay(index: nat, roll: Roll): (ms: int)
    ensures Backoff(index) <= ms && 2 * ms < 3 * Backoff(index)
  {
    var base := Backoff(index);
    var half := base as real / 2.0;
    assert 0.0 <= roll * half < half;
    base + (roll * half).Floor
  }

  /** The jitter is the roll's share of half the table's entry, in whole milliseconds rounded down. */
  lemma JitterIs(index: nat, roll: Roll)
    ensures var jitter := RetryDelay(index, roll) - Backoff(index);
      jitter as real <= roll * (Backoff(index) as real / 2.0) < jitter as real + 1.0
  {
  }

  /** The failure count after `k` connections that each ended in another attempt. */
  function Failures(conns: seq<Conn>, k: nat): nat
    requires k <= |conns|
  {
    if k == 0 then 0
    else (if conns[k - 1].events != [] then 0 else Failures(conns, k - 1)) + 1
  }

  /** The count after `c` connections is `n` only if the last `n - 1` delivered nothing. */
  lemma {:induction false} FailuresMeanSilence(conns: seq<Conn>, c: nat, n: nat)
    requires c <= |conns| && n >= 1
    ensures Failures(conns, c) == n
       <==> n <= c && (forall j | c - n + 1 <= j < c :: conns[j].events == [])
            && (n == c || conns[c - n].events != [])
    decreases c
  {
    if c > 0 && conns[c - 1].events == [] && n >= 2 {
      FailuresMeanSilence(conns, c - 1, n - 1);
    } else if c > 0 && conns[c - 1].events == [] {
      assert Failures(conns, c) == Failures(conns, c - 1) + 1;
      FailuresPositive(conns, c - 1);
    }
  }

  lemma FailuresPositive(conns: seq<Conn>, c: nat)
    requires c <= |conns|
    ensures Failures(conns, c) == 0 <==> c == 0
  {
  }

  function Sum(xs: seq<int>): int {
    if xs == [] then 0 else Sum(xs[..|xs| - 1]) + xs[|xs| - 1]
  }

  function BackoffSum(n: nat): nat { if n == 0 then 0 else BackoffSum(n - 1) + Backoff(n - 1) }

  /** Sleeping through the table's first `n` delays, whatever the jitter. */
  lemma {:induction false} SleepBounds(ms: seq<int>, rolls: seq<Roll>)
    requires |ms| == |rolls|
    requires forall k | 0 <= k < |ms| :: ms[k] == RetryDelay(k, rolls[k])
    ensures BackoffSum(|ms|) <= Sum(ms) && 2 * Sum(ms) <= 3 * BackoffSum(|ms|)
    ensures |ms| > 0 ==> 2 * Sum(ms) < 3 * BackoffSum(|ms|)
    decreases |ms|
  {
    if ms != [] { SleepBounds(ms[..|ms| - 1], rolls[..|ms| - 1]); }
  }

  /** The wait before giving up: at least 90,750 ms and less than 136,125 ms. */
  lemma ElevenSleeps(ms: seq<int>, rolls: seq<Roll>)
    requires |ms| == |rolls| == MAX_RECONNECT_ATTEMPTS - 1
    requires forall k | 0 <= k < |ms| :: ms[k] == RetryDelay(k, rolls[k])
    ensures 90750 <= Sum(ms) < 136125
  {
    SleepBounds(ms, rolls);
    assert BackoffSum(5) == 7750;
    assert BackoffSum(8) == 45750;
    assert BackoffSum(11) == 90750;
  }

  /** Nothing but `finish` and `end` stops a run. */
  lemma RunningStays(s: State, e: Event)
    requires Running(s.pic) && Outlasts(e.body)
    ensures Running(Ingest(s, e).pic)
  {
    AbsorbRuns(s.pic, e.body);
    StorePicture(s, e);
    hide Absorb, Store;
  }

  lemma AbsorbRuns(p: Picture, b: Body)
    requires Running(p) && Outlasts(b)
    ensures Running(Absorb(p, b))
  {
    hide NoteAll, Reports;
  }

  lemma StorePicture(s: State, e: Event)
    ensures Store(s, e).pic == Absorb(s.pic, e.body)
  {
    hide Absorb;
  }

  lemma {:induction false} EndsHere(es: seq<Event>, k: nat)
    requires k < |es| && es[k].body.End? && !HasEnd(es[..k])
    ensures UpToEnd(es) == es[..k + 1] && HasEnd(es)
    decreases k
  {
    assert es[k] in es;
    if k > 0 {
      assert es[0] in es[..k];
      forall e | e in es[1..][..k - 1] ensures !e.body.End? { assert e in es[..k]; }
      EndsHere(es[1..], k - 1);
    }
  }

  lemma {:induction false} NoEnd(es: seq<Event>)
    requires !HasEnd(es)
    ensures UpToEnd(es) == es
    decreases |es|
  {
    if es != [] {
      assert es[0] in es;
      forall e | e in es[1..] ensures !e.body.End? { assert e in es; }
      NoEnd(es[1..]);
    }
  }

  /** Events that neither finish nor end a run leave it running, drop or no drop. */
  lemma {:induction false} RunningLasts(s: State, es: seq<Event>)
    requires Running(s.pic) && forall e | e in es :: Outlasts(e.body)
    ensures !HasEnd(es) && UpToEnd(es) == es && Running(IngestAll(s, es).pic) && Running(Dropped(IngestAll(s, es)).pic)
    decreases |es|
  {
    NoEnd(es);
    if es != [] {
      var init, e := es[..|es| - 1], es[|es| - 1];
      assert forall x | x in init :: x in es;
      RunningLasts(s, init);
      RunningStays(IngestAll(s, init), e);
    }
  }

  /** Moving the cursor before or after the rest of the work is the same. */
  lemma SettleKeepsCursor(s: State, b: Body, cursor: int)
    ensures Settle(s.(lastId := cursor), b) == Settle(s, b).(lastId := cursor)
  {
  }

  lemma StoreSetsCursor(s: State, e: Event)
    ensures Store(s.(lastId := if e.id != 0 then e.id else s.lastId), e) == Store(s, e)
  {
    SettleKeepsCursor(s, e.body, if e.id != 0 then e.id else s.lastId);
    hide Settle, Absorb, PlaceResult, OwnRow, HeldRow, Append, ClearsStream;
  }

  lemma AbsorbKeepsGates(p: Picture, b: Body)
    requires b.End?
    ensures Absorb(p, b).gates == p.gates && !Absorb(p, b).attached
  {
  }

  /** A result settles the held row, is absorbed, and goes to its place. */
  lemma ResultInOrder(s: State, e: Event)
    requires e.body.ToolResult? && (e.id != 0 ==> s.lastId == e.id)
    ensures var b, t := e.body, Settle(s, e.body);
      && Releasing(b) && t.pic == s.pic && t.lastId == s.lastId
      && Store(s, e) == PlaceResult(t.(pic := Absorb(s.pic, b)), e.id, b.call, b.name, b.result)
      && Absorb(s.pic, b) == s.pic.(touched := NoteAll(s.pic.touched, ChangedAll(b.mutations)),
                                    inFlight := s.pic.inFlight - {b.call}, approvals := s.pic.approvals - {b.call})
  {
    hide NoteAll, PlaceResult;
  }

  lemma PlaceAtRow(s: State, id: int, call: string, name: string, result: Outcome, at: int)
    ensures RowOfCall(s.rows, call) == Some(at) ==>
      PlaceResult(s, id, call, name, result) == s.(results := s.results[at := result])
  {
    hide RowOfCall;
  }

  lemma PlaceAtEnd(s: State, id: int, call: string, name: string, result: Outcome)
    requires RowOfCall(s.rows, call) == None
    ensures PlaceResult(s, id, call, name, result)
         == s.(rows := s.rows + [Row(id, s.pic.turn, ToolRow(call, name, false))], results := s.results[|s.rows| := result])
  {
    hide RowOfCall;
  }

  lemma EndReleases(b: Body)
    requires b.End?
    ensures Releasing(b)
  {
  }

  /** At the end of a run the picture is settled before the held row, and detached after. */
  lemma EndInOrder(s: State, e: Event)
    requires e.body.End? && (e.id != 0 ==> s.lastId == e.id)
    ensures var p := Absorb(s.pic, e.body);
      var t := s.(pic := p.(attached := s.pic.attached), streaming := if s.pic.status == "running" then "" else s.streaming);
      Store(s, e) == Settle(t, e.body).(pic := p) && Settle(t, e.body).pic == t.pic
  {
    hide NoteAll;
  }

  /** Quota pushes and unknown types change nothing but the cursor. */
  lemma StoreNothing(s: State, e: Event)
    requires e.body.Quota? || e.body.Unknown?
    requires e.id != 0 ==> s.lastId == e.id
    ensures Store(s, e) == s
  {
  }

  // ---- the object -----------------------------------------------------------

  datatype Connection = Idle | Connecting | Live | Reconnecting | Offline | Closing

  class RunState {
    /** The figures every surface reads. */
    var pic: Picture
    /** The remembered ladder; dropped when a gate is recorded. */
    var ladder: Option<GateLadder>

    var entries: seq<Entry>
    /** How many rows were evicted, so a row keeps its number. */
    var dropped: nat
    var toolRows: map<string, int>
    var held: Option<Row>
    var streaming: string
    var lastId: int
    var connection: Connection

    ghost var rows: seq<Row>
    ghost var results: map<int, Outcome>
    /** Rows handed to the archive, in order. */
    ghost var evicted: seq<Entry>
    /** Events re-emitted to the consumers of the raw stream. */
    ghost var received: seq<Event>

    ghost function Model(): State
      reads this
    {
      State(pic, rows, results, held, streaming, lastId)
    }

    ghost predicate Indexed()
      reads this`toolRows, this`rows
    {
      IndexOk(rows, toolRows)
    }

    ghost predicate Conserved()
      reads this`dropped, this`evicted, this`entries, this`rows, this`results
    {
      && dropped == |evicted| == (if |rows| > TRANSCRIPT_CAP then |rows| - TRANSCRIPT_CAP else 0)
      && evicted + entries == Views(rows, results)
      && (forall k | k in results :: 0 <= k < |rows|)
    }

    ghost predicate Remembered()
      reads this`ladder, this`pic
    {
      ladder.Some? ==> IsLadder(pic.gates, ladder.value)
    }

    ghost predicate Valid()
      reads this
    {
      Conserved() && Indexed() && Remembered()
    }

    constructor ()
      ensures Valid() && Model() == Fresh && received == [] && connection == Idle
    {
      pic, ladder := Blank, None;
      entries, dropped, toolRows, held, streaming, lastId := [], 0, map[], None, "", 0;
      connection := Idle;
      rows, results, evicted, received := [], map[], [], [];
    }

    // ---- rows ---------------------------------------------------------------

    /** Hand the oldest row to the archive and forget its call. */
    method Evict()
      requires |entries| == TRANSCRIPT_CAP + 1 && dropped == |evicted|
      modifies this`entries, this`dropped, this`toolRows, this`evicted
      ensures evicted == old(evicted) + [old(entries[0])] && entries == old(entries[1..]) && dropped == |evicted|
      ensures var r := old(entries[0].row);
        toolRows == if r.body.ToolRow? then old(toolRows) - {r.body.call} else old(toolRows)
    {
      var excess := |entries| - TRANSCRIPT_CAP;
      var gone := entries[..excess];
      assert excess == 1 && gone == [entries[0]];
      entries := entries[excess..];
      dropped := dropped + excess;
      for k := 0 to |gone|
        modifies this`toolRows
        invariant k == 0 ==> toolRows == old(toolRows)
        invariant k == 1 ==> toolRows == if gone[0].row.body.ToolRow? then old(toolRows) - {gone[0].row.body.call} else old(toolRows)
      {
        if gone[k].row.body.ToolRow? { toolRows := toolRows - {gone[k].row.body.call}; }
      }
      evicted := evicted + gone;
    }

    /** Put an entry at the end of the transcript and push the oldest out past the cap. */
    method Push(entry: Entry)
      requires dropped == |evicted| && |entries| <= TRANSCRIPT_CAP
      modifies this`entries, this`dropped, this`toolRows, this`evicted
      ensures dropped == |evicted| && evicted + entries == old(evicted + entries) + [entry]
      ensures old(evicted) <= evicted && |entries| == if old(|entries|) == TRANSCRIPT_CAP then TRANSCRIPT_CAP else old(|entries|) + 1
      ensures var marked := if entry.row.body.ToolRow? && entry.row.body.called
                            then old(toolRows)[entry.row.body.call := old(dropped + |entries|)] else old(toolRows);
        var oldest := old(entries + [entry])[0].row;
        toolRows == if old(|entries|) == TRANSCRIPT_CAP && oldest.body.ToolRow? then marked - {oldest.body.call} else marked
    {
      if entry.row.body.ToolRow? && entry.row.body.called {
        toolRows := toolRows[entry.row.body.call := dropped + |entries|];
      }
      entries := entries + [entry];
      if |entries| > TRANSCRIPT_CAP {
        assert entries == [entries[0]] + entries[1..];
        Evict();
      }
    }

    /**
     * Append a row and push the oldest out past the cap. Rows are neither lost
     * nor reordered: the archive and the transcript together stay the history.
     */
    method AppendRow(row: Row, result: Option<Outcome>)
      requires Conserved() && Indexed()
      modifies this`entries, this`dropped, this`toolRows, this`rows, this`results, this`evicted
      ensures Conserved() && Indexed() && |entries| <= TRANSCRIPT_CAP
      ensures |entries| == if |rows| < 500 then |rows| else 500
      ensures rows == old(rows) + [row]
      ensures results == if result.Some? then old(results)[|old(rows)| := result.value] else old(results)
      ensures old(evicted) <= evicted
    {
      hide Reaches, IndexOk, Evicts;
      assert |evicted + entries| == |rows|;
      Push(Entry(row, result));
      assert IndexMoves(rows, row, old(toolRows), toolRows) by {
        PushMovesIndex(rows, results, old(evicted), old(entries), row, result, old(toolRows), toolRows);
      }
      hide IndexMoves;
      IndexStep(rows, row, old(toolRows), toolRows);
      ViewsStep(rows, results, row, result);
      hide Views;
      if result.Some? { results := results[|rows| := result.value]; }
      rows := rows + [row];
    }

    /** Emit the held row: its twin did not come. */
    method ReleaseHeld()
      requires Conserved() && Indexed()
      modifies this`held, this`streaming, this`entries, this`dropped, this`toolRows, this`rows, this`results, this`evicted
      ensures Conserved() && Indexed() && Model() == Spec.Release(old(Model()))
      ensures old(evicted) <= evicted
    {
      hide Conserved, Indexed;
      var entry := held;
      held := None;
      if entry.None? { return; }
      if entry.value.body.AssistantRow? { streaming := ""; }
      AppendRow(entry.value, None);
    }

    // ---- mutations ----------------------------------------------------------

    method NoteMutation(m: Mutation)
      modifies this`pic
      ensures pic == old(pic).(touched := Note(old(pic).touched, Changed(m)))
    {
      var touched := pic.touched;
      if m.path !in touched {
        pic := pic.(touched := touched[m.path := Touched(Some(m.kind), m.guarded)]);
        return;
      }
      var existing := touched[m.path];
      var kind := existing.kind;
      if m.kind == Delete || existing.kind == None {
        kind := Some(m.kind);
      } else if existing.kind != Some(Create) {
        kind := Some(m.kind);
      }
      pic := pic.(touched := touched[m.path := Touched(kind, existing.guarded || m.guarded)]);
    }

    method NotePath(path: string)
      modifies this`pic
      ensures pic == old(pic).(touched := Note(old(pic).touched, Named(path)))
    {
      if path !in pic.touched { pic := pic.(touched := pic.touched[path := Touched(None, false)]); }
    }

    method NoteMutations(ms: seq<Mutation>)
      modifies this`pic
      ensures pic == old(pic).(touched := NoteAll(old(pic).touched, ChangedAll(ms)))
    {
      for k := 0 to |ms|
        invariant pic == old(pic).(touched := NoteAll(old(pic).touched, ChangedAll(ms[..k])))
      {
        assert ChangedAll(ms[..k + 1])[..k] == ChangedAll(ms[..k]);
        NoteMutation(ms[k]);
      }
      assert ms[..|ms|] == ms;
    }

    method NotePaths(paths: seq<string>)
      modifies this`pic
      ensures pic == old(pic).(touched := NoteAll(old(pic).touched, NamedAll(paths)))
    {
      for k := 0 to |paths|
        invariant pic == old(pic).(touched := NoteAll(old(pic).touched, NamedAll(paths[..k])))
      {
        assert NamedAll(paths[..k + 1])[..k] == NamedAll(paths[..k]);
        NotePath(paths[k]);
      }
      assert paths[..|paths|] == paths;
    }

    // ---- the ladder ---------------------------------------------------------

    /** The remembered ladder, rebuilt only after a gate: always the ladder of the history. */
    method GateLadderOf() returns (l: GateLadder)
      requires Valid()
      modifies this`ladder
      ensures Valid() && IsLadder(pic.gates, l)
    {
      if ladder.Some? { return ladder.value; }
      l := Build(pic.gates);
      ladder := Some(l);
    }

    // ---- ingestion ----------------------------------------------------------

    /** Drop the held row when its twin came, otherwise emit it. */
    method SettleHeld(b: Body)
      requires Conserved() && Indexed() && Releasing(b)
      modifies this`held, this`streaming, this`entries, this`dropped, this`toolRows, this`rows, this`results, this`evicted
      ensures Conserved() && Indexed() && Model() == Settle(old(Model()), b)
      ensures old(evicted) <= evicted
    {
      hide Conserved, Indexed, Spec.Release, Same;
      var twin :=
        match b
        case Plan(text, _) =>
          held.Some? && held.value.body.AssistantRow? && held.value.turn == pic.turn && Same(held.value.body.text, text)
        case Finish(_, summary, _, _) =>
          held.Some? && held.value.body.ErrorRow? && Same(held.value.body.text, summary)
        case _ => false;
      if twin { held := None; } else { ReleaseHeld(); }
    }

    /** Write a result into a row still in memory. */
    method PatchRow(at: int, call: string, result: Outcome)
      requires Conserved() && Indexed() && call in toolRows && toolRows[call] == at
      modifies this`entries, this`results
      ensures Conserved() && Indexed()
      ensures RowOfCall(rows, call) == Some(at) && results == old(results)[at := result]
    {
      ReachedIsKept(rows, call, at);
      assert |rows| == |evicted + entries|;
      ViewsUpdate(rows, results, evicted, entries, at, result);
      entries := entries[at - dropped := entries[at - dropped].(result := Some(result))];
      results := results[at := result];
    }

    lemma NoRowOfCall(call: string)
      requires Indexed() && call !in toolRows
      ensures RowOfCall(rows, call) == None
    {
    }

    method OnUser(e: Event)
      requires Valid() && e.body.User? && (e.id != 0 ==> lastId == e.id)
      modifies this
      ensures Valid() && old(evicted) <= evicted
      ensures Model() == Store(old(Model()), e)
      ensures received == old(received) && connection == old(connection)
    {
      hide Conserved, Indexed, NoteAll, IsLadder;
      SettleHeld(e.body);
      AppendRow(Row(e.id, pic.turn, UserRow(e.body.text)), None);
    }

    method OnSteer(e: Event)
      requires Valid() && e.body.Steer? && (e.id != 0 ==> lastId == e.id)
      modifies this
      ensures Valid() && old(evicted) <= evicted
      ensures Model() == Store(old(Model()), e)
      ensures received == old(received) && connection == old(connection)
    {
      hide Conserved, Indexed, NoteAll, IsLadder;
      SettleHeld(e.body);
      AppendRow(Row(e.id, pic.turn, SteerRow(e.body.text)), None);
    }

    /** A turn on a session recorded as finished starts a run of its own. */
    method OnTurnStart(e: Event)
      requires Valid() && e.body.TurnStart? && (e.id != 0 ==> lastId == e.id)
      modifies this
      ensures Valid() && old(evicted) <= evicted
      ensures Model() == Store(old(Model()), e)
      ensures received == old(received) && connection == old(connection)
    {
      hide Conserved, Indexed, NoteAll, IsLadder;
      SettleHeld(e.body);
      pic := pic.(turn := e.body.newTurn.GetOr(pic.turn + 1), mode := e.body.newMode.GetOr(pic.mode),
                  attempt := e.body.newAttempt.GetOr(1));
      streaming := "";
      if pic.finished { pic := pic.(finished := false, status := "running"); }
    }

    method OnAssistant(e: Event)
      requires Valid() && e.body.Assistant? && (e.id != 0 ==> lastId == e.id)
      modifies this
      ensures Valid() && old(evicted) <= evicted
      ensures Model() == Store(old(Model()), e)
      ensures received == old(received) && connection == old(connection)
    {
      hide Conserved, Indexed, NoteAll, IsLadder;
      SettleHeld(e.body);
      held := Some(Row(e.id, pic.turn, AssistantRow(e.body.text)));
    }

    method OnFailure(e: Event)
      requires Valid() && e.body.Failure? && (e.id != 0 ==> lastId == e.id)
      modifies this
      ensures Valid() && old(evicted) <= evicted
      ensures Model() == Store(old(Model()), e)
      ensures received == old(received) && connection == old(connection)
    {
      hide Conserved, Indexed, NoteAll, IsLadder;
      SettleHeld(e.body);
      pic := pic.(lastError := Some(e.body.message));
      held := Some(Row(e.id, pic.turn, ErrorRow(e.body.message)));
    }

    method OnPlan(e: Event)
      requires Valid() && e.body.Plan? && (e.id != 0 ==> lastId == e.id)
      modifies this
      ensures Valid() && old(evicted) <= evicted
      ensures Model() == Store(old(Model()), e)
      ensures received == old(received) && connection == old(connection)
    {
      hide Conserved, Indexed, NoteAll, IsLadder;
      SettleHeld(e.body);
      streaming := "";
      pic := pic.(plan := Some((e.body.text, e.body.steps)));
      AppendRow(Row(e.id, pic.turn, PlanRow(e.body.text, e.body.steps)), None);
    }

    method OnToolCall(e: Event)
      requires Valid() && e.body.ToolCall? && (e.id != 0 ==> lastId == e.id)
      modifies this
      ensures Valid() && old(evicted) <= evicted
      ensures Model() == Store(old(Model()), e)
      ensures received == old(received) && connection == old(connection)
    {
      hide Conserved, Indexed, NoteAll, IsLadder;
      SettleHeld(e.body);
      pic := pic.(inFlight := pic.inFlight[e.body.call := e.body.name]);
      AppendRow(Row(e.id, pic.turn, ToolRow(e.body.call, e.body.name, true)), None);
    }

    method OnToolPending(e: Event)
      requires Valid() && e.body.ToolPending? && (e.id != 0 ==> lastId == e.id)
      modifies this
      ensures Valid() && old(evicted) <= evicted
      ensures Model() == Store(old(Model()), e)
      ensures received == old(received) && connection == old(connection)
    {
      hide Conserved, Indexed, NoteAll, IsLadder;
      SettleHeld(e.body);
      pic := pic.(approvals := pic.approvals + {e.body.approval});
    }

    /** Write a result into the row its call can still reach, or into a row of its own. */
    method Place(id: int, call: string, name: string, result: Outcome)
      requires Conserved() && Indexed()
      modifies this`entries, this`dropped, this`toolRows, this`rows, this`results, this`evicted
      ensures Conserved() && Indexed() && old(evicted) <= evicted
      ensures Model() == PlaceResult(old(Model()), id, call, name, result)
    {
      hide Conserved, Indexed, RowOfCall, PlaceResult;
      if call in toolRows {
        PlaceAtRow(Model(), id, call, name, result, toolRows[call]);
        PatchRow(toolRows[call], call, result);
      } else {
        NoRowOfCall(call);
        PlaceAtEnd(Model(), id, call, name, result);
        AppendRow(Row(id, pic.turn, ToolRow(call, name, false)), Some(result));
      }
    }

    /** A result is written into the row of its call, or makes a row of its own. */
    method OnToolResult(e: Event)
      requires Valid() && e.body.ToolResult? && (e.id != 0 ==> lastId == e.id)
      modifies this
      ensures Valid() && old(evicted) <= evicted
      ensures Model() == Store(old(Model()), e)
      ensures received == old(received) && connection == old(connection)
    {
      hide Conserved, Indexed, NoteAll, IsLadder, Settle, Store, Absorb, PlaceResult, Releasing;
      ResultInOrder(Model(), e);
      var call := e.body.call;
      SettleHeld(e.body);
      NoteMutations(e.body.mutations);
      pic := pic.(inFlight := pic.inFlight - {call}, approvals := pic.approvals - {call});
      Place(e.id, call, e.body.name, e.body.result);
    }

    /** A verification gate joins the ladder's history; a compaction does not. */
    method OnGate(e: Event)
      requires Valid() && e.body.GateRan? && (e.id != 0 ==> lastId == e.id)
      modifies this
      ensures Valid() && old(evicted) <= evicted
      ensures Model() == Store(old(Model()), e)
      ensures received == old(received) && connection == old(connection)
    {
      hide Conserved, Indexed, NoteAll, IsLadder;
      SettleHeld(e.body);
      var run := GateRun(pic.turn, pic.attempt, e.body.gate);
      if e.body.gate.kind == "compaction" {
        pic := pic.(compactions := pic.compactions + [run]);
      } else {
        pic := pic.(gates := pic.gates + [run]);
        ladder := None;
      }
      AppendRow(Row(e.id, pic.turn, GateRow(run)), None);
    }

    method OnUsage(e: Event)
      requires Valid() && e.body.UsageReport? && (e.id != 0 ==> lastId == e.id)
      modifies this
      ensures Valid() && old(evicted) <= evicted
      ensures Model() == Store(old(Model()), e)
      ensures received == old(received) && connection == old(connection)
    {
      hide Conserved, Indexed, NoteAll, IsLadder;
      pic := pic.(usage := Some(e.body.usage));
    }

    method OnFinish(e: Event)
      requires Valid() && e.body.Finish? && (e.id != 0 ==> lastId == e.id)
      modifies this
      ensures Valid() && old(evicted) <= evicted
      ensures Model() == Store(old(Model()), e)
      ensures received == old(received) && connection == old(connection)
    {
      hide Conserved, Indexed, NoteAll, IsLadder;
      SettleHeld(e.body);
      pic := pic.(status := e.body.outcome, summary := e.body.summary, finished := true);
      streaming := "";
      NotePaths(e.body.paths);
      pic := pic.(approvals := {}, inFlight := map[]);
      AppendRow(Row(e.id, pic.turn, FinishRow(e.body.outcome, e.body.summary, e.body.turns.GetOr(pic.turn), e.body.paths)), None);
    }

    /** Take the outcome from `end`, unless `finish` gave one already. */
    method Conclude(e: Event)
      requires e.body.End?
      modifies this`pic, this`streaming
      ensures pic == Absorb(old(pic), e.body).(attached := old(pic).attached)
      ensures streaming == if old(pic).status == "running" then "" else old(streaming)
    {
      hide NoteAll;
      if pic.status == "running" {
        pic := pic.(status := e.body.outcome, finished := true,
                    summary := if e.body.summary == "" then pic.summary else e.body.summary);
        streaming := "";
        NotePaths(e.body.paths);
      }
      pic := pic.(approvals := {}, inFlight := map[]);
    }

    /** `end` is terminal, but a run that reached `finish` keeps the outcome it set. */
    method OnEnd(e: Event)
      requires Valid() && e.body.End? && (e.id != 0 ==> lastId == e.id)
      modifies this
      ensures Valid() && old(evicted) <= evicted
      ensures Model() == Store(old(Model()), e)
      ensures received == old(received) && connection == old(connection)
    {
      hide Conserved, Indexed, NoteAll, IsLadder, Store, Settle, Absorb, Releasing;
      assert Releasing(e.body) by { EndReleases(e.body); }
      EndInOrder(Model(), e);
      AbsorbKeepsGates(pic, e.body);
      Conclude(e);
      SettleHeld(e.body);
      pic := pic.(attached := false);
    }

    /**
     * Take one event. A duplicate is refused before anything sees it; every
     * other event reaches the raw consumers and then the derived state.
     */
    method IngestEvent(e: Event)
      requires Valid()
      modifies this
      ensures Valid() && old(evicted) <= evicted
      ensures Model() == Ingest(old(Model()), e)
      ensures received == old(received) + (if Refused(old(Model()), e) then [] else [e])
      ensures received == old(received)
        + if e.body.Delta? || e.body.Heartbeat? || old(lastId) == 0 || e.id > old(lastId) then [e] else []
      ensures connection == old(connection)
    {
      hide Conserved, Indexed, IsLadder, Store;
      if !Transient(e.body) && lastId != 0 && e.id <= lastId { return; }
      received := received + [e];
      if e.body.Delta? { streaming := streaming + e.body.text; return; }
      if e.body.Heartbeat? { return; }
      StoreSetsCursor(Model(), e);
      if e.id != 0 { lastId := e.id; }
      match e.body
      case User(_) => OnUser(e);
      case TurnStart(_, _, _) => OnTurnStart(e);
      case Assistant(_) => OnAssistant(e);
      case Plan(_, _) => OnPlan(e);
      case ToolCall(_, _) => OnToolCall(e);
      case ToolPending(_) => OnToolPending(e);
      case ToolResult(_, _, _, _) => OnToolResult(e);
      case GateRan(_) => OnGate(e);
      case UsageReport(_) => OnUsage(e);
      case Steer(_) => OnSteer(e);
      case Failure(_) => OnFailure(e);
      case Finish(_, _, _, _) => OnFinish(e);
      case End(_, _, _) => OnEnd(e);
      case _ => StoreNothing(Model(), e);
    }

    // ---- following ----------------------------------------------------------

    /**
     * Ingest one connection's events, stopping at `end`. A delivered event, of
     * whatever kind, is the only proof that the link works.
     */
    method Deliver(events: seq<Event>) returns (sawEnd: bool)
      requires Valid()
      modifies this
      ensures Valid() && sawEnd == HasEnd(events)
      ensures var s := IngestAll(old(Model()), UpToEnd(events)); Model() == if sawEnd then Spec.Release(s) else s
      ensures received == old(received) + AcceptedOf(old(Model()), UpToEnd(events))
      ensures connection == if sawEnd then Closing else if events == [] then old(connection) else Live
    {
      hide Conserved, Indexed, IsLadder, Ingest, Refused, IngestAll, AcceptedOf, HasEnd;
      NothingIngested(Model());
      assert [] == events[..0] && received + [] == received;
      NoEndInNothing();
      for k := 0 to |events|
        invariant Valid() && Model() == IngestAll(old(Model()), events[..k])
        invariant received == old(received) + AcceptedOf(old(Model()), events[..k])
        invariant !HasEnd(events[..k])
        invariant connection == if k == 0 then old(connection) else Live
      {
        IngestedSnoc(old(Model()), events[..k], events[k]);
        assert events[..k + 1] == events[..k] + [events[k]];
        connection := Live;
        IngestEvent(events[k]);
        if events[k].body.End? {
          EndsHere(events, k);
          ReleaseHeld();
          connection := Closing;
          return true;
        }
        NoEndSnoc(events[..k], events[k]);
      }
      assert events[..|events|] == events;
      NoEnd(events);
      return false;
    }

    /** Live through one connection; `None` asks for another attempt. */
    method Attend(conn: Conn, failures: nat) returns (verdict: Option<Verdict>)
      requires Valid()
      modifies this
      ensures Valid() && (Model(), verdict) == Lived(old(Model()), conn)
      ensures received == old(received) + AcceptedOf(old(Model()), UpToEnd(conn.events))
      ensures var ended, failed := HasEnd(conn.events), conn.ending.Failed? && conn.ending.permanent;
        && (verdict == Some(SawEnd) <==> ended)
        && (verdict == Some(Cancelled) <==> !ended && conn.ending == Aborted)
        && (verdict == Some(Refusal) <==> !ended && failed)
        && (verdict == Some(NotRunning) <==> !ended && conn.ending != Aborted && !failed && !Running(pic))
      ensures verdict == Some(Cancelled) || verdict == Some(Refusal) ==>
        var s := IngestAll(old(Model()), UpToEnd(conn.events)); held == s.held && streaming == s.streaming
      ensures verdict == Some(Refusal) ==> pic.lastError == Some(conn.ending.message)
      ensures verdict != Some(Cancelled) && verdict != Some(Refusal) ==> held == None
      ensures verdict == None || verdict == Some(NotRunning) ==> streaming == ""
      ensures connection == if verdict.Some? && verdict != Some(Cancelled) then Closing
        else if conn.events != [] then Live else if failures == 0 then Connecting else old(connection)
    {
      hide Conserved, Indexed, IsLadder, IngestAll, UpToEnd, AcceptedOf, HasEnd, Spec.Release;
      if failures == 0 { connection := Connecting; }
      ReleaseKeepsPicture(IngestAll(Model(), UpToEnd(conn.events)));
      var sawEnd := Deliver(conn.events);
      if sawEnd { return Some(SawEnd); }
      match conn.ending {
        case Aborted => return Some(Cancelled);
        case Failed(permanent, message) =>
          if permanent {
            pic := pic.(lastError := Some(message));
            connection := Closing;
            return Some(Refusal);
          }
        case Closed =>
      }
      ReleaseKeepsPicture(Model());
      ReleaseHeld();
      streaming := "";
      if !(pic.attached && pic.status == "running") {
        connection := Closing;
        return Some(NotRunning);
      }
      return None;
    }

    /** Report the run as unreachable. */
    method GiveUp()
      requires Valid()
      modifies this`pic, this`connection
      ensures Valid() && connection == Closing && pic == LostPicture(old(pic))
      ensures pic.status == "error" && pic.finished && !pic.attached && pic.approvals == {} && pic.inFlight == map[]
      ensures pic.lastError == Some("Lost contact with the runtime") && pic.summary == "Lost contact with the runtime"
    {
      hide Conserved, Indexed, IsLadder;
      pic := pic.(lastError := Some(LOST_MESSAGE), status := "error", summary := LOST_MESSAGE, finished := true,
                  attached := false, approvals := {}, inFlight := map[]);
      connection := Closing;
    }

    /**
     * Follow a session over a script of connections, reconnecting until it ends,
     * is refused or cancelled, stops running, or is given up for lost.
     */
    method Follow(conns: seq<Conn>, rolls: seq<Roll>) returns (verdict: Verdict, sleeps: seq<int>, used: nat)
      requires Valid() && |rolls| == |conns|
      modifies this
      ensures Valid() && used <= |conns|
      ensures var g := Walk(Progress(old(Model()), old(received), 0, None), conns, used);
        Model() == g.s && received == g.received && verdict == g.over.GetOr(Waiting)
      ensures verdict == Waiting ==> used == |conns|
      ensures |sleeps| == (if verdict == Waiting then used else used - 1)
      ensures Slept(conns, rolls, sleeps)
      ensures verdict == Waiting && used > 0 ==> connection == if Failures(conns, used) >= 3 then Offline else Reconnecting
      ensures verdict == Lost ==> used > 0 && Failures(conns, used) == 12 && connection == Closing
      ensures Running(old(pic)) && AllRetried(conns) ==> verdict == Lost || verdict == Waiting
    {
      hide Conserved, Indexed, IsLadder, RetryDelay, Failures, Slept, AllRetried, Lived, Walk, AcceptedOf, UpToEnd, Running;
      var failures := 0;
      sleeps, used := [], 0;
      NothingYet(conns, rolls);
      ghost var start := Progress(Model(), received, 0, None);
      NoAttempt(start, conns);
      while used < |conns|
        invariant Valid() && 0 <= used <= |conns|
        invariant Walk(start, conns, used) == Progress(Model(), received, failures, None)
        invariant failures == Failures(conns, used) < MAX_RECONNECT_ATTEMPTS
        invariant |sleeps| == used && Slept(conns, rolls, sleeps)
        invariant used > 0 ==> connection == if failures >= OFFLINE_AFTER_ATTEMPTS then Offline else Reconnecting
        invariant Running(start.s.pic) && AllRetried(conns) ==> Running(pic)
      {
        var conn := conns[used];
        if Running(pic) && AllRetried(conns) { RetriedLasts(Model(), conns, used); }
        WalkStep(start, conns, used);
        VerdictOfOne(Model(), conn);
        var over := Attend(conn, failures);
        FailureStep(conns, used);
        used := used + 1;
        if over.Some? { return over.value, sleeps, used; }
        if conn.events != [] { failures := 0; }
        var wait := RetryDelay(failures, rolls[used - 1]);
        failures := failures + 1;
        if failures >= MAX_RECONNECT_ATTEMPTS {
          GiveUp();
          return Lost, sleeps, used;
        }
        connection := if failures >= OFFLINE_AFTER_ATTEMPTS then Offline else Reconnecting;
        SleptSnoc(conns, rolls, sleeps, wait);
        sleeps := sleeps + [wait];
      }
      return Waiting, sleeps, used;
    }
  }

  lemma NoAttempt(g: Progress, conns: seq<Conn>)
    ensures Walk(g, conns, 0) == g
  {
  }

  lemma WalkStep(g: Progress, conns: seq<Conn>, n: nat)
    requires n < |conns|
    ensures Walk(g, conns, n + 1) == Attempted(Walk(g, conns, n), conns[n])
  {
    hide Attempted;
  }

  /** Only the loop as a whole gives up or waits. */
  lemma VerdictOfOne(s: State, c: Conn)
    ensures Lived(s, c).1 != Some(Lost) && Lived(s, c).1 != Some(Waiting)
  {
  }

  lemma ReleaseKeepsPicture(s: State)
    ensures Spec.Release(s).pic == s.pic && Spec.Release(s).held == None
  {
  }

  lemma NothingIngested(s: State)
    ensures IngestAll(s, []) == s && AcceptedOf(s, []) == []
  {
  }

  lemma IngestedSnoc(s: State, es: seq<Event>, e: Event)
    ensures IngestAll(s, es + [e]) == Ingest(IngestAll(s, es), e)
    ensures AcceptedOf(s, es + [e]) == AcceptedOf(s, es) + if Refused(IngestAll(s, es), e) then [] else [e]
  {
    assert (es + [e])[..|es|] == es;
    hide Ingest, Refused;
  }

  lemma NoEndInNothing()
    ensures !HasEnd([])
  {
  }

  lemma NoEndSnoc(es: seq<Event>, e: Event)
    requires !HasEnd(es) && !e.body.End?
    ensures !HasEnd(es + [e])
  {
  }

  lemma FailureStep(conns: seq<Conn>, k: nat)
    requires k < |conns|
    ensures Failures(conns, k + 1) == (if conns[k].events != [] then 0 else Failures(conns, k)) + 1
  {
  }

  /** The delay slept after connection `k`. */
  ghost predicate SleptAt(conns: seq<Conn>, roll: Roll, ms: int, k: nat)
    requires k < |conns|
  {
    1 <= Failures(conns, k + 1) < MAX_RECONNECT_ATTEMPTS && ms == RetryDelay(Failures(conns, k + 1) - 1, roll)
  }

  /** Each sleep is the delay for the failures counted so far. */
  ghost predicate Slept(conns: seq<Conn>, rolls: seq<Roll>, sleeps: seq<int>)
    requires |sleeps| <= |conns| == |rolls|
  {
    forall k | 0 <= k < |sleeps| :: SleptAt(conns, rolls[k], sleeps[k], k)
  }

  lemma NothingYet(conns: seq<Conn>, rolls: seq<Roll>)
    requires |conns| == |rolls|
    ensures Failures(conns, 0) == 0 && Slept(conns, rolls, [])
  {
  }

  lemma SleptSnoc(conns: seq<Conn>, rolls: seq<Roll>, sleeps: seq<int>, wait: int)
    requires |sleeps| < |conns| == |rolls| && Slept(conns, rolls, sleeps)
    requires 1 <= Failures(conns, |sleeps| + 1) < MAX_RECONNECT_ATTEMPTS
    requires wait == RetryDelay(Failures(conns, |sleeps| + 1) - 1, rolls[|sleeps|])
    ensures Slept(conns, rolls, sleeps + [wait])
  {
    assert SleptAt(conns, rolls[|sleeps|], wait, |sleeps|);
    hide SleptAt, Failures, RetryDelay;
    var more := sleeps + [wait];
    forall k | 0 <= k < |more| ensures SleptAt(conns, rolls[k], more[k], k) {
      if k < |sleeps| { assert more[k] == sleeps[k]; }
    }
  }

  /** The connection neither finished the run nor failed for good. */
  ghost predicate Retried(c: Conn) {
    (forall e | e in c.events :: Outlasts(e.body))
    && c.ending != Aborted && !(c.ending.Failed? && c.ending.permanent)
  }

  ghost predicate AllRetried(conns: seq<Conn>) { forall c | c in conns :: Retried(c) }

  lemma RetriedLasts(s: State, conns: seq<Conn>, k: nat)
    requires Running(s.pic) && AllRetried(conns) && k < |conns|
    ensures Lived(s, conns[k]).1 == None && Running(Lived(s, conns[k]).0.pic)
  {
    assert conns[k] in conns && Retried(conns[k]);
    RunningLasts(s, conns[k].events);
  }

  /**
   * When following is given up for lost, the last eleven connections delivered
   * nothing; the one before them, if any, did. The eleven sleeps between those
   * twelve connections take the backoff table from its start.
   */
  lemma LostMeansSilence(conns: seq<Conn>, rolls: seq<Roll>, sleeps: seq<int>, used: nat)
    requires |rolls| == |conns| && used <= |conns| && |sleeps| == used - 1
    requires Failures(conns, used) == MAX_RECONNECT_ATTEMPTS
    requires Slept(conns, rolls, sleeps)
    ensures used >= MAX_RECONNECT_ATTEMPTS
    ensures forall j | used - 11 <= j < used :: conns[j].events == []
    ensures used == MAX_RECONNECT_ATTEMPTS || conns[used - 12].events != []
    ensures 90750 <= Sum(sleeps[used - 12..]) < 136125
  {
    FailuresMeanSilence(conns, used, MAX_RECONNECT_ATTEMPTS);
    hide Failures, RetryDelay, Sum;
    var ms, rs := sleeps[used - 12..], rolls[used - 12..used - 1];
    forall k | 0 <= k < 11 ensures ms[k] == RetryDelay(k, rs[k]) {
      var c := used - 12 + k;
      FailuresMeanSilence(conns, c + 1, k + 1);
      assert SleptAt(conns, rolls[c], sleeps[c], c);
      assert ms[k] == sleeps[c] && rs[k] == rolls[c];
    }
    ElevenSleeps(ms, rs);
  }

  /** From the first connection on, only twelve silent ones in a row can be given up for lost. */
  lemma SilentFromTheStart(conns: seq<Conn>, used: nat)
    requires used <= |conns| && forall j | 0 <= j < used :: conns[j].events == []
    ensures Failures(conns, used) == used
  {
    if used > 0 { FailuresMeanSilence(conns, used, used); }
  }
}
