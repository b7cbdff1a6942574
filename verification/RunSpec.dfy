// The run state as values: what one event does to the picture of a run and to
// its transcript. The class in RunState.dfy is proved against these functions.
module RunSpec {
  import opened Text
  import opened Ladder

  /** How many rows stay in memory. */
  const TRANSCRIPT_CAP := 500

  // ---- the wire -------------------------------------------------------------

  datatype MutationKind = Create | Modify | Delete
  datatype Mutation = Mutation(path: string, kind: MutationKind, guarded: bool)
  datatype Usage = Usage(promptTokens: int, completionTokens: int, budget: int)

  /** Event data after the defensive readers; `None` where a missing field falls back on state. */
  datatype Body =
    | User(text: string)
    | TurnStart(newTurn: Option<int>, newMode: Option<string>, newAttempt: Option<int>)
    | Assistant(text: string)
    | Plan(text: string, steps: int)
    | ToolCall(call: string, name: string)
    | ToolPending(approval: string)
    | ToolResult(call: string, name: string, result: Outcome, mutations: seq<Mutation>)
    | GateRan(gate: Gate)
    | UsageReport(usage: Usage)
    | Quota
    | Steer(text: string)
    | Failure(message: string)
    | Finish(outcome: string, summary: string, turns: Option<int>, paths: seq<string>)
    | End(outcome: string, summary: string, paths: seq<string>)
    | Delta(text: string)
    | Heartbeat
    | Unknown

  datatype Outcome = Outcome(ok: bool, content: string)
  datatype Event = Event(id: int, body: Body)

  /** Events the server neither stores nor spends an id on. */
  predicate Transient(b: Body) { b.Delta? || b.Heartbeat? }

  // ---- touched paths --------------------------------------------------------

  datatype Touched = Touched(kind: Option<MutationKind>, guarded: bool)
  /** One report about a path: how it changed, or only that it was touched. */
  datatype Report = Changed(mutation: Mutation) | Named(path: string)

  function Note(touched: map<string, Touched>, r: Report): map<string, Touched> {
    match r
    case Named(path) =>
      if path in touched then touched else touched[path := Touched(None, false)]
    case Changed(m) =>
      if m.path !in touched then touched[m.path := Touched(Some(m.kind), m.guarded)]
      else
        var was := touched[m.path];
        var kind := if m.kind == Delete || was.kind != Some(Create) then Some(m.kind) else was.kind;
        touched[m.path := Touched(kind, was.guarded || m.guarded)]
  }

  function NoteAll(touched: map<string, Touched>, rs: seq<Report>): map<string, Touched> {
    if rs == [] then touched else Note(NoteAll(touched, rs[..|rs| - 1]), rs[|rs| - 1])
  }

  function ChangedAll(ms: seq<Mutation>): seq<Report> {
    seq(|ms|, k requires 0 <= k < |ms| => Changed(ms[k]))
  }

  function NamedAll(paths: seq<string>): seq<Report> {
    seq(|paths|, k requires 0 <= k < |paths| => Named(paths[k]))
  }

  // ---- the picture ----------------------------------------------------------

  /** Everything derived from stored events that is not a row. */
  datatype Picture = Picture(
    turn: int, mode: string, attempt: int, status: string, summary: string, finished: bool,
    plan: Option<(string, int)>, usage: Option<Usage>, lastError: Option<string>,
    touched: map<string, Touched>, gates: seq<GateRun>, compactions: seq<GateRun>,
    inFlight: map<string, string>, approvals: set<string>, attached: bool)

  const Blank := Picture(0, "", 1, "running", "", false, None, None, None, map[], [], [], map[], {}, true)

  predicate Running(p: Picture) { p.attached && p.status == "running" }

  /** What an event reports about paths; `end` adds nothing once a run has its outcome. */
  function Reports(p: Picture, b: Body): seq<Report> {
    match b
    case ToolResult(_, _, _, mutations) => ChangedAll(mutations)
    case Finish(_, _, _, paths) => NamedAll(paths)
    case End(_, _, paths) => if p.status == "running" then NamedAll(paths) else []
    case _ => []
  }

  /** What a stored event does to the picture. */
  function Absorb(p: Picture, b: Body): Picture {
    match b
    case TurnStart(turn, mode, attempt) =>
      p.(turn := turn.GetOr(p.turn + 1), mode := mode.GetOr(p.mode), attempt := attempt.GetOr(1),
         finished := false, status := if p.finished then "running" else p.status)
    case Plan(text, steps) => p.(plan := Some((text, steps)))
    case ToolCall(call, name) => p.(inFlight := p.inFlight[call := name])
    case ToolPending(approval) => p.(approvals := p.approvals + {approval})
    case ToolResult(call, _, _, _) =>
      p.(touched := NoteAll(p.touched, Reports(p, b)), inFlight := p.inFlight - {call}, approvals := p.approvals - {call})
    case GateRan(gate) =>
      var run := GateRun(p.turn, p.attempt, gate);
      if gate.kind == "compaction" then p.(compactions := p.compactions + [run]) else p.(gates := p.gates + [run])
    case UsageReport(usage) => p.(usage := Some(usage))
    case Failure(message) => p.(lastError := Some(message))
    case Finish(outcome, summary, _, _) =>
      p.(status := outcome, summary := summary, finished := true,
         touched := NoteAll(p.touched, Reports(p, b)), inFlight := map[], approvals := {})
    case End(outcome, summary, _) =>
      var q := if p.status == "running" then
          p.(status := outcome, summary := if summary == "" then p.summary else summary, finished := true,
             touched := NoteAll(p.touched, Reports(p, b)))
        else p;
      q.(inFlight := map[], approvals := {}, attached := false)
    case _ => p
  }

  // ---- rows -----------------------------------------------------------------

  datatype RowBody =
    | UserRow(text: string) | AssistantRow(text: string) | ErrorRow(text: string) | SteerRow(text: string)
    | PlanRow(text: string, steps: int)
    /** `called` tells a row opened by a call from one made by an orphan result. */
    | ToolRow(call: string, name: string, called: bool)
    | GateRow(run: GateRun)
    | FinishRow(outcome: string, summary: string, turns: int, paths: seq<string>)

  datatype Row = Row(id: int, turn: int, body: RowBody)

  /** The row an event writes at once, if it writes one. */
  function OwnRow(p: Picture, id: int, b: Body): Option<Row> {
    match b
    case User(text) => Some(Row(id, p.turn, UserRow(text)))
    case Steer(text) => Some(Row(id, p.turn, SteerRow(text)))
    case Plan(text, steps) => Some(Row(id, p.turn, PlanRow(text, steps)))
    case ToolCall(call, name) => Some(Row(id, p.turn, ToolRow(call, name, true)))
    case GateRan(gate) => Some(Row(id, p.turn, GateRow(GateRun(p.turn, p.attempt, gate))))
    case Finish(outcome, summary, turns, paths) =>
      Some(Row(id, p.turn, FinishRow(outcome, summary, turns.GetOr(p.turn), paths)))
    case _ => None
  }

  /** The row an event holds back for its twin. */
  function HeldRow(p: Picture, id: int, b: Body): Option<Row> {
    match b
    case Assistant(text) => Some(Row(id, p.turn, AssistantRow(text)))
    case Failure(message) => Some(Row(id, p.turn, ErrorRow(message)))
    case _ => None
  }

  function OrphanRow(p: Picture, id: int, call: string, name: string): Row {
    Row(id, p.turn, ToolRow(call, name, false))
  }

  /** Two copies of one sentence, up to surrounding white space. */
  predicate Same(a: string, b: string) { Trim(a) == Trim(b) && |Trim(a)| > 0 }

  /** The event is the twin the held row was waiting for. */
  predicate Twin(held: Row, turn: int, b: Body) {
    match b
    case Plan(text, _) => held.body.AssistantRow? && held.turn == turn && Same(held.body.text, text)
    case Finish(_, summary, _, _) => held.body.ErrorRow? && Same(held.body.text, summary)
    case _ => false
  }

  /** Events that let go of a held row; the others pass it by. */
  predicate Releasing(b: Body) {
    !(b.UsageReport? || b.Quota? || b.Delta? || b.Heartbeat? || b.Unknown?)
  }

  predicate ClearsStream(p: Picture, b: Body) {
    b.TurnStart? || b.Plan? || b.Finish? || (b.End? && p.status == "running")
  }

  // ---- which tool rows a result can still reach -----------------------------

  predicate IsCall(r: Row, call: string) { r.body.ToolRow? && r.body.called && r.body.call == call }
  predicate IsTool(r: Row, call: string) { r.body.ToolRow? && r.body.call == call }

  /** Row `p` opened the call, no later row did, and no row of that call was evicted since. */
  ghost predicate Reaches(rows: seq<Row>, call: string, p: int) {
    && 0 <= p < |rows| && IsCall(rows[p], call)
    && (forall q | p < q < |rows| :: !IsCall(rows[q], call))
    && (forall q | 0 <= q < |rows| && p - TRANSCRIPT_CAP <= q < |rows| - TRANSCRIPT_CAP :: !IsTool(rows[q], call))
  }

  ghost function RowOfCall(rows: seq<Row>, call: string): (r: Option<int>)
    ensures r.Some? ==> Reaches(rows, call, r.value)
    ensures r.None? ==> forall p :: !Reaches(rows, call, p)
  {
    if exists p :: Reaches(rows, call, p) then
      var p :| Reaches(rows, call, p); Some(p)
    else None
  }

  // ---- the whole state ------------------------------------------------------

  /**
   * `rows` is every row ever appended since the last reset, evicted or not;
   * `results` holds the tool results written into rows, by row number.
   */
  datatype State = State(pic: Picture, rows: seq<Row>, results: map<int, Outcome>, held: Option<Row>,
                         streaming: string, lastId: int)

  const Fresh := State(Blank, [], map[], None, "", 0)

  function Append(s: State, row: Row): State { s.(rows := s.rows + [row]) }

  /** Emit the held row: its twin did not come. */
  function Release(s: State): State {
    match s.held
    case None => s
    case Some(row) =>
      Append(s.(held := None, streaming := if row.body.AssistantRow? then "" else s.streaming), row)
  }

  /** Release the held row, or drop it when the event is its twin. */
  function Settle(s: State, b: Body): State {
    if !Releasing(b) then s
    else if s.held.Some? && Twin(s.held.value, s.pic.turn, b) then s.(held := None)
    else Release(s)
  }

  /** What a stored event does: settle the held row, absorb, write or hold a row. */
  ghost function Store(s: State, e: Event): State {
    var b := e.body;
    var t := Settle(s, b);
    var p := Absorb(s.pic, b);
    var u := t.(pic := p, lastId := if e.id != 0 then e.id else s.lastId,
                streaming := if ClearsStream(s.pic, b) then "" else t.streaming);
    if b.ToolResult? then PlaceResult(u, e.id, b.call, b.name, b.result)
    else
      match OwnRow(p, e.id, b)
      case Some(row) => Append(u, row)
      case None =>
        match HeldRow(p, e.id, b)
        case Some(row) => u.(held := Some(row))
        case None => u
  }

  /** A result goes into the row its call can still reach, or makes a row of its own. */
  ghost function PlaceResult(s: State, id: int, call: string, name: string, result: Outcome): State {
    match RowOfCall(s.rows, call)
    case Some(at) => s.(results := s.results[at := result])
    case None => Append(s.(results := s.results[|s.rows| := result]), OrphanRow(s.pic, id, call, name))
  }

  /** What an event that passed the guard does. */
  ghost function Accept(s: State, e: Event): State {
    if e.body.Delta? then s.(streaming := s.streaming + e.body.text)
    else if e.body.Heartbeat? then s
    else Store(s, e)
  }

  /** A stored event at or below the cursor has been seen before. */
  predicate Refused(s: State, e: Event) { !Transient(e.body) && s.lastId != 0 && e.id <= s.lastId }

  ghost function Ingest(s: State, e: Event): State { if Refused(s, e) then s else Accept(s, e) }

  ghost function IngestAll(s: State, es: seq<Event>): State {
    if es == [] then s else Ingest(IngestAll(s, es[..|es| - 1]), es[|es| - 1])
  }

  /** What a dropped link does: no row waits for a twin, no delta is spliced. */
  function Dropped(s: State): State { Release(s).(streaming := "") }

  // ---- following ------------------------------------------------------------

  const MAX_RECONNECT_ATTEMPTS := 12
  const OFFLINE_AFTER_ATTEMPTS := 3

  datatype Ending = Closed | Failed(permanent: bool, message: string) | Aborted
  /** One connection: the events it had to deliver, and how it ended. */
  datatype Conn = Conn(events: seq<Event>, ending: Ending)

  /** How following ended; `Waiting` is the sleep before a connection not yet made. */
  datatype Verdict = SawEnd | Refusal | Cancelled | NotRunning | Lost | Waiting

  predicate Outlasts(b: Body) { !b.Finish? && !b.End? }

  predicate HasEnd(es: seq<Event>) { exists e :: e in es && e.body.End? }

  /** A connection's events as far as the first `end`: the loop returns there. */
  function UpToEnd(es: seq<Event>): seq<Event> {
    if es == [] then []
    else if es[0].body.End? then [es[0]]
    else [es[0]] + UpToEnd(es[1..])
  }

  /** The events of a run that pass the guard and so reach the raw consumers. */
  ghost function AcceptedOf(s: State, es: seq<Event>): seq<Event> {
    if es == [] then []
    else
      var init, e := es[..|es| - 1], es[|es| - 1];
      AcceptedOf(s, init) + if Refused(IngestAll(s, init), e) then [] else [e]
  }

  const LOST_MESSAGE := "Lost contact with the runtime"

  /** What giving up does to the picture. */
  function LostPicture(p: Picture): Picture {
    p.(lastError := Some(LOST_MESSAGE), status := "error", summary := LOST_MESSAGE, finished := true,
       attached := false, approvals := {}, inFlight := map[])
  }

  /** What a permanent refusal does to it. */
  function RefusedPicture(p: Picture, message: string): Picture { p.(lastError := Some(message)) }

  /**
   * One connection lived through: the state it leaves, and how it ended the loop
   * unless another attempt is due. An aborted loop returns before it releases a
   * held row or clears a partial text.
   */
  ghost function Lived(s: State, c: Conn): (State, Option<Verdict>) {
    var t := IngestAll(s, UpToEnd(c.events));
    if HasEnd(c.events) then (Release(t), Some(SawEnd))
    else if c.ending == Aborted then (t, Some(Cancelled))
    else if c.ending.Failed? && c.ending.permanent then
      (t.(pic := RefusedPicture(t.pic, c.ending.message)), Some(Refusal))
    else (Dropped(t), if Running(t.pic) then None else Some(NotRunning))
  }

  /** Where a loop stands: state, re-emitted events, failure count, and its end if it has one. */
  datatype Progress = Progress(s: State, received: seq<Event>, failures: nat, over: Option<Verdict>)

  /** One attempt: an event is the only proof of a link, and the twelfth failure gives up. */
  ghost function Attempted(g: Progress, c: Conn): Progress {
    if g.over.Some? then g
    else
      var lived := Lived(g.s, c);
      var received := g.received + AcceptedOf(g.s, UpToEnd(c.events));
      var failures := (if c.events != [] then 0 else g.failures) + 1;
      if lived.1.Some? then Progress(lived.0, received, failures, lived.1)
      else if failures >= MAX_RECONNECT_ATTEMPTS then
        Progress(lived.0.(pic := LostPicture(lived.0.pic)), received, failures, Some(Lost))
      else Progress(lived.0, received, failures, None)
  }

  /** The loop after its first `n` attempts. */
  ghost function Walk(g: Progress, conns: seq<Conn>, n: nat): Progress
    requires n <= |conns|
  {
    if n == 0 then g else Attempted(Walk(g, conns, n - 1), conns[n - 1])
  }
}
