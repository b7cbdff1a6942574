// The run state said outright, event by event: which rows stand for which events,
// and each figure of the picture from the events that decide it.
module Declared {
  import opened Text
  import opened Ladder
  import opened RunSpec
  import opened Stream

  // ---- the figures ----------------------------------------------------------

  /** The turn: what the last `turn_start` says, or one more than before it. */
  function TurnAt(es: seq<Event>): int {
    if es == [] then 0
    else
      match es[|es| - 1].body
      case TurnStart(Some(turn), _, _) => turn
      case TurnStart(None, _, _) => TurnAt(es[..|es| - 1]) + 1
      case _ => TurnAt(es[..|es| - 1])
  }

  /** The attempt the last `turn_start` names; the first when it names none. */
  function AttemptAt(es: seq<Event>): int {
    if es == [] then 1
    else
      match es[|es| - 1].body
      case TurnStart(_, _, Some(attempt)) => attempt
      case TurnStart(_, _, None) => 1
      case _ => AttemptAt(es[..|es| - 1])
  }

  /** The mode last named. */
  function ModeAt(es: seq<Event>): string {
    if es == [] then ""
    else
      match es[|es| - 1].body
      case TurnStart(_, Some(mode), _) => mode
      case _ => ModeAt(es[..|es| - 1])
  }

  function LastPlan(es: seq<Event>): Option<(string, int)> {
    if es == [] then None
    else if es[|es| - 1].body.Plan? then Some((es[|es| - 1].body.text, es[|es| - 1].body.steps))
    else LastPlan(es[..|es| - 1])
  }

  function LastUsage(es: seq<Event>): Option<Usage> {
    if es == [] then None
    else if es[|es| - 1].body.UsageReport? then Some(es[|es| - 1].body.usage)
    else LastUsage(es[..|es| - 1])
  }

  function LastErrorOf(es: seq<Event>): Option<string> {
    if es == [] then None
    else if es[|es| - 1].body.Failure? then Some(es[|es| - 1].body.message)
    else LastErrorOf(es[..|es| - 1])
  }

  /** The gates run, compactions or the others, each with the turn and attempt it fell in. */
  function GatesRun(es: seq<Event>, compaction: bool): seq<GateRun> {
    if es == [] then []
    else
      var init, b := es[..|es| - 1], es[|es| - 1].body;
      GatesRun(init, compaction)
      + if b.GateRan? && (b.gate.kind == "compaction") == compaction then [GateRun(TurnAt(es), AttemptAt(es), b.gate)] else []
  }

  /**
   * Where the run's present outcome was decided: at the last `finish`, or at an
   * `end` that found none; a turn started since makes it open again.
   */
  function DecidedAt(es: seq<Event>): (r: Option<nat>)
    ensures r.Some? ==> r.value < |es| && (es[r.value].body.Finish? || es[r.value].body.End?)
    decreases |es|, 0
  {
    if es == [] then None
    else
      var init := es[..|es| - 1];
      match es[|es| - 1].body
      case TurnStart(_, _, _) => None
      case Finish(_, _, _, _) => Some(|es| - 1)
      case End(_, _, _) => if StatusOf(init) == "running" then Some(|es| - 1) else DecidedAt(init)
      case _ => DecidedAt(init)
  }

  function StatusOf(es: seq<Event>): string
    decreases |es|, 1
  {
    match DecidedAt(es)
    case None => "running"
    case Some(i) => es[i].body.outcome
  }

  /** The summary of the last `finish`, or of a later `end` that decided and had one. */
  function SummaryOf(es: seq<Event>): string {
    if es == [] then ""
    else
      var init := es[..|es| - 1];
      match es[|es| - 1].body
      case Finish(_, summary, _, _) => summary
      case End(_, summary, _) => if DecidedAt(es) == Some(|es| - 1) && summary != "" then summary else SummaryOf(init)
      case _ => SummaryOf(init)
  }

  /** A result for the call, or the end of the run, settles it. */
  predicate Settles(b: Body, call: string) { (b.ToolResult? && b.call == call) || b.Finish? || b.End? }

  /** The call was made at `i`, and neither settled nor made again since. */
  ghost predicate OpenAt(es: seq<Event>, call: string, i: int) {
    0 <= i < |es| && es[i].body.ToolCall? && es[i].body.call == call
    && forall j | i < j < |es| :: !Settles(es[j].body, call) && !(es[j].body.ToolCall? && es[j].body.call == call)
  }

  /** The approval was asked for at `i`, and not settled since. */
  ghost predicate AskedAt(es: seq<Event>, approval: string, i: int) {
    0 <= i < |es| && es[i].body.ToolPending? && es[i].body.approval == approval
    && forall j | i < j < |es| :: !Settles(es[j].body, approval)
  }

  ghost predicate CallsAre(es: seq<Event>, inFlight: map<string, string>) {
    && (forall call, i | 0 <= i < |es| && es[i].body.ToolCall? && OpenAt(es, call, i) :: call in inFlight && inFlight[call] == es[i].body.name)
    && (forall call | call in inFlight :: exists i :: OpenAt(es, call, i))
  }

  ghost predicate ApprovalsAre(es: seq<Event>, approvals: set<string>) {
    && (forall approval, i | AskedAt(es, approval, i) :: approval in approvals)
    && (forall approval | approval in approvals :: exists i :: AskedAt(es, approval, i))
  }

  lemma OpenSnoc(es: seq<Event>, e: Event, call: string, i: int)
    ensures OpenAt(es + [e], call, i)
       <==> if i == |es| then e.body.ToolCall? && e.body.call == call
            else OpenAt(es, call, i) && !Settles(e.body, call) && !(e.body.ToolCall? && e.body.call == call)
  {
    var more := es + [e];
    assert more[|es|] == e && forall j | 0 <= j < |es| :: more[j] == es[j];
  }

  lemma AskedSnoc(es: seq<Event>, e: Event, approval: string, i: int)
    ensures AskedAt(es + [e], approval, i)
       <==> if i == |es| then e.body.ToolPending? && e.body.approval == approval
            else AskedAt(es, approval, i) && !Settles(e.body, approval)
  {
    var more := es + [e];
    assert more[|es|] == e && forall j | 0 <= j < |es| :: more[j] == es[j];
  }

  lemma CallsStep(es: seq<Event>, p: Picture, e: Event)
    requires CallsAre(es, p.inFlight)
    ensures CallsAre(es + [e], Absorb(p, e.body).inFlight)
  {
    CallsAfter(p, e.body);
    hide Absorb, OpenAt, Settles;
    var more, now := es + [e], Absorb(p, e.body).inFlight;
    assert forall j | 0 <= j < |es| :: more[j] == es[j];
    forall call, i | 0 <= i < |more| && more[i].body.ToolCall? && OpenAt(more, call, i) ensures call in now && now[call] == more[i].body.name {
      OpenSnoc(es, e, call, i);
      if i != |es| { InRange(es, call, i); }
    }
    forall call | call in now ensures exists i :: OpenAt(more, call, i) {
      if e.body.ToolCall? && e.body.call == call {
        OpenSnoc(es, e, call, |es|);
      } else {
        var i :| OpenAt(es, call, i);
        InRange(es, call, i);
        OpenSnoc(es, e, call, i);
      }
    }
  }

  lemma InRange(es: seq<Event>, call: string, i: int)
    requires OpenAt(es, call, i)
    ensures 0 <= i < |es| && es[i].body.ToolCall?
  {
  }

  lemma CallsAfter(p: Picture, b: Body)
    ensures forall call :: call in Absorb(p, b).inFlight <==>
      (b.ToolCall? && b.call == call) || (call in p.inFlight && !Settles(b, call))
    ensures forall call | call in Absorb(p, b).inFlight ::
      Absorb(p, b).inFlight[call] == if b.ToolCall? && b.call == call then b.name else if call in p.inFlight then p.inFlight[call] else ""
  {
    hide NoteAll, Reports;
  }

  lemma ApprovalsAfter(p: Picture, b: Body)
    ensures forall a :: a in Absorb(p, b).approvals <==>
      (b.ToolPending? && b.approval == a) || (a in p.approvals && !Settles(b, a))
  {
    hide NoteAll, Reports;
  }

  lemma ApprovalsStep(es: seq<Event>, p: Picture, e: Event)
    requires ApprovalsAre(es, p.approvals)
    ensures ApprovalsAre(es + [e], Absorb(p, e.body).approvals)
  {
    ApprovalsAfter(p, e.body);
    hide Absorb, AskedAt, Settles;
    var more, now := es + [e], Absorb(p, e.body).approvals;
    forall approval, i | AskedAt(more, approval, i) ensures approval in now {
      AskedSnoc(es, e, approval, i);
      if i != |es| { AskedInRange(es, approval, i); }
    }
    forall approval | approval in now ensures exists i :: AskedAt(more, approval, i) {
      if e.body.ToolPending? && e.body.approval == approval {
        AskedSnoc(es, e, approval, |es|);
      } else {
        var i :| AskedAt(es, approval, i);
        AskedInRange(es, approval, i);
        AskedSnoc(es, e, approval, i);
      }
    }
  }

  lemma AskedInRange(es: seq<Event>, approval: string, i: int)
    requires AskedAt(es, approval, i)
    ensures 0 <= i < |es|
  {
  }

  /** Turn, mode, attempt, plan, usage, last error, gates and whether the session is attached. */
  lemma {:induction false} FiguresAre(es: seq<Event>)
    ensures var p := PictureOf(es);
      && p.turn == TurnAt(es) && p.attempt == AttemptAt(es) && p.mode == ModeAt(es)
      && p.plan == LastPlan(es) && p.usage == LastUsage(es) && p.lastError == LastErrorOf(es)
      && p.gates == GatesRun(es, false) && p.compactions == GatesRun(es, true)
      && (p.attached <==> forall e | e in es :: !e.body.End?)
    decreases |es|
  {
    if es != [] {
      var init, e := es[..|es| - 1], es[|es| - 1];
      FiguresAre(init);
      assert es == init + [e];
      FiguresAfter(PictureOf(init), e.body);
      hide Absorb;
    }
  }

  lemma FiguresAfter(p: Picture, b: Body)
    ensures var q := Absorb(p, b);
      && q.turn == (if b.TurnStart? then (if b.newTurn.Some? then b.newTurn.value else p.turn + 1) else p.turn)
      && q.attempt == (if b.TurnStart? then (if b.newAttempt.Some? then b.newAttempt.value else 1) else p.attempt)
      && q.mode == (if b.TurnStart? && b.newMode.Some? then b.newMode.value else p.mode)
      && q.plan == (if b.Plan? then Some((b.text, b.steps)) else p.plan)
      && q.usage == (if b.UsageReport? then Some(b.usage) else p.usage)
      && q.lastError == (if b.Failure? then Some(b.message) else p.lastError)
      && q.gates == p.gates + (if b.GateRan? && b.gate.kind != "compaction" then [GateRun(p.turn, p.attempt, b.gate)] else [])
      && q.compactions == p.compactions + (if b.GateRan? && b.gate.kind == "compaction" then [GateRun(p.turn, p.attempt, b.gate)] else [])
      && (q.attached <==> p.attached && !b.End?)
  {
    hide NoteAll, Reports;
  }

  /** The outcome: status, summary and whether the run has finished. */
  lemma {:induction false} OutcomeIs(es: seq<Event>)
    ensures var p := PictureOf(es);
      p.status == StatusOf(es) && p.summary == SummaryOf(es) && (p.finished <==> DecidedAt(es).Some?)
    decreases |es|
  {
    if es != [] {
      var init, e := es[..|es| - 1], es[|es| - 1];
      OutcomeIs(init);
      OutcomeAfter(PictureOf(init), e.body);
      assert DecidedAt(init).Some? ==> init[DecidedAt(init).value] == es[DecidedAt(init).value];
      hide Absorb;
    }
  }

  lemma OutcomeAfter(p: Picture, b: Body)
    ensures var q := Absorb(p, b);
      match b
      case TurnStart(_, _, _) => q.status == (if p.finished then "running" else p.status) && q.summary == p.summary && !q.finished
      case Finish(outcome, summary, _, _) => q.status == outcome && q.summary == summary && q.finished
      case End(outcome, summary, _) =>
        if p.status == "running" then q.status == outcome && q.summary == (if summary == "" then p.summary else summary) && q.finished
        else q.status == p.status && q.summary == p.summary && q.finished == p.finished
      case _ => q.status == p.status && q.summary == p.summary && q.finished == p.finished
  {
    hide NoteAll, Reports;
  }

  /** Calls in flight and approvals asked for are those not settled since. */
  lemma {:induction false} WaitingAre(es: seq<Event>)
    ensures CallsAre(es, PictureOf(es).inFlight) && ApprovalsAre(es, PictureOf(es).approvals)
    decreases |es|
  {
    if es != [] {
      var init, e := es[..|es| - 1], es[|es| - 1];
      WaitingAre(init);
      assert es == init + [e];
      CallsStep(init, PictureOf(init), e);
      ApprovalsStep(init, PictureOf(init), e);
      hide Absorb, CallsAre, ApprovalsAre;
    }
  }

  // ---- the paths ------------------------------------------------------------

  /** How tool results changed a path, in order. */
  function ChangesTo(es: seq<Event>, path: string): seq<MutationKind> {
    if es == [] then []
    else ChangesTo(es[..|es| - 1], path) + (if es[|es| - 1].body.ToolResult? then KindsIn(es[|es| - 1].body.mutations, path) else [])
  }

  function KindsIn(ms: seq<Mutation>, path: string): seq<MutationKind> {
    if ms == [] then []
    else KindsIn(ms[..|ms| - 1], path) + if ms[|ms| - 1].path == path then [ms[|ms| - 1].kind] else []
  }

  ghost predicate MutatedIn(ms: seq<Mutation>, path: string) { exists m :: m in ms && m.path == path }
  ghost predicate GuardedIn(ms: seq<Mutation>, path: string) { exists m :: m in ms && m.path == path && m.guarded }

  /** Event `i` speaks of the path: a result that changed it, a `finish` or a deciding `end` that lists it. */
  ghost predicate SpeaksOf(es: seq<Event>, path: string, i: int) {
    0 <= i < |es| &&
    match es[i].body
    case ToolResult(_, _, _, mutations) => MutatedIn(mutations, path)
    case Finish(_, _, _, paths) => path in paths
    case End(_, _, paths) => path in paths && StatusOf(es[..i]) == "running"
    case _ => false
  }

  ghost predicate GuardsAt(es: seq<Event>, path: string, i: int) {
    0 <= i < |es| && es[i].body.ToolResult? && GuardedIn(es[i].body.mutations, path)
  }

  lemma {:induction false} KindsOfConcat(x: seq<Report>, y: seq<Report>, path: string)
    ensures Kinds(x + y, path) == Kinds(x, path) + Kinds(y, path)
    ensures Mentioned(x + y, path) <==> Mentioned(x, path) || Mentioned(y, path)
    ensures Guarded(x + y, path) <==> Guarded(x, path) || Guarded(y, path)
    decreases |y|
  {
    if y == [] {
      assert x + y == x;
    } else {
      var init, r := y[..|y| - 1], y[|y| - 1];
      hide Kinds, Mentioned, Guarded;
      KindsOfConcat(x, init, path);
      assert x + y == (x + init) + [r] && y == init + [r];
      MentionedSnoc(x + init, r, path);
      MentionedSnoc(init, r, path);
    }
  }

  lemma {:induction false} ChangedReports(ms: seq<Mutation>, path: string)
    ensures Kinds(ChangedAll(ms), path) == KindsIn(ms, path)
    ensures Mentioned(ChangedAll(ms), path) <==> MutatedIn(ms, path)
    ensures Guarded(ChangedAll(ms), path) <==> GuardedIn(ms, path)
    decreases |ms|
  {
    if ms != [] {
      var init, m := ms[..|ms| - 1], ms[|ms| - 1];
      ChangedReports(init, path);
      assert ChangedAll(ms) == ChangedAll(init) + [Changed(m)];
      MentionedSnoc(ChangedAll(init), Changed(m), path);
      assert m in ms && forall x :: x in ms <==> x in init || x == m;
      hide Kinds, Mentioned, Guarded;
    }
  }

  lemma {:induction false} NamedReports(paths: seq<string>, path: string)
    ensures Kinds(NamedAll(paths), path) == []
    ensures Mentioned(NamedAll(paths), path) <==> path in paths
    ensures !Guarded(NamedAll(paths), path)
    decreases |paths|
  {
    if paths != [] {
      var init, p := paths[..|paths| - 1], paths[|paths| - 1];
      NamedReports(init, path);
      assert NamedAll(paths) == NamedAll(init) + [Named(p)];
      MentionedSnoc(NamedAll(init), Named(p), path);
      assert paths == init + [p];
      hide Kinds, Mentioned, Guarded;
    }
  }

  /** What one event reports of a path. */
  lemma EventReports(es: seq<Event>, path: string)
    requires es != []
    ensures var init, b := es[..|es| - 1], es[|es| - 1].body;
      var rs := Reports(PictureOf(init), b);
      && Kinds(rs, path) == (if b.ToolResult? then KindsIn(b.mutations, path) else [])
      && (Mentioned(rs, path) <==> SpeaksOf(es, path, |es| - 1))
      && (Guarded(rs, path) <==> GuardsAt(es, path, |es| - 1))
  {
    var init, b := es[..|es| - 1], es[|es| - 1].body;
    OutcomeIs(init);
    hide Kinds, Mentioned, Guarded, StatusOf, PictureOf;
    assert es[..|es| - 1] == init;
    NamedReports([], path);
    assert NamedAll([]) == [];
    match b
    case ToolResult(_, _, _, mutations) => ChangedReports(mutations, path);
    case Finish(_, _, _, paths) => NamedReports(paths, path);
    case End(_, _, paths) => NamedReports(paths, path);
    case _ =>
  }

  lemma SpeaksSnoc(init: seq<Event>, e: Event, path: string, i: int)
    ensures i != |init| ==> (SpeaksOf(init + [e], path, i) <==> SpeaksOf(init, path, i))
    ensures i != |init| ==> (GuardsAt(init + [e], path, i) <==> GuardsAt(init, path, i))
  {
    var es := init + [e];
    if 0 <= i < |init| { assert es[i] == init[i] && es[..i] == init[..i]; }
    hide StatusOf;
  }

  /**
   * A path is listed exactly when some event speaks of it; its kind is that of all
   * the changes tool results made to it; it is protected exactly when one said so.
   */
  ghost predicate PathIs(es: seq<Event>, path: string, touched: map<string, Touched>) {
    && (path in touched <==> exists i :: SpeaksOf(es, path, i))
    && (path in touched ==> touched[path].kind == Stream.Verdict(ChangesTo(es, path)))
    && (path in touched ==> (touched[path].guarded <==> exists i :: GuardsAt(es, path, i)))
  }

  ghost predicate ReportsAre(es: seq<Event>, path: string, rs: seq<Report>) {
    && Kinds(rs, path) == ChangesTo(es, path)
    && (Mentioned(rs, path) <==> exists i :: SpeaksOf(es, path, i))
    && (Guarded(rs, path) <==> exists i :: GuardsAt(es, path, i))
  }

  lemma {:induction false} ReportsOfEvents(es: seq<Event>, path: string)
    ensures ReportsAre(es, path, ReportsOf(es))
    decreases |es|
  {
    if es != [] {
      var init, e := es[..|es| - 1], es[|es| - 1];
      ReportsOfEvents(init, path);
      assert es == init + [e];
      EventReports(es, path);
      KindsOfConcat(ReportsOf(init), Reports(PictureOf(init), e.body), path);
      forall i ensures SpeaksOf(es, path, i) <==> SpeaksOf(init, path, i) || (i == |init| && SpeaksOf(es, path, i)) {
        SpeaksSnoc(init, e, path, i);
        SpeaksInRange(init, path, i);
      }
      forall i ensures GuardsAt(es, path, i) <==> GuardsAt(init, path, i) || (i == |init| && GuardsAt(es, path, i)) {
        SpeaksSnoc(init, e, path, i);
        SpeaksInRange(init, path, i);
      }
      hide Kinds, Mentioned, Guarded, SpeaksOf, GuardsAt, PictureOf, Reports, KindsIn;
    }
  }

  lemma SpeaksInRange(es: seq<Event>, path: string, i: int)
    ensures SpeaksOf(es, path, i) || GuardsAt(es, path, i) ==> 0 <= i < |es|
  {
  }

  lemma PathsAre(es: seq<Event>, path: string)
    ensures PathIs(es, path, PictureOf(es).touched)
  {
    TouchedIsTold(es, path);
    ReportsOfEvents(es, path);
    hide Kinds, Mentioned, Guarded, SpeaksOf, GuardsAt, PictureOf, ReportsOf, Stream.Verdict, ChangesTo;
  }

  /** A path deleted last is deleted; one created and not deleted since is created; any other one changed is modified. */
  lemma PathStoryTold(es: seq<Event>, path: string)
    requires path in PictureOf(es).touched
    ensures var ks, kind := ChangesTo(es, path), PictureOf(es).touched[path].kind;
      && (kind == None <==> ks == [])
      && (kind == Some(Delete) <==> ks != [] && ks[|ks| - 1] == Delete)
      && (kind == Some(Create) <==>
            (ks != [] && ks[|ks| - 1] != Delete && exists i :: 0 <= i < |ks| && ks[i] == Create && forall j | i < j < |ks| :: ks[j] != Delete))
  {
    PathsAre(es, path);
    var ks := ChangesTo(es, path);
    hide PictureOf, ChangesTo, SpeaksOf, GuardsAt;
    if i :| 0 <= i < |ks| && ks[i] == Create && forall j | i < j < |ks| :: ks[j] != Delete { assert CreatedAt(ks, i); }
    if i :| CreatedAt(ks, i) { assert 0 <= i < |ks| && ks[i] == Create; }
  }

  // ---- rows and events ------------------------------------------------------

  /** Every event but reports of usage, quota pushes, deltas, heartbeats and unknown ones lets a held row go. */
  predicate LetsGo(b: Body) {
    match b
    case UsageReport(_) => false
    case Quota => false
    case Delta(_) => false
    case Heartbeat => false
    case Unknown => false
    case _ => true
  }

  /** Event `j` is the next after `i` that lets a held row go. */
  ghost predicate NextLet(es: seq<Event>, i: int, j: int) {
    0 <= i < j < |es| && LetsGo(es[j].body) && forall k | i < k < j :: !LetsGo(es[k].body)
  }

  /** The plan or `finish` says the sentence again, up to surrounding white space. */
  predicate Repeats(b: Body, next: Body) {
    match b
    case Assistant(text) => next.Plan? && Trim(text) == Trim(next.text) && Trim(text) != ""
    case Failure(message) => next.Finish? && Trim(message) == Trim(next.summary) && Trim(message) != ""
    case _ => false
  }

  /** The row is the one that stands for the event: its id, the turn it came in, its kind and text. */
  predicate StandsFor(r: Row, e: Event, turn: int, attempt: int) {
    r.id == e.id && r.turn == turn &&
    match e.body
    case User(text) => r.body == UserRow(text)
    case Steer(text) => r.body == SteerRow(text)
    case Plan(text, steps) => r.body == PlanRow(text, steps)
    case ToolCall(call, name) => r.body == ToolRow(call, name, true)
    case GateRan(gate) => r.body == GateRow(GateRun(turn, attempt, gate))
    case Finish(outcome, summary, turns, paths) =>
      r.body == FinishRow(outcome, summary, if turns.Some? then turns.value else turn, paths)
    case Assistant(text) => r.body == AssistantRow(text)
    case Failure(message) => r.body == ErrorRow(message)
    case ToolResult(call, name, _, _) => r.body == ToolRow(call, name, false)
    case _ => false
  }

  /** Events that always have a row of their own. */
  predicate AlwaysShown(b: Body) {
    match b
    case User(_) => true
    case Steer(_) => true
    case Plan(_, _) => true
    case ToolCall(_, _) => true
    case GateRan(_) => true
    case Finish(_, _, _, _) => true
    case _ => false
  }

  /** Event `i` has a row, given the rows of the events before it. */
  ghost predicate HasRow(es: seq<Event>, i: int, before: seq<Row>)
    requires 0 <= i < |es|
  {
    match es[i].body
    case Assistant(_) => exists j :: NextLet(es, i, j) && !Repeats(es[i].body, es[j].body)
    case Failure(_) => exists j :: NextLet(es, i, j) && !Repeats(es[i].body, es[j].body)
    case ToolResult(call, _, _, _) => forall p :: !Reaches(before, call, p)
    case b => AlwaysShown(b)
  }

  /** The rows are those of the events at `at`, in event order. */
  ghost predicate RowsStand(es: seq<Event>, rows: seq<Row>, at: seq<nat>) {
    && |at| == |rows|
    && (forall k | 0 <= k < |at| :: at[k] < |es|)
    && (forall k, m | 0 <= k < m < |at| :: at[k] < at[m])
    && (forall k | 0 <= k < |at| :: StandsFor(rows[k], es[at[k]], TurnAt(es[..at[k] + 1]), AttemptAt(es[..at[k] + 1])))
  }

  /** How many of the rows stand for events before `i`. */
  function RowsBefore(at: seq<nat>, i: nat): (n: nat)
    ensures n <= |at|
  {
    if at == [] then 0 else RowsBefore(at[..|at| - 1], i) + if at[|at| - 1] < i then 1 else 0
  }

  lemma LetsGoIsReleasing(b: Body)
    ensures LetsGo(b) <==> Releasing(b)
  {
  }

  lemma RepeatsIsSaidAgain(b: Body, next: Body)
    ensures Repeats(b, next) <==> SaysAgain(b, next)
  {
  }

  lemma {:induction false} NextIs(es: seq<Event>, i: nat, from: nat)
    requires i < from <= |es| && forall k | i < k < from :: !LetsGo(es[k].body)
    ensures match NextReleasing(es, from)
      case None => forall j :: !NextLet(es, i, j)
      case Some(r) => NextLet(es, i, r) && forall j :: NextLet(es, i, j) ==> j == r
    decreases |es| - from
  {
    if from < |es| {
      LetsGoIsReleasing(es[from].body);
      if !LetsGo(es[from].body) { NextIs(es, i, from + 1); }
    }
  }

  /** What an event shows is its row, if it has one. */
  lemma ShowsItsRow(es: seq<Event>, i: nat)
    requires i < |es|
    ensures Shows(es, i) == [] <==> !HasRow(es, i, Transcript(es, i))
    ensures Shows(es, i) != [] ==> |Shows(es, i)| == 1 && StandsFor(Shows(es, i)[0], es[i], TurnAt(es[..i + 1]), AttemptAt(es[..i + 1]))
  {
    hide PictureOf, Transcript, NextReleasing, TurnAt, AttemptAt, SaysAgain, Repeats, NextLet, Reaches;
    FiguresAre(es[..i + 1]);
    var e := es[i];
    if e.body.Assistant? || e.body.Failure? {
      NextIs(es, i, i + 1);
      var next := NextReleasing(es, i + 1);
      if next.Some? { RepeatsIsSaidAgain(e.body, es[next.value].body); }
    }
  }

  /** The events with rows, among the first `n`. */
  ghost function Standing(es: seq<Event>, n: nat): (at: seq<nat>)
    requires n <= |es|
    ensures forall k | 0 <= k < |at| :: at[k] < n
  {
    if n == 0 then [] else Standing(es, n - 1) + if Shows(es, n - 1) == [] then [] else [n - 1]
  }

  ghost predicate Shown(es: seq<Event>, i: nat) { i < |es| && Shows(es, i) != [] }

  lemma StandSnoc(es: seq<Event>, rows: seq<Row>, at: seq<nat>, r: Row, i: nat)
    requires RowsStand(es, rows, at) && i < |es| && StandsFor(r, es[i], TurnAt(es[..i + 1]), AttemptAt(es[..i + 1]))
    requires forall k | 0 <= k < |at| :: at[k] < i
    ensures RowsStand(es, rows + [r], at + [i])
  {
    hide StandsFor, TurnAt, AttemptAt;
  }

  lemma StandingStep(es: seq<Event>, n: nat)
    requires n < |es|
    ensures Standing(es, n + 1) == Standing(es, n) + if Shows(es, n) == [] then [] else [n]
    ensures Transcript(es, n + 1) == Transcript(es, n) + Shows(es, n)
  {
    hide Shows;
  }

  lemma OneRowAtMost(es: seq<Event>, n: nat)
    requires n < |es| && Shows(es, n) != []
    ensures Shows(es, n) == [Shows(es, n)[0]] && StandsFor(Shows(es, n)[0], es[n], TurnAt(es[..n + 1]), AttemptAt(es[..n + 1]))
  {
    ShowsItsRow(es, n);
    hide Shows, StandsFor, HasRow, TurnAt, AttemptAt;
  }

  lemma BeforeSnoc(at: seq<nat>, x: nat, i: nat)
    ensures RowsBefore(at + [x], i) == RowsBefore(at, i) + if x < i then 1 else 0
  {
    assert (at + [x])[..|at|] == at;
  }

  lemma {:induction false} StandingRows(es: seq<Event>, n: nat)
    requires n <= |es|
    ensures RowsStand(es, Transcript(es, n), Standing(es, n))
    ensures forall i: nat | i < n :: i in Standing(es, n) <==> Shown(es, i)
    decreases n
  {
    hide Shows, StandsFor, TurnAt, AttemptAt, RowsStand;
    if n > 0 {
      var i := n - 1;
      StandingRows(es, i);
      StandingStep(es, i);
      hide Standing, Transcript;
      if Shows(es, i) != [] {
        OneRowAtMost(es, i);
        StandSnoc(es, Transcript(es, i), Standing(es, i), Shows(es, i)[0], i);
      } else {
        assert Transcript(es, i) + [] == Transcript(es, i) && Standing(es, i) + [] == Standing(es, i);
      }
    } else {
      NothingStands(es);
    }
  }

  lemma NothingStands(es: seq<Event>)
    ensures RowsStand(es, Transcript(es, 0), Standing(es, 0))
  {
  }

  /** The rows of the first `i` events are those that stand before. */
  lemma {:induction false} RowsOfFirst(es: seq<Event>, i: nat, n: nat)
    requires i <= n <= |es|
    ensures |Transcript(es, n)| == |Standing(es, n)| && RowsBefore(Standing(es, n), i) == |Standing(es, i)| <= |Transcript(es, n)|
    ensures Transcript(es, n)[..RowsBefore(Standing(es, n), i)] == Transcript(es, i)
    decreases n - i
  {
    hide Shows, Standing, Transcript, RowsBefore, StandsFor;
    if i == n {
      AllBefore(Standing(es, n), n);
      StandingRows(es, n);
    } else {
      var m := n - 1;
      RowsOfFirst(es, i, m);
      StandingStep(es, m);
      if Shows(es, m) != [] {
        OneRowAtMost(es, m);
        BeforeSnoc(Standing(es, m), m, i);
      } else {
        assert Transcript(es, m) + [] == Transcript(es, m) && Standing(es, m) + [] == Standing(es, m);
      }
    }
  }

  lemma {:induction false} AllBefore(at: seq<nat>, i: nat)
    requires forall k | 0 <= k < |at| :: at[k] < i
    ensures RowsBefore(at, i) == |at|
    decreases |at|
  {
    if at != [] { AllBefore(at[..|at| - 1], i); }
  }

  /**
   * Over every uninterrupted run, each row stands for one event, in event order,
   * with that event's id, turn, kind and text. Every user, steer, plan, tool-call,
   * gate and `finish` event has its row; an `assistant` or `error` event has it as
   * soon as the next event that lets go does not repeat it; a tool result exactly
   * when its call can reach no row of the events before it; no other event has one.
   */
  lemma EveryRowHasItsEvent(es: seq<Event>) returns (at: seq<nat>)
    ensures var rows := After(es).rows;
      && RowsStand(es, rows, at)
      && forall i: nat | i < |es| :: (i in at <==> HasRow(es, i, rows[..RowsBefore(at, i)]))
  {
    TranscriptIsDeclared(es);
    at := Standing(es, |es|);
    StandingRows(es, |es|);
    hide Shows, After, StandsFor, HasRow, Standing, Transcript, RowsStand;
    forall i: nat | i < |es| ensures i in at <==> HasRow(es, i, After(es).rows[..RowsBefore(at, i)]) {
      ShowsItsRow(es, i);
      RowsOfFirst(es, i, |es|);
    }
  }

  /** A sentence said stands in a row, its own or that of the plan or `finish` that repeats it, once an event has let go. */
  lemma EverySentenceStands(es: seq<Event>, i: nat, j: nat) returns (k: nat)
    requires NextLet(es, i, j) && (es[i].body.Assistant? || es[i].body.Failure?)
    ensures k < |After(es).rows|
    ensures var r := After(es).rows[k];
      || (r.id == es[i].id && r.body == if es[i].body.Assistant? then AssistantRow(es[i].body.text) else ErrorRow(es[i].body.message))
      || (r.id == es[j].id && r.body.PlanRow? && es[i].body.Assistant? && Trim(r.body.text) == Trim(es[i].body.text))
      || (r.id == es[j].id && r.body.FinishRow? && es[i].body.Failure? && Trim(r.body.summary) == Trim(es[i].body.message))
  {
    var at := EveryRowHasItsEvent(es);
    hide After, Trim, RowsBefore, TurnAt, AttemptAt;
    var rows := After(es).rows;
    assert HasRow(es, i, rows[..RowsBefore(at, i)]) || Repeats(es[i].body, es[j].body);
    if Repeats(es[i].body, es[j].body) {
      assert HasRow(es, j, rows[..RowsBefore(at, j)]);
      k :| 0 <= k < |at| && at[k] == j;
    } else {
      k :| 0 <= k < |at| && at[k] == i;
    }
  }

  // ---- results, live text, cursor -------------------------------------------

  /** The rows there are when event `i` looks for the row of its call. */
  ghost function RowsMet(es: seq<Event>, i: nat): seq<Row>
    requires i < |es|
  {
    Settle(After(es[..i]), es[i].body).rows
  }

  /** The result of event `i` goes to row `p`: the one its call can reach, or else a new one. */
  ghost predicate ResultFor(es: seq<Event>, i: nat, p: int) {
    i < |es| && es[i].body.ToolResult?
    && (Reaches(RowsMet(es, i), es[i].body.call, p)
        || (p == |RowsMet(es, i)| && forall q :: !Reaches(RowsMet(es, i), es[i].body.call, q)))
  }

  /** And no later result does. */
  ghost predicate LastResultFor(es: seq<Event>, i: nat, p: int) {
    ResultFor(es, i, p) && forall j: nat | i < j < |es| :: !ResultFor(es, j, p)
  }

  /** Each row that has a result has the last one that went to it. */
  ghost predicate ResultsAre(es: seq<Event>, results: map<int, Outcome>) {
    && (forall p | p in results :: exists i: nat :: ResultFor(es, i, p))
    && (forall i: nat, p | ResultFor(es, i, p) :: p in results)
    && (forall i: nat, p | LastResultFor(es, i, p) && p in results :: i < |es| && es[i].body.ToolResult? && results[p] == es[i].body.result)
  }

  lemma ResultSnoc(es: seq<Event>, e: Event, i: nat, p: int)
    ensures i != |es| ==> (ResultFor(es + [e], i, p) <==> ResultFor(es, i, p))
    ensures ResultFor(es, i, p) ==> i < |es| && es[i].body.ToolResult?
  {
    if i < |es| { assert (es + [e])[i] == es[i] && (es + [e])[..i] == es[..i]; }
    hide Settle, After, Reaches;
  }

  lemma SettleKeepsResults(s: State, b: Body)
    ensures Settle(s, b).results == s.results
  {
  }

  /** What an accepted event does to the results: nothing, or one goes to its row. */
  lemma ResultGoesToItsRow(es: seq<Event>, e: Event) returns (p: int)
    requires e.body.ToolResult?
    ensures var more := es + [e];
      && ResultFor(more, |es|, p) && (forall q :: ResultFor(more, |es|, q) ==> q == p)
      && Accept(After(es), e).results == After(es).results[p := e.body.result]
  {
    var s, more := After(es), es + [e];
    var before, call := Settle(s, e.body).rows, e.body.call;
    assert more[..|es|] == es && more[|es|] == e && RowsMet(more, |es|) == before;
    SettleKeepsResults(s, e.body);
    PlacedResult(s, e);
    hide Settle, After, Absorb, Reaches, Store, Accept;
    p := match RowOfCall(before, call) case Some(at) => at case None => |before|;
    forall q | Reaches(before, call, q) ensures q == p { OneReached(before, call, p, q); }
    hide RowOfCall;
    assert ResultFor(more, |es|, p);
  }

  lemma ResultsAfter(es: seq<Event>, e: Event)
    ensures var s, s', more := After(es), Accept(After(es), e), es + [e];
      if e.body.ToolResult? then
        exists p :: ResultFor(more, |es|, p) && (forall q :: ResultFor(more, |es|, q) ==> q == p) && s'.results == s.results[p := e.body.result]
      else s'.results == s.results && forall q :: !ResultFor(more, |es|, q)
  {
    assert (es + [e])[|es|] == e;
    if e.body.ToolResult? {
      var p := ResultGoesToItsRow(es, e);
    } else {
      SettleKeepsResults(After(es), e.body);
      if !Transient(e.body) { OtherResults(After(es), e); }
    }
    hide Settle, After, Absorb, Reaches, RowOfCall, Store;
  }

  lemma OneReached(rows: seq<Row>, call: string, p: int, q: int)
    requires Reaches(rows, call, p) && Reaches(rows, call, q)
    ensures p == q
  {
  }

  lemma PlacedResult(s: State, e: Event)
    requires e.body.ToolResult?
    ensures var t := Settle(s, e.body);
      Accept(s, e).results == match RowOfCall(t.rows, e.body.call)
        case Some(p) => t.results[p := e.body.result]
        case None => t.results[|t.rows| := e.body.result]
  {
    hide Settle, Absorb, RowOfCall;
  }

  lemma OtherResults(s: State, e: Event)
    requires !e.body.ToolResult? && !Transient(e.body)
    ensures Store(s, e).results == Settle(s, e.body).results
  {
    hide Settle, Absorb;
  }

  lemma {:induction false} ResultsStand(es: seq<Event>)
    ensures ResultsAre(es, After(es).results)
    decreases |es|
  {
    if es != [] {
      var init, e := es[..|es| - 1], es[|es| - 1];
      ResultsStand(init);
      assert es == init + [e];
      ResultsAfter(init, e);
      assert OneResult(init, e, After(init).results, After(es).results);
      ResultsStep(init, e, After(init).results, After(es).results);
    }
    hide After, ResultFor;
  }

  /** Event `e` puts its result into one row, if it is one. */
  ghost predicate OneResult(init: seq<Event>, e: Event, was: map<int, Outcome>, now: map<int, Outcome>) {
    if e.body.ToolResult? then
      exists p :: ResultFor(init + [e], |init|, p) && (forall q :: ResultFor(init + [e], |init|, q) ==> q == p) && now == was[p := e.body.result]
    else now == was && forall q :: !ResultFor(init + [e], |init|, q)
  }

  lemma ResultsStep(init: seq<Event>, e: Event, was: map<int, Outcome>, now: map<int, Outcome>)
    requires ResultsAre(init, was) && OneResult(init, e, was, now)
    ensures ResultsAre(init + [e], now)
  {
    hide ResultFor, LastResultFor;
    var es := init + [e];
    forall p | p in now ensures exists i: nat :: ResultFor(es, i, p) {
      if p in was {
        var i: nat :| ResultFor(init, i, p);
        ResultSnoc(init, e, i, p);
        assert ResultFor(es, i, p);
      }
    }
    forall i: nat, p | ResultFor(es, i, p) ensures p in now { ResultSnoc(init, e, i, p); ResultInRange(es, i, p); }
    forall i: nat, p | LastResultFor(es, i, p) && p in now
      ensures i < |es| && es[i].body.ToolResult? && now[p] == es[i].body.result
    {
      LastResult(init, e, was, now, i, p);
    }
  }

  lemma ResultInRange(es: seq<Event>, i: nat, p: int)
    requires ResultFor(es, i, p)
    ensures i < |es| && es[i].body.ToolResult?
  {
  }

  lemma LastResult(init: seq<Event>, e: Event, was: map<int, Outcome>, now: map<int, Outcome>, i: nat, p: int)
    requires ResultsAre(init, was) && OneResult(init, e, was, now)
    requires LastResultFor(init + [e], i, p) && p in now
    ensures i < |init + [e]| && (init + [e])[i].body.ToolResult? && now[p] == (init + [e])[i].body.result
  {
    var es := init + [e];
    ResultInRange(es, i, p);
    hide ResultFor;
    if i < |init| {
      ResultSnoc(init, e, i, p);
      forall j: nat | i < j < |init| ensures !ResultFor(init, j, p) { ResultSnoc(init, e, j, p); }
      assert !ResultFor(es, |init|, p);
      assert LastResultFor(init, i, p);
      assert es[i] == init[i];
    }
  }

  /** The last event so far that let go. */
  function LastLet(es: seq<Event>): Option<Event> {
    if es == [] then None
    else if LetsGo(es[|es| - 1].body) then Some(es[|es| - 1])
    else LastLet(es[..|es| - 1])
  }

  /**
   * The live text: the pieces come since it was last cleared, by a new turn, a
   * plan, a `finish`, an `end` of a going run, or the next event after an `assistant` one that lets go.
   */
  function LiveTextOf(es: seq<Event>): string {
    if es == [] then ""
    else
      var init, b := es[..|es| - 1], es[|es| - 1].body;
      match b
      case Delta(text) => LiveTextOf(init) + text
      case TurnStart(_, _, _) => ""
      case Plan(_, _) => ""
      case Finish(_, _, _, _) => ""
      case _ =>
        if b.End? && StatusOf(init) == "running" then ""
        else if LetsGo(b) && LastLet(init).Some? && LastLet(init).value.body.Assistant? then ""
        else LiveTextOf(init)
  }

  lemma {:induction false} LastLetIs(es: seq<Event>)
    ensures match LastReleasing(es)
      case None => LastLet(es) == None
      case Some(h) => LastLet(es) == Some(es[h])
    decreases |es|
  {
    if es != [] {
      LetsGoIsReleasing(es[|es| - 1].body);
      LastLetIs(es[..|es| - 1]);
    }
  }

  /** An assistant row is held exactly while an `assistant` event was the last to let go. */
  lemma AssistantHeld(es: seq<Event>)
    ensures Stream.Waiting(es).Some? && Stream.Waiting(es).value.body.AssistantRow? <==> LastLet(es).Some? && LastLet(es).value.body.Assistant?
  {
    LastLetIs(es);
    hide PictureOf;
  }

  lemma StreamAfter(s: State, e: Event)
    ensures var b := e.body;
      Accept(s, e).streaming
      == if b.Delta? then s.streaming + b.text
         else if b.TurnStart? || b.Plan? || b.Finish? || (b.End? && s.pic.status == "running") then ""
         else if LetsGo(b) && s.held.Some? && s.held.value.body.AssistantRow? then ""
         else s.streaming
  {
    LetsGoIsReleasing(e.body);
    hide Absorb, RowOfCall, Trim;
  }

  lemma {:induction false} LiveTextIs(es: seq<Event>)
    ensures After(es).streaming == LiveTextOf(es)
    decreases |es|
  {
    if es != [] {
      var init, e := es[..|es| - 1], es[|es| - 1];
      LiveTextIs(init);
      TranscriptIsDeclared(init);
      AssistantHeld(init);
      OutcomeIs(init);
      StreamAfter(After(init), e);
      hide Accept, Stream.Waiting, Transcript, PictureOf, StatusOf, LastLet;
    }
  }

  /** The id of the last stored event that has one. */
  function CursorOf(es: seq<Event>): int {
    if es == [] then 0
    else
      var e := es[|es| - 1];
      if !e.body.Delta? && !e.body.Heartbeat? && e.id != 0 then e.id else CursorOf(es[..|es| - 1])
  }

  lemma CursorAfter(s: State, e: Event)
    ensures Accept(s, e).lastId == if !e.body.Delta? && !e.body.Heartbeat? && e.id != 0 then e.id else s.lastId
  {
    hide Absorb, RowOfCall, Trim;
  }

  lemma {:induction false} CursorIs(es: seq<Event>)
    ensures After(es).lastId == CursorOf(es)
    decreases |es|
  {
    if es != [] {
      CursorIs(es[..|es| - 1]);
      CursorAfter(After(es[..|es| - 1]), es[|es| - 1]);
      hide Accept;
    }
  }
}
