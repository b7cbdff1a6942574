// A client that follows a session: what the events and faults it takes, however
// they reach it, make of its state.
module Following {
  import opened Text
  import opened Ladder
  import opened RunSpec
  import opened Stream

  // ---- the server's log -----------------------------------------------------

  function LastLogId(log: seq<Event>): int { if log == [] then 0 else log[|log| - 1].id }

  /** Stored events have positive, strictly increasing ids. */
  ghost predicate LogOk(log: seq<Event>) {
    && (forall k | 0 <= k < |log| :: !Transient(log[k].body) && log[k].id > 0)
    && (forall j, k | 0 <= j < k < |log| :: log[j].id < log[k].id)
  }

  lemma GrowKeepsLog(log: seq<Event>, e: Event)
    requires LogOk(log) && !Transient(e.body) && e.id > LastLogId(log)
    ensures LogOk(log + [e])
  {
    forall j | 0 <= j < |log| ensures log[j].id < e.id { assert j < |log| - 1 ==> log[j].id < log[|log| - 1].id; }
  }

  // ---- the client -----------------------------------------------------------

  /** What moves the picture: stored events, and the two faults that end a loop. */
  datatype Input = Ev(e: Event) | LostContact | RefusedWith(message: string)

  /** A client: its state, what it re-emitted, and what has moved its picture. */
  datatype Client = Client(s: State, received: seq<Event>, inputs: seq<Input>)

  ghost function Take(c: Client, e: Event): Client {
    if Refused(c.s, e) then c
    else Client(Accept(c.s, e), c.received + [e], if Transient(e.body) then c.inputs else c.inputs + [Ev(e)])
  }

  function Moved(p: Picture, i: Input): Picture {
    match i
    case Ev(e) => Absorb(p, e.body)
    case LostContact => LostPicture(p)
    case RefusedWith(message) => RefusedPicture(p, message)
  }

  /** A fault changes the picture and nothing else. */
  function Faulted(c: Client, i: Input): Client {
    c.(s := c.s.(pic := Moved(c.s.pic, i)), inputs := c.inputs + [i])
  }

  function PictureWith(ins: seq<Input>): Picture {
    if ins == [] then Blank else Moved(PictureWith(ins[..|ins| - 1]), ins[|ins| - 1])
  }

  function StoredOf(ins: seq<Input>): seq<Event> {
    if ins == [] then []
    else StoredOf(ins[..|ins| - 1]) + if ins[|ins| - 1].Ev? then [ins[|ins| - 1].e] else []
  }

  function FaultsOf(ins: seq<Input>): seq<Input> {
    if ins == [] then []
    else FaultsOf(ins[..|ins| - 1]) + if ins[|ins| - 1].Ev? then [] else [ins[|ins| - 1]]
  }

  function StoredOnly(es: seq<Event>): seq<Event> {
    if es == [] then []
    else StoredOnly(es[..|es| - 1]) + if Transient(es[|es| - 1].body) then [] else [es[|es| - 1]]
  }

  /** The picture but for `attached`, which attaching and detaching set at will. */
  function Core(p: Picture): Picture { p.(attached := true) }

  /** Contact was only ever lost while the run was going. */
  ghost predicate LostWhileRunning(ins: seq<Input>) {
    forall i | 0 <= i < |ins| && ins[i] == LostContact :: PictureWith(ins[..i]).status == "running"
  }

  lemma StoredSnoc(es: seq<Event>, e: Event)
    ensures StoredOnly(es + [e]) == StoredOnly(es) + if Transient(e.body) then [] else [e]
  {
    assert (es + [e])[..|es|] == es;
  }

  lemma InputSnoc(ins: seq<Input>, i: Input)
    ensures PictureWith(ins + [i]) == Moved(PictureWith(ins), i)
    ensures StoredOf(ins + [i]) == StoredOf(ins) + if i.Ev? then [i.e] else []
    ensures FaultsOf(ins + [i]) == FaultsOf(ins) + if i.Ev? then [] else [i]
    ensures LostWhileRunning(ins) && (i == LostContact ==> PictureWith(ins).status == "running") ==> LostWhileRunning(ins + [i])
  {
    var more := ins + [i];
    assert more[..|ins|] == ins;
    hide Moved;
    if LostWhileRunning(ins) && (i == LostContact ==> PictureWith(ins).status == "running") {
      forall j | 0 <= j < |more| && more[j] == LostContact ensures PictureWith(more[..j]).status == "running" {
        assert more[..j] == ins[..j];
        if j == |ins| { assert ins[..j] == ins; }
      }
    }
  }

  /** What a picture becomes does not depend on `attached`. */
  lemma CoreMoves(p: Picture, q: Picture, i: Input)
    requires Core(p) == Core(q)
    ensures Core(Moved(p, i)) == Core(Moved(q, i))
  {
    if i.Ev? { CoreAbsorbs(p, q, i.e.body); }
  }

  lemma CoreAbsorbs(p: Picture, q: Picture, b: Body)
    requires Core(p) == Core(q)
    ensures Core(Absorb(p, b)) == Core(Absorb(q, b))
  {
    assert q == p.(attached := q.attached);
  }

  // ---- the invariant --------------------------------------------------------

  /** Row ids ascend, the held row's tops them, and the cursor is never behind a row. */
  ghost predicate IdsAscend(s: State) {
    && (forall j, k | 0 <= j < k < |s.rows| :: s.rows[j].id < s.rows[k].id)
    && (forall k | 0 <= k < |s.rows| :: s.rows[k].id <= s.lastId)
    && (s.held.Some? ==> s.held.value.id <= s.lastId)
    && (s.held.Some? ==> forall k | 0 <= k < |s.rows| :: s.rows[k].id < s.held.value.id)
  }

  /** A held row is of the current turn. */
  predicate HeldIsCurrent(s: State) { s.held.Some? ==> s.held.value.turn == s.pic.turn }

  /**
   * The client has taken the first `k` stored events, each once and in order and
   * no other; its picture is that of its inputs.
   */
  ghost predicate InStep(log: seq<Event>, c: Client, k: nat) {
    && k <= |log| && StoredOnly(c.received) == log[..k] && StoredOf(c.inputs) == log[..k]
    && c.s.lastId == LastLogId(log[..k])
    && Core(c.s.pic) == Core(PictureWith(c.inputs))
    && LostWhileRunning(c.inputs) && IdsAscend(c.s) && HeldIsCurrent(c.s)
  }

  lemma ReleaseKeepsIds(s: State)
    requires IdsAscend(s)
    ensures IdsAscend(Release(s))
  {
  }

  /** A new id, above every id seen, keeps the order. */
  lemma StoreKeepsIds(s: State, e: Event)
    requires IdsAscend(s) && e.id > s.lastId && e.id > 0
    ensures IdsAscend(Store(s, e))
  {
    SettleKeepsIds(s, e.body);
    StoreShape(s, e);
    hide Store, Settle, Absorb;
    var t, u := Settle(s, e.body), Store(s, e);
    if u.rows != t.rows { assert u.rows[..|t.rows|] == t.rows; }
  }

  lemma SettleKeepsIds(s: State, b: Body)
    requires IdsAscend(s)
    ensures IdsAscend(Settle(s, b)) && Settle(s, b).lastId == s.lastId
  {
    ReleaseKeepsIds(s);
  }

  /** A stored event writes at most one row or holds one, under its own id. */
  lemma StoreShape(s: State, e: Event)
    ensures var t, u := Settle(s, e.body), Store(s, e);
      && u.lastId == (if e.id != 0 then e.id else s.lastId)
      && (u.rows == t.rows || (|u.rows| == |t.rows| + 1 && t.rows == u.rows[..|t.rows|] && u.rows[|t.rows|].id == e.id && u.held == t.held))
      && (u.held == t.held || (u.held.Some? && u.held.value.id == e.id && u.held.value.turn == u.pic.turn))
      && (Releasing(e.body) ==> t.held == None)
      && (u.rows != t.rows ==> Releasing(e.body))
      && u.pic == Absorb(s.pic, e.body)
  {
    hide Absorb;
  }

  lemma StoreKeepsTurn(s: State, e: Event)
    requires HeldIsCurrent(s)
    ensures HeldIsCurrent(Store(s, e))
  {
    StoreShape(s, e);
    if !Releasing(e.body) { assert Absorb(s.pic, e.body).turn == s.pic.turn && Settle(s, e.body) == s; }
    hide Store, Settle, Absorb;
  }

  /** The next stored event is taken. */
  lemma TakeNext(log: seq<Event>, c: Client, k: nat)
    requires LogOk(log) && InStep(log, c, k) && k < |log|
    ensures InStep(log, Take(c, log[k]), k + 1) && Take(c, log[k]).inputs == c.inputs + [Ev(log[k])]
  {
    var e := log[k];
    assert !Refused(c.s, e) && e.id > c.s.lastId by { assert k > 0 ==> log[k - 1].id < e.id; }
    assert log[..k + 1] == log[..k] + [e];
    StoredSnoc(c.received, e);
    InputSnoc(c.inputs, Ev(e));
    CoreMoves(c.s.pic, PictureWith(c.inputs), Ev(e));
    StoreKeepsIds(c.s, e);
    StoreKeepsTurn(c.s, e);
    StoreShape(c.s, e);
    assert Accept(c.s, e) == Store(c.s, e);
    hide Store, Settle, Absorb, IdsAscend, HeldIsCurrent, LostWhileRunning;
  }

  /** An earlier one is refused before anything sees it. */
  lemma RefuseOld(log: seq<Event>, c: Client, k: nat, j: nat)
    requires LogOk(log) && InStep(log, c, k) && j < k
    ensures Take(c, log[j]) == c
  {
    assert log[j].id <= log[k - 1].id == c.s.lastId by {
      assert log[..k][k - 1] == log[k - 1];
    }
  }

  lemma TakePulse(log: seq<Event>, c: Client, k: nat, e: Event)
    requires InStep(log, c, k) && Transient(e.body)
    ensures InStep(log, Take(c, e), k) && Take(c, e).inputs == c.inputs
  {
    StoredSnoc(c.received, e);
    hide Core, LostWhileRunning;
  }

  /** Whatever the server sends: a stored event no further than the next one, or a transient one. */
  lemma TakeAny(log: seq<Event>, c: Client, k: nat, j: nat) returns (k': nat)
    requires LogOk(log) && InStep(log, c, k) && j < |log| && j <= k
    ensures InStep(log, Take(c, log[j]), k') && k' == (if j == k then k + 1 else k)
    ensures FaultsOf(Take(c, log[j]).inputs) == FaultsOf(c.inputs)
  {
    k' := if j == k then k + 1 else k;
    if j == k {
      TakeNext(log, c, k);
      InputSnoc(c.inputs, Ev(log[k]));
    } else {
      RefuseOld(log, c, k, j);
    }
    hide Take, InStep;
  }

  /** Releasing a held row or clearing a partial text moves nothing the invariant speaks of. */
  lemma LettingGo(log: seq<Event>, c: Client, k: nat)
    requires InStep(log, c, k)
    ensures InStep(log, c.(s := Release(c.s)), k) && InStep(log, c.(s := Dropped(c.s)), k)
  {
    ReleaseKeepsIds(c.s);
    hide Core, LostWhileRunning, StoredOf, StoredOnly, PictureWith;
  }

  lemma SetAttached(log: seq<Event>, c: Client, k: nat, on: bool)
    requires InStep(log, c, k)
    ensures InStep(log, c.(s := c.s.(pic := c.s.pic.(attached := on))), k)
  {
    hide LostWhileRunning, StoredOf, StoredOnly, PictureWith;
  }

  lemma FaultKeepsStep(log: seq<Event>, c: Client, k: nat, i: Input)
    requires InStep(log, c, k) && !i.Ev? && (i == LostContact ==> c.s.pic.status == "running")
    ensures InStep(log, Faulted(c, i), k)
    ensures FaultsOf(Faulted(c, i).inputs) == FaultsOf(c.inputs) + [i]
  {
    InputSnoc(c.inputs, i);
    CoreMoves(c.s.pic, PictureWith(c.inputs), i);
    assert IdsAscend(Faulted(c, i).s);
    assert c.s.pic.status == PictureWith(c.inputs).status by { assert Core(c.s.pic).status == c.s.pic.status; }
    hide LostWhileRunning, StoredOf, StoredOnly, PictureWith, Absorb;
  }

  /**
   * In every client that is in step, the turn a twin is checked for never decides:
   * the held row is of the current turn.
   */
  lemma TurnNeverDecides(log: seq<Event>, c: Client, k: nat, b: Body)
    requires InStep(log, c, k) && c.s.held.Some?
    ensures Twin(c.s.held.value, c.s.pic.turn, b) <==> exists turn :: Twin(c.s.held.value, turn, b)
  {
  }

  // ---- whatever is sent -----------------------------------------------------

  /** The stored events the client has taken. */
  function Seen(c: Client): seq<Event> { StoredOnly(c.received) }

  /** The client is what one uninterrupted delivery of the events it has taken would make it, but for faults. */
  ghost predicate Steady(c: Client) { LogOk(Seen(c)) && InStep(Seen(c), c, |Seen(c)|) }

  /** In step with its own events, and so with any log they start. */
  lemma SteadyInLog(log: seq<Event>, c: Client)
    requires Steady(c) && |Seen(c)| <= |log| && Seen(c) == log[..|Seen(c)|]
    ensures InStep(log, c, |Seen(c)|)
  {
    assert Seen(c)[..|Seen(c)|] == Seen(c);
    hide LostWhileRunning, IdsAscend, StoredOf, PictureWith;
  }

  lemma InLogSteady(log: seq<Event>, c: Client, k: nat)
    requires LogOk(log) && InStep(log, c, k)
    ensures Steady(c) && Seen(c) == log[..k] && |Seen(c)| == k
  {
    assert Seen(c)[..k] == Seen(c);
    hide LostWhileRunning, IdsAscend, StoredOf, PictureWith;
  }

  /** The last id is that of the last event taken. */
  lemma LastSeen(c: Client)
    requires Steady(c)
    ensures c.s.lastId == LastLogId(Seen(c)) && forall e | e in Seen(c) :: 0 < e.id <= c.s.lastId
  {
    var seen := Seen(c);
    assert seen[..|seen|] == seen;
    forall e | e in seen ensures 0 < e.id <= c.s.lastId {
      var k :| 0 <= k < |seen| && seen[k] == e;
      assert k < |seen| - 1 ==> seen[k].id < seen[|seen| - 1].id;
    }
  }

  predicate Taken(c: Client, e: Event) { !Transient(e.body) && !Refused(c.s, e) }

  /** Any event at all, in any order: what is new is taken after all that was, and nothing else is. */
  lemma SteadyTake(c: Client, e: Event)
    requires Steady(c) && (Transient(e.body) || e.id > 0)
    ensures Steady(Take(c, e)) && FaultsOf(Take(c, e).inputs) == FaultsOf(c.inputs)
    ensures Seen(Take(c, e)) == Seen(c) + if Taken(c, e) then [e] else []
    ensures Taken(c, e) <==> !Transient(e.body) && e.id > c.s.lastId
    ensures Take(c, e).s.lastId == if Taken(c, e) then e.id else c.s.lastId
  {
    LastSeen(c);
    assert Taken(c, e) <==> !Transient(e.body) && e.id > c.s.lastId;
    assert Seen(c) + [] == Seen(c);
    assert !Transient(e.body) && !Taken(c, e) ==> Take(c, e) == c;
    hide Steady, Take, Taken, Seen, FaultsOf;
    if Transient(e.body) { SteadyPulse(c, e); } else if Taken(c, e) { SteadyNew(c, e); }
  }

  lemma SteadyPulse(c: Client, e: Event)
    requires Steady(c) && Transient(e.body)
    ensures Steady(Take(c, e)) && FaultsOf(Take(c, e).inputs) == FaultsOf(c.inputs)
    ensures Seen(Take(c, e)) == Seen(c) && Take(c, e).s.lastId == c.s.lastId
  {
    TakePulse(Seen(c), c, |Seen(c)|, e);
    InLogSteady(Seen(c), Take(c, e), |Seen(c)|);
    assert Seen(c)[..|Seen(c)|] == Seen(c);
    LastSeen(c);
    LastSeen(Take(c, e));
    hide InStep, Take, LogOk, FaultsOf, StoredOnly;
  }

  lemma SteadyNew(c: Client, e: Event)
    requires Steady(c) && !Transient(e.body) && e.id > c.s.lastId
    ensures Steady(Take(c, e)) && FaultsOf(Take(c, e).inputs) == FaultsOf(c.inputs)
    ensures Seen(Take(c, e)) == Seen(c) + [e] && Take(c, e).s.lastId == e.id
  {
    var seen := Seen(c);
    var log := seen + [e];
    LastSeen(c);
    GrowKeepsLog(seen, e);
    assert log[..|seen|] == seen && log[|seen|] == e && log[..|seen| + 1] == log;
    SteadyInLog(log, c);
    hide InStep, Take, LogOk, FaultsOf, StoredOnly;
    TakeNext(log, c, |seen|);
    InLogSteady(log, Take(c, e), |seen| + 1);
    InputSnoc(c.inputs, Ev(e));
    LastSeen(Take(c, e));
  }

  /** Releasing, clearing, attaching, detaching and faults take no event. */
  lemma SteadyMoves(c: Client, on: bool)
    requires Steady(c)
    ensures Steady(c.(s := Release(c.s))) && Steady(c.(s := Dropped(c.s)))
    ensures Steady(c.(s := c.s.(pic := c.s.pic.(attached := on))))
    ensures Release(c.s).lastId == Dropped(c.s).lastId == c.s.lastId
  {
    LettingGo(Seen(c), c, |Seen(c)|);
    SetAttached(Seen(c), c, |Seen(c)|, on);
    hide InStep, LogOk, Release;
  }

  lemma ReleaseKeepsCursor(s: State)
    ensures Release(s).lastId == s.lastId && Release(s).pic == s.pic
  {
  }

  lemma SteadyFault(c: Client, i: Input)
    requires Steady(c) && !i.Ev? && (i == LostContact ==> c.s.pic.status == "running")
    ensures Steady(Faulted(c, i)) && FaultsOf(Faulted(c, i).inputs) == FaultsOf(c.inputs) + [i]
  {
    FaultKeepsStep(Seen(c), c, |Seen(c)|, i);
    hide InStep, LogOk, FaultsOf;
  }

  // ---- what a fault costs ---------------------------------------------------

  /** No fault, or one that came last. */
  ghost predicate AtMostOne(ins: seq<Input>) {
    FaultsOf(ins) == [] || (ins != [] && !ins[|ins| - 1].Ev? && FaultsOf(ins[..|ins| - 1]) == [])
  }

  lemma {:induction false} NoFaultNoLoss(ins: seq<Input>)
    requires FaultsOf(ins) == []
    ensures PictureWith(ins) == PictureOf(StoredOf(ins))
    decreases |ins|
  {
    if ins != [] {
      var init, i := ins[..|ins| - 1], ins[|ins| - 1];
      NoFaultNoLoss(init);
      assert i.Ev?;
      PictureSnoc(StoredOf(init), i.e);
    }
  }

  /** The one harmless fault: a refusal in the words of the last error. */
  ghost predicate SaysNothingNew(ins: seq<Input>) {
    ins != [] && ins[|ins| - 1].RefusedWith? && PictureOf(StoredOf(ins)).lastError == Some(ins[|ins| - 1].message)
  }

  /** With one fault at most, the picture is that of the events alone exactly when there was none. */
  lemma OneFaultShows(ins: seq<Input>)
    requires AtMostOne(ins) && LostWhileRunning(ins)
    ensures Core(PictureWith(ins)) == Core(PictureOf(StoredOf(ins))) <==> FaultsOf(ins) == [] || SaysNothingNew(ins)
    ensures FaultsOf(ins) != [] ==>
      PictureWith(ins) == Moved(PictureOf(StoredOf(ins)), ins[|ins| - 1])
  {
    if FaultsOf(ins) == [] {
      NoFaultNoLoss(ins);
    } else {
      var init, i := ins[..|ins| - 1], ins[|ins| - 1];
      NoFaultNoLoss(init);
      assert StoredOf(ins) == StoredOf(init);
      var p := PictureOf(StoredOf(init));
      assert i == LostContact ==> p.status == "running";
      FaultShows(p, i);
    }
  }

  lemma FaultShows(p: Picture, i: Input)
    requires !i.Ev? && (i == LostContact ==> p.status == "running")
    ensures Core(Moved(p, i)) == Core(p) <==> i.RefusedWith? && p.lastError == Some(i.message)
  {
    if i == LostContact {
      assert Core(Moved(p, i)).status == "error" && Core(p).status == "running";
      assert "error"[0] != "running"[0];
    } else {
      assert Core(Moved(p, i)).lastError == Some(i.message) && Core(p).lastError == p.lastError;
      if p.lastError == Some(i.message) { assert Moved(p, i) == p; }
    }
  }

  // ---- what no fault costs --------------------------------------------------

  /** What the reports said of a path's changes, whether or not the path is listed. */
  function ChangeOf(touched: map<string, Touched>, path: string): Touched {
    if path in touched then touched[path] else Touched(None, false)
  }

  /** What the reports do not touch and a fault leaves alone. */
  predicate SameBusiness(p: Picture, q: Picture) {
    p.turn == q.turn && p.mode == q.mode && p.attempt == q.attempt
    && p.plan == q.plan && p.usage == q.usage && p.gates == q.gates && p.compactions == q.compactions
  }

  /** The parts of a picture that neither giving up nor a refusal can disturb. */
  ghost predicate Undisturbed(p: Picture, q: Picture) {
    && SameBusiness(p, q) && (forall path :: ChangeOf(p.touched, path) == ChangeOf(q.touched, path))
  }

  lemma NoteOnOne(t: map<string, Touched>, u: map<string, Touched>, r: Report)
    requires forall path :: ChangeOf(t, path) == ChangeOf(u, path)
    ensures forall path :: ChangeOf(Note(t, r), path) == ChangeOf(Note(u, r), path)
  {
    var at := PathOf(r);
    assert ChangeOf(t, at) == ChangeOf(u, at);
    forall path ensures ChangeOf(Note(t, r), path) == ChangeOf(Note(u, r), path) {
      assert ChangeOf(t, path) == ChangeOf(u, path);
    }
  }

  lemma {:induction false} NoteBoth(t: map<string, Touched>, u: map<string, Touched>, rs: seq<Report>)
    requires forall path :: ChangeOf(t, path) == ChangeOf(u, path)
    ensures forall path :: ChangeOf(NoteAll(t, rs), path) == ChangeOf(NoteAll(u, rs), path)
    decreases |rs|
  {
    if rs != [] {
      NoteBoth(t, u, rs[..|rs| - 1]);
      NoteOnOne(NoteAll(t, rs[..|rs| - 1]), NoteAll(u, rs[..|rs| - 1]), rs[|rs| - 1]);
    }
  }

  lemma {:induction false} NamesChangeNothing(t: map<string, Touched>, rs: seq<Report>)
    requires forall k | 0 <= k < |rs| :: rs[k].Named?
    ensures forall path :: ChangeOf(NoteAll(t, rs), path) == ChangeOf(t, path)
    decreases |rs|
  {
    if rs != [] {
      var init := rs[..|rs| - 1];
      NamesChangeNothing(t, init);
      assert rs[|rs| - 1].Named?;
      forall path ensures ChangeOf(NoteAll(t, rs), path) == ChangeOf(t, path) {
        assert ChangeOf(NoteAll(t, init), path) == ChangeOf(t, path);
      }
    }
  }

  lemma AbsorbUndisturbed(p: Picture, q: Picture, b: Body)
    requires Undisturbed(p, q)
    ensures Undisturbed(Absorb(p, b), Absorb(q, b))
  {
    AbsorbNotes(p, b);
    AbsorbNotes(q, b);
    ReportsUndisturbed(p, q, b);
    AbsorbsRest(p, q, b);
    hide Absorb, NoteAll, ChangeOf, Reports;
  }

  lemma AbsorbsRest(p: Picture, q: Picture, b: Body)
    requires SameBusiness(p, q)
    ensures SameBusiness(Absorb(p, b), Absorb(q, b))
  {
    OneBusiness(p, b);
    OneBusiness(q, b);
    hide Absorb;
  }

  lemma OneBusiness(p: Picture, b: Body)
    ensures SameBusiness(Absorb(p, b), match b
      case TurnStart(turn, mode, attempt) =>
        p.(turn := turn.GetOr(p.turn + 1), mode := mode.GetOr(p.mode), attempt := attempt.GetOr(1))
      case Plan(text, steps) => p.(plan := Some((text, steps)))
      case GateRan(gate) =>
        var run := GateRun(p.turn, p.attempt, gate);
        if gate.kind == "compaction" then p.(compactions := p.compactions + [run]) else p.(gates := p.gates + [run])
      case UsageReport(usage) => p.(usage := Some(usage))
      case _ => p)
  {
    hide NoteAll, Reports;
  }

  lemma ReportsUndisturbed(p: Picture, q: Picture, b: Body)
    requires forall path :: ChangeOf(p.touched, path) == ChangeOf(q.touched, path)
    ensures forall path :: ChangeOf(NoteAll(p.touched, Reports(p, b)), path) == ChangeOf(NoteAll(q.touched, Reports(q, b)), path)
  {
    hide NoteAll, ChangeOf;
    if b.End? {
      NamesChangeNothing(p.touched, Reports(p, b));
      NamesChangeNothing(q.touched, Reports(q, b));
    } else {
      NoteBoth(p.touched, q.touched, Reports(p, b));
    }
  }

  /** Turn, mode, attempt, plan, usage, gates, compactions and changed paths: for any faults at any time. */
  lemma {:induction false} AlwaysAgrees(ins: seq<Input>)
    ensures Undisturbed(PictureWith(ins), PictureOf(StoredOf(ins)))
    decreases |ins|
  {
    if ins != [] {
      var init, i := ins[..|ins| - 1], ins[|ins| - 1];
      AlwaysAgrees(init);
      if i.Ev? {
        PictureSnoc(StoredOf(init), i.e);
        AbsorbUndisturbed(PictureWith(init), PictureOf(StoredOf(init)), i.e.body);
      } else {
        assert StoredOf(ins) == StoredOf(init);
      }
      hide Absorb, Undisturbed;
      assert PictureWith(ins) == Moved(PictureWith(init), i);
      if !i.Ev? { FaultUndisturbed(PictureWith(init), PictureOf(StoredOf(init)), i); }
    }
  }

  lemma FaultUndisturbed(p: Picture, q: Picture, i: Input)
    requires Undisturbed(p, q) && !i.Ev?
    ensures Undisturbed(Moved(p, i), q)
  {
    assert Moved(p, i).touched == p.touched;
  }

  /** Set together when a run ends. */
  predicate SameOutcome(p: Picture, q: Picture) {
    p.status == q.status && p.summary == q.summary && p.finished == q.finished
    && p.approvals == q.approvals && p.inFlight == q.inFlight
  }

  predicate Finishes(i: Input) { i.Ev? && i.e.body.Finish? }
  predicate Fails(i: Input) { i.Ev? && i.e.body.Failure? }
  ghost predicate SomeFinishes(ins: seq<Input>) { exists i :: i in ins && Finishes(i) }
  ghost predicate SomeFails(ins: seq<Input>) { exists i :: i in ins && Fails(i) }
  predicate Ends(i: Input) { i.Ev? && i.e.body.End? }
  ghost predicate SomeEnds(ins: seq<Input>) { exists i :: i in ins && Ends(i) }

  lemma SomeSnoc(ins: seq<Input>, i: Input)
    ensures SomeFinishes(ins + [i]) <==> SomeFinishes(ins) || Finishes(i)
    ensures SomeFails(ins + [i]) <==> SomeFails(ins) || Fails(i)
    ensures SomeEnds(ins + [i]) <==> SomeEnds(ins) || Ends(i)
  {
    var more := ins + [i];
    assert i in more && forall x :: x in more <==> x in ins || x == i;
  }

  lemma AbsorbOutcome(p: Picture, q: Picture, b: Body)
    ensures var x, y := Absorb(p, b), Absorb(q, b);
      && (SameOutcome(p, q) || b.Finish? ==> SameOutcome(x, y))
      && (x.lastError == y.lastError <==> p.lastError == q.lastError || b.Failure?)
  {
    ErrorAfter(p, b);
    ErrorAfter(q, b);
    if SameOutcome(p, q) || b.Finish? { OutcomeAfter(p, q, b); }
    hide Absorb, SameOutcome;
  }

  lemma ErrorAfter(p: Picture, b: Body)
    ensures Absorb(p, b).lastError == if b.Failure? then Some(b.message) else p.lastError
  {
    hide NoteAll, Reports;
  }

  lemma OutcomeAfter(p: Picture, q: Picture, b: Body)
    requires SameOutcome(p, q) || b.Finish?
    ensures SameOutcome(Absorb(p, b), Absorb(q, b))
  {
    hide NoteAll, Reports;
  }

  lemma SummaryKept(p: Picture, b: Body)
    requires !b.Finish? && !b.End?
    ensures Absorb(p, b).summary == p.summary
  {
    hide NoteAll, Reports;
  }

  lemma OutcomeHasSummary(p: Picture, q: Picture)
    ensures SameOutcome(p, q) ==> p.summary == q.summary
  {
  }

  /**
   * After the last fault, a `finish` makes the outcome good, and, short of an
   * `end`, nothing else does once the summary differs; only an `error` makes the
   * last error good.
   */
  lemma {:induction false} MadeGood(ins: seq<Input>, after: seq<Input>)
    requires FaultsOf(after) == []
    ensures var p, q := PictureWith(ins + after), PictureOf(StoredOf(ins + after));
      && (SomeFinishes(after) ==> SameOutcome(p, q))
      && (SameOutcome(PictureWith(ins), PictureOf(StoredOf(ins))) ==> SameOutcome(p, q))
      && (PictureWith(ins).summary != PictureOf(StoredOf(ins)).summary && !SomeEnds(after) ==>
            (SameOutcome(p, q) <==> SomeFinishes(after)) && (p.summary == q.summary <==> SomeFinishes(after)))
      && (p.lastError == q.lastError <==>
           PictureWith(ins).lastError == PictureOf(StoredOf(ins)).lastError || SomeFails(after))
    decreases |after|
  {
    OutcomeHasSummary(PictureWith(ins + after), PictureOf(StoredOf(ins + after)));
    hide Absorb, SameOutcome, StoredOf, PictureWith, PictureOf;
    if after == [] {
      assert ins + after == ins;
    } else {
      var init, i := after[..|after| - 1], after[|after| - 1];
      assert i.Ev? && FaultsOf(init) == [];
      hide FaultsOf, SomeFinishes, SomeFails, SomeEnds;
      MadeGood(ins, init);
      assert ins + after == (ins + init) + [i];
      InputSnoc(ins + init, i);
      PictureSnoc(StoredOf(ins + init), i.e);
      AbsorbOutcome(PictureWith(ins + init), PictureOf(StoredOf(ins + init)), i.e.body);
      if !Finishes(i) && !Ends(i) {
        SummaryKept(PictureWith(ins + init), i.e.body);
        SummaryKept(PictureOf(StoredOf(ins + init)), i.e.body);
      }
      SomeSnoc(init, i);
      assert init + [i] == after;
    }
  }
}
