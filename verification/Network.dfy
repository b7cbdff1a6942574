// A client and a server over an unreliable network: what any schedule of drops,
// reconnects, repeats, skips, refusals and re-attachments can do.
module Network {
  import opened Text
  import opened RunSpec
  import opened Stream
  import opened Following

  // ---- any schedule ---------------------------------------------------------

  /** One connection: where it stands in the log, its number, and the attachment it was opened under. */
  datatype Pipe = Pipe(cursor: nat, conn: nat, epoch: nat)

  /** Why the loop is not running. */
  datatype Over = Ended | GaveUp | Rejected(message: string) | Stopped | Detached

  /** The loop: over, sleeping between two connections, or reading one. */
  datatype Link = Off(why: Over) | Sleeping | Reading(pipe: Pipe)

  /** A connection and the attachment it belongs to. */
  datatype Source = Source(conn: nat, epoch: nat)

  /** A piece of the live text, and the connection it came by. */
  datatype Piece = Piece(source: Source, text: string)

  /**
   * `aborted` are the connections of earlier attachments, of which what was read
   * may still be taken; `epoch` counts attachments and `conns` connections;
   * `pieces` says where the live text came from; `jumps` counts the events taken
   * before one that stands earlier in the log.
   */
  datatype Net = Net(log: seq<Event>, link: Link, failures: nat, c: Client, aborted: seq<Pipe>,
                     epoch: nat, conns: nat, pieces: seq<Piece>, jumps: nat)

  /** The loop's own connection, or one of those aborted. */
  datatype Which = Current | Former(i: nat)

  datatype Action =
    | Grow(e: Event)             // the server stores an event
    | Attach                     // a new loop takes over from whatever there was
    | Detach
    | Connect(from: nat)         // a connection opens, resuming after the client's cursor or earlier
    | Deliver(w: Which)          // the next stored event arrives
    | Skip                       // the server passes over the next stored event
    | Pulse(w: Which, e: Event)  // a transient event arrives
    | Repeat(w: Which, k: nat)   // an event already sent on this connection arrives again
    | Drop                       // the link goes down, or could not be opened
    | Refuse(message: string)    // the server refuses for good
    | HoldTimer                  // the hold timer fires

  const Start := Net([], Sleeping, 0, Client(Fresh, [], []), [], 0, 0, [], 0)

  /** The server resumes after the client's cursor, or sends again some of what is before it. */
  ghost predicate Resumes(log: seq<Event>, s: State, from: nat) {
    from <= |log| && forall k | 0 <= k < from :: log[k].id <= s.lastId
  }

  predicate Open(n: Net, w: Which) {
    match w case Current => n.link.Reading? case Former(i) => i < |n.aborted|
  }

  function PipeOf(n: Net, w: Which): Pipe
    requires Open(n, w)
  {
    match w case Current => n.link.pipe case Former(i) => n.aborted[i]
  }

  ghost predicate Enabled(n: Net, a: Action) {
    match a
    case Grow(e) => !Transient(e.body) && e.id > LastLogId(n.log)
    case Connect(from) => n.link == Sleeping && Resumes(n.log, n.c.s, from)
    case Deliver(w) => Open(n, w) && PipeOf(n, w).cursor < |n.log|
    case Skip => n.link.Reading? && n.link.pipe.cursor < |n.log|
    case Pulse(w, e) => Open(n, w) && Transient(e.body)
    case Repeat(w, k) => Open(n, w) && k < PipeOf(n, w).cursor && k < |n.log| && n.log[k].id <= n.c.s.lastId
    case Drop => !n.link.Off?
    case Refuse(_) => !n.link.Off?
    case _ => true
  }

  function WithAttached(c: Client, on: bool): Client { c.(s := c.s.(pic := c.s.pic.(attached := on))) }

  function SourceOf(p: Pipe): Source { Source(p.conn, p.epoch) }

  /** The live text in pieces, once it has grown by one that came from `source`, or been cleared. */
  function PiecesAfter(pieces: seq<Piece>, was: string, now: string, source: Source): seq<Piece> {
    if now == was then pieces
    else if |now| <= |was| then []
    else pieces + [Piece(source, now[|was|..])]
  }

  /** The client after something of `source`'s. */
  function Became(n: Net, c: Client, source: Source): Net {
    n.(c := c, pieces := PiecesAfter(n.pieces, n.c.s.streaming, c.s.streaming, source))
  }

  /** Of no connection. */
  const Nowhere := Source(0, 0)

  /** The connection has got to `cursor`; on the loop's own one an event resets the failure count. */
  function Advanced(n: Net, w: Which, cursor: nat): Net
    requires Open(n, w)
  {
    match w
    case Current => n.(link := Reading(n.link.pipe.(cursor := cursor)), failures := 0)
    case Former(i) => n.(aborted := n.aborted[i := n.aborted[i].(cursor := cursor)])
  }

  function Shut(n: Net, w: Which): Net
    requires Open(n, w)
  {
    match w
    case Current => n.(link := Off(Ended), failures := 0)
    case Former(i) => n.(aborted := n.aborted[..i] + n.aborted[i + 1..])
  }

  /** The client takes the event, and lets a held row go after `end`. */
  ghost function Heard(c: Client, e: Event): Client {
    var c' := Take(c, e);
    if e.body.End? then c'.(s := Release(c'.s)) else c'
  }

  /** An event arrives; `end` closes its connection. */
  ghost function Arrive(n: Net, w: Which, e: Event, cursor: nat): Net
    requires Open(n, w)
  {
    var p := PipeOf(n, w);
    var m := Became(n, Heard(n.c, e), SourceOf(p));
    if e.body.End? then Shut(m, w) else Advanced(m, w, cursor)
  }

  /** The event at `j` would be taken although the one before it has not been. */
  predicate Jumps(n: Net, j: nat)
    requires j < |n.log|
  {
    Taken(n.c, n.log[j]) && j > 0 && n.log[j - 1].id > n.c.s.lastId
  }

  /** The link is down: stop with a run that has, give up at the twelfth failure, or try again. */
  function Down(n: Net): Net {
    var m := Became(n, n.c.(s := Dropped(n.c.s)), Nowhere);
    if !Running(m.c.s.pic) then m.(link := Off(Stopped))
    else if n.failures + 1 >= MAX_RECONNECT_ATTEMPTS then m.(c := Faulted(m.c, LostContact), link := Off(GaveUp))
    else m.(link := Sleeping, failures := n.failures + 1)
  }

  /** The connection the loop leaves behind, whose buffered events may still be taken. */
  function LeftBehind(n: Net): seq<Pipe> { if n.link.Reading? then n.aborted + [n.link.pipe] else n.aborted }

  ghost function Next(n: Net, a: Action): Net
    requires Enabled(n, a)
  {
    match a
    case Grow(e) => n.(log := n.log + [e])
    case Attach =>
      n.(c := WithAttached(n.c, true), aborted := LeftBehind(n), link := Sleeping, failures := 0, epoch := n.epoch + 1)
    case Detach =>
      var c := WithAttached(n.c, false);
      Became(n, c.(s := Release(c.s)), Nowhere).(aborted := LeftBehind(n), link := if n.link.Off? then n.link else Off(Detached))
    case Connect(from) => n.(link := Reading(Pipe(from, n.conns + 1, n.epoch)), conns := n.conns + 1)
    case Deliver(w) =>
      var j := PipeOf(n, w).cursor;
      Arrive(n, w, n.log[j], j + 1).(jumps := n.jumps + if Jumps(n, j) then 1 else 0)
    case Skip => n.(link := Reading(n.link.pipe.(cursor := n.link.pipe.cursor + 1)))
    case Pulse(w, e) => Arrive(n, w, e, PipeOf(n, w).cursor)
    case Repeat(w, k) => Arrive(n, w, n.log[k], PipeOf(n, w).cursor)
    case Drop => Down(n)
    case Refuse(message) => n.(c := Faulted(n.c, RefusedWith(message)), link := Off(Rejected(message)))
    case HoldTimer => Became(n, n.c.(s := Release(n.c.s)), Nowhere)
  }

  ghost predicate StepTo(n: Net, a: Action, n': Net) { Enabled(n, a) && n' == Next(n, a) }

  /** The schedule, each step of it possible where it is taken, leads from the start to `n`. */
  ghost predicate LeadsTo(schedule: seq<Action>, n: Net) {
    if schedule == [] then n == Start
    else
      var init, a := schedule[..|schedule| - 1], schedule[|schedule| - 1];
      exists m :: LeadsTo(init, m) && StepTo(m, a, n)
  }

  // ---- what the client has ---------------------------------------------------

  /** The client's state after an action, whatever else changes. */
  lemma ClientMoves(n: Net, a: Action)
    requires Enabled(n, a)
    ensures var c := n.c;
      Next(n, a).c == match a
        case Attach => WithAttached(c, true)
        case Detach => var d := WithAttached(c, false); d.(s := Release(d.s))
        case Deliver(w) => Heard(c, n.log[PipeOf(n, w).cursor])
        case Pulse(w, e) => Heard(c, e)
        case Repeat(w, k) => Heard(c, n.log[k])
        case Drop =>
          var d := c.(s := Dropped(c.s));
          if Running(d.s.pic) && n.failures + 1 >= MAX_RECONNECT_ATTEMPTS then Faulted(d, LostContact) else d
        case Refuse(message) => Faulted(c, RefusedWith(message))
        case HoldTimer => c.(s := Release(c.s))
        case _ => c
  {
    hide Take, Release, Dropped, Faulted, Jumps;
  }

  lemma LogMoves(n: Net, a: Action)
    requires Enabled(n, a)
    ensures Next(n, a).log == if a.Grow? then n.log + [a.e] else n.log
    ensures Next(n, a).jumps == n.jumps + if a.Deliver? && Jumps(n, PipeOf(n, a.w).cursor) then 1 else 0
  {
    hide Take, Release, Dropped, Faulted, Jumps;
  }

  lemma HeardSteady(c: Client, e: Event)
    requires Steady(c) && (Transient(e.body) || e.id > 0)
    ensures Steady(Heard(c, e)) && FaultsOf(Heard(c, e).inputs) == FaultsOf(c.inputs)
    ensures Seen(Heard(c, e)) == Seen(c) + if Taken(c, e) then [e] else []
    ensures Taken(c, e) <==> !Transient(e.body) && e.id > c.s.lastId
    ensures Heard(c, e).s.lastId == if Taken(c, e) then e.id else c.s.lastId
  {
    SteadyTake(c, e);
    SteadyMoves(Take(c, e), true);
    hide Steady, Take, Release, Taken, StoredOnly, FaultsOf;
  }

  /** Only an event that arrives is taken. */
  lemma SteadyStep(n: Net, a: Action)
    requires LogOk(n.log) && Steady(n.c) && Enabled(n, a)
    ensures Steady(Next(n, a).c)
    ensures if a.Deliver? then
        var e := n.log[PipeOf(n, a.w).cursor];
        && Seen(Next(n, a).c) == Seen(n.c) + (if Taken(n.c, e) then [e] else [])
        && Next(n, a).c.s.lastId == (if Taken(n.c, e) then e.id else n.c.s.lastId)
        && (Taken(n.c, e) <==> e.id > n.c.s.lastId)
      else Seen(Next(n, a).c) == Seen(n.c) && Next(n, a).c.s.lastId == n.c.s.lastId
  {
    ClientMoves(n, a);
    hide Next, Enabled, LogOk, Steady, Take, Release, Dropped, StoredOnly, Heard;
    var c := n.c;
    assert Seen(c) + [] == Seen(c);
    match a
    case Deliver(w) => LogEvent(n.log, PipeOf(n, w).cursor); HeardSteady(c, n.log[PipeOf(n, w).cursor]);
    case Pulse(w, e) => HeardSteady(c, e);
    case Repeat(w, k) => LogEvent(n.log, k); HeardSteady(c, n.log[k]);
    case Attach => SteadyMoves(c, true);
    case Detach => SteadyMoves(c, false); SteadyMoves(WithAttached(c, false), false);
    case HoldTimer => SteadyMoves(c, true);
    case Refuse(message) => SteadyFault(c, RefusedWith(message));
    case Drop =>
      SteadyMoves(c, true);
      var d := c.(s := Dropped(c.s));
      if Running(d.s.pic) { SteadyFault(d, LostContact); }
    case _ =>
  }

  lemma LogEvent(log: seq<Event>, k: nat)
    requires LogOk(log) && k < |log|
    ensures log[k].id > 0 && !Transient(log[k].body)
  {
  }

  /** The client has the log as far as it goes, with no gap. */
  ghost predicate GapFree(n: Net) { |Seen(n.c)| <= |n.log| && Seen(n.c) == n.log[..|Seen(n.c)|] }

  /** An event of the log is behind the client's cursor and was never taken: it never will be. */
  ghost predicate Missed(n: Net, i: nat) { i < |n.log| && n.log[i].id < n.c.s.lastId && n.log[i] !in Seen(n.c) }

  ghost predicate NetSound(n: Net) {
    && LogOk(n.log) && Steady(n.c) && (n.jumps == 0 ==> GapFree(n)) && (n.jumps > 0 ==> exists i :: Missed(n, i))
  }

  lemma LogStep(n: Net, a: Action)
    requires LogOk(n.log) && Enabled(n, a)
    ensures LogOk(Next(n, a).log) && n.log <= Next(n, a).log
  {
    LogMoves(n, a);
    if a.Grow? { GrowKeepsLog(n.log, a.e); }
    hide Next, LogOk;
  }

  /** What was missed stays missed: events at or below the cursor are refused. */
  lemma MissedStays(n: Net, a: Action, i: nat)
    requires LogOk(n.log) && Steady(n.c) && Enabled(n, a) && Missed(n, i)
    ensures Missed(Next(n, a), i)
  {
    SteadyStep(n, a);
    LogStep(n, a);
    hide Next, Enabled, LogOk, Steady, Seen, Taken;
  }

  /** Without a gap the cursor divides the log. */
  lemma CursorDivides(n: Net)
    requires LogOk(n.log) && Steady(n.c) && GapFree(n)
    ensures forall i | 0 <= i < |n.log| :: (i < |Seen(n.c)| ==> n.log[i] in Seen(n.c)) && (n.log[i].id <= n.c.s.lastId <==> i < |Seen(n.c)|)
  {
    LastSeen(n.c);
    var k := |Seen(n.c)|;
    forall i | 0 <= i < |n.log|
      ensures (i < k ==> n.log[i] in Seen(n.c)) && (n.log[i].id <= n.c.s.lastId <==> i < k)
    {
      if i < k { assert n.log[i] == Seen(n.c)[i]; }
      else if k > 0 { assert Seen(n.c)[k - 1] == n.log[k - 1] && n.log[k - 1].id < n.log[i].id; }
    }
    hide Steady;
  }

  /** The next event to be taken is the one the client waits for, or a jump. */
  lemma DeliverInOrder(n: Net, j: nat)
    requires LogOk(n.log) && Steady(n.c) && GapFree(n) && j < |n.log| && n.log[j].id > n.c.s.lastId
    ensures |Seen(n.c)| <= j && (Jumps(n, j) <==> |Seen(n.c)| < j)
  {
    CursorDivides(n);
    SteadyTake(n.c, n.log[j]);
    hide Steady, LogOk, GapFree;
  }

  lemma MissedBy(n: Net, n': Net, j: nat)
    requires LogOk(n.log) && Steady(n.c) && 0 < j < |n.log| && n.log[j - 1].id > n.c.s.lastId
    requires n'.log == n.log && n'.c.s.lastId == n.log[j].id && Seen(n'.c) == Seen(n.c) + [n.log[j]]
    ensures Missed(n', j - 1)
  {
    LastSeen(n.c);
    assert n.log[j - 1].id < n.log[j].id;
    hide Steady, Seen, LogOk;
  }

  lemma JumpMisses(n: Net, w: Which)
    requires LogOk(n.log) && Steady(n.c) && Enabled(n, Deliver(w)) && Jumps(n, PipeOf(n, w).cursor)
    ensures Missed(Next(n, Deliver(w)), PipeOf(n, w).cursor - 1)
  {
    SteadyStep(n, Deliver(w));
    LogMoves(n, Deliver(w));
    hide Next, Steady, Seen, LogOk, Missed, Taken;
    MissedBy(n, Next(n, Deliver(w)), PipeOf(n, w).cursor);
  }

  lemma GapFreeStep(n: Net, a: Action)
    requires LogOk(n.log) && Steady(n.c) && GapFree(n) && Enabled(n, a)
    requires a.Deliver? ==> !Jumps(n, PipeOf(n, a.w).cursor)
    ensures GapFree(Next(n, a))
  {
    SteadyStep(n, a);
    LogMoves(n, a);
    hide Next, LogOk, Steady, Jumps, Taken, Seen;
    if a.Deliver? && Taken(n.c, n.log[PipeOf(n, a.w).cursor]) {
      DeliverInOrder(n, PipeOf(n, a.w).cursor);
      OneMoreSeen(n, Next(n, a));
    }
  }

  lemma OneMoreSeen(n: Net, n': Net)
    requires GapFree(n) && n'.log == n.log && |Seen(n.c)| < |n.log| && Seen(n'.c) == Seen(n.c) + [n.log[|Seen(n.c)|]]
    ensures GapFree(n')
  {
    var k := |Seen(n.c)|;
    hide Seen;
    assert n.log[..k + 1] == n.log[..k] + [n.log[k]];
  }

  lemma NetSoundStep(n: Net, a: Action)
    requires NetSound(n) && Enabled(n, a)
    ensures NetSound(Next(n, a))
  {
    LogStep(n, a);
    SteadyStep(n, a);
    LogMoves(n, a);
    hide Next, Enabled, LogOk, Steady, Jumps, GapFree, Missed;
    if n.jumps > 0 {
      var i :| Missed(n, i);
      MissedStays(n, a, i);
    } else if a.Deliver? && Jumps(n, PipeOf(n, a.w).cursor) {
      JumpMisses(n, a.w);
    } else {
      GapFreeStep(n, a);
    }
  }

  /**
   * For every log and every schedule: what is passed on is in the order of the
   * log, each event once; the picture is the one those events and the faults met
   * give, in their order; rows stand in the order of their ids. It is a prefix of
   * the log, with no gap, if and only if no event was taken before an earlier one;
   * and what was missed so is missed for good.
   */
  lemma {:induction false} EverySchedule(schedule: seq<Action>, n: Net)
    requires LeadsTo(schedule, n)
    ensures NetSound(n) && (GapFree(n) <==> n.jumps == 0)
    decreases |schedule|
  {
    if schedule != [] {
      var init, a := schedule[..|schedule| - 1], schedule[|schedule| - 1];
      var m :| LeadsTo(init, m) && StepTo(m, a, n);
      EverySchedule(init, m);
      NetSoundStep(m, a);
    } else {
      StartIsSound();
    }
    if n.jumps > 0 {
      var i :| Missed(n, i);
      MissedIsGap(n, i);
    }
    hide LeadsTo, Next, Enabled, GapFree, Missed;
  }

  lemma StartIsSound()
    ensures NetSound(Start)
  {
  }

  lemma MissedIsGap(n: Net, i: nat)
    requires LogOk(n.log) && Steady(n.c) && Missed(n, i)
    ensures !GapFree(n)
  {
    if GapFree(n) { CursorDivides(n); }
    hide Steady, LogOk;
  }

  // ---- no skip, no gap ------------------------------------------------------

  /** No connection is further in the log than the client. */
  ghost predicate PipesBehind(n: Net) { forall w | Open(n, w) :: PipeOf(n, w).cursor <= |Seen(n.c)| }

  ghost predicate InOrder(n: Net) { LogOk(n.log) && Steady(n.c) && GapFree(n) && PipesBehind(n) }

  /** Where connections stand after an action. */
  lemma PipesMove(n: Net, a: Action, w: Which, bound: nat)
    requires Enabled(n, a) && a != Skip && Open(Next(n, a), w)
    requires forall v | Open(n, v) :: PipeOf(n, v).cursor <= bound
    requires (a.Connect? ==> a.from <= bound) && (a.Deliver? ==> PipeOf(n, a.w).cursor < bound)
    ensures PipeOf(Next(n, a), w).cursor <= bound
  {
    hide Heard, Release, Dropped, Faulted, Jumps, Resumes;
    assert n.link.Reading? ==> Open(n, Current) && PipeOf(n, Current) == n.link.pipe;
    assert forall i | 0 <= i < |n.aborted| :: Open(n, Former(i)) && PipeOf(n, Former(i)) == n.aborted[i];
    if a.Deliver? || a.Pulse? || a.Repeat? {
      ArrivePipes(n, a.w, if a.Deliver? then n.log[PipeOf(n, a.w).cursor] else if a.Pulse? then a.e else n.log[a.k],
                  if a.Deliver? then PipeOf(n, a.w).cursor + 1 else PipeOf(n, a.w).cursor, w, bound);
    }
    hide Arrive;
  }

  lemma ArrivePipes(n: Net, v: Which, e: Event, cursor: nat, w: Which, bound: nat)
    requires Open(n, v) && Open(Arrive(n, v, e, cursor), w) && cursor <= bound
    requires forall x | Open(n, x) :: PipeOf(n, x).cursor <= bound
    ensures PipeOf(Arrive(n, v, e, cursor), w).cursor <= bound
  {
    hide Heard;
    assert n.link.Reading? ==> Open(n, Current) && PipeOf(n, Current) == n.link.pipe;
    assert forall i | 0 <= i < |n.aborted| :: Open(n, Former(i)) && PipeOf(n, Former(i)) == n.aborted[i];
  }

  lemma ResumesBehind(n: Net, from: nat)
    requires LogOk(n.log) && Steady(n.c) && GapFree(n) && Resumes(n.log, n.c.s, from)
    ensures from <= |Seen(n.c)|
  {
    CursorDivides(n);
    if |Seen(n.c)| < |n.log| { assert n.log[|Seen(n.c)|].id > n.c.s.lastId; }
    hide Steady, GapFree, LogOk;
  }

  /** Without a skip no event is taken before an earlier one. */
  lemma InOrderStep(n: Net, a: Action)
    requires InOrder(n) && Enabled(n, a) && a != Skip
    ensures InOrder(Next(n, a)) && Next(n, a).jumps == n.jumps && |Seen(n.c)| <= |Seen(Next(n, a).c)|
  {
    LogStep(n, a);
    SteadyStep(n, a);
    LogMoves(n, a);
    CursorDivides(n);
    hide Next, LogOk, Steady, GapFree, Seen;
    if a.Deliver? {
      var j := PipeOf(n, a.w).cursor;
      assert j <= |Seen(n.c)|;
      if n.log[j].id > n.c.s.lastId { DeliverInOrder(n, j); }
    }
    hide Jumps;
    GapFreeStep(n, a);
    if a.Connect? { ResumesBehind(n, a.from); }
    hide Enabled;
    forall w | Open(Next(n, a), w) ensures PipeOf(Next(n, a), w).cursor <= |Seen(Next(n, a).c)| {
      PipesMove(n, a, w, |Seen(Next(n, a).c)|);
    }
  }

  /** Over every schedule in which the server skips nothing, what is passed on is a prefix of the log. */
  lemma {:induction false} NoSkipNoGap(schedule: seq<Action>, n: Net)
    requires LeadsTo(schedule, n) && forall a | a in schedule :: a != Skip
    ensures InOrder(n) && n.jumps == 0
    decreases |schedule|
  {
    hide InOrder, Next, Enabled;
    if schedule == [] {
      StartInOrder();
    } else {
      var init, a := schedule[..|schedule| - 1], schedule[|schedule| - 1];
      var m :| LeadsTo(init, m) && StepTo(m, a, n);
      assert schedule == init + [a] && a in schedule && forall x :: x in init ==> x in schedule;
      NoSkipNoGap(init, m);
      InOrderStep(m, a);
    }
  }

  lemma StartInOrder()
    ensures InOrder(Start)
  {
    StartIsSound();
    hide Steady;
  }

  // ---- one loop -------------------------------------------------------------

  ghost predicate Attaches(schedule: seq<Action>) { exists a :: a in schedule && a == Attach }

  predicate AtFault(link: Link) { link.Off? && (link.why.GaveUp? || link.why.Rejected?) }

  /** The fault a loop ended with. */
  predicate FaultIs(link: Link, i: Input) {
    link.Off? && match link.why
      case GaveUp => i == LostContact
      case Rejected(message) => i == RefusedWith(message)
      case _ => false
  }

  /** A fault, if one was met, was the last thing to move the picture. */
  ghost predicate FaultLast(n: Net) {
    && (n.aborted != [] ==> n.link == Off(Detached))
    && (if AtFault(n.link) then n.c.inputs != [] && FaultIs(n.link, n.c.inputs[|n.c.inputs| - 1]) && FaultsOf(n.c.inputs[..|n.c.inputs| - 1]) == []
        else FaultsOf(n.c.inputs) == [])
  }

  lemma HeardInputs(c: Client, e: Event)
    ensures Heard(c, e).inputs == if Taken(c, e) then c.inputs + [Ev(e)] else c.inputs
  {
    hide Accept, Refused, Release;
  }

  lemma FaultLastByEvent(n: Net, w: Which, e: Event, cursor: nat)
    requires FaultLast(n) && Open(n, w)
    ensures FaultLast(Arrive(n, w, e, cursor))
  {
    HeardInputs(n.c, e);
    InputSnoc(n.c.inputs, Ev(e));
    hide Heard, Taken, FaultsOf;
    assert !AtFault(n.link);
  }

  lemma FaultLastByFault(n: Net, i: Input)
    requires FaultsOf(n.c.inputs) == [] && n.aborted == [] && FaultIs(n.link, i)
    ensures FaultLast(n.(c := Faulted(n.c, i)))
  {
    assert (n.c.inputs + [i])[..|n.c.inputs|] == n.c.inputs;
  }

  lemma FaultLastStep(n: Net, a: Action)
    requires FaultLast(n) && Enabled(n, a) && a != Attach
    ensures FaultLast(Next(n, a))
  {
    hide Arrive, FaultsOf, Release, Dropped, Jumps, Resumes;
    match a
    case Deliver(w) => FaultLastByEvent(n, w, n.log[PipeOf(n, w).cursor], PipeOf(n, w).cursor + 1);
    case Pulse(w, e) => FaultLastByEvent(n, w, e, PipeOf(n, w).cursor);
    case Repeat(w, k) => FaultLastByEvent(n, w, n.log[k], PipeOf(n, w).cursor);
    case Drop =>
      var m := Became(n, n.c.(s := Dropped(n.c.s)), Nowhere);
      FaultLastByFault(m.(link := Off(GaveUp)), LostContact);
    case Refuse(message) => FaultLastByFault(n.(link := Off(Rejected(message))), RefusedWith(message));
    case _ =>
  }

  lemma {:induction false} FaultEndsLoop(schedule: seq<Action>, n: Net)
    requires LeadsTo(schedule, n) && !Attaches(schedule)
    ensures FaultLast(n)
    decreases |schedule|
  {
    if schedule != [] {
      var init, a := schedule[..|schedule| - 1], schedule[|schedule| - 1];
      var m :| LeadsTo(init, m) && StepTo(m, a, n);
      assert forall x :: x in init ==> x in schedule;
      FaultEndsLoop(init, m);
      assert a in schedule && a != Attach;
      FaultLastStep(m, a);
    }
    hide LeadsTo, Next, Enabled;
  }

  /** The words in which a loop was refused are those of the last error already. */
  predicate NothingNew(link: Link, p: Picture) { link.Off? && link.why.Rejected? && p.lastError == Some(link.why.message) }

  /**
   * Until the session is attached again, the picture is that of one uninterrupted
   * delivery of what was taken, if and only if the loop has neither given up nor
   * been refused in words that are not the last error's already.
   */
  lemma OneLoop(schedule: seq<Action>, n: Net)
    requires LeadsTo(schedule, n) && !Attaches(schedule)
    ensures NetSound(n)
    ensures Core(n.c.s.pic) == Core(PictureOf(Seen(n.c)))
       <==> !AtFault(n.link) || NothingNew(n.link, PictureOf(Seen(n.c)))
  {
    EverySchedule(schedule, n);
    FaultEndsLoop(schedule, n);
    FaultPicture(n);
    hide LeadsTo, NetSound, FaultLast, PictureOf, Core;
  }

  lemma FaultPicture(n: Net)
    requires Steady(n.c) && FaultLast(n)
    ensures Core(n.c.s.pic) == Core(PictureOf(Seen(n.c)))
       <==> !AtFault(n.link) || NothingNew(n.link, PictureOf(Seen(n.c)))
  {
    var ins := n.c.inputs;
    if AtFault(n.link) {
      assert ins == ins[..|ins| - 1] + [ins[|ins| - 1]];
      InputSnoc(ins[..|ins| - 1], ins[|ins| - 1]);
    }
    assert StoredOf(ins) == Seen(n.c) by { assert Seen(n.c)[..|Seen(n.c)|] == Seen(n.c); }
    OneFaultShows(ins);
    hide PictureOf, PictureWith, StoredOf, LostWhileRunning, IdsAscend, FaultsOf, Core;
  }

  // ---- catching up ----------------------------------------------------------

  /** Where the first `end` at or after `from` stands, or the length of the log. */
  function FirstEnd(log: seq<Event>, from: nat): (r: nat)
    requires from <= |log|
    ensures from <= r <= |log| && (r < |log| ==> log[r].body.End?)
    ensures forall k | from <= k < r :: !log[k].body.End?
    decreases |log| - from
  {
    if from == |log| || log[from].body.End? then from else FirstEnd(log, from + 1)
  }

  /** Deliver what the open connection has to send until it closes or runs dry. */
  ghost function DeliverAll(n: Net): Net
    requires n.link.Reading? && n.link.pipe.cursor <= |n.log|
    decreases |n.log| - n.link.pipe.cursor
  {
    if n.link.pipe.cursor == |n.log| then n
    else
      var m := Next(n, Deliver(Current));
      if m.link.Reading? then DeliverAll(m) else m
  }

  /** How much of the log one surviving connection gets across. */
  function ReachOf(log: seq<Event>, cursor: nat, k: nat): nat
    requires cursor <= |log|
  {
    var stop := FirstEnd(log, cursor);
    var sent := if stop < |log| then stop + 1 else stop;
    if sent < k then k else sent
  }

  /** A surviving connection delivers the log as far as the first `end` it comes to. */
  lemma {:induction false} CatchUp(n: Net)
    requires InOrder(n) && n.link.Reading?
    ensures n.link.pipe.cursor <= |Seen(n.c)| <= |n.log| && DeliverAll(n).log == n.log && InOrder(DeliverAll(n))
    ensures |Seen(DeliverAll(n).c)| == ReachOf(n.log, n.link.pipe.cursor, |Seen(n.c)|)
    decreases |n.log| - n.link.pipe.cursor
  {
    var at, k := n.link.pipe.cursor, |Seen(n.c)|;
    assert at <= k <= |n.log| by { assert Open(n, Current) && PipeOf(n, Current) == n.link.pipe; }
    hide InOrder, Arrive, ReachOf, FirstEnd, Seen, Jumps;
    ReachStep(n.log, at, k);
    if at < |n.log| {
      var m := DeliverOnce(n);
      if m.link.Reading? { CatchUp(m); }
    }
  }

  lemma ReachStep(log: seq<Event>, at: nat, k: nat)
    requires at <= |log| && at <= k <= |log|
    ensures at == |log| ==> ReachOf(log, at, k) == k
    ensures at < |log| ==>
      var k' := if at == k then k + 1 else k;
      ReachOf(log, at, k) == if log[at].body.End? then k' else ReachOf(log, at + 1, k')
  {
  }

  lemma DeliverOnce(n: Net) returns (m: Net)
    requires InOrder(n) && n.link.Reading? && n.link.pipe.cursor < |n.log|
    ensures m == Next(n, Deliver(Current)) && InOrder(m) && m.log == n.log
    ensures |Seen(m.c)| == if n.link.pipe.cursor == |Seen(n.c)| then |Seen(n.c)| + 1 else |Seen(n.c)|
    ensures m.link == if n.log[n.link.pipe.cursor].body.End? then Off(Ended) else Reading(n.link.pipe.(cursor := n.link.pipe.cursor + 1))
  {
    m := Next(n, Deliver(Current));
    assert Open(n, Current) && PipeOf(n, Current) == n.link.pipe;
    assert n.link.pipe.cursor <= |Seen(n.c)|;
    DeliverLink(n);
    InOrderStep(n, Deliver(Current));
    SteadyStep(n, Deliver(Current));
    LogMoves(n, Deliver(Current));
    CursorDivides(n);
    hide LogOk, Steady, GapFree, Seen, Jumps, PipesBehind, Taken, Next, Enabled;
  }

  lemma DeliverLink(n: Net)
    requires n.link.Reading? && n.link.pipe.cursor < |n.log|
    ensures Next(n, Deliver(Current)).link
         == if n.log[n.link.pipe.cursor].body.End? then Off(Ended) else Reading(n.link.pipe.(cursor := n.link.pipe.cursor + 1))
  {
    hide Heard, Jumps;
  }

  /** So it delivers all of it if and only if nothing is missing or no `end` comes before the last event. */
  lemma CatchesUpWhen(n: Net)
    requires InOrder(n) && n.link.Reading?
    ensures n.link.pipe.cursor <= |n.log|
    ensures Seen(DeliverAll(n).c) == n.log
       <==> |Seen(n.c)| == |n.log| || forall j | n.link.pipe.cursor <= j < |n.log| - 1 :: !n.log[j].body.End?
  {
    CatchUp(n);
    var stop, reach := FirstEnd(n.log, n.link.pipe.cursor), |Seen(DeliverAll(n).c)|;
    assert reach == |n.log| ==> n.log[..reach] == n.log;
    if stop < |n.log| - 1 { assert n.log[stop].body.End?; }
    hide LogOk, Steady, Seen, DeliverAll, PipesBehind;
  }

  lemma ConnectInOrder(n: Net)
    requires InOrder(n) && n.link == Sleeping
    ensures var k := |Seen(n.c)|;
      && Enabled(n, Connect(k))
      && var reading := Next(n, Connect(k));
         InOrder(reading) && reading.link.Reading? && reading.link.pipe.cursor == k == |Seen(reading.c)| && reading.log == n.log
  {
    var k := |Seen(n.c)|;
    ConnectsAt(n, k);
    SteadyOf(n);
    hide InOrder, Steady, LogOk, Seen;
    InOrderStep(n, Connect(k));
    SteadyStep(n, Connect(k));
    LogMoves(n, Connect(k));
  }

  lemma AttachThenConnect(n: Net)
    requires InOrder(n)
    ensures var again, k := Next(n, Attach), |Seen(n.c)|;
      && Enabled(again, Connect(k))
      && var reading := Next(again, Connect(k));
         InOrder(reading) && reading.link.Reading? && reading.link.pipe.cursor == k == |Seen(reading.c)| && reading.log == n.log
  {
    SteadyOf(n);
    hide InOrder, Steady, LogOk, Seen;
    InOrderStep(n, Attach);
    SteadyStep(n, Attach);
    LogMoves(n, Attach);
    var again := Next(n, Attach);
    assert again.link == Sleeping;
    hide Next, Enabled;
    ConnectInOrder(again);
  }

  lemma SteadyOf(n: Net)
    requires InOrder(n)
    ensures LogOk(n.log) && Steady(n.c)
  {
  }

  lemma ConnectsAt(n: Net, k: nat)
    requires InOrder(n) && k == |Seen(n.c)|
    ensures Resumes(n.log, n.c.s, k)
  {
    CursorDivides(n);
    hide Steady, LogOk, Seen;
  }

  /** Attaching again goes on past the `end` the last connection closed at. */
  lemma AttachGoesOn(n: Net)
    requires InOrder(n) && |Seen(n.c)| < |n.log|
    ensures var again, k := Next(n, Attach), |Seen(n.c)|;
      && Enabled(again, Connect(k))
      && |Seen(DeliverAll(Next(again, Connect(k))).c)| > k
  {
    var again, k := Next(n, Attach), |Seen(n.c)|;
    AttachThenConnect(n);
    hide Next, Enabled, InOrder, Seen, DeliverAll;
    CatchUp(Next(again, Connect(k)));
    assert k < ReachOf(n.log, k, k);
  }

  // ---- partial texts --------------------------------------------------------

  function TextOf(pieces: seq<Piece>): string {
    if pieces == [] then "" else TextOf(pieces[..|pieces| - 1]) + pieces[|pieces| - 1].text
  }

  /** The connections that the live text came by, or may still come by. */
  ghost function Sources(n: Net): set<Source> {
    (set p | p in n.pieces :: p.source) + (set a | a in n.aborted :: SourceOf(a))
    + (if n.link.Reading? then {SourceOf(n.link.pipe)} else {})
  }

  /** Of one connection if and only if of one attachment. */
  predicate Matched(x: Source, y: Source) { x.conn == y.conn <==> x.epoch == y.epoch }

  ghost predicate TextsOk(n: Net) {
    && n.c.s.streaming == TextOf(n.pieces) && (forall p | p in n.pieces :: p.text != "")
    && (forall x | x in Sources(n) :: x.conn <= n.conns && x.epoch <= n.epoch && (n.link == Sleeping ==> x.epoch < n.epoch))
    && (forall x, y | x in Sources(n) && y in Sources(n) :: Matched(x, y))
    && (forall a | a in n.aborted :: a.epoch == n.epoch ==> n.link.Off?)
    && (n.link.Reading? ==> n.link.pipe.epoch == n.epoch)
  }

  /** The live text only ever grows at its end or is cleared. */
  predicate GrowsOrClears(was: string, now: string) { now == "" || was <= now }

  lemma ReleaseClears(s: State)
    ensures Release(s).streaming == s.streaming || Release(s).streaming == ""
  {
  }

  lemma StoreClears(s: State, e: Event)
    ensures Store(s, e).streaming == s.streaming || Store(s, e).streaming == ""
  {
    hide Absorb;
  }

  lemma HeardGrows(c: Client, e: Event)
    ensures GrowsOrClears(c.s.streaming, Heard(c, e).s.streaming)
  {
    StoreClears(c.s, e);
    ReleaseClears(Take(c, e).s);
    hide Store, Release;
  }

  lemma PiecesFollow(pieces: seq<Piece>, was: string, now: string, source: Source)
    requires was == TextOf(pieces) && GrowsOrClears(was, now) && forall p | p in pieces :: p.text != ""
    ensures var more := PiecesAfter(pieces, was, now, source);
      && now == TextOf(more)
      && forall p | p in more :: p.text != "" && (p in pieces || p.source == source)
  {
    var more := PiecesAfter(pieces, was, now, source);
    if |now| > |was| {
      assert more[..|pieces|] == pieces;
      assert now == was + now[|was|..];
    }
  }

  /** How texts and connections change, but for a new connection. */
  ghost predicate Follows(n: Net, n': Net) {
    && n'.c.s.streaming == TextOf(n'.pieces) && (forall p | p in n'.pieces :: p.text != "")
    && Sources(n') <= Sources(n) && n'.conns == n.conns
  }

  lemma ArriveFollows(n: Net, w: Which, e: Event, cursor: nat)
    requires TextsOk(n) && Open(n, w)
    ensures Follows(n, Arrive(n, w, e, cursor))
  {
    HeardGrows(n.c, e);
    PiecesFollow(n.pieces, n.c.s.streaming, Heard(n.c, e).s.streaming, SourceOf(PipeOf(n, w)));
    hide TextsOk, GrowsOrClears, PiecesAfter;
    ArriveTexts(n, w, e, cursor);
    hide Heard, TextOf, Arrive;
    ArriveSources(n, w, Arrive(n, w, e, cursor));
  }

  lemma ArriveTexts(n: Net, w: Which, e: Event, cursor: nat)
    requires Open(n, w)
    ensures var n' := Arrive(n, w, e, cursor);
      && n'.c == Heard(n.c, e)
      && n'.pieces == PiecesAfter(n.pieces, n.c.s.streaming, Heard(n.c, e).s.streaming, SourceOf(PipeOf(n, w)))
      && n'.conns == n.conns
      && (forall a | a in n'.aborted :: exists b :: b in n.aborted && SourceOf(b) == SourceOf(a))
      && (n'.link.Reading? ==> n.link.Reading? && SourceOf(n'.link.pipe) == SourceOf(n.link.pipe))
  {
    ArriveLink(n, w, e, cursor);
    hide Heard, PiecesAfter;
  }

  lemma ArriveSources(n: Net, w: Which, n': Net)
    requires Open(n, w) && forall p | p in n'.pieces :: p in n.pieces || p.source == SourceOf(PipeOf(n, w))
    requires forall a | a in n'.aborted :: exists b :: b in n.aborted && SourceOf(b) == SourceOf(a)
    requires n'.link.Reading? ==> n.link.Reading? && SourceOf(n'.link.pipe) == SourceOf(n.link.pipe)
    ensures Sources(n') <= Sources(n)
  {
    assert SourceOf(PipeOf(n, w)) in Sources(n);
  }

  lemma QuietFollows(n: Net, c: Client)
    requires TextsOk(n) && (c.s.streaming == n.c.s.streaming || c.s.streaming == "")
    ensures var m := Became(n, c, Nowhere); m.c.s.streaming == TextOf(m.pieces) && m.pieces in {n.pieces, []}
  {
    PiecesFollow(n.pieces, n.c.s.streaming, c.s.streaming, Nowhere);
  }

  lemma TextsByEvent(n: Net, w: Which, e: Event, cursor: nat)
    requires TextsOk(n) && Open(n, w)
    ensures TextsOk(Arrive(n, w, e, cursor))
  {
    ArriveFollows(n, w, e, cursor);
    ArriveLink(n, w, e, cursor);
    hide Arrive, TextOf;
  }

  lemma ArriveLink(n: Net, w: Which, e: Event, cursor: nat)
    requires Open(n, w)
    ensures var n' := Arrive(n, w, e, cursor);
      && n'.epoch == n.epoch && n'.conns == n.conns
      && (n'.link == n.link || n'.link.Off? || (n.link.Reading? && n'.link.Reading? && n'.link.pipe.epoch == n.link.pipe.epoch))
      && (forall a | a in n'.aborted :: exists b :: b in n.aborted && SourceOf(b) == SourceOf(a))
  {
    hide Heard;
    var n' := Arrive(n, w, e, cursor);
    forall a | a in n'.aborted ensures exists b :: b in n.aborted && SourceOf(b) == SourceOf(a) {
      if a in n.aborted { assert a in n.aborted; } else { assert n.aborted[w.i] in n.aborted; }
    }
  }

  lemma TextsStep(n: Net, a: Action)
    requires TextsOk(n) && Enabled(n, a)
    ensures TextsOk(Next(n, a))
  {
    hide Arrive, Release, Dropped, Jumps, TextOf, Resumes;
    match a
    case Deliver(w) => TextsByEvent(n, w, n.log[PipeOf(n, w).cursor], PipeOf(n, w).cursor + 1);
    case Pulse(w, e) => TextsByEvent(n, w, e, PipeOf(n, w).cursor);
    case Repeat(w, k) => TextsByEvent(n, w, n.log[k], PipeOf(n, w).cursor);
    case Drop => TextsByDrop(n);
    case Detach => TextsByDetach(n);
    case HoldTimer => TextsByTimer(n);
    case Attach => TextsByAttach(n);
    case _ => TextsByRest(n, a);
  }

  lemma TextsByDrop(n: Net)
    requires TextsOk(n) && !n.link.Off?
    ensures TextsOk(Down(n))
  {
    QuietFollows(n, n.c.(s := Dropped(n.c.s)));
    assert Down(n).pieces == [] by { if n.c.s.streaming == "" { NoTextNoPieces(n.pieces); } }
    hide TextOf;
    assert Sources(Down(n)) <= Sources(n);
    assert forall x | x in Sources(Down(n)) :: exists p :: p in n.aborted && SourceOf(p) == x;
  }

  lemma NoTextNoPieces(pieces: seq<Piece>)
    requires TextOf(pieces) == "" && forall p | p in pieces :: p.text != ""
    ensures pieces == []
  {
  }

  lemma TextsByDetach(n: Net)
    requires TextsOk(n)
    ensures TextsOk(Next(n, Detach))
  {
    var c := WithAttached(n.c, false);
    ReleaseClears(c.s);
    QuietFollows(n, c.(s := Release(c.s)));
    hide TextOf, Release;
    assert Sources(Next(n, Detach)) <= Sources(n);
  }

  lemma TextsByTimer(n: Net)
    requires TextsOk(n)
    ensures TextsOk(Next(n, HoldTimer))
  {
    ReleaseClears(n.c.s);
    QuietFollows(n, n.c.(s := Release(n.c.s)));
    hide TextOf, Release;
    assert Sources(Next(n, HoldTimer)) <= Sources(n);
  }

  lemma TextsByAttach(n: Net)
    requires TextsOk(n)
    ensures TextsOk(Next(n, Attach))
  {
    hide TextOf;
    var n' := Next(n, Attach);
    assert Sources(n') <= Sources(n);
    forall a | a in n'.aborted ensures a.epoch < n'.epoch { assert SourceOf(a) in Sources(n'); }
  }

  lemma TextsByRest(n: Net, a: Action)
    requires TextsOk(n) && Enabled(n, a) && (a.Grow? || a.Connect? || a.Skip? || a.Refuse?)
    ensures TextsOk(Next(n, a))
  {
    hide TextOf, Resumes;
    var n' := Next(n, a);
    if a.Connect? {
      assert forall x | x in Sources(n') :: x in Sources(n) || x == Source(n.conns + 1, n.epoch);
      assert forall p | p in n.aborted :: SourceOf(p) in Sources(n);
    } else {
      assert Sources(n') <= Sources(n);
    }
  }

  /**
   * Over every schedule: the live text is the pieces it came in, and two of them
   * came by different connections if and only if under different attachments.
   */
  lemma {:induction false} LiveTextOrigins(schedule: seq<Action>, n: Net)
    requires LeadsTo(schedule, n)
    ensures n.c.s.streaming == TextOf(n.pieces)
    ensures forall x, y | x in n.pieces && y in n.pieces :: x.source.conn == y.source.conn <==> x.source.epoch == y.source.epoch
    ensures TextsOk(n)
    decreases |schedule|
  {
    if schedule != [] {
      var init, a := schedule[..|schedule| - 1], schedule[|schedule| - 1];
      var m :| LeadsTo(init, m) && StepTo(m, a, n);
      LiveTextOrigins(init, m);
      TextsStep(m, a);
    } else {
      assert Sources(n) == {};
    }
    hide Next, Enabled, LeadsTo, TextOf;
    forall x, y | x in n.pieces && y in n.pieces ensures Matched(x.source, y.source) {
      assert x.source in Sources(n) && y.source in Sources(n);
    }
  }

  /** The live text once a connection has opened and one piece of text has arrived on it. */
  ghost function LiveTextAfter(n: Net, from: nat, e: Event): string
    requires n.link == Sleeping && Resumes(n.log, n.c.s, from) && e.body.Delta?
  {
    Next(Next(n, Connect(from)), Pulse(Current, e)).c.s.streaming
  }

  /**
   * Pieces of text are not joined across a dropped link; whatever text is there
   * at a new attachment, after an open connection, a refusal, an end or a
   * detachment, is joined with what comes next.
   */
  lemma TextJoinsAcrossAttach(n: Net, from: nat, e: Event)
    requires Resumes(n.log, n.c.s, from) && e.body.Delta?
    ensures !n.link.Off? && Next(n, Drop).link == Sleeping ==>
      Resumes(n.log, Next(n, Drop).c.s, from) && LiveTextAfter(Next(n, Drop), from, e) == e.body.text
    ensures LiveTextAfter(Next(n, Attach), from, e) == n.c.s.streaming + e.body.text
  {
    ReleaseKeepsCursor(n.c.s);
    hide Store, Release;
  }

  /** The hold timer, a detachment and a dropped link all write the held row out, once, and hold none. */
  lemma HeldRowIsWritten(n: Net, a: Action)
    requires Enabled(n, a) && (a.HoldTimer? || a.Detach? || a.Drop?)
    ensures var s, s' := n.c.s, Next(n, a).c.s;
      && s'.held == None && s'.rows == s.rows + (if s.held.Some? then [s.held.value] else [])
      && (a.Drop? ==> s'.streaming == "")
  {
    ClientMoves(n, a);
    hide Next, Running, LostPicture;
    assert n.c.s.rows + [] == n.c.s.rows;
  }

  // ---- giving up --------------------------------------------------------------

  /** The drops since the session was attached, or an event came on the loop's own connection. */
  function DropsSince(schedule: seq<Action>): nat {
    if schedule == [] then 0
    else
      match schedule[|schedule| - 1]
      case Attach => 0
      case Deliver(Current) => 0
      case Pulse(Current, _) => 0
      case Repeat(Current, _) => 0
      case Drop => DropsSince(schedule[..|schedule| - 1]) + 1
      case _ => DropsSince(schedule[..|schedule| - 1])
  }

  lemma CountAfter(m: Net, a: Action)
    requires Enabled(m, a) && !Next(m, a).link.Off?
    ensures m.link.Off? ==> a == Attach
    ensures Next(m, a).failures ==
      match a
      case Attach => 0
      case Deliver(Current) => 0
      case Pulse(Current, _) => 0
      case Repeat(Current, _) => 0
      case Drop => m.failures + 1
      case _ => m.failures
  {
    hide Heard, Faulted, Running, Release, Dropped, WithAttached, PiecesAfter, Jumps, Transient, Resumes;
  }

  lemma {:induction false} FailuresCounted(schedule: seq<Action>, n: Net)
    requires LeadsTo(schedule, n) && !n.link.Off?
    ensures n.failures == DropsSince(schedule)
    decreases |schedule|
  {
    if schedule != [] {
      var init, a := schedule[..|schedule| - 1], schedule[|schedule| - 1];
      var m :| LeadsTo(init, m) && StepTo(m, a, n);
      hide LeadsTo, Next, Enabled;
      CountAfter(m, a);
      if !m.link.Off? { FailuresCounted(init, m); }
    }
  }

  /**
   * Over every schedule: a drop gives up a going run exactly when it is the twelfth
   * since the session was attached or an event last came on the loop's connection.
   */
  lemma GivesUpWhen(schedule: seq<Action>, n: Net)
    requires LeadsTo(schedule, n) && Enabled(n, Drop)
    ensures Next(n, Drop).link == Off(GaveUp) <==> Running(n.c.s.pic) && DropsSince(schedule) + 1 >= 12
  {
    hide LeadsTo;
    FailuresCounted(schedule, n);
    assert Release(n.c.s).pic == n.c.s.pic;
    hide Running, Release, Faulted, PiecesAfter, DropsSince;
  }
}
