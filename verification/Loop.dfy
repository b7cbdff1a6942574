// The reconnect loop over a script of connections that carry the server's log.
module Loop {
  import opened Text
  import opened RunSpec
  import opened Stream
  import opened Following
  import opened Network

  /** One thing a connection carries: a stored event by its place in the log, or a passing one. */
  datatype Sent = Stored(at: nat) | Passing(e: Event)

  /** What the server sends on one connection, from where it resumes. */
  datatype Feed = Feed(from: nat, sent: seq<Sent>)

  /** Where the connection stands in the log after its first `n` items. */
  function Place(f: Feed, n: nat): nat
    requires n <= |f.sent|
  {
    if n == 0 then f.from
    else
      var p := Place(f, n - 1);
      if f.sent[n - 1] == Stored(p) then p + 1 else p
  }

  /** Stored events come in log order, though any may come again. */
  ghost predicate FeedOk(log: seq<Event>, f: Feed) {
    forall i | 0 <= i < |f.sent| ::
      match f.sent[i]
      case Stored(at) => at < |log| && at <= Place(f, i)
      case Passing(e) => Transient(e.body)
  }

  ghost predicate Carries(log: seq<Event>, f: Feed, es: seq<Event>)
    requires FeedOk(log, f)
  {
    |es| == |f.sent| && forall i | 0 <= i < |es| :: es[i] == match f.sent[i] case Stored(at) => log[at] case Passing(e) => e
  }

  /** Every connection the loop makes resumes after its cursor, or before, and carries the log. */
  ghost predicate Served(log: seq<Event>, start: Progress, conns: seq<Conn>, feeds: seq<Feed>, n: nat)
    requires n <= |conns| == |feeds|
  {
    forall i | 0 <= i < n :: ServedAt(log, Walk(start, conns, i), conns[i], feeds[i])
  }

  ghost predicate ServedAt(log: seq<Event>, g: Progress, conn: Conn, f: Feed) {
    g.over == None ==> Resumes(log, g.s, f.from) && FeedOk(log, f) && Carries(log, f, conn.events)
  }

  ghost function TakeAll(c: Client, es: seq<Event>): Client {
    if es == [] then c else Take(TakeAll(c, es[..|es| - 1]), es[|es| - 1])
  }

  lemma {:induction false} TakeAllIngests(c: Client, es: seq<Event>)
    ensures TakeAll(c, es).s == IngestAll(c.s, es)
    ensures TakeAll(c, es).received == c.received + AcceptedOf(c.s, es)
    decreases |es|
  {
    if es != [] {
      TakeAllIngests(c, es[..|es| - 1]);
      hide Accept, Refused;
    }
  }

  lemma {:induction false} FeedKeepsStep(log: seq<Event>, c: Client, k: nat, f: Feed, es: seq<Event>, n: nat) returns (k': nat)
    requires LogOk(log) && InStep(log, c, k) && f.from <= k && FeedOk(log, f) && Carries(log, f, es) && n <= |es|
    ensures InStep(log, TakeAll(c, es[..n]), k') && k <= k' && Place(f, n) <= k'
    ensures FaultsOf(TakeAll(c, es[..n]).inputs) == FaultsOf(c.inputs)
    decreases n
  {
    k' := k;
    if n > 0 {
      k' := FeedKeepsStep(log, c, k, f, es, n - 1);
      var c' := TakeAll(c, es[..n - 1]);
      assert es[..n][..n - 1] == es[..n - 1];
      match f.sent[n - 1]
      case Stored(at) => k' := TakeAny(log, c', k', at);
      case Passing(e) => TakePulse(log, c', k', e);
    }
    hide InStep, Take, LogOk, FaultsOf;
  }

  lemma {:induction false} UpToEndIsPrefix(es: seq<Event>)
    ensures |UpToEnd(es)| <= |es| && UpToEnd(es) == es[..|UpToEnd(es)|]
    decreases |es|
  {
    if es != [] { UpToEndIsPrefix(es[1..]); }
  }

  /** The fault, if there is one, is the last input. */
  predicate Closes(ins: seq<Input>, fault: seq<Input>) { fault == [] || (ins != [] && fault == [ins[|ins| - 1]]) }

  lemma BehindCursor(log: seq<Event>, c: Client, k: nat, from: nat)
    requires LogOk(log) && InStep(log, c, k) && Resumes(log, c.s, from)
    ensures from <= k
  {
    if k < |log| {
      assert log[k].id > c.s.lastId by { assert k > 0 ==> log[..k][k - 1] == log[k - 1]; }
    }
  }

  lemma ConnectionKeepsStep(log: seq<Event>, c: Client, k: nat, f: Feed, conn: Conn) returns (c': Client, k': nat)
    requires LogOk(log) && InStep(log, c, k) && Resumes(log, c.s, f.from) && FeedOk(log, f) && Carries(log, f, conn.events)
    ensures c'.s == Lived(c.s, conn).0 && c'.received == c.received + AcceptedOf(c.s, UpToEnd(conn.events))
    ensures InStep(log, c', k') && k <= k'
    ensures FaultsOf(c'.inputs)
         == FaultsOf(c.inputs) + if Lived(c.s, conn).1 == Some(Refusal) then [RefusedWith(conn.ending.message)] else []
    ensures Lived(c.s, conn).1 == Some(Refusal) ==> Closes(c'.inputs, [RefusedWith(conn.ending.message)])
  {
    BehindCursor(log, c, k, f.from);
    UpToEndIsPrefix(conn.events);
    k' := FeedKeepsStep(log, c, k, f, conn.events, |UpToEnd(conn.events)|);
    TakeAllIngests(c, UpToEnd(conn.events));
    c' := TakeAll(c, UpToEnd(conn.events));
    hide InStep, LogOk, UpToEnd, TakeAll, FaultsOf, IngestAll, AcceptedOf, Dropped, Release, Resumes, FeedOk, HasEnd, Place;
    LettingGo(log, c', k');
    var t := c'.s;
    if HasEnd(conn.events) {
      c' := c'.(s := Release(t));
    } else if conn.ending == Aborted {
    } else if conn.ending.Failed? && conn.ending.permanent {
      FaultKeepsStep(log, c', k', RefusedWith(conn.ending.message));
      c' := Faulted(c', RefusedWith(conn.ending.message));
    } else {
      c' := c'.(s := Dropped(t));
    }
  }

  /** The fault a verdict stands for. */
  function FaultOf(over: Option<Verdict>, message: string): seq<Input> {
    if over == Some(Lost) then [LostContact] else if over == Some(Refusal) then [RefusedWith(message)] else []
  }

  lemma AttemptKeepsStep(log: seq<Event>, c: Client, k: nat, failures: nat, f: Feed, conn: Conn) returns (c': Client, k': nat)
    requires LogOk(log) && InStep(log, c, k) && Resumes(log, c.s, f.from) && FeedOk(log, f) && Carries(log, f, conn.events)
    ensures var g := Attempted(Progress(c.s, c.received, failures, None), conn);
      && c'.s == g.s && c'.received == g.received && InStep(log, c', k') && k <= k'
      && (g.over == Some(Refusal) ==> conn.ending.Failed? && conn.ending.permanent)
      && FaultsOf(c'.inputs) == FaultsOf(c.inputs) + FaultOf(g.over, if conn.ending.Failed? then conn.ending.message else "")
      && Closes(c'.inputs, FaultOf(g.over, if conn.ending.Failed? then conn.ending.message else ""))
  {
    hide InStep, LogOk, UpToEnd, FaultsOf, AcceptedOf, Resumes, FeedOk, Carries, Lived, Faulted, Running, LostPicture;
    c', k' := ConnectionKeepsStep(log, c, k, f, conn);
    LivedVerdicts(c.s, conn);
    AttemptedOnce(c, failures, conn);
    var g := Attempted(Progress(c.s, c.received, failures, None), conn);
    hide Attempted;
    if g.over == Some(Lost) {
      LosingKeepsStep(log, c', k');
      c' := Faulted(c', LostContact);
    }
  }

  lemma AttemptedOnce(c: Client, failures: nat, conn: Conn)
    ensures var g, lived := Attempted(Progress(c.s, c.received, failures, None), conn), Lived(c.s, conn);
      && g.received == c.received + AcceptedOf(c.s, UpToEnd(conn.events))
      && ((g.over == lived.1 && g.s == lived.0) || (lived.1 == None && g.over == Some(Lost) && g.s == lived.0.(pic := LostPicture(lived.0.pic))))
  {
    hide Lived, AcceptedOf, UpToEnd, LostPicture;
  }

  lemma LosingKeepsStep(log: seq<Event>, c: Client, k: nat)
    requires InStep(log, c, k) && Running(c.s.pic)
    ensures InStep(log, Faulted(c, LostContact), k)
    ensures Faulted(c, LostContact).s == c.s.(pic := LostPicture(c.s.pic)) && Faulted(c, LostContact).received == c.received
    ensures FaultsOf(Faulted(c, LostContact).inputs) == FaultsOf(c.inputs) + [LostContact]
    ensures Closes(Faulted(c, LostContact).inputs, [LostContact])
  {
    FaultKeepsStep(log, c, k, LostContact);
    hide InStep, FaultsOf, LostPicture;
  }

  lemma LivedVerdicts(s: State, conn: Conn)
    ensures var lived := Lived(s, conn);
      && lived.1 != Some(Lost)
      && (lived.1 == Some(Refusal) ==> conn.ending.Failed? && conn.ending.permanent)
      && (lived.1 == None ==> Running(lived.0.pic))
  {
    assert Release(IngestAll(s, UpToEnd(conn.events))).pic == IngestAll(s, UpToEnd(conn.events)).pic;
    hide IngestAll, UpToEnd, HasEnd;
  }

  /** One of the first `n` connections was refused in these words. */
  ghost predicate RefusedBy(conns: seq<Conn>, n: nat, message: string)
    requires n <= |conns|
  {
    exists i :: 0 <= i < n && conns[i].ending == Failed(true, message)
  }

  /**
   * Over any script of connections that carry the log, the loop passes on a
   * prefix of it, and meets a fault exactly when it gives up or is refused.
   */
  lemma {:induction false} LoopKeepsStep(log: seq<Event>, c: Client, k: nat, conns: seq<Conn>, feeds: seq<Feed>, n: nat)
      returns (c': Client, k': nat, message: string)
    requires LogOk(log) && InStep(log, c, k) && n <= |conns| == |feeds|
    requires Served(log, Progress(c.s, c.received, 0, None), conns, feeds, n)
    ensures var g := Walk(Progress(c.s, c.received, 0, None), conns, n);
      && c'.s == g.s && c'.received == g.received && InStep(log, c', k') && k <= k'
      && FaultsOf(c'.inputs) == FaultsOf(c.inputs) + FaultOf(g.over, message)
      && Closes(c'.inputs, FaultOf(g.over, message))
      && (g.over == Some(Refusal) ==> RefusedBy(conns, n, message))
    decreases n
  {
    hide InStep, LogOk, FaultsOf, Attempted, Resumes, FeedOk, Carries;
    c', k', message := c, k, "";
    if n > 0 {
      var start := Progress(c.s, c.received, 0, None);
      c', k', message := LoopKeepsStep(log, c, k, conns, feeds, n - 1);
      var g := Walk(start, conns, n - 1);
      assert ServedAt(log, g, conns[n - 1], feeds[n - 1]);
      if g.over == None {
        assert FaultsOf(c'.inputs) == FaultsOf(c.inputs);
        c', k' := AttemptKeepsStep(log, c', k', g.failures, feeds[n - 1], conns[n - 1]);
        message := if conns[n - 1].ending.Failed? then conns[n - 1].ending.message else "";
      } else {
        StaysOver(g, conns[n - 1]);
      }
    }
  }

  lemma StaysOver(g: Progress, conn: Conn)
    requires g.over.Some?
    ensures Attempted(g, conn) == g
  {
  }

  /**
   * A loop that starts afresh shows what one uninterrupted delivery would, unless
   * it gave up or was refused in words that are not the last error's already.
   */
  lemma LoopPicture(log: seq<Event>, conns: seq<Conn>, feeds: seq<Feed>, n: nat) returns (k: nat, message: string)
    requires LogOk(log) && n <= |conns| == |feeds|
    requires Served(log, Progress(Fresh, [], 0, None), conns, feeds, n)
    ensures var g := Walk(Progress(Fresh, [], 0, None), conns, n);
      && k <= |log| && StoredOnly(g.received) == log[..k]
      && (g.over == Some(Refusal) ==> RefusedBy(conns, n, message))
      && (Core(g.s.pic) == Core(PictureOf(log[..k]))
          <==> g.over != Some(Lost) && (g.over == Some(Refusal) ==> PictureOf(log[..k]).lastError == Some(message)))
  {
    hide LogOk, Served, Walk, RefusedBy;
    var c: Client;
    c, k, message := LoopKeepsStep(log, Client(Fresh, [], []), 0, conns, feeds, n);
    FaultClosesOnce(c.inputs, FaultOf(Walk(Progress(Fresh, [], 0, None), conns, n).over, message));
    OneFaultShows(c.inputs);
    hide PictureOf, PictureWith, StoredOf, LostWhileRunning, IdsAscend, Core;
  }

  lemma FaultClosesOnce(ins: seq<Input>, fault: seq<Input>)
    requires FaultsOf(ins) == fault && Closes(ins, fault)
    ensures AtMostOne(ins)
  {
    if fault != [] {
      var init, i := ins[..|ins| - 1], ins[|ins| - 1];
      assert FaultsOf(init) + (if i.Ev? then [] else [i]) == [i];
      FaultsAreFaults(ins);
    }
  }

  lemma {:induction false} FaultsAreFaults(ins: seq<Input>)
    ensures forall i :: i in FaultsOf(ins) ==> !i.Ev?
    decreases |ins|
  {
    if ins != [] { FaultsAreFaults(ins[..|ins| - 1]); }
  }
}
