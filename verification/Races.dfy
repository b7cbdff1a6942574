// What ends a family of refresh tokens: a refresh that starts from a stale
// secret, and two refreshes that overlap between their reads and their stores.
module Races {
  import opened Text
  import opened Auth

  // ---- one refresh alone ----------------------------------------------------

  /** A step of a refresh itself, with every request answered and every store done. */
  predicate OwnAnswered(s: Step) {
    s.ReadDone? || (s.Present? && s.heard) || s.Issue? || s.StoreDone? || s.Resume? || s.RereadDone? || s.DeleteDone? || s.Finally?
  }

  /** The stored secret is one the gateway would take. */
  predicate StoredLive(w: World) { w.stored.Some? && Live(w.gateway, w.stored.value) }

  /** The family of the secret that was stored is over. */
  predicate FamilyOver(w0: World, w: World) {
    w0.stored.Some? && w0.stored.value in w0.gateway.minted ==> w0.gateway.minted[w0.stored.value] in w.gateway.revoked
  }

  /** What a refresh of window `v` that runs alone knows of the world `w0` it started in. */
  ghost predicate Alone(w0: World, w: World, v: nat, id: nat) {
    && v < |w.windows| && (forall k | k in w.flights :: k == id)
    && (if id in w.flights then w.flights[id].window == v && AloneAt(w0, w, w.windows[v].account, w.flights[id])
        else Over(w0, w, w.windows[v].account))
  }

  predicate Over(w0: World, w: World, account: bool) {
    && (account <==> StoredLive(w0)) && (account ==> StoredLive(w)) && (!account ==> FamilyOver(w0, w))
  }

  ghost predicate AloneAt(w0: World, w: World, account: bool, f: Flight) {
    match f.pc
    case Reading => account && w.stored == w0.stored && w.gateway == w0.gateway && f.sent == []
    case Posting(x) => account && Some(x) == w.stored == w0.stored && w.gateway == w0.gateway && f.sent == [x]
    case Checking(family) => account && StoredLive(w0) && family !in w.gateway.revoked
    case Storing(refresh, _) => account && StoredLive(w0) && Live(w.gateway, refresh)
    case Rotated(_) => account && StoredLive(w0) && StoredLive(w)
    case Rereading(spent) => account && Some(spent) == w.stored == w0.stored && !StoredLive(w0) && FamilyOver(w0, w)
    case Settled(_) => Over(w0, w, account)
    case _ => !account && !StoredLive(w0) && FamilyOver(w0, w)
  }

  lemma AloneStep(w0: World, w: World, v: nat, id: nat, s: Step)
    requires BooksOk(w0) && Alone(w0, w, v, id) && Enabled(w, s) && OwnAnswered(s)
    ensures Alone(w0, Next(w, s), v, id)
  {
  }

  lemma {:induction false} AloneRun(w0: World, w1: World, v: nat, id: nat, steps: seq<Step>, w: World)
    requires BooksOk(w0) && Alone(w0, w1, v, id) && LeadsTo(w1, steps, w) && forall s | s in steps :: OwnAnswered(s)
    ensures Alone(w0, w, v, id)
    decreases |steps|
  {
    if steps != [] {
      var init, s := steps[..|steps| - 1], steps[|steps| - 1];
      var m :| LeadsTo(w1, init, m) && StepTo(m, s, w);
      assert steps == init + [s] && s in steps;
      AloneRun(w0, w1, v, id, init, m);
      AloneStep(w0, m, v, id, s);
    }
  }

  /** The step starts a refresh. */
  ghost predicate Launches(w: World, s: Step) {
    Starts(s) && Enabled(w, s) && w.windows[s.window].refreshing == None && Next(w, s).windows[s.window].refreshing.Some?
  }

  /**
   * A refresh that runs alone and is answered keeps its window signed in if and
   * only if the stored secret was live when it began; otherwise the family of
   * that secret is over.
   */
  lemma AloneIff(w0: World, start: Step, steps: seq<Step>, w: World)
    requires Sound(w0) && w0.flights == map[] && Launches(w0, start) && w0.windows[start.window].account
    requires LeadsTo(Next(w0, start), steps, w) && forall s | s in steps :: OwnAnswered(s)
    requires w.flights == map[]
    ensures start.window < |w.windows|
    ensures w.windows[start.window].account <==> StoredLive(w0)
    ensures if StoredLive(w0) then StoredLive(w) else FamilyOver(w0, w)
  {
    assert Alone(w0, Next(w0, start), start.window, w0.nextId);
    AloneRun(w0, Next(w0, start), start.window, w0.nextId, steps, w);
  }

  /** Awaits a refresh has left. */
  function Remaining(f: Flight): nat {
    match f.pc
    case Reading => 11
    case Posting(_) => if |f.sent| <= 1 then 10 else 8
    case Checking(_) => if |f.sent| <= 1 then 7 else 6
    case Storing(_, _) => 3
    case Rotated(_) => 2
    case Rereading(_) => 9
    case DeletingRefresh => 4
    case DeletingAccount => 3
    case DeletingAccess => 2
    case Settled(_) => 1
  }

  /** Until it is over, some answered step of its own is due, and brings it nearer its end. */
  lemma AlwaysGoesOn(w: World, id: nat) returns (s: Step)
    requires At(w, id) && FlightOk(w.flights[id])
    ensures Enabled(w, s) && OwnAnswered(s)
    ensures id in Next(w, s).flights ==> Remaining(Next(w, s).flights[id]) < Remaining(w.flights[id])
  {
    match w.flights[id].pc
    case Reading => s := ReadDone(id);
    case Posting(_) => s := Present(id, true);
    case Checking(_) => s := Issue(id);
    case Storing(_, _) => s := StoreDone(id);
    case Rotated(_) => s := Resume(id);
    case Rereading(_) => s := RereadDone(id);
    case Settled(_) => s := Finally(id);
    case _ => s := DeleteDone(id);
  }

  // ---- in touch -------------------------------------------------------------

  /**
   * Every window is signed in, the stored secret is of a living family, and it is
   * live but while one refresh, the only one under way, replaces it.
   */
  ghost predicate InTouch(w: World) {
    && (forall v | 0 <= v < |w.windows| :: w.windows[v].account)
    && w.stored.Some? && w.stored.value in w.gateway.records
    && w.gateway.records[w.stored.value].family !in w.gateway.revoked
    && (forall i, j | i in w.flights && j in w.flights && Holding(w.flights[i].pc) && Holding(w.flights[j].pc) :: i == j)
    && (forall i | i in w.flights :: TouchFlight(w, w.flights[i]))
    && (Idle(w) ==> StoredLive(w))
  }

  /** No refresh is between its read and its store. */
  ghost predicate Idle(w: World) { forall i | i in w.flights :: !Holding(w.flights[i].pc) }

  predicate TouchFlight(w: World, f: Flight)
    requires w.stored.Some? && w.stored.value in w.gateway.records
  {
    match f.pc
    case Posting(x) => x == w.stored.value && StoredLive(w)
    case Checking(family) => family == w.gateway.records[w.stored.value].family && !StoredLive(w)
    case Storing(refresh, _) =>
      Live(w.gateway, refresh) && w.gateway.records[refresh].family == w.gateway.records[w.stored.value].family && !StoredLive(w)
    case Rereading(_) => false
    case _ => !Deleting(f.pc)
  }

  /**
   * What loses touch: an overlapping read, a token spent whose successor is not
   * granted, lost or not stored, a stray request of the family, its sign-out, and
   * a new sign-in while a refresh is under way.
   */
  ghost predicate Breaks(w: World, s: Step)
    requires w.stored.Some? && w.stored.value in w.gateway.records
  {
    match s
    case ReadDone(id) => OtherHolds(w, id)
    case Unsure(_) => true
    case Deny(_, _, _) => true
    case Miss(_) => true
    case StrayIn(x) => x in w.gateway.records && w.gateway.records[x].family == w.gateway.records[w.stored.value].family
    case Revoke(f) => f == w.gateway.records[w.stored.value].family
    case SignIn => !Idle(w)
    case _ => false
  }

  /** A start adds a refresh that holds nothing yet. */
  lemma StartAdds(w: World, s: Step)
    requires SingleFlight(w) && Enabled(w, s) && Starts(s)
    ensures var w' := Next(w, s);
      && w'.stored == w.stored && w'.gateway == w.gateway && |w'.windows| == |w.windows|
      && (forall v | 0 <= v < |w.windows| :: w'.windows[v].account == w.windows[v].account)
      && (forall i | i in w.flights :: i in w'.flights && w'.flights[i] == w.flights[i])
      && (forall i | i in w'.flights && i !in w.flights :: w'.flights[i].pc == Reading)
  {
    assert w.nextId !in w.flights;
  }

  lemma StartKeepsTouch(w: World, s: Step)
    requires Sound(w) && InTouch(w) && Enabled(w, s) && Starts(s)
    ensures InTouch(Next(w, s))
  {
    StartAdds(w, s);
    hide Next, Enabled, Sound;
    var w' := Next(w, s);
    assert StoredLive(w') == StoredLive(w);
    forall i | i in w'.flights ensures TouchFlight(w', w'.flights[i]) {
      if i in w.flights { assert TouchFlight(w, w.flights[i]); }
    }
    if Idle(w') { assert Idle(w); }
  }

  lemma ReadTakes(w: World, id: nat)
    requires Enabled(w, ReadDone(id)) && w.stored.Some?
    ensures var w' := Next(w, ReadDone(id));
      && w'.stored == w.stored && w'.gateway == w.gateway && w'.windows == w.windows && w'.flights.Keys == w.flights.Keys
      && (forall k | k in w.flights && k != id :: w'.flights[k] == w.flights[k])
      && w'.flights[id].pc == Posting(w.stored.value)
  {
    hide OtherHolds;
  }

  lemma ReadIffAlone(w: World, id: nat)
    requires Sound(w) && InTouch(w) && Enabled(w, ReadDone(id))
    ensures InTouch(Next(w, ReadDone(id))) <==> !OtherHolds(w, id)
  {
    ReadTakes(w, id);
    assert !Holding(w.flights[id].pc);
    hide Next, Enabled, Sound, Live;
    var w' := Next(w, ReadDone(id));
    if k :| k in w.flights && k != id && Holding(w.flights[k].pc) {
      assert Holding(w'.flights[k].pc) && Holding(w'.flights[id].pc);
    } else {
      assert Idle(w) && StoredLive(w');
      forall i | i in w'.flights ensures TouchFlight(w', w'.flights[i]) {
        if i != id { assert TouchFlight(w, w.flights[i]); }
      }
    }
  }

  /** All but refresh `id` stand where they did, and none of them holds. */
  ghost predicate OnlyMoves(w: World, w': World, id: nat) {
    && w'.flights.Keys == w.flights.Keys
    && (forall k | k in w.flights && k != id :: w'.flights[k] == w.flights[k] && !Holding(w.flights[k].pc))
    && |w'.windows| == |w.windows| && (forall v | 0 <= v < |w.windows| :: w'.windows[v].account == w.windows[v].account)
  }

  lemma HolderMoves(w: World, s: Step)
    requires InTouch(w) && Enabled(w, s) && (s.Present? || s.Issue? || s.NoAnswer? || s.StoreDone?)
    requires s.Present? ==> Live(w.gateway, w.flights[s.id].pc.sent)
    ensures OnlyMoves(w, Next(w, s), s.id)
  {
    assert Holding(w.flights[s.id].pc);
    hide Live, Refusing, Revoking, Spent, Issuing, OtherHolds, TouchFlight;
  }

  /** In touch again, once the one refresh that may hold is seen to be. */
  lemma TouchByOne(w: World, w': World, id: nat)
    requires InTouch(w) && OnlyMoves(w, w', id) && id in w.flights
    requires w'.stored.Some? && w'.stored.value in w'.gateway.records
    requires w'.gateway.records[w'.stored.value].family !in w'.gateway.revoked
    requires TouchFlight(w', w'.flights[id]) && (!Holding(w'.flights[id].pc) ==> StoredLive(w'))
    ensures InTouch(w')
  {
    forall k | k in w'.flights ensures TouchFlight(w', w'.flights[k]) {
      if k != id { assert TouchFlight(w, w.flights[k]) && w'.flights[k] == w.flights[k]; }
    }
  }

  lemma PresentKeepsTouch(w: World, id: nat, heard: bool)
    requires InTouch(w) && Enabled(w, Present(id, heard))
    ensures InTouch(Next(w, Present(id, heard)))
  {
    assert TouchFlight(w, w.flights[id]);
    HolderMoves(w, Present(id, heard));
    TouchByOne(w, Next(w, Present(id, heard)), id);
    hide OnlyMoves, InTouch;
  }

  lemma IssueKeepsTouch(w: World, id: nat)
    requires Sound(w) && InTouch(w) && Enabled(w, Issue(id))
    ensures InTouch(Next(w, Issue(id)))
  {
    assert TouchFlight(w, w.flights[id]);
    assert w.issued + 1 !in w.gateway.records;
    hide Sound;
    HolderMoves(w, Issue(id));
    TouchByOne(w, Next(w, Issue(id)), id);
    hide OnlyMoves, InTouch;
  }

  lemma StoreKeepsTouch(w: World, id: nat)
    requires InTouch(w) && Enabled(w, StoreDone(id))
    ensures InTouch(Next(w, StoreDone(id)))
  {
    assert TouchFlight(w, w.flights[id]);
    HolderMoves(w, StoreDone(id));
    TouchByOne(w, Next(w, StoreDone(id)), id);
    hide OnlyMoves, InTouch;
  }

  lemma NoAnswerKeepsTouch(w: World, id: nat)
    requires InTouch(w) && Enabled(w, NoAnswer(id))
    ensures InTouch(Next(w, NoAnswer(id)))
  {
    assert TouchFlight(w, w.flights[id]);
    HolderMoves(w, NoAnswer(id));
    TouchByOne(w, Next(w, NoAnswer(id)), id);
    hide OnlyMoves, InTouch;
  }

  /** A continuation, or the end of a refresh, changes neither the secret nor the gateway. */
  lemma RestKeepsTouch(w: World, s: Step)
    requires InTouch(w) && Enabled(w, s) && (s.Resume? || s.RereadDone? || s.DeleteDone? || s.Finally?)
    ensures InTouch(Next(w, s))
  {
    assert TouchFlight(w, w.flights[s.id]);
    assert s.Resume? || s.Finally?;
    RestMovesNothing(w, s);
    hide Next, Enabled, TouchFlight;
    if Idle(Next(w, s)) { assert Idle(w); }
  }

  lemma RestMovesNothing(w: World, s: Step)
    requires Enabled(w, s) && (s.Resume? || s.Finally?)
    ensures var w' := Next(w, s);
      && w'.stored == w.stored && w'.gateway == w.gateway && |w'.windows| == |w.windows|
      && (forall v | 0 <= v < |w.windows| :: w'.windows[v].account == w.windows[v].account)
      && (forall k | k in w'.flights :: k in w.flights && (k != s.id ==> w'.flights[k] == w.flights[k]))
      && (forall k | k in w.flights && k != s.id :: k in w'.flights)
      && (s.id in w'.flights ==> w'.flights[s.id].pc.Settled?) && !Holding(w.flights[s.id].pc)
  {
  }

  /** What is left of a refresh whose spent token brought nothing. */
  lemma LossLeaves(w: World, s: Step)
    requires Enabled(w, s) && (s.Unsure? || s.Deny? || s.Miss?)
    ensures var w' := Next(w, s);
      && w'.flights.Keys == w.flights.Keys && (forall k | k in w.flights && k != s.id :: w'.flights[k] == w.flights[k])
      && !Holding(w'.flights[s.id].pc) && w'.stored == w.stored
  {
    hide Revoking;
  }

  lemma LossLives(w: World, s: Step, x: Token)
    requires Enabled(w, s) && (s.Unsure? || s.Deny? || s.Miss?)
    ensures Live(Next(w, s).gateway, x) ==> Live(w.gateway, x)
  {
    EffectIs(w, s);
    hide Next, Enabled;
  }

  /** A token spent for nothing leaves nothing live in the family. */
  lemma LossBreaks(w: World, s: Step)
    requires InTouch(w) && Enabled(w, s) && (s.Unsure? || s.Deny? || s.Miss?)
    ensures !InTouch(Next(w, s))
  {
    assert TouchFlight(w, w.flights[s.id]) && Holding(w.flights[s.id].pc);
    assert !StoredLive(w);
    LossLeaves(w, s);
    LossLives(w, s, w.stored.value);
    hide Next, Enabled, Live;
    assert Idle(Next(w, s)) && !StoredLive(Next(w, s));
  }

  /** Nothing but the gateway's view has changed. */
  ghost predicate SameClients(w: World, w': World) {
    w'.flights == w.flights && w'.windows == w.windows && w'.stored == w.stored
  }

  /** In touch, seen through what the gateway says of each token. */
  lemma SameView(w: World, w': World)
    requires InTouch(w) && SameClients(w, w')
    requires forall x | x in w.gateway.records && w.gateway.records[x].family == w.gateway.records[w.stored.value].family ::
      x in w'.gateway.records && w'.gateway.records[x] == w.gateway.records[x]
    requires w.gateway.records[w.stored.value].family !in w'.gateway.revoked
    ensures InTouch(w')
  {
    assert StoredLive(w') == StoredLive(w);
    forall i | i in w'.flights ensures TouchFlight(w', w'.flights[i]) { assert TouchFlight(w, w.flights[i]); }
    if Idle(w') { assert Idle(w); }
  }

  /** A family that is over is out of touch. */
  lemma OverIsOut(w: World, w': World)
    requires w.stored.Some? && w.stored.value in w.gateway.records && w'.stored == w.stored
    requires w.stored.value in w'.gateway.records ==>
      w'.gateway.records[w.stored.value].family in w'.gateway.revoked
    ensures !InTouch(w')
  {
  }

  lemma RevokeIff(w: World, family: Family)
    requires Sound(w) && InTouch(w) && Enabled(w, Revoke(family))
    ensures InTouch(Next(w, Revoke(family))) <==> !Breaks(w, Revoke(family))
  {
    var w' := Next(w, Revoke(family));
    if family == w.gateway.records[w.stored.value].family { OverIsOut(w, w'); } else { SameView(w, w'); }
    hide InTouch, Sound;
  }

  /** The one live token of the family is the stored one, or the one being stored. */
  lemma StrayIff(w: World, x: Token)
    requires Sound(w) && InTouch(w) && Enabled(w, StrayIn(x))
    ensures InTouch(Next(w, StrayIn(x))) <==> !Breaks(w, StrayIn(x))
  {
    var w', g := Next(w, StrayIn(x)), w.gateway;
    var family := g.records[w.stored.value].family;
    if Breaks(w, StrayIn(x)) {
      if Live(g, x) { SpentIsOut(w, x); } else { OverIsOut(w, w'); }
    } else {
      assert x in g.minted;
      assert forall t | t in g.records && g.records[t].family == family :: t != x;
      assert x in g.records ==> g.records[x].family != family;
      SameView(w, w');
    }
    hide InTouch, Sound;
  }

  /** With the one live token of the family spent from outside, nothing can be in touch. */
  lemma SpentIsOut(w: World, x: Token)
    requires Sound(w) && InTouch(w) && Live(w.gateway, x)
    requires w.gateway.records[x].family == w.gateway.records[w.stored.value].family
    ensures !InTouch(Strayed(w, x))
  {
    var w', g := Strayed(w, x), w.gateway;
    var family := g.records[x].family;
    if Idle(w) {
      assert LiveIn(g, w.stored.value, family) && LiveIn(g, x, family);
      assert x == w.stored.value && Idle(w') && !StoredLive(w');
    } else {
      var i :| i in w.flights && Holding(w.flights[i].pc);
      HolderSpent(w, x, i);
      assert i in w'.flights && w'.flights[i] == w.flights[i] && !TouchFlight(w', w'.flights[i]);
    }
  }

  lemma HolderSpent(w: World, x: Token, i: nat)
    requires Sound(w) && InTouch(w) && Live(w.gateway, x) && i in w.flights && Holding(w.flights[i].pc)
    requires w.gateway.records[x].family == w.gateway.records[w.stored.value].family
    ensures Strayed(w, x).stored == w.stored && w.stored.value in Strayed(w, x).gateway.records
    ensures !TouchFlight(Strayed(w, x), w.flights[i])
  {
    var g, f := w.gateway, w.flights[i];
    var family := g.records[x].family;
    assert TouchFlight(w, f);
    assert LiveIn(g, x, family) && !Due(f, g, family);
    match f.pc
    case Posting(y) => assert LiveIn(g, y, family);
    case Checking(_) =>
    case Storing(refresh, _) => assert LiveIn(g, refresh, family);
  }

  lemma SignInIff(w: World)
    requires Sound(w) && InTouch(w)
    ensures InTouch(Next(w, SignIn)) <==> Idle(w)
  {
    var w', g := Next(w, SignIn), w.gateway;
    assert w.issued + 1 !in g.minted;
    assert StoredLive(w') && w'.flights == w.flights;
    if Idle(w) {
      forall i | i in w'.flights ensures TouchFlight(w', w'.flights[i]) { assert TouchFlight(w, w.flights[i]); }
    } else {
      var i :| i in w.flights && Holding(w.flights[i].pc);
      assert TouchFlight(w, w.flights[i]) && Known(w.flights[i], g);
      assert !TouchFlight(w', w'.flights[i]);
    }
  }

  /** Exactly these steps lose touch. */
  lemma InTouchStep(w: World, s: Step)
    requires Sound(w) && InTouch(w) && Enabled(w, s)
    ensures InTouch(Next(w, s)) <==> !Breaks(w, s)
  {
    hide InTouch, Sound, Next, Idle, OtherHolds;
    match s
    case Call401(_, _) => StartKeepsTouch(w, s);
    case Launch(_) => StartKeepsTouch(w, s);
    case ReadDone(id) => ReadIffAlone(w, id);
    case Present(id, heard) => PresentKeepsTouch(w, id, heard);
    case Issue(id) => IssueKeepsTouch(w, id);
    case Unsure(_) => LossBreaks(w, s);
    case Deny(_, _, _) => LossBreaks(w, s);
    case Miss(_) => LossBreaks(w, s);
    case NoAnswer(id) => NoAnswerKeepsTouch(w, id);
    case StrayIn(x) => StrayIff(w, x);
    case StoreDone(id) => StoreKeepsTouch(w, id);
    case SignIn => SignInIff(w);
    case Revoke(f) => RevokeIff(w, f);
    case _ => RestKeepsTouch(w, s);
  }

  /** A run none of whose steps loses touch. */
  ghost predicate Untroubled(w0: World, steps: seq<Step>, w: World) {
    if steps == [] then w == w0
    else
      var init, s := steps[..|steps| - 1], steps[|steps| - 1];
      exists m :: Untroubled(w0, init, m) && StepTo(m, s, w) && (InTouch(m) ==> !Breaks(m, s))
  }

  lemma InitialInTouch(w0: World, t0: Token)
    requires Initial(w0, t0)
    ensures Sound(w0) && InTouch(w0)
  {
    InitialIsSound(w0, 0, t0);
    assert w0.gateway.records[w0.stored.value] == Record(0, false);
    hide Sound;
  }

  /** Over such a run the windows stay in touch with their family. */
  lemma {:induction false} StaysInTouch(w0: World, steps: seq<Step>, w: World, t0: Token)
    requires Initial(w0, t0) && Untroubled(w0, steps, w)
    ensures Sound(w) && InTouch(w)
    decreases |steps|
  {
    if steps == [] {
      InitialInTouch(w0, t0);
    } else {
      var init, s := steps[..|steps| - 1], steps[|steps| - 1];
      var m :| Untroubled(w0, init, m) && StepTo(m, s, w) && (InTouch(m) ==> !Breaks(m, s));
      StaysInTouch(w0, init, m, t0);
      SoundStep(m, s);
      InTouchStep(m, s);
      hide Next, Enabled, Sound, InTouch, Breaks;
    }
  }

  // ---- overlapping refreshes ------------------------------------------------

  /** Nothing is lost, given up, denied or signed out, and nobody signs in anew. */
  predicate Lossless(s: Step) {
    !(s.Unsure? || s.Deny? || s.Miss? || s.NoAnswer? || s.StrayIn? || s.SignIn? || s.Revoke?) && (s.Present? ==> s.heard)
  }

  ghost predicate AllLossless(steps: seq<Step>) { forall s | s in steps :: Lossless(s) }

  ghost predicate NoneUnderway(w: World) { forall i | i in w.flights :: !w.flights[i].pc.Posting? }

  /** A request with a spent token is under way. */
  ghost predicate SpentPosted(w: World, i: nat) {
    i in w.flights && w.flights[i].pc.Posting?
    && w.flights[i].pc.sent in w.gateway.records && w.gateway.records[w.flights[i].pc.sent].used
  }

  /** Two requests with one token are under way. */
  ghost predicate TwicePosted(w: World, i: nat, j: nat) {
    i in w.flights && j in w.flights && i != j && w.flights[i].pc.Posting? && w.flights[j].pc == w.flights[i].pc
  }

  /** The family is over, or a request under way will end it. */
  ghost predicate Doomed(w: World) {
    0 in w.gateway.revoked || (exists i :: SpentPosted(w, i)) || (exists i, j :: TwicePosted(w, i, j))
  }

  lemma OverlapDooms(w: World, id: nat)
    requires Sound(w) && InTouch(w) && Enabled(w, ReadDone(id)) && OtherHolds(w, id)
    ensures Doomed(Next(w, ReadDone(id)))
  {
    var w' := Next(w, ReadDone(id));
    var k :| k in w.flights && k != id && Holding(w.flights[k].pc);
    assert TouchFlight(w, w.flights[k]) && w'.flights[k] == w.flights[k];
    assert w'.flights[id].pc == Posting(w.stored.value);
    if w.flights[k].pc.Posting? { assert TwicePosted(w', id, k); } else { assert SpentPosted(w', id); }
  }

  /** Without losses a step touches the gateway only by presenting or issuing. */
  lemma LosslessEffects(w: World, s: Step)
    requires Enabled(w, s) && Lossless(s)
    ensures var e := EffectOf(w, s);
      && (e.Spend? || e.Revokes? ==> s.Present? && e == PresentEffect(w.gateway, w.flights[s.id].pc.sent))
      && (e.Issues? ==> s.Issue?)
  {
  }

  lemma RevokedStays(w: World, s: Step)
    requires Enabled(w, s) && 0 in w.gateway.revoked
    ensures 0 in Next(w, s).gateway.revoked
  {
    RevokedGrow(w, s, 0);
    hide Next, Enabled;
  }

  /** A spent token stays spent, or its family goes. */
  lemma StaysSpent(w: World, s: Step, x: Token)
    requires BooksOk(w) && w.nextFamily == 1 && Enabled(w, s) && Lossless(s)
    requires x in w.gateway.records && w.gateway.records[x].used
    ensures 0 in Next(w, s).gateway.revoked || (x in Next(w, s).gateway.records && Next(w, s).gateway.records[x].used)
  {
    LosslessEffects(w, s);
    EffectIs(w, s);
    var e := EffectOf(w, s);
    assert e.Spend? ==> Live(w.gateway, e.x);
    assert e.Revokes? ==> e.family == 0 by { if e.Revokes? { assert e.family < w.nextFamily; } }
    assert e.Issues? ==> x != w.issued + 1;
    hide Next, Enabled, EffectOf, BooksOk;
  }

  /** A request under way stays so until it reaches the gateway. */
  lemma StaysUnderway(w: World, s: Step, i: nat)
    requires SingleFlight(w) && Enabled(w, s) && Lossless(s) && i in w.flights && w.flights[i].pc.Posting? && !(s.Present? && s.id == i)
    ensures i in Next(w, s).flights && Next(w, s).flights[i] == w.flights[i]
  {
    if s.Finally? { EndedIsGone(w, s); assert s.id != i; } else if !Starts(s) { MostKeepFlights(w, s); }
    assert Starts(s) ==> i in Next(w, s).flights;
    assert Within(s) ==> s.id != i;
    if Starts(s) { StartsAfresh(w, s, i); } else { OneFlightMoves(w, s, i); }
    hide Next, Enabled, SingleFlight;
  }

  /** A spent token that reaches the gateway ends the family. */
  lemma SpentEnds(w: World, i: nat)
    requires BooksOk(w) && w.nextFamily == 1 && SpentPosted(w, i) && Enabled(w, Present(i, true))
    ensures 0 in Next(w, Present(i, true)).gateway.revoked
  {
    EffectIs(w, Present(i, true));
    var x := w.flights[i].pc.sent;
    assert w.gateway.records[x].family == 0 by { assert w.gateway.minted[x] < w.nextFamily; }
    hide Next, BooksOk;
  }

  lemma SpentStep(w: World, s: Step, i: nat)
    requires Sound(w) && w.nextFamily == 1 && Enabled(w, s) && Lossless(s) && SpentPosted(w, i)
    ensures Doomed(Next(w, s))
  {
    if s.Present? && s.id == i {
      SpentEnds(w, i);
    } else {
      StaysUnderway(w, s, i);
      StaysSpent(w, s, w.flights[i].pc.sent);
      assert 0 in Next(w, s).gateway.revoked || SpentPosted(Next(w, s), i);
    }
    hide Next, Enabled, Sound;
  }

  /** The first of two requests with one token to arrive leaves the other with a spent one. */
  lemma TwiceStep(w: World, s: Step, i: nat, j: nat)
    requires Sound(w) && w.nextFamily == 1 && Enabled(w, s) && Lossless(s) && TwicePosted(w, i, j)
    ensures Doomed(Next(w, s))
  {
    if s.Present? && (s.id == i || s.id == j) {
      var other := if s.id == i then j else i;
      StaysUnderway(w, s, other);
      FirstOfTwo(w, s.id, other);
    } else {
      StaysUnderway(w, s, i);
      StaysUnderway(w, s, j);
      assert TwicePosted(Next(w, s), i, j);
    }
    hide Next, Enabled, Sound;
  }

  lemma FirstOfTwo(w: World, i: nat, j: nat)
    requires Sound(w) && w.nextFamily == 1 && TwicePosted(w, i, j) && Enabled(w, Present(i, true))
    requires j in Next(w, Present(i, true)).flights && Next(w, Present(i, true)).flights[j] == w.flights[j]
    ensures Doomed(Next(w, Present(i, true)))
  {
    var w', x, g := Next(w, Present(i, true)), w.flights[i].pc.sent, w.gateway;
    assert Known(w.flights[i], g) && FlightOk(w.flights[i]);
    assert x in g.minted && g.minted[x] == 0;
    EffectIs(w, Present(i, true));
    assert 0 in g.revoked ==> 0 in w'.gateway.revoked by { RevokedGrow(w, Present(i, true), 0); }
    if Live(g, x) { assert SpentPosted(w', j); }
    hide Next, Enabled, Sound, SingleFlight;
  }

  lemma DoomedStep(w: World, s: Step)
    requires Sound(w) && w.nextFamily == 1 && Enabled(w, s) && Lossless(s) && Doomed(w)
    ensures Doomed(Next(w, s))
  {
    if 0 in w.gateway.revoked { RevokedStays(w, s); }
    else if i :| SpentPosted(w, i) { SpentStep(w, s, i); }
    else {
      var i, j :| TwicePosted(w, i, j);
      TwiceStep(w, s, i, j);
    }
    hide Next, Enabled, Sound;
  }

  lemma OverlapCount(w: World, s: Step)
    requires Enabled(w, s)
    ensures Next(w, s).overlaps == w.overlaps + if s.ReadDone? && w.stored.Some? && OtherHolds(w, s.id) then 1 else 0
  {
    hide Live, Refusing, Revoking, Spent, Issuing, OtherHolds;
  }

  /** In touch while no two refreshes have overlapped; doomed once two have. */
  ghost predicate ByOverlaps(w: World) {
    Sound(w) && w.nextFamily == 1 && if w.overlaps == 0 then InTouch(w) else Doomed(w)
  }

  lemma ByOverlapsStep(w: World, s: Step)
    requires ByOverlaps(w) && Enabled(w, s) && Lossless(s)
    ensures ByOverlaps(Next(w, s))
  {
    SoundStep(w, s);
    OverlapCount(w, s);
    Counters(w, s);
    hide Next, Enabled, Sound, Doomed;
    if w.overlaps > 0 {
      DoomedStep(w, s);
    } else if s.ReadDone? && OtherHolds(w, s.id) {
      OverlapDooms(w, s.id);
    } else {
      InTouchStep(w, s);
    }
    hide InTouch;
  }

  /**
   * While nothing is lost, any number of windows end their family if and only if
   * two of their refreshes have overlapped: one read the secret while another was
   * between its own read and its store. Until then every window stays signed in;
   * afterwards nothing live is left.
   */
  lemma {:induction false} OverlapEndsFamily(w0: World, steps: seq<Step>, w: World, t0: Token)
    requires Initial(w0, t0) && LeadsTo(w0, steps, w) && AllLossless(steps)
    ensures ByOverlaps(w)
    ensures w.overlaps == 0 ==> InTouch(w) && 0 !in w.gateway.revoked
    ensures NoneUnderway(w) ==> (0 in w.gateway.revoked <==> w.overlaps > 0)
    ensures NoneUnderway(w) && w.overlaps > 0 ==> !StoredLive(w)
    decreases |steps|
  {
    if steps == [] {
      InitialInTouch(w0, t0);
    } else {
      var init, s := steps[..|steps| - 1], steps[|steps| - 1];
      var m :| LeadsTo(w0, init, m) && StepTo(m, s, w);
      assert steps == init + [s] && s in steps;
      OverlapEndsFamily(w0, init, m, t0);
      ByOverlapsStep(m, s);
    }
    OnlyFamily(w);
    hide LeadsTo, Next, Enabled, Sound, InTouch;
  }

  lemma OnlyFamily(w: World)
    requires ByOverlaps(w)
    ensures InTouch(w) ==> 0 !in w.gateway.revoked
    ensures 0 in w.gateway.revoked ==> !StoredLive(w)
    ensures NoneUnderway(w) && w.overlaps > 0 ==> 0 in w.gateway.revoked
  {
    assert forall x | x in w.gateway.records :: w.gateway.records[x].family == 0 by {
      assert forall x | x in w.gateway.records :: x in w.gateway.minted && w.gateway.minted[x] < w.nextFamily;
    }
    if w.overlaps > 0 && NoneUnderway(w) {
      assert forall i :: !SpentPosted(w, i);
      assert forall i, j :: !TwicePosted(w, i, j);
    }
  }
}
