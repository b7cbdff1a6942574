// Token refresh in several windows that share one stored secret, as a state
// machine over the await points of each refresh and the gateway's own: between
// any two steps of one refresh any other window, caller or request may act.
module Auth {
  import opened Text

  type Token = nat
  type Family = nat

  // ---- the gateway ----------------------------------------------------------

  datatype Record = Record(family: Family, used: bool)

  /** `records` are the refresh tokens the gateway knows; `minted` the family of every one it ever issued. */
  datatype Gateway = Gateway(records: map<Token, Record>, revoked: set<Family>, minted: map<Token, Family>)

  /** The gateway would spend this token: known, of a living family, not used before. */
  predicate Live(g: Gateway, x: Token) {
    x in g.records && g.records[x].family !in g.revoked && !g.records[x].used
  }

  function Spent(g: Gateway, x: Token): Gateway
    requires x in g.records
  {
    g.(records := g.records[x := g.records[x].(used := true)])
  }

  /** The family is over, and its tokens forgotten. */
  function Revoking(g: Gateway, f: Family): Gateway {
    g.(revoked := g.revoked + {f}, records := map t | t in g.records && g.records[t].family != f :: g.records[t])
  }

  /** A refused token that was used before ends its family. */
  function Refusing(g: Gateway, x: Token): Gateway {
    if x in g.records && g.records[x].family !in g.revoked && g.records[x].used then Revoking(g, g.records[x].family) else g
  }

  /** A successor is issued, whatever has become of the family meanwhile. */
  function Issuing(g: Gateway, f: Family, x: Token): Gateway {
    g.(records := g.records[x := Record(f, false)], minted := g.minted[x := f])
  }

  // ---- windows and refreshes ------------------------------------------------

  /** Where one refresh stands. Each constructor is an await, or the settled promise. */
  datatype Pc =
    | Reading                                   // secrets.get
    | Posting(sent: Token)                      // the request, not yet at the gateway
    | Checking(family: Family)                  // the token is spent, the account being re-checked
    | Storing(refresh: Token, access: Token)    // the answer and secrets.store of the rotated token
    | Rotated(access: Token)                    // the store is done, its continuation not yet run
    | Rereading(spent: Token)                   // secrets.get after a rejection
    | DeletingRefresh | DeletingAccount | DeletingAccess
    | Settled(result: Option<Token>)

  datatype Reply = Accepted | Rejected | Unreachable

  /** `sent` and `replies` are this refresh's requests and what came of them. */
  datatype Flight = Flight(window: nat, by401: bool, pc: Pc, sent: seq<Token>, replies: seq<Reply>)

  /** `refreshing` is the window's shared promise. */
  datatype Window = Window(account: bool, access: Option<Token>, refreshing: Option<nat>, launches: nat, wins: nat, wins401: nat)

  /**
   * `flights` are the refreshes actually running, in any window; `stored` the
   * secret all windows share; `strays` the requests given up for lost that may
   * arrive yet. `overlaps` counts the reads of the secret made while another
   * refresh was between its own read and its store.
   */
  datatype World = World(
    windows: seq<Window>, flights: map<nat, Flight>, nextId: nat, stored: Option<Token>,
    gateway: Gateway, nextFamily: Family, issued: nat, strays: set<Token>, overlaps: nat)

  datatype Step =
    | Call401(window: nat, used: Token)    // refreshAfter401, past its first await
    | Launch(window: nat)                  // a refresh for another reason: expiry or the proactive timer
    | ReadDone(id: nat)
    | Present(id: nat, heard: bool)        // the request reaches the gateway; a refusal may be lost on its way back
    | Issue(id: nat)                       // the account is in order
    | Unsure(id: nat)                      // the re-check could not be made, or its answer was lost
    | Deny(id: nat, ends: bool, heard: bool)  // the re-check failed; an inactive account ends the family
    | Miss(id: nat)                        // the rotated token was lost on its way, or could not be stored
    | NoAnswer(id: nat)                    // the request is given up for lost
    | StrayIn(x: Token)                    // and arrives all the same
    | StoreDone(id: nat)
    | Resume(id: nat)
    | RereadDone(id: nat)
    | DeleteDone(id: nat)
    | Finally(id: nat)
    | SignIn                               // a new sign-in, in a new family, is stored
    | Revoke(family: Family)               // a sign-out reaches the gateway

  // ---- transitions ----------------------------------------------------------

  predicate At(w: World, id: nat) { id in w.flights && w.flights[id].window < |w.windows| }

  function Moved(w: World, id: nat, pc: Pc): World
    requires At(w, id)
  {
    w.(flights := w.flights[id := w.flights[id].(pc := pc)])
  }

  function Replied(w: World, id: nat, reply: Reply, pc: Pc): World
    requires At(w, id)
  {
    w.(flights := w.flights[id := w.flights[id].(pc := pc, replies := w.flights[id].replies + [reply])])
  }

  function Post(w: World, id: nat, sent: Token): World
    requires At(w, id)
  {
    w.(flights := w.flights[id := w.flights[id].(pc := Posting(sent), sent := w.flights[id].sent + [sent])])
  }

  function Owner(w: World, id: nat): Window
    requires At(w, id)
  {
    w.windows[w.flights[id].window]
  }

  function WithOwner(w: World, id: nat, window: Window): World
    requires At(w, id)
  {
    w.(windows := w.windows[w.flights[id].window := window])
  }

  /** `forget`: the fields go at once, the secrets one await at a time. */
  function Forget(w: World, id: nat): World
    requires At(w, id)
  {
    Moved(WithOwner(w, id, Owner(w, id).(account := false, access := None)), id, DeletingRefresh)
  }

  /** A failed attempt that proves nothing: keep everything, return the access token still held. */
  function GivenUp(w: World, id: nat): World
    requires At(w, id)
  {
    Replied(w, id, Unreachable, Settled(Owner(w, id).access))
  }

  /** A rejection: re-read after the first, forget after the second. */
  function TurnedDown(w: World, id: nat): World
    requires At(w, id)
  {
    if |w.flights[id].sent| == 1 then Replied(w, id, Rejected, Rereading(w.flights[id].sent[0]))
    else Forget(Replied(w, id, Rejected, DeletingRefresh), id)
  }

  /** `refresh`: join the refresh in flight, or start one. */
  function Refresh(w: World, v: nat, by401: bool): World
    requires v < |w.windows|
  {
    if w.windows[v].refreshing.Some? then w
    else w.(windows := w.windows[v := w.windows[v].(refreshing := Some(w.nextId), launches := w.windows[v].launches + if by401 then 0 else 1)],
            nextId := w.nextId + 1, flights := w.flights[w.nextId := Flight(v, by401, Reading, [], [])])
  }

  /** Between its read of the secret and its store of the successor. */
  predicate Holding(pc: Pc) { pc.Posting? || pc.Checking? || pc.Storing? }

  ghost predicate OtherHolds(w: World, id: nat) { exists k :: k in w.flights && k != id && Holding(w.flights[k].pc) }

  ghost predicate Enabled(w: World, s: Step) {
    match s
    case Call401(v, _) => v < |w.windows|
    case Launch(v) => v < |w.windows| && w.windows[v].account
    case ReadDone(id) => At(w, id) && w.flights[id].pc.Reading?
    case Present(id, _) => At(w, id) && w.flights[id].pc.Posting?
    case Issue(id) => At(w, id) && w.flights[id].pc.Checking?
    case Unsure(id) => At(w, id) && w.flights[id].pc.Checking?
    case Deny(id, _, _) => At(w, id) && w.flights[id].pc.Checking?
    case Miss(id) => At(w, id) && w.flights[id].pc.Storing?
    case NoAnswer(id) => At(w, id) && w.flights[id].pc.Posting?
    case StrayIn(x) => x in w.strays
    case StoreDone(id) => At(w, id) && w.flights[id].pc.Storing?
    case Resume(id) => At(w, id) && w.flights[id].pc.Rotated?
    case RereadDone(id) => At(w, id) && w.flights[id].pc.Rereading?
    case DeleteDone(id) => At(w, id) && Deleting(w.flights[id].pc)
    case Finally(id) => At(w, id) && w.flights[id].pc.Settled?
    case SignIn => true
    case Revoke(f) => f < w.nextFamily
  }

  function Called(w: World, v: nat, used: Token): World
    requires v < |w.windows|
  {
    var window := w.windows[v];
    if !window.account || (window.access.Some? && window.access.value != used) then w
    else Refresh(w.(windows := w.windows[v := window.(access := None)]), v, true)
  }

  ghost function Read(w: World, id: nat): World
    requires At(w, id)
  {
    if w.stored.None? then Forget(w, id)
    else Post(w, id, w.stored.value).(overlaps := w.overlaps + if OtherHolds(w, id) then 1 else 0)
  }

  function Presented(w: World, id: nat, heard: bool): World
    requires At(w, id) && w.flights[id].pc.Posting?
  {
    var x, g := w.flights[id].pc.sent, w.gateway;
    if Live(g, x) then Moved(w.(gateway := Spent(g, x)), id, Checking(g.records[x].family))
    else
      var refused := w.(gateway := Refusing(g, x));
      if heard then TurnedDown(refused, id) else GivenUp(refused, id)
  }

  function Granted(w: World, id: nat): World
    requires At(w, id) && w.flights[id].pc.Checking?
  {
    Replied(w.(gateway := Issuing(w.gateway, w.flights[id].pc.family, w.issued + 1), issued := w.issued + 2),
            id, Accepted, Storing(w.issued + 1, w.issued + 2))
  }

  function Denied(w: World, id: nat, ends: bool, heard: bool): World
    requires At(w, id) && w.flights[id].pc.Checking?
  {
    var w' := if ends then w.(gateway := Revoking(w.gateway, w.flights[id].pc.family)) else w;
    if heard then TurnedDown(w', id) else GivenUp(w', id)
  }

  /** The rotated token could not be kept; the reply was an acceptance all the same. */
  function Missed(w: World, id: nat): World
    requires At(w, id)
  {
    Moved(w, id, Settled(Owner(w, id).access))
  }

  /** A request nobody waits for: what it is granted reaches nobody. */
  function Strayed(w: World, x: Token): World {
    w.(strays := w.strays - {x}, gateway := if Live(w.gateway, x) then Spent(w.gateway, x) else Refusing(w.gateway, x))
  }

  function Won(w: World, id: nat): World
    requires At(w, id) && w.flights[id].pc.Rotated?
  {
    var f, owner := w.flights[id], Owner(w, id);
    Moved(WithOwner(w, id, owner.(access := Some(f.pc.access), wins := owner.wins + 1, wins401 := owner.wins401 + if f.by401 then 1 else 0)),
          id, Settled(Some(f.pc.access)))
  }

  function Reread(w: World, id: nat): World
    requires At(w, id) && w.flights[id].pc.Rereading?
  {
    if w.stored.Some? && w.stored.value != w.flights[id].pc.spent then Post(w, id, w.stored.value) else Forget(w, id)
  }

  function Deleted(w: World, id: nat): World
    requires At(w, id)
  {
    match w.flights[id].pc
    case DeletingRefresh => Moved(w.(stored := None), id, DeletingAccount)
    case DeletingAccount => Moved(w, id, DeletingAccess)
    case _ => Moved(w, id, Settled(None))
  }

  function Ended(w: World, id: nat): World
    requires At(w, id)
  {
    WithOwner(w, id, Owner(w, id).(refreshing := None)).(flights := w.flights - {id})
  }

  function SignedIn(w: World): World {
    w.(stored := Some(w.issued + 1), gateway := Issuing(w.gateway, w.nextFamily, w.issued + 1),
       issued := w.issued + 1, nextFamily := w.nextFamily + 1)
  }

  ghost function Next(w: World, s: Step): World
    requires Enabled(w, s)
  {
    match s
    case Call401(v, used) => Called(w, v, used)
    case Launch(v) => Refresh(w, v, false)
    case ReadDone(id) => Read(w, id)
    case Present(id, heard) => Presented(w, id, heard)
    case Issue(id) => Granted(w, id)
    case Unsure(id) => GivenUp(w, id)
    case Deny(id, ends, heard) => Denied(w, id, ends, heard)
    case Miss(id) => Missed(w, id)
    case NoAnswer(id) => GivenUp(w.(strays := w.strays + {w.flights[id].pc.sent}), id)
    case StrayIn(x) => Strayed(w, x)
    case StoreDone(id) =>
      Moved(w.(stored := Some(w.flights[id].pc.refresh)), id, Rotated(w.flights[id].pc.access))
    case Resume(id) => Won(w, id)
    case RereadDone(id) => Reread(w, id)
    case DeleteDone(id) => Deleted(w, id)
    case Finally(id) => Ended(w, id)
    case SignIn => SignedIn(w)
    case Revoke(f) => w.(gateway := Revoking(w.gateway, f))
  }

  predicate Deleting(pc: Pc) { pc.DeletingRefresh? || pc.DeletingAccount? || pc.DeletingAccess? }

  /**
   * Windows signed in to one family, whose live token is the stored one. `t0` is
   * the access token the callers of one window carry.
   */
  ghost predicate Initial(w: World, t0: Token) {
    && (forall v | 0 <= v < |w.windows| ::
          var x := w.windows[v];
          x.account && x.refreshing == None && x.launches == x.wins == x.wins401 == 0 && (x.access.Some? ==> x.access.value <= w.issued))
    && w.flights == map[] && w.strays == {} && w.overlaps == 0 && t0 <= w.issued
    && w.stored.Some? && w.stored.value <= w.issued
    && w.gateway == Gateway(map[w.stored.value := Record(0, false)], {}, map[w.stored.value := 0]) && w.nextFamily == 1
  }

  ghost predicate StepTo(w: World, s: Step, w': World) { Enabled(w, s) && w' == Next(w, s) }

  ghost predicate LeadsTo(w0: World, steps: seq<Step>, w: World) {
    if steps == [] then w == w0
    else
      var init, s := steps[..|steps| - 1], steps[|steps| - 1];
      exists m :: LeadsTo(w0, init, m) && StepTo(m, s, w)
  }

  // ---- single flight --------------------------------------------------------

  /** Promises and running refreshes agree, so no window ever has a second one. */
  ghost predicate SingleFlight(w: World) {
    && (forall id | id in w.flights :: id < w.nextId && Owned(w, id))
    && (forall v | 0 <= v < |w.windows| && w.windows[v].refreshing.Some? ::
          w.windows[v].refreshing.value in w.flights && w.flights[w.windows[v].refreshing.value].window == v)
  }

  ghost predicate Owned(w: World, id: nat)
    requires id in w.flights
  {
    At(w, id) && Owner(w, id).refreshing == Some(id)
  }

  predicate Starts(s: Step) { s.Call401? || s.Launch? }

  /** The same refreshes run, each in its window. */
  ghost predicate SameFlights(w: World, w': World) {
    && |w'.windows| == |w.windows| && (forall v | 0 <= v < |w.windows| :: w'.windows[v].refreshing == w.windows[v].refreshing)
    && w'.flights.Keys == w.flights.Keys && (forall id | id in w.flights :: w'.flights[id].window == w.flights[id].window)
    && w'.nextId == w.nextId
  }

  /** Only starting and finishing change which refreshes run. */
  lemma MostKeepFlights(w: World, s: Step)
    requires Enabled(w, s) && !Starts(s) && !s.Finally?
    ensures SameFlights(w, Next(w, s))
  {
    hide Next, SameFlights;
    if s.Present? || s.Deny? || s.Unsure? || s.NoAnswer? { AnswersKeepFlights(w, s); } else { RestKeepFlights(w, s); }
  }

  lemma AnswersKeepFlights(w: World, s: Step)
    requires Enabled(w, s) && (s.Present? || s.Deny? || s.Unsure? || s.NoAnswer?)
    ensures SameFlights(w, Next(w, s))
  {
    hide Live, Refusing, Revoking, Spent;
  }

  lemma RestKeepFlights(w: World, s: Step)
    requires Enabled(w, s) && !Starts(s) && !s.Finally? && !s.Present? && !s.Deny? && !s.Unsure? && !s.NoAnswer?
    ensures SameFlights(w, Next(w, s))
  {
    hide Live, Refusing, Revoking, Spent, Issuing, OtherHolds;
  }

  lemma KeptSingle(w: World, w': World)
    requires SingleFlight(w) && SameFlights(w, w')
    ensures SingleFlight(w')
  {
    forall id | id in w'.flights ensures id < w'.nextId && Owned(w', id) {
      assert id in w.flights && Owned(w, id);
    }
  }

  lemma StartKeepsSingle(w: World, v: nat, by401: bool)
    requires SingleFlight(w) && v < |w.windows|
    ensures SingleFlight(Refresh(w, v, by401))
  {
    var w' := Refresh(w, v, by401);
    forall id | id in w'.flights ensures id < w'.nextId && Owned(w', id) {
      if id in w.flights { assert Owned(w, id); }
    }
  }

  lemma FinishKeepsSingle(w: World, id: nat)
    requires SingleFlight(w) && At(w, id)
    ensures SingleFlight(Ended(w, id))
  {
    assert Owned(w, id);
    var w' := Ended(w, id);
    forall k | k in w'.flights ensures k < w'.nextId && Owned(w', k) { assert Owned(w, k); }
  }

  lemma SingleFlightStep(w: World, s: Step)
    requires SingleFlight(w) && Enabled(w, s)
    ensures SingleFlight(Next(w, s))
  {
    match s
    case Call401(v, used) =>
      var w1 := w.(windows := w.windows[v := w.windows[v].(access := None)]);
      KeptSingle(w, w1);
      StartKeepsSingle(w1, v, true);
      hide SingleFlight;
    case Launch(v) => StartKeepsSingle(w, v, false);
    case Finally(id) => FinishKeepsSingle(w, id);
    case _ =>
      MostKeepFlights(w, s);
      KeptSingle(w, Next(w, s));
      hide Next, SingleFlight;
  }

  // ---- what a refresh may be doing ------------------------------------------

  /** What the replies so far allow a refresh to be doing. */
  ghost predicate FlightOk(f: Flight) {
    && |f.sent| <= 2 && |f.replies| == |f.sent| - (if f.pc.Posting? || f.pc.Checking? then 1 else 0)
    && (f.pc.Reading? ==> f.sent == [])
    && (f.pc.Posting? ==> f.sent != [] && f.sent[|f.sent| - 1] == f.pc.sent)
    && (f.pc.Checking? ==> f.sent != [])
    && (f.pc.Posting? || f.pc.Checking? ==> forall r | r in f.replies :: r == Rejected)
    && (f.pc.Rereading? ==> f.replies == [Rejected] && f.sent == [f.pc.spent])
    && (Deleting(f.pc) ==> forall r | r in f.replies :: r == Rejected)
    && (f.pc.Storing? || f.pc.Rotated? ==> f.replies != [] && f.replies[|f.replies| - 1] == Accepted)
    && (|f.sent| == 2 ==> f.replies[0] == Rejected)
  }

  ghost predicate FlightsOk(w: World) { forall id | id in w.flights :: FlightOk(w.flights[id]) }

  /** The step is one of a refresh under way. */
  predicate Within(s: Step) { !Starts(s) && !s.StrayIn? && !s.SignIn? && !s.Revoke? }

  /** What a step does to the refresh it is a step of, and to no other. */
  lemma OneFlightMoves(w: World, s: Step, id: nat)
    requires Enabled(w, s) && id in w.flights && id in Next(w, s).flights && !Starts(s) && !(Within(s) && s.id == id)
    ensures Next(w, s).flights[id] == w.flights[id]
  {
    hide Live, Refusing, Revoking, Spent, Issuing, OtherHolds;
  }

  lemma StartsAfresh(w: World, s: Step, id: nat)
    requires Enabled(w, s) && Starts(s) && SingleFlight(w) && id in Next(w, s).flights
    ensures if id in w.flights then Next(w, s).flights[id] == w.flights[id]
            else id == w.nextId && Next(w, s).flights[id] == Flight(s.window, s.Call401?, Reading, [], [])
  {
  }

  lemma TurnedDownOk(w: World, id: nat)
    requires At(w, id) && FlightOk(w.flights[id]) && (w.flights[id].pc.Posting? || w.flights[id].pc.Checking?)
    ensures At(TurnedDown(w, id), id) && FlightOk(TurnedDown(w, id).flights[id])
  {
    assert |w.flights[id].sent| == 1 ==> w.flights[id].sent == [w.flights[id].sent[0]];
  }

  lemma GivenUpOk(w: World, id: nat)
    requires At(w, id) && FlightOk(w.flights[id]) && (w.flights[id].pc.Posting? || w.flights[id].pc.Checking?)
    ensures At(GivenUp(w, id), id) && FlightOk(GivenUp(w, id).flights[id])
  {
  }

  lemma PostOk(w: World, id: nat, x: Token)
    requires At(w, id) && FlightOk(w.flights[id]) && (w.flights[id].pc.Reading? || w.flights[id].pc.Rereading?)
    ensures At(Post(w, id, x), id) && FlightOk(Post(w, id, x).flights[id])
  {
  }

  lemma ForgetOk(w: World, id: nat)
    requires At(w, id) && FlightOk(w.flights[id]) && (w.flights[id].pc.Reading? || w.flights[id].pc.Rereading?)
    ensures At(Forget(w, id), id) && FlightOk(Forget(w, id).flights[id])
  {
  }

  /** The refresh a step is one of, afterwards. */
  lemma FlightMoves(w: World, s: Step)
    requires Enabled(w, s) && Within(s) && !s.Finally?
    requires FlightOk(w.flights[s.id])
    ensures s.id in Next(w, s).flights && FlightOk(Next(w, s).flights[s.id])
  {
    if s.Present? || s.Deny? || s.Unsure? || s.NoAnswer? { RequestMoves(w, s); }
    else if s.ReadDone? || s.RereadDone? { ReadMoves(w, s); }
    else { RestMoves(w, s); }
    hide Next, FlightOk;
  }

  lemma RequestMoves(w: World, s: Step)
    requires Enabled(w, s) && (s.Present? || s.Deny? || s.Unsure? || s.NoAnswer?)
    requires FlightOk(w.flights[s.id])
    ensures s.id in Next(w, s).flights && FlightOk(Next(w, s).flights[s.id])
  {
    hide Live, Refusing, Revoking, Spent, TurnedDown, GivenUp;
    match s
    case Present(id, heard) =>
      var refused := w.(gateway := Refusing(w.gateway, w.flights[id].pc.sent));
      TurnedDownOk(refused, id);
      GivenUpOk(refused, id);
    case Deny(id, ends, heard) =>
      var w' := if ends then w.(gateway := Revoking(w.gateway, w.flights[id].pc.family)) else w;
      TurnedDownOk(w', id);
      GivenUpOk(w', id);
    case Unsure(id) => GivenUpOk(w, id);
    case NoAnswer(id) => GivenUpOk(w.(strays := w.strays + {w.flights[id].pc.sent}), id);
  }

  lemma ReadMoves(w: World, s: Step)
    requires Enabled(w, s) && (s.ReadDone? || s.RereadDone?)
    requires FlightOk(w.flights[s.id])
    ensures s.id in Next(w, s).flights && FlightOk(Next(w, s).flights[s.id])
  {
    hide Post, Forget, OtherHolds, FlightOk;
    ForgetOk(w, s.id);
    if w.stored.Some? { PostOk(w, s.id, w.stored.value); }
  }

  lemma RestMoves(w: World, s: Step)
    requires Enabled(w, s) && (s.Issue? || s.Miss? || s.StoreDone? || s.Resume? || s.DeleteDone?)
    requires FlightOk(w.flights[s.id])
    ensures s.id in Next(w, s).flights && FlightOk(Next(w, s).flights[s.id])
  {
  }

  lemma FlightsStep(w: World, s: Step)
    requires SingleFlight(w) && FlightsOk(w) && Enabled(w, s)
    ensures FlightsOk(Next(w, s))
  {
    if Within(s) && !s.Finally? { FlightMoves(w, s); }
    forall id | id in Next(w, s).flights ensures FlightOk(Next(w, s).flights[id]) {
      if Starts(s) { StartsAfresh(w, s, id); }
      else {
        if s.Finally? { EndedIsGone(w, s); } else { MostKeepFlights(w, s); }
        if !(Within(s) && s.id == id) { OneFlightMoves(w, s, id); }
      }
    }
    hide Next, Enabled, SingleFlight, FlightOk;
  }

  lemma EndedIsGone(w: World, s: Step)
    requires Enabled(w, s) && s.Finally?
    ensures Next(w, s).flights == w.flights - {s.id}
  {
  }

  // ---- at most one rotation for one rejected token ----------------------------

  /** A rotated access token on its way is never the one the callers sent. */
  predicate NewAccess(pc: Pc, t0: Token) {
    (pc.Storing? ==> pc.access > t0) && (pc.Rotated? ==> pc.access > t0)
  }

  ghost predicate TokensOk(w: World, t0: Token) {
    t0 <= w.issued && forall id | id in w.flights :: NewAccess(w.flights[id].pc, t0)
  }

  lemma TokensStep(w: World, s: Step, t0: Token)
    requires SingleFlight(w) && TokensOk(w, t0) && Enabled(w, s)
    ensures TokensOk(Next(w, s), t0)
  {
    IssuedGrows(w, s);
    if Within(s) && !s.Finally? { AccessMoves(w, s, t0); }
    forall id | id in Next(w, s).flights ensures NewAccess(Next(w, s).flights[id].pc, t0) {
      if Starts(s) { StartsAfresh(w, s, id); }
      else {
        if s.Finally? { EndedIsGone(w, s); } else { MostKeepFlights(w, s); }
        if !(Within(s) && s.id == id) { OneFlightMoves(w, s, id); }
      }
    }
    hide Next, Enabled, SingleFlight, NewAccess;
  }

  lemma IssuedGrows(w: World, s: Step)
    requires Enabled(w, s)
    ensures w.issued <= Next(w, s).issued
  {
    hide Live, Refusing, Revoking, Spent, Issuing, OtherHolds;
  }

  lemma AccessMoves(w: World, s: Step, t0: Token)
    requires Enabled(w, s) && Within(s) && !s.Finally? && t0 <= w.issued && NewAccess(w.flights[s.id].pc, t0)
    ensures s.id in Next(w, s).flights && NewAccess(Next(w, s).flights[s.id].pc, t0)
  {
    hide Live, Refusing, Revoking, Spent, Issuing, OtherHolds;
  }

  /** A refresh the 401 path started runs only while nobody has won; any other has a win to spare. */
  ghost predicate WinFlight(f: Flight, account: bool, wins: int, budget: int) {
    && (Deleting(f.pc) ==> !account)
    && (!account ==> Deleting(f.pc) || f.pc.Settled?)
    && (!f.pc.Settled? ==> if f.by401 then wins == 0 else wins < budget)
  }

  predicate WindowOk(x: Window, t0: Token) {
    && x.wins401 <= 1 && x.wins401 <= x.wins <= x.launches + x.wins401
    && (x.wins > 0 && x.account ==> x.access.Some? && x.access.value != t0)
  }

  /** Of the callers in window `v` that all sent `t0`, one at most has won a rotation. */
  ghost predicate WinsOk(w: World, v: nat, t0: Token) {
    && v < |w.windows| && WindowOk(w.windows[v], t0)
    && (forall id | id in w.flights && w.flights[id].window == v :: WinsHere(w, v, id))
  }

  ghost predicate WinsHere(w: World, v: nat, id: nat)
    requires v < |w.windows| && id in w.flights
  {
    WinFlight(w.flights[id], w.windows[v].account, w.windows[v].wins, w.windows[v].launches + w.windows[v].wins401)
  }

  /** The callers of window `v` on the 401 path all sent `t0`. */
  predicate Sent(s: Step, v: nat, t0: Token) { s.Call401? && s.window == v ==> s.used == t0 }

  /** A step of another window, or of none, leaves a window and its refresh alone. */
  lemma OthersLeaveWindow(w: World, s: Step, v: nat)
    requires SingleFlight(w) && Enabled(w, s) && v < |w.windows|
    requires if Starts(s) then s.window != v else Within(s) ==> w.flights[s.id].window != v
    ensures |Next(w, s).windows| == |w.windows| && Next(w, s).windows[v] == w.windows[v]
    ensures forall id | id in Next(w, s).flights && Next(w, s).flights[id].window == v ::
      id in w.flights && Next(w, s).flights[id] == w.flights[id]
  {
    LeavesFields(w, s, v);
    forall id | id in Next(w, s).flights && Next(w, s).flights[id].window == v
      ensures id in w.flights && Next(w, s).flights[id] == w.flights[id]
    {
      if Starts(s) { StartsAfresh(w, s, id); }
      else {
        if s.Finally? { EndedIsGone(w, s); } else { MostKeepFlights(w, s); }
        if !(Within(s) && s.id == id) { OneFlightMoves(w, s, id); }
      }
    }
    hide Next, Enabled, SingleFlight;
  }

  lemma LeavesFields(w: World, s: Step, v: nat)
    requires Enabled(w, s) && v < |w.windows|
    requires if Starts(s) then s.window != v else Within(s) ==> w.flights[s.id].window != v
    ensures |Next(w, s).windows| == |w.windows| && Next(w, s).windows[v] == w.windows[v]
  {
    hide Live, Refusing, Revoking, Spent, Issuing, OtherHolds;
  }

  lemma WinsOfCall(w: World, s: Step, v: nat, t0: Token)
    requires SingleFlight(w) && WinsOk(w, v, t0) && Enabled(w, s) && Sent(s, v, t0) && Starts(s) && s.window == v
    ensures WinsOk(Next(w, s), v, t0)
  {
    var w' := Next(w, s);
    forall id | id in w'.flights && w'.flights[id].window == v ensures WinsHere(w', v, id) {
      if id in w.flights { assert WinsHere(w, v, id) && Owned(w, id); }
    }
  }

  /** The window and its refresh after a step of that refresh. */
  lemma WinsOfMove(w: World, s: Step, v: nat, t0: Token)
    requires Enabled(w, s) && Within(s) && !s.Finally? && w.flights[s.id].window == v && v < |w.windows|
    requires NewAccess(w.flights[s.id].pc, t0) && FlightOk(w.flights[s.id])
    requires WindowOk(w.windows[v], t0)
    requires WinsHere(w, v, s.id)
    ensures v < |Next(w, s).windows| && s.id in Next(w, s).flights
    ensures WindowOk(Next(w, s).windows[v], t0) && WinsHere(Next(w, s), v, s.id)
  {
    hide FlightOk, Next, WinFlight, WindowOk;
    if s.Resume? { WinsOfResume(w, s.id, t0); } else { WinsOfOther(w, s, t0); }
  }

  lemma WinsOfResume(w: World, id: nat, t0: Token)
    requires Enabled(w, Resume(id)) && NewAccess(w.flights[id].pc, t0)
    requires WindowOk(w.windows[w.flights[id].window], t0) && WinsHere(w, w.flights[id].window, id)
    ensures var w', v := Next(w, Resume(id)), w.flights[id].window;
      v < |w'.windows| && id in w'.flights && WindowOk(w'.windows[v], t0) && WinsHere(w', v, id)
  {
  }

  /** A refresh leaves its window alone but to win or to forget. */
  lemma OwnerMoves(w: World, s: Step)
    requires Enabled(w, s) && Within(s) && !s.Finally? && !s.Resume?
    ensures LeavesOrForgets(w, Next(w, s), s.id)
  {
    hide Next, LeavesOrForgets;
    if s.Present? || s.Deny? { AnswerLeaves(w, s); } else { RestLeaves(w, s); }
  }

  ghost predicate LeavesOrForgets(w: World, w': World, id: nat)
    requires At(w, id)
  {
    && |w'.windows| == |w.windows| && id in w'.flights
    && var v := w.flights[id].window;
       var x, x', f, f' := w.windows[v], w'.windows[v], w.flights[id], w'.flights[id];
       && f'.by401 == f.by401 && !f.pc.Settled?
       && (if f'.pc.DeletingRefresh? then x' == x.(account := false, access := None)
           else x' == x && (Deleting(f'.pc) ==> Deleting(f.pc)) && (Deleting(f.pc) ==> Deleting(f'.pc) || f'.pc.Settled?))
  }

  lemma AnswerLeaves(w: World, s: Step)
    requires Enabled(w, s) && (s.Present? || s.Deny?)
    ensures LeavesOrForgets(w, Next(w, s), s.id)
  {
    hide Live, Refusing, Revoking, Spent;
  }

  lemma RestLeaves(w: World, s: Step)
    requires Enabled(w, s) && Within(s) && !s.Finally? && !s.Resume? && !s.Present? && !s.Deny?
    ensures LeavesOrForgets(w, Next(w, s), s.id)
  {
    hide Live, Refusing, Revoking, Spent, Issuing, OtherHolds;
  }

  lemma WinsOfOther(w: World, s: Step, t0: Token)
    requires Enabled(w, s) && Within(s) && !s.Finally? && !s.Resume?
    requires WindowOk(w.windows[w.flights[s.id].window], t0) && WinsHere(w, w.flights[s.id].window, s.id)
    ensures var w', v := Next(w, s), w.flights[s.id].window;
      v < |w'.windows| && s.id in w'.flights && WindowOk(w'.windows[v], t0) && WinsHere(w', v, s.id)
  {
    OwnerMoves(w, s);
    hide Next, Enabled;
  }

  lemma WinsStep(w: World, s: Step, v: nat, t0: Token)
    requires SingleFlight(w) && FlightsOk(w) && TokensOk(w, t0) && WinsOk(w, v, t0) && Enabled(w, s) && Sent(s, v, t0)
    ensures WinsOk(Next(w, s), v, t0)
  {
    if Starts(s) && s.window == v {
      WinsOfCall(w, s, v, t0);
    } else if Within(s) && w.flights[s.id].window == v {
      assert Owned(w, s.id);
      assert forall id | id in w.flights && w.flights[id].window == v :: Owned(w, id) && id == s.id;
      if s.Finally? {
        EndedIsGone(w, s);
        assert Next(w, s).windows[v] == w.windows[v].(refreshing := None);
      } else {
        assert WinsHere(w, v, s.id);
        WinsOfMove(w, s, v, t0);
        MostKeepFlights(w, s);
      }
    } else {
      OthersLeaveWindow(w, s, v);
      forall id | id in Next(w, s).flights && Next(w, s).flights[id].window == v ensures WinsHere(Next(w, s), v, id) {
        assert WinsHere(w, v, id);
      }
    }
  }

  // ---- what the gateway can still grant -------------------------------------

  /** What a refresh knows of tokens, the gateway has issued. */
  ghost predicate Known(f: Flight, g: Gateway) {
    && (forall x | x in f.sent :: x in g.minted)
    && (f.pc.Storing? ==> f.pc.refresh in g.minted)
    && (f.pc.Checking? ==> f.sent != [] && f.sent[|f.sent| - 1] in g.minted && g.minted[f.sent[|f.sent| - 1]] == f.pc.family)
  }

  /** The gateway's books, and that every token held anywhere is in them. */
  ghost predicate BooksOk(w: World) {
    var g := w.gateway;
    && (forall t | t in g.records :: t in g.minted && g.minted[t] == g.records[t].family)
    && (forall t | t in g.minted :: t <= w.issued && g.minted[t] < w.nextFamily)
    && (forall t | t in g.minted && t !in g.records :: g.minted[t] in g.revoked)
    && (forall f | f in g.revoked :: f < w.nextFamily)
    && (w.stored.Some? ==> w.stored.value in g.minted) && (forall x | x in w.strays :: x in g.minted)
    && (forall id | id in w.flights :: Known(w.flights[id], g))
  }

  /** The refresh is about to be granted a successor in a living family. */
  predicate Due(f: Flight, g: Gateway, family: Family) { f.pc == Checking(family) && family !in g.revoked }

  predicate LiveIn(g: Gateway, x: Token, family: Family) { Live(g, x) && g.records[x].family == family }

  /** A living family has one live token or one refresh about to be granted its successor, and never both. */
  ghost predicate OneChance(w: World) {
    && (forall f, x, y | LiveIn(w.gateway, x, f) && LiveIn(w.gateway, y, f) :: x == y)
    && (forall f, i, j | i in w.flights && j in w.flights && Due(w.flights[i], w.gateway, f) && Due(w.flights[j], w.gateway, f) :: i == j)
    && (forall f, x, i | LiveIn(w.gateway, x, f) && i in w.flights :: !Due(w.flights[i], w.gateway, f))
  }

  /** Nothing of this family will be granted again. */
  ghost predicate Barren(w: World, family: Family) {
    && (forall x :: !LiveIn(w.gateway, x, family))
    && (forall i | i in w.flights :: !Due(w.flights[i], w.gateway, family))
  }

  /** What a step does to the gateway. */
  datatype Effect = Nothing | Spend(x: Token) | Revokes(family: Family) | Issues(family: Family)

  function EffectOf(w: World, s: Step): Effect
    requires Within(s) ==> At(w, s.id)
  {
    match s
    case Present(id, _) => if w.flights[id].pc.Posting? then PresentEffect(w.gateway, w.flights[id].pc.sent) else Nothing
    case StrayIn(x) => PresentEffect(w.gateway, x)
    case Issue(id) => if w.flights[id].pc.Checking? then Issues(w.flights[id].pc.family) else Nothing
    case Deny(id, ends, _) => if ends && w.flights[id].pc.Checking? then Revokes(w.flights[id].pc.family) else Nothing
    case SignIn => Issues(w.nextFamily)
    case Revoke(f) => Revokes(f)
    case _ => Nothing
  }

  function PresentEffect(g: Gateway, x: Token): Effect {
    if Live(g, x) then Spend(x)
    else if x in g.records && g.records[x].family !in g.revoked && g.records[x].used then Revokes(g.records[x].family)
    else Nothing
  }

  function Affected(w: World, e: Effect): Gateway {
    match e
    case Nothing => w.gateway
    case Spend(x) => if x in w.gateway.records then Spent(w.gateway, x) else w.gateway
    case Revokes(f) => Revoking(w.gateway, f)
    case Issues(f) => Issuing(w.gateway, f, w.issued + 1)
  }

  lemma EffectIs(w: World, s: Step)
    requires Enabled(w, s)
    ensures Next(w, s).gateway == Affected(w, EffectOf(w, s))
  {
    hide Revoking, Spent, Issuing, OtherHolds;
  }

  /** What is live after a step. */
  lemma LiveAfter(w: World, e: Effect, x: Token, family: Family)
    requires e.Spend? ==> Live(w.gateway, e.x)
    ensures LiveIn(Affected(w, e), x, family)
       <==> match e
            case Nothing => LiveIn(w.gateway, x, family)
            case Spend(y) => LiveIn(w.gateway, x, family) && x != y
            case Revokes(f) => LiveIn(w.gateway, x, family) && family != f
            case Issues(f) => if x == w.issued + 1 then family == f && f !in w.gateway.revoked else LiveIn(w.gateway, x, family)
  {
  }

  /** Who is due after a step: who was, unless granted or cut off, and who has just spent a token. */
  lemma DueAfter(w: World, s: Step, i: nat, family: Family)
    requires SingleFlight(w) && Enabled(w, s) && i in Next(w, s).flights && Due(Next(w, s).flights[i], Next(w, s).gateway, family)
    ensures if s.Present? && s.id == i then EffectOf(w, s) == Spend(w.flights[i].pc.sent) && LiveIn(w.gateway, w.flights[i].pc.sent, family)
            else i in w.flights && Due(w.flights[i], w.gateway, family) && EffectOf(w, s) != Revokes(family)
                 && !(Within(s) && s.id == i && !s.Present?)
  {
    if Starts(s) { StartsAfresh(w, s, i); }
    else if !(Within(s) && s.id == i) {
      if s.Finally? { EndedIsGone(w, s); } else { MostKeepFlights(w, s); }
      OneFlightMoves(w, s, i);
    } else {
      if s.Finally? { EndedIsGone(w, s); }
      NotDueAfterwards(w, s);
    }
    EffectIs(w, s);
    RevokedGrow(w, s, family);
    hide Next, Enabled, SingleFlight;
  }

  lemma NotDueAfterwards(w: World, s: Step)
    requires Enabled(w, s) && Within(s) && !s.Finally?
    ensures s.id in Next(w, s).flights
    ensures Next(w, s).flights[s.id].pc.Checking? ==>
      s.Present? && Live(w.gateway, w.flights[s.id].pc.sent)
      && Next(w, s).flights[s.id].pc == Checking(w.gateway.records[w.flights[s.id].pc.sent].family)
  {
    hide Live, Refusing, Revoking, Spent, Issuing, OtherHolds;
  }

  lemma RevokedGrow(w: World, s: Step, family: Family)
    requires Enabled(w, s)
    ensures family in w.gateway.revoked ==> family in Next(w, s).gateway.revoked
    ensures EffectOf(w, s) == Revokes(family) ==> family in Next(w, s).gateway.revoked
  {
    EffectIs(w, s);
    hide Next, Enabled;
  }

  /** A barren family stays so. */
  lemma BarrenStays(w: World, s: Step, family: Family)
    requires SingleFlight(w) && Enabled(w, s) && Barren(w, family) && family < w.nextFamily
    ensures Barren(Next(w, s), family)
  {
    var e := EffectOf(w, s);
    assert e.Spend? ==> Live(w.gateway, e.x);
    hide Next, Enabled, SingleFlight, LiveIn, Due;
    EffectIs(w, s);
    forall x ensures !LiveIn(Next(w, s).gateway, x, family) {
      LiveAfter(w, e, x, family);
      if e == Issues(family) { IssuesWhenDue(w, s, family); }
    }
    forall i | i in Next(w, s).flights ensures !Due(Next(w, s).flights[i], Next(w, s).gateway, family) {
      if Due(Next(w, s).flights[i], Next(w, s).gateway, family) { DueAfter(w, s, i, family); }
    }
  }

  lemma IssuesWhenDue(w: World, s: Step, family: Family)
    requires Enabled(w, s) && EffectOf(w, s) == Issues(family) && family < w.nextFamily
    ensures family in w.gateway.revoked || (Within(s) && s.id in w.flights && Due(w.flights[s.id], w.gateway, family))
  {
  }

  // ---- the books stay in order ----------------------------------------------

  ghost predicate GatewayBooks(g: Gateway, issued: nat, nextFamily: Family) {
    && (forall t | t in g.records :: t in g.minted && g.minted[t] == g.records[t].family)
    && (forall t | t in g.minted :: t <= issued && g.minted[t] < nextFamily)
    && (forall t | t in g.minted && t !in g.records :: g.minted[t] in g.revoked)
    && (forall f | f in g.revoked :: f < nextFamily)
  }

  lemma AffectedBooks(w: World, e: Effect, next: Family)
    requires GatewayBooks(w.gateway, w.issued, w.nextFamily) && w.nextFamily <= next
    requires (e.Spend? ==> Live(w.gateway, e.x)) && (e.Issues? || e.Revokes? ==> e.family < next)
    ensures GatewayBooks(Affected(w, e), if e.Issues? then w.issued + 1 else w.issued, next)
    ensures forall t | t in w.gateway.minted :: t in Affected(w, e).minted && Affected(w, e).minted[t] == w.gateway.minted[t]
    ensures e.Issues? ==> w.issued + 1 in Affected(w, e).minted && Affected(w, e).minted[w.issued + 1] == e.family
  {
  }

  lemma Counters(w: World, s: Step)
    requires Enabled(w, s)
    ensures Next(w, s).issued >= (if EffectOf(w, s).Issues? then w.issued + 1 else w.issued)
    ensures Next(w, s).nextFamily == if s.SignIn? then w.nextFamily + 1 else w.nextFamily
  {
    hide Live, Refusing, Revoking, Spent, Issuing, OtherHolds;
  }

  lemma MoreBooks(g: Gateway, issued: nat, more: nat, nextFamily: Family)
    requires GatewayBooks(g, issued, nextFamily) && issued <= more
    ensures GatewayBooks(g, more, nextFamily)
  {
  }

  lemma BooksOfGateway(w: World, s: Step)
    requires BooksOk(w) && Enabled(w, s)
    ensures GatewayBooks(Next(w, s).gateway, Next(w, s).issued, Next(w, s).nextFamily)
    ensures forall t | t in w.gateway.minted :: t in Next(w, s).gateway.minted && Next(w, s).gateway.minted[t] == w.gateway.minted[t]
  {
    var e := EffectOf(w, s);
    assert e.Spend? ==> Live(w.gateway, e.x);
    assert e.Issues? || e.Revokes? ==> e.family < Next(w, s).nextFamily by {
      if s.Issue? || s.Deny? { assert Known(w.flights[s.id], w.gateway); }
    }
    Counters(w, s);
    AffectedBooks(w, e, Next(w, s).nextFamily);
    EffectIs(w, s);
    hide Next, Enabled;
    MoreBooks(Affected(w, e), if e.Issues? then w.issued + 1 else w.issued, Next(w, s).issued, Next(w, s).nextFamily);
  }

  /** Whatever a step takes into its hands was in the books, or has just been entered. */
  lemma KnownMoves(w: World, s: Step)
    requires BooksOk(w) && Enabled(w, s) && Within(s) && !s.Finally? && FlightOk(w.flights[s.id])
    ensures s.id in Next(w, s).flights && Known(Next(w, s).flights[s.id], Next(w, s).gateway)
  {
    BooksOfGateway(w, s);
    var f, g := w.flights[s.id], w.gateway;
    assert Known(f, g);
    if s.Present? { assert f.pc.sent in f.sent; }
    EffectIs(w, s);
    TakenInHand(w, s);
    hide Next, Enabled, GatewayBooks, BooksOk;
  }

  /** How the tokens a refresh knows change. */
  lemma TakenInHand(w: World, s: Step)
    requires Enabled(w, s) && Within(s) && !s.Finally?
    ensures s.id in Next(w, s).flights
    ensures var f, f' := w.flights[s.id], Next(w, s).flights[s.id];
      && (f'.sent == f.sent || (w.stored.Some? && f'.sent == f.sent + [w.stored.value] && !f'.pc.Checking?))
      && (f'.pc.Storing? ==> s.Issue? && f'.pc.refresh == w.issued + 1)
      && (f'.pc.Checking? ==> s.Present? && Live(w.gateway, f.pc.sent) && f'.pc.family == w.gateway.records[f.pc.sent].family)
  {
    hide Live, Refusing, Revoking, Spent, Issuing, OtherHolds;
  }

  /** Where the stored secret and the strays come from. */
  lemma HeldOutside(w: World, s: Step)
    requires Enabled(w, s)
    ensures var w' := Next(w, s);
      && (w'.stored == w.stored || w'.stored == None
          || (s.StoreDone? && w'.stored == Some(w.flights[s.id].pc.refresh))
          || (s.SignIn? && w'.stored == Some(w.issued + 1)))
      && (forall x | x in w'.strays :: x in w.strays || (s.NoAnswer? && x == w.flights[s.id].pc.sent))
  {
    hide Live, Refusing, Revoking, Spent, Issuing, OtherHolds;
  }

  lemma StaysKnown(f: Flight, g: Gateway, g': Gateway)
    requires Known(f, g) && forall t | t in g.minted :: t in g'.minted && g'.minted[t] == g.minted[t]
    ensures Known(f, g')
  {
  }

  lemma KnownStep(w: World, s: Step)
    requires SingleFlight(w) && FlightsOk(w) && BooksOk(w) && Enabled(w, s)
    ensures forall id | id in Next(w, s).flights :: Known(Next(w, s).flights[id], Next(w, s).gateway)
  {
    BooksOfGateway(w, s);
    if Within(s) && !s.Finally? { KnownMoves(w, s); }
    forall id | id in Next(w, s).flights ensures Known(Next(w, s).flights[id], Next(w, s).gateway) {
      if Starts(s) {
        StartsAfresh(w, s, id);
        if id in w.flights { StaysKnown(w.flights[id], w.gateway, Next(w, s).gateway); }
      } else {
        if s.Finally? { EndedIsGone(w, s); } else { MostKeepFlights(w, s); }
        if !(Within(s) && s.id == id) {
          OneFlightMoves(w, s, id);
          StaysKnown(w.flights[id], w.gateway, Next(w, s).gateway);
        }
      }
    }
    hide Next, Known, SingleFlight, FlightOk, GatewayBooks;
  }

  lemma BooksStep(w: World, s: Step)
    requires SingleFlight(w) && FlightsOk(w) && BooksOk(w) && Enabled(w, s)
    ensures BooksOk(Next(w, s))
  {
    KnownStep(w, s);
    BooksOfGateway(w, s);
    HeldOutside(w, s);
    EffectIs(w, s);
    if s.StoreDone? || s.NoAnswer? { assert Known(w.flights[s.id], w.gateway) && FlightOk(w.flights[s.id]); }
    hide Next, Known, SingleFlight, FlightOk, FlightsOk;
  }

  lemma OneChanceStep(w: World, s: Step)
    requires SingleFlight(w) && BooksOk(w) && OneChance(w) && Enabled(w, s)
    ensures OneChance(Next(w, s))
  {
    var e, w' := EffectOf(w, s), Next(w, s);
    assert e.Spend? ==> Live(w.gateway, e.x);
    assert e.Issues? ==> s.Issue? || s.SignIn?;
    assert w.issued + 1 !in w.gateway.records;
    assert s.SignIn? ==> e == Issues(w.nextFamily) && forall x :: !LiveIn(w.gateway, x, w.nextFamily);
    assert s.SignIn? ==> forall i | i in w.flights :: !Due(w.flights[i], w.gateway, w.nextFamily) by {
      assert forall i | i in w.flights :: Known(w.flights[i], w.gateway);
    }
    assert s.Issue? ==> w.flights[s.id].pc == Checking(e.family) && s.id in w.flights;
    assert s.Present? ==> s.id in w.flights && w.flights[s.id].pc.Posting?;
    EffectIs(w, s);
    hide Next, Enabled, SingleFlight, BooksOk, EffectOf, Affected, LiveIn;
    forall f, x, y | LiveIn(w'.gateway, x, f) && LiveIn(w'.gateway, y, f) ensures x == y {
      LiveAfter(w, e, x, f);
      LiveAfter(w, e, y, f);
    }
    forall f, i, j | i in w'.flights && j in w'.flights && Due(w'.flights[i], w'.gateway, f) && Due(w'.flights[j], w'.gateway, f)
      ensures i == j
    {
      DueAfter(w, s, i, f);
      DueAfter(w, s, j, f);
    }
    forall f, x, i | LiveIn(w'.gateway, x, f) && i in w'.flights ensures !Due(w'.flights[i], w'.gateway, f) {
      if Due(w'.flights[i], w'.gateway, f) {
        LiveAfter(w, e, x, f);
        DueAfter(w, s, i, f);
      }
    }
  }

  // ---- a rejection is final for its family ----------------------------------

  /** A refused request leaves its token's family barren. */
  lemma RefusedIsBarren(w: World, s: Step)
    requires BooksOk(w) && OneChance(w) && SingleFlight(w) && FlightsOk(w) && Enabled(w, s) && (s.Present? || s.Deny?)
    requires s.Present? ==> !Live(w.gateway, w.flights[s.id].pc.sent)
    ensures var x := w.flights[s.id].sent; x != [] && x[|x| - 1] in w.gateway.minted && Barren(Next(w, s), w.gateway.minted[x[|x| - 1]])
  {
    var f, g, e := w.flights[s.id], w.gateway, EffectOf(w, s);
    assert FlightOk(f) && Known(f, g);
    var x := f.sent[|f.sent| - 1];
    var family := g.minted[x];
    assert s.Deny? ==> f.pc == Checking(family);
    assert s.Present? ==> f.pc.sent == x && x in f.sent;
    assert family in g.revoked || e == Revokes(family) || (s.Deny? && Due(f, g, family));
    assert !e.Issues? && !e.Spend?;
    EffectIs(w, s);
    RevokedGrow(w, s, family);
    hide Next, Enabled, SingleFlight, EffectOf, Affected, BooksOk, Known, FlightOk;
    forall y ensures !LiveIn(Next(w, s).gateway, y, family) { LiveAfter(w, e, y, family); }
    forall i | i in Next(w, s).flights ensures !Due(Next(w, s).flights[i], Next(w, s).gateway, family) {
      if Due(Next(w, s).flights[i], Next(w, s).gateway, family) { DueAfter(w, s, i, family); }
    }
  }

  /** After a rejection its family is barren, and what a retry was granted is of another. */
  ghost predicate RetryOk(w: World, f: Flight) {
    f.replies != [] && f.replies[0] == Rejected ==>
      && f.sent != [] && f.sent[0] in w.gateway.minted
      && Barren(w, w.gateway.minted[f.sent[0]])
      && (|f.sent| == 2 && (f.pc.Checking? || (|f.replies| == 2 && f.replies[1] == Accepted)) ==>
            f.sent[1] in w.gateway.minted && w.gateway.minted[f.sent[1]] != w.gateway.minted[f.sent[0]])
  }

  ghost predicate RetriesOk(w: World) { forall id | id in w.flights :: RetryOk(w, w.flights[id]) }

  lemma RetryStays(w: World, s: Step, f: Flight)
    requires SingleFlight(w) && BooksOk(w) && Enabled(w, s) && RetryOk(w, f)
    ensures RetryOk(Next(w, s), f)
  {
    BooksOfGateway(w, s);
    if f.replies != [] && f.replies[0] == Rejected { BarrenStays(w, s, w.gateway.minted[f.sent[0]]); }
    hide Next, Enabled, SingleFlight, Barren, GatewayBooks;
  }

  /** How the requests and replies of a refresh grow. */
  lemma RepliesGrow(w: World, s: Step)
    requires Enabled(w, s) && Within(s) && !s.Finally?
    ensures s.id in Next(w, s).flights && Grown(w, s, w.flights[s.id], Next(w, s).flights[s.id])
  {
    hide Next, Grown;
    if s.Present? || s.Deny? { AnswerGrows(w, s); } else { RestGrows(w, s); }
  }

  ghost predicate Grown(w: World, s: Step, f: Flight, f': Flight) {
    && f.sent <= f'.sent && |f'.sent| <= |f.sent| + 1
    && (f'.sent != f.sent ==> s.ReadDone? || s.RereadDone?)
    && (f'.replies == f.replies || (f'.sent == f.sent && |f'.replies| == |f.replies| + 1 && f.replies <= f'.replies))
    && (f'.replies != f.replies && f'.replies[|f.replies|] == Rejected ==> (s.Present? && f.pc.Posting? && !Live(w.gateway, f.pc.sent)) || s.Deny?)
    && (f'.replies != f.replies && f'.replies[|f.replies|] == Accepted ==> s.Issue?)
    && (f'.pc.Checking? ==> s.Present? && f'.replies == f.replies && f.pc.Posting? && Live(w.gateway, f.pc.sent))
    && (f'.pc.Posting? ==> s.ReadDone? || s.RereadDone?)
  }

  lemma AnswerGrows(w: World, s: Step)
    requires Enabled(w, s) && (s.Present? || s.Deny?)
    ensures s.id in Next(w, s).flights && Grown(w, s, w.flights[s.id], Next(w, s).flights[s.id])
  {
    hide Live, Refusing, Revoking, Spent;
  }

  lemma RestGrows(w: World, s: Step)
    requires Enabled(w, s) && Within(s) && !s.Finally? && !s.Present? && !s.Deny?
    ensures s.id in Next(w, s).flights && Grown(w, s, w.flights[s.id], Next(w, s).flights[s.id])
  {
    hide Live, Refusing, Revoking, Spent, Issuing, OtherHolds;
  }

  /** The first request of a refresh gets its answer. */
  lemma FirstAnswer(w: World, s: Step)
    requires SingleFlight(w) && FlightsOk(w) && BooksOk(w) && OneChance(w)
    requires Enabled(w, s) && Within(s) && !s.Finally? && w.flights[s.id].replies == []
    ensures s.id in Next(w, s).flights && RetryOk(Next(w, s), Next(w, s).flights[s.id])
  {
    var f := w.flights[s.id];
    assert FlightOk(f);
    FlightMoves(w, s);
    RepliesGrow(w, s);
    BooksOfGateway(w, s);
    var f' := Next(w, s).flights[s.id];
    hide Next, Enabled, SingleFlight, Barren, GatewayBooks, BooksOk, OneChance, FlightsOk;
    if f'.replies != [] && f'.replies[0] == Rejected {
      RefusedIsBarren(w, s);
      assert |f'.sent| == 1 && f'.sent == f.sent;
    }
  }

  /** What a retry is granted is live, so not of the barren family. */
  lemma GrantedElsewhere(w: World, f: Flight)
    requires RetryOk(w, f) && BooksOk(w) && FlightOk(f) && Known(f, w.gateway) && f.pc.Posting? && |f.sent| == 2 && Live(w.gateway, f.pc.sent)
    ensures w.gateway.minted[f.sent[1]] != w.gateway.minted[f.sent[0]]
  {
    assert LiveIn(w.gateway, f.sent[1], w.gateway.minted[f.sent[1]]);
  }

  /** The second request, after a first answer. */
  lemma SecondAnswer(w: World, s: Step)
    requires SingleFlight(w) && FlightsOk(w) && BooksOk(w) && RetriesOk(w)
    requires Enabled(w, s) && Within(s) && !s.Finally? && w.flights[s.id].replies != []
    ensures s.id in Next(w, s).flights && RetryOk(Next(w, s), Next(w, s).flights[s.id])
  {
    var f := w.flights[s.id];
    assert FlightOk(f) && RetryOk(w, f) && Known(f, w.gateway);
    if f.replies[0] == Rejected && s.Present? && |f.sent| == 2 && Live(w.gateway, f.pc.sent) { GrantedElsewhere(w, f); }
    FlightMoves(w, s);
    RepliesGrow(w, s);
    RetryStays(w, s, f);
    BooksOfGateway(w, s);
    KnownMoves(w, s);
    assert s.Issue? ==> f.pc.Checking?;
    assert s.Present? ==> f.pc.Posting?;
    assert s.Deny? ==> f.pc.Checking?;
    hide Next, Enabled, SingleFlight, Barren, GatewayBooks, BooksOk, FlightsOk;
    var f' := Next(w, s).flights[s.id];
    assert f'.replies[0] == f.replies[0] && f'.sent[0] == f.sent[0];
  }

  lemma RetryMoves(w: World, s: Step)
    requires SingleFlight(w) && FlightsOk(w) && BooksOk(w) && OneChance(w) && RetriesOk(w)
    requires Enabled(w, s) && Within(s) && !s.Finally?
    ensures s.id in Next(w, s).flights && RetryOk(Next(w, s), Next(w, s).flights[s.id])
  {
    hide RetryOk, Next, SingleFlight, FlightsOk, BooksOk, OneChance, RetriesOk;
    if w.flights[s.id].replies == [] { FirstAnswer(w, s); } else { SecondAnswer(w, s); }
  }

  lemma RetriesStep(w: World, s: Step)
    requires SingleFlight(w) && FlightsOk(w) && BooksOk(w) && OneChance(w) && RetriesOk(w) && Enabled(w, s)
    ensures RetriesOk(Next(w, s))
  {
    if Within(s) && !s.Finally? { RetryMoves(w, s); }
    forall id | id in Next(w, s).flights ensures RetryOk(Next(w, s), Next(w, s).flights[id]) {
      if Starts(s) {
        StartsAfresh(w, s, id);
        if id in w.flights { RetryStays(w, s, w.flights[id]); }
      } else {
        if s.Finally? { EndedIsGone(w, s); } else { MostKeepFlights(w, s); }
        if !(Within(s) && s.id == id) {
          OneFlightMoves(w, s, id);
          RetryStays(w, s, w.flights[id]);
        }
      }
    }
    hide Next, Barren, BooksOk, OneChance, SingleFlight;
  }

  // ---- every interleaving ---------------------------------------------------

  ghost predicate Sound(w: World) { SingleFlight(w) && FlightsOk(w) && BooksOk(w) && OneChance(w) && RetriesOk(w) }

  lemma SoundStep(w: World, s: Step)
    requires Sound(w) && Enabled(w, s)
    ensures Sound(Next(w, s))
  {
    SingleFlightStep(w, s);
    FlightsStep(w, s);
    BooksStep(w, s);
    OneChanceStep(w, s);
    RetriesStep(w, s);
    hide Next, Enabled, SingleFlight, FlightsOk, BooksOk, OneChance, RetriesOk;
  }

  lemma InitialIsSound(w: World, v: nat, t0: Token)
    requires Initial(w, t0)
    ensures Sound(w) && TokensOk(w, t0) && (v < |w.windows| ==> WinsOk(w, v, t0))
  {
  }

  /**
   * However windows, callers and the gateway interleave: no window has two
   * refreshes at a time; each makes at most two requests, and deletes secrets only
   * after rejections; a living family has one chance left at most; a retry is
   * granted only in another family than the one that was refused.
   */
  lemma {:induction false} EveryInterleaving(w0: World, steps: seq<Step>, w: World, t0: Token)
    requires Initial(w0, t0) && LeadsTo(w0, steps, w)
    ensures Sound(w) && |w.windows| == |w0.windows|
    decreases |steps|
  {
    if steps == [] {
      InitialIsSound(w0, 0, t0);
    } else {
      var init, s := steps[..|steps| - 1], steps[|steps| - 1];
      var m :| LeadsTo(w0, init, m) && StepTo(m, s, w);
      EveryInterleaving(w0, init, m, t0);
      SoundStep(m, s);
      SameWindows(m, s);
    }
  }

  lemma SameWindows(w: World, s: Step)
    requires Enabled(w, s)
    ensures |Next(w, s).windows| == |w.windows|
  {
    hide Live, Refusing, Revoking, Spent, Issuing, OtherHolds;
  }

  /** Of all the callers in one window that sent the same rejected token, one at most wins a rotation. */
  lemma {:induction false} OneWinForOneToken(w0: World, steps: seq<Step>, w: World, v: nat, t0: Token)
    requires Initial(w0, t0) && v < |w0.windows| && LeadsTo(w0, steps, w) && forall s | s in steps :: Sent(s, v, t0)
    ensures Sound(w) && TokensOk(w, t0) && WinsOk(w, v, t0)
    decreases |steps|
  {
    if steps == [] {
      InitialIsSound(w0, v, t0);
    } else {
      var init, s := steps[..|steps| - 1], steps[|steps| - 1];
      var m :| LeadsTo(w0, init, m) && StepTo(m, s, w);
      assert steps == init + [s] && s in steps;
      OneWinForOneToken(w0, init, m, v, t0);
      SoundStep(m, s);
      TokensStep(m, s, t0);
      WinsStep(m, s, v, t0);
      hide Next, Enabled, Sound, SingleFlight, FlightsOk, BooksOk, OneChance, RetriesOk, WinsOk, TokensOk;
    }
  }

  /**
   * Over every run the retry after a rejection is futile within the family: what
   * it is granted, it is granted for a token of another sign-in.
   */
  lemma RetryIsFutile(w0: World, steps: seq<Step>, w: World, t0: Token, id: nat)
    requires Initial(w0, t0) && LeadsTo(w0, steps, w)
    requires id in w.flights && w.flights[id].replies == [Rejected, Accepted]
    ensures var x, m := w.flights[id].sent, w.gateway.minted;
      |x| == 2 && x[0] in m && x[1] in m && m[x[0]] != m[x[1]]
  {
    EveryInterleaving(w0, steps, w, t0);
    assert FlightOk(w.flights[id]) && RetryOk(w, w.flights[id]);
    hide LeadsTo, Barren;
  }
}
