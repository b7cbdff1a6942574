// What a refresh answers, and what the callers that wait for it are given.
module Answers {
  import opened Text
  import opened Auth

  // ---- the answer of a refresh ----------------------------------------------

  /** The step is one of refresh `id`. */
  predicate Of(s: Step, id: nat) { Within(s) && s.id == id }

  /** The refresh proves nothing by it: no answer, an unclear one, or a token that could not be kept. */
  predicate GivesUp(s: Step, id: nat) {
    s == Unsure(id) || s == Miss(id) || s == NoAnswer(id) || s == Present(id, false) || s == Deny(id, true, false) || s == Deny(id, false, false)
  }

  /** The run was at `m` when it came to its step `j`. */
  ghost predicate WasAt(w0: World, steps: seq<Step>, j: nat, m: World) {
    j < |steps| && LeadsTo(w0, steps[..j], m) && Enabled(m, steps[j])
  }

  /** The access token that the gateway issued to refresh `id` in its step `j`. */
  ghost predicate IssuedAt(w0: World, steps: seq<Step>, j: nat, id: nat, access: Token) {
    exists m :: WasAt(w0, steps, j, m) && steps[j] == Issue(id)
      && id in Next(m, steps[j]).flights && Next(m, steps[j]).flights[id].pc.Storing?
      && Next(m, steps[j]).flights[id].pc.access == access
  }

  ghost predicate Issued(w0: World, steps: seq<Step>, id: nat, access: Token) {
    exists j :: IssuedAt(w0, steps, j, id, access)
  }

  /** What the step at `m` answers, when it settles refresh `id`. */
  ghost predicate Settling(w0: World, before: seq<Step>, m: World, s: Step, id: nat, result: Option<Token>) {
    && Enabled(m, s) && At(m, id) && At(Next(m, s), id)
    && match s
       case Resume(k) => k == id && result.Some? && Issued(w0, before, id, result.value) && Owner(Next(m, s), id).access == result
       case DeleteDone(k) => k == id && result == None
       case _ => GivesUp(s, id) && result == Owner(m, id).access
  }

  /** Step `j` of the run settled refresh `id` with `result`, and was its last. */
  ghost predicate SettledAt(w0: World, steps: seq<Step>, j: nat, id: nat, result: Option<Token>) {
    && j < |steps| && (forall i | j < i < |steps| :: !Of(steps[i], id))
    && exists m :: WasAt(w0, steps, j, m) && Settling(w0, steps[..j], m, steps[j], id, result)
  }

  ghost predicate Explained(w0: World, steps: seq<Step>, id: nat, pc: Pc) {
    match pc
    case Storing(_, access) => Issued(w0, steps, id, access)
    case Rotated(access) => Issued(w0, steps, id, access)
    case Settled(result) => exists j :: SettledAt(w0, steps, j, id, result)
    case _ => true
  }

  lemma PrefixOf(steps: seq<Step>, s: Step, j: nat)
    requires j <= |steps|
    ensures (steps + [s])[..j] == steps[..j] && (j < |steps| ==> (steps + [s])[j] == steps[j])
  {
  }

  lemma IssuedStays(w0: World, steps: seq<Step>, s: Step, id: nat, access: Token)
    requires Issued(w0, steps, id, access)
    ensures Issued(w0, steps + [s], id, access)
  {
    var j :| IssuedAt(w0, steps, j, id, access);
    hide LeadsTo, Next, Enabled;
    PrefixOf(steps, s, j);
    assert IssuedAt(w0, steps + [s], j, id, access);
  }

  lemma SettledStays(w0: World, steps: seq<Step>, s: Step, id: nat, result: Option<Token>, j: nat)
    requires SettledAt(w0, steps, j, id, result) && !Of(s, id)
    ensures SettledAt(w0, steps + [s], j, id, result)
  {
    hide LeadsTo, Next, Enabled, Settling;
    PrefixOf(steps, s, j);
    var m :| WasAt(w0, steps, j, m) && Settling(w0, steps[..j], m, steps[j], id, result);
    assert WasAt(w0, steps + [s], j, m);
  }

  lemma ExplainedStays(w0: World, steps: seq<Step>, s: Step, id: nat, pc: Pc)
    requires Explained(w0, steps, id, pc) && !Of(s, id)
    ensures Explained(w0, steps + [s], id, pc)
  {
    hide Issued, SettledAt;
    match pc
    case Storing(_, access) => IssuedStays(w0, steps, s, id, access);
    case Rotated(access) => IssuedStays(w0, steps, s, id, access);
    case Settled(result) =>
      var j :| SettledAt(w0, steps, j, id, result);
      SettledStays(w0, steps, s, id, result, j);
    case _ =>
  }

  /** What a step makes of its own refresh. */
  lemma PcAfter(w: World, s: Step)
    requires Enabled(w, s) && Within(s) && !s.Finally?
    ensures At(w, s.id) && At(Next(w, s), s.id)
    ensures var pc, pc' := w.flights[s.id].pc, Next(w, s).flights[s.id].pc;
      && (pc'.Storing? ==> s.Issue?)
      && (pc'.Rotated? ==> s.StoreDone? && pc.Storing? && pc'.access == pc.access)
      && (pc'.Settled? && s.Resume? ==> pc.Rotated? && pc'.result == Some(pc.access) == Owner(Next(w, s), s.id).access)
      && (pc'.Settled? && s.DeleteDone? ==> pc'.result == None)
      && (pc'.Settled? && !s.Resume? && !s.DeleteDone? ==> GivesUp(s, s.id) && pc'.result == Owner(w, s.id).access)
  {
    hide Live, Refusing, Revoking, Spent, Issuing, OtherHolds;
    if s.Present? || s.Deny? { AnswerAfter(w, s); }
  }

  lemma AnswerAfter(w: World, s: Step)
    requires Enabled(w, s) && (s.Present? || s.Deny?)
    ensures At(Next(w, s), s.id)
    ensures var pc' := Next(w, s).flights[s.id].pc;
      && !pc'.Storing? && !pc'.Rotated?
      && (pc'.Settled? ==> GivesUp(s, s.id) && pc'.result == Owner(w, s.id).access)
  {
    hide Live, Refusing, Revoking, Spent;
  }

  /** The step a refresh has just taken explains where it stands. */
  lemma OwnStep(w0: World, steps: seq<Step>, m: World, s: Step)
    requires LeadsTo(w0, steps, m) && Enabled(m, s) && Within(s) && !s.Finally?
    requires Explained(w0, steps, s.id, m.flights[s.id].pc)
    ensures s.id in Next(m, s).flights && Explained(w0, steps + [s], s.id, Next(m, s).flights[s.id].pc)
  {
    var more, id := steps + [s], s.id;
    PcAfter(m, s);
    PrefixOf(steps, s, |steps|);
    assert steps[..|steps|] == steps;
    assert WasAt(w0, more, |steps|, m) && more[|steps|] == s && more[..|steps|] == steps;
    hide LeadsTo, Next, Enabled;
    var pc, pc' := m.flights[id].pc, Next(m, s).flights[id].pc;
    match pc'
    case Storing(_, access) => assert IssuedAt(w0, more, |steps|, id, access);
    case Rotated(access) => IssuedStays(w0, steps, s, id, access);
    case Settled(result) =>
      assert Settling(w0, steps, m, s, id, result);
      assert SettledAt(w0, more, |steps|, id, result);
    case _ =>
  }

  lemma OneStep(w0: World, steps: seq<Step>, m: World, s: Step)
    requires LeadsTo(w0, steps, m) && SingleFlight(m) && Enabled(m, s)
    requires forall id | id in m.flights :: Explained(w0, steps, id, m.flights[id].pc)
    ensures forall id | id in Next(m, s).flights :: Explained(w0, steps + [s], id, Next(m, s).flights[id].pc)
  {
    forall id | id in Next(m, s).flights ensures Explained(w0, steps + [s], id, Next(m, s).flights[id].pc) {
      if Starts(s) {
        StartsAfresh(m, s, id);
        if id in m.flights { ExplainedStays(w0, steps, s, id, m.flights[id].pc); }
      } else if Of(s, id) && !s.Finally? {
        OwnStep(w0, steps, m, s);
      } else {
        if s.Finally? { EndedIsGone(m, s); } else { MostKeepFlights(m, s); }
        OneFlightMoves(m, s, id);
        ExplainedStays(w0, steps, s, id, m.flights[id].pc);
      }
    }
    hide Next, Enabled, LeadsTo, SingleFlight;
  }

  lemma {:induction false} EveryExplained(w0: World, steps: seq<Step>, w: World, t0: Token)
    requires Initial(w0, t0) && LeadsTo(w0, steps, w)
    ensures Sound(w) && forall id | id in w.flights :: Explained(w0, steps, id, w.flights[id].pc)
    decreases |steps|
  {
    EveryInterleaving(w0, steps, w, t0);
    if steps != [] {
      var init, s := steps[..|steps| - 1], steps[|steps| - 1];
      var m :| LeadsTo(w0, init, m) && StepTo(m, s, w);
      EveryExplained(w0, init, m, t0);
      OneStep(w0, init, m, s);
      assert init + [s] == steps;
    }
    hide Next, Enabled, Sound, Explained;
  }

  lemma {:induction false} IssuedIsNew(w0: World, steps: seq<Step>, j: nat, id: nat, access: Token, t0: Token)
    requires Initial(w0, t0) && IssuedAt(w0, steps, j, id, access)
    ensures access > t0
  {
    var m :| WasAt(w0, steps, j, m) && steps[j] == Issue(id)
      && id in Next(m, steps[j]).flights && Next(m, steps[j]).flights[id].pc.Storing?
      && Next(m, steps[j]).flights[id].pc.access == access;
    TokensAlong(w0, steps[..j], m, t0);
    TokensStep(m, steps[j], t0);
    hide LeadsTo, Next, Enabled;
  }

  lemma {:induction false} TokensAlong(w0: World, steps: seq<Step>, w: World, t0: Token)
    requires Initial(w0, t0) && LeadsTo(w0, steps, w)
    ensures SingleFlight(w) && TokensOk(w, t0)
    decreases |steps|
  {
    if steps == [] {
      InitialIsSound(w0, 0, t0);
    } else {
      var init, s := steps[..|steps| - 1], steps[|steps| - 1];
      var m :| LeadsTo(w0, init, m) && StepTo(m, s, w);
      TokensAlong(w0, init, m, t0);
      SingleFlightStep(m, s);
      TokensStep(m, s, t0);
    }
    hide Next, Enabled;
  }

  lemma ResumedIsNew(w0: World, steps: seq<Step>, j: nat, id: nat, result: Option<Token>, t0: Token)
    requires Initial(w0, t0) && SettledAt(w0, steps, j, id, result) && steps[j] == Resume(id)
    ensures result.Some? && result.value > t0
  {
    hide LeadsTo, Next, Enabled, Initial, IssuedAt;
    var i :| IssuedAt(w0, steps[..j], i, id, result.value);
    IssuedIsNew(w0, steps[..j], i, id, result.value, t0);
  }

  /** The last own step of a refresh, and a rotated answer newer than `t0`. */
  ghost predicate AnsweredAt(w0: World, steps: seq<Step>, j: nat, id: nat, result: Option<Token>, t0: Token) {
    SettledAt(w0, steps, j, id, result) && (steps[j] == Resume(id) ==> result.Some? && result.value > t0)
  }

  /**
   * Over every run, a settled refresh answers by its own last step: after a
   * rotation that was stored, the access token the gateway issued to it, which is
   * then its window's own and newer than `t0`; after it forgot, nothing; and after
   * it gave up, what its window held then.
   */
  lemma WhatItAnswers(w0: World, steps: seq<Step>, w: World, t0: Token, id: nat) returns (j: nat)
    requires Initial(w0, t0) && LeadsTo(w0, steps, w) && id in w.flights && w.flights[id].pc.Settled?
    ensures AnsweredAt(w0, steps, j, id, w.flights[id].pc.result, t0)
  {
    EveryExplained(w0, steps, w, t0);
    var result := w.flights[id].pc.result;
    assert Explained(w0, steps, id, w.flights[id].pc);
    hide LeadsTo, Sound, Initial, SettledAt;
    j :| SettledAt(w0, steps, j, id, result);
    assert j < |steps| by { InRange(w0, steps, j, id, result); }
    if steps[j] == Resume(id) { ResumedIsNew(w0, steps, j, id, result, t0); }
  }

  lemma InRange(w0: World, steps: seq<Step>, j: nat, id: nat, result: Option<Token>)
    requires SettledAt(w0, steps, j, id, result)
    ensures j < |steps|
  {
  }

  // ---- the callers ----------------------------------------------------------

  /** What a caller whose token was refused is told: nothing, a token at once, or to wait for a refresh. */
  datatype Told = NotSignedIn | AtOnce(token: Token) | WaitFor(id: nat)

  function ToldOn401(w: World, v: nat, used: Token): Told
    requires v < |w.windows|
  {
    var x := w.windows[v];
    if !x.account then NotSignedIn
    else if x.access.Some? && x.access.value != used then AtOnce(x.access.value)
    else WaitFor(if x.refreshing.Some? then x.refreshing.value else w.nextId)
  }

  /** A caller is never handed at once what it sent, and a refresh it waits for is under way. */
  lemma ToldIsUnderway(w: World, v: nat, used: Token)
    requires SingleFlight(w) && v < |w.windows|
    ensures ToldOn401(w, v, used) != AtOnce(used)
    ensures var w', told := Next(w, Call401(v, used)), ToldOn401(w, v, used);
      if told.WaitFor? then
        && told.id in w'.flights && w'.flights[told.id].window == v
        && w'.windows[v].refreshing == Some(told.id) && w'.windows[v].access == None
      else w' == w
  {
  }

  /** A window's access token is only ever replaced by a newer one, or dropped. */
  lemma AccessAfter(w: World, s: Step, v: nat, t0: Token)
    requires SingleFlight(w) && TokensOk(w, t0) && Enabled(w, s) && v < |w.windows| && w.windows[v].access != Some(t0)
    ensures v < |Next(w, s).windows| && Next(w, s).windows[v].access != Some(t0)
  {
    if Starts(s) {
    } else if Within(s) && w.flights[s.id].window == v {
      if s.Finally? { assert Next(w, s).windows[v] == w.windows[v].(refreshing := None); }
      else { OwnAccessAfter(w, s, t0); }
    } else {
      OthersLeaveWindow(w, s, v);
    }
  }

  lemma OwnAccessAfter(w: World, s: Step, t0: Token)
    requires TokensOk(w, t0) && Enabled(w, s) && Within(s) && !s.Finally?
    ensures At(Next(w, s), s.id) && |Next(w, s).windows| == |w.windows| && Next(w, s).flights[s.id].window == w.flights[s.id].window
    ensures Owner(w, s.id).access != Some(t0) ==> Owner(Next(w, s), s.id).access != Some(t0)
  {
    MostKeepFlights(w, s);
    if s.Resume? { ResumeAccess(w, s.id, t0); } else { OwnerMoves(w, s); }
    hide Next, Enabled;
  }

  lemma ResumeAccess(w: World, id: nat, t0: Token)
    requires TokensOk(w, t0) && Enabled(w, Resume(id))
    ensures At(Next(w, Resume(id)), id) && Owner(Next(w, Resume(id)), id).access != Some(t0)
  {
    assert NewAccess(w.flights[id].pc, t0);
  }

  /** The window does not hold `t0`, and the refresh has not answered with it. */
  ghost predicate Rid(w: World, v: nat, id: nat, t0: Token) {
    && SingleFlight(w) && TokensOk(w, t0) && v < |w.windows| && w.windows[v].access != Some(t0)
    && (id in w.flights ==> w.flights[id].window == v && w.flights[id].pc != Settled(Some(t0)))
    && id < w.nextId
  }

  lemma RidStep(w: World, v: nat, id: nat, t0: Token, s: Step)
    requires Rid(w, v, id, t0) && Enabled(w, s)
    ensures Rid(Next(w, s), v, id, t0)
  {
    SingleFlightStep(w, s);
    TokensStep(w, s, t0);
    AccessAfter(w, s, v, t0);
    var w' := Next(w, s);
    if id in w'.flights {
      if Starts(s) {
        StartsAfresh(w, s, id);
      } else if Of(s, id) && !s.Finally? {
        assert NewAccess(w.flights[id].pc, t0);
        PcAfter(w, s);
        MostKeepFlights(w, s);
      } else {
        if s.Finally? { EndedIsGone(w, s); } else { MostKeepFlights(w, s); }
        OneFlightMoves(w, s, id);
      }
    }
    assert id < w'.nextId by { NextIdGrows(w, s); }
    hide Next, Enabled, SingleFlight, TokensOk;
  }

  lemma NextIdGrows(w: World, s: Step)
    requires Enabled(w, s)
    ensures w.nextId <= Next(w, s).nextId
  {
    if !Starts(s) && !s.Finally? { MostKeepFlights(w, s); }
    hide Live, Refusing, Revoking, Spent, Issuing, OtherHolds;
  }

  lemma {:induction false} StaysRid(w1: World, steps: seq<Step>, w: World, v: nat, id: nat, t0: Token)
    requires Rid(w1, v, id, t0) && LeadsTo(w1, steps, w)
    ensures Rid(w, v, id, t0)
    decreases |steps|
  {
    if steps != [] {
      var init, s := steps[..|steps| - 1], steps[|steps| - 1];
      var m :| LeadsTo(w1, init, m) && StepTo(m, s, w);
      StaysRid(w1, init, m, v, id, t0);
      RidStep(m, v, id, t0, s);
    }
    hide Next, Enabled, Rid;
  }

  lemma LastStep(w0: World, steps: seq<Step>, w: World) returns (m: World)
    requires LeadsTo(w0, steps, w) && steps != []
    ensures LeadsTo(w0, steps[..|steps| - 1], m) && StepTo(m, steps[|steps| - 1], w)
  {
    m :| LeadsTo(w0, steps[..|steps| - 1], m) && StepTo(m, steps[|steps| - 1], w);
    hide Next, Enabled, LeadsTo;
  }

  lemma SettledStep(m: World, s: Step, id: nat)
    requires SingleFlight(m) && Enabled(m, s) && id < m.nextId && id in Next(m, s).flights && (id in m.flights ==> m.flights[id].pc.Settled?)
    ensures id in m.flights && Next(m, s).flights[id] == m.flights[id]
  {
    hide Next, SingleFlight;
    if Starts(s) {
      StartsAfresh(m, s, id);
    } else {
      if s.Finally? { EndedIsGone(m, s); } else { MostKeepFlights(m, s); }
      assert !(Of(s, id) && !s.Finally?);
      OneFlightMoves(m, s, id);
    }
  }

  lemma {:induction false} SettledRemains(w1: World, steps: seq<Step>, w: World, id: nat)
    requires SingleFlight(w1) && id in w1.flights && w1.flights[id].pc.Settled? && LeadsTo(w1, steps, w)
    ensures SingleFlight(w) && id < w.nextId && (id in w.flights ==> w.flights[id] == w1.flights[id])
    decreases |steps|
  {
    if steps != [] {
      hide Enabled, Next, LeadsTo;
      var init, s := steps[..|steps| - 1], steps[|steps| - 1];
      var m := LastStep(w1, steps, w);
      SettledRemains(w1, init, m, id);
      SingleFlightStep(m, s);
      NextIdGrows(m, s);
      hide SingleFlight;
      if id in w.flights { SettledStep(m, s, id); }
    }
  }

  /**
   * A caller that waits is handed back the token it sent if and only if the
   * refresh it joined had already settled with that token.
   */
  lemma CallerGetsAnother(w0: World, before: seq<Step>, m: World, v: nat, t0: Token, steps: seq<Step>, w: World)
    requires Initial(w0, t0) && LeadsTo(w0, before, m) && v < |m.windows| && ToldOn401(m, v, t0).WaitFor?
    requires LeadsTo(Next(m, Call401(v, t0)), steps, w)
    ensures var id, w1 := ToldOn401(m, v, t0).id, Next(m, Call401(v, t0));
      id in w1.flights && (id in w.flights ==>
        (w.flights[id].pc == Settled(Some(t0)) <==> w1.flights[id].pc == Settled(Some(t0))))
  {
    TokensAlong(w0, before, m, t0);
    ToldIsUnderway(m, v, t0);
    SingleFlightStep(m, Call401(v, t0));
    TokensStep(m, Call401(v, t0), t0);
    var id, w1 := ToldOn401(m, v, t0).id, Next(m, Call401(v, t0));
    hide LeadsTo, Next, ToldOn401, Initial;
    if w1.flights[id].pc.Settled? {
      SettledRemains(w1, steps, w, id);
    } else {
      assert id < w1.nextId;
      assert Rid(w1, v, id, t0);
      StaysRid(w1, steps, w, v, id, t0);
    }
  }

  /** A window that has signed itself out holds no access token. */
  ghost predicate HoldsNothing(w: World) { forall v | 0 <= v < |w.windows| && !w.windows[v].account :: w.windows[v].access == None }

  lemma NothingAfter(w: World, s: Step, v: nat)
    requires SingleFlight(w) && HoldsNothing(w) && Enabled(w, s) && v < |Next(w, s).windows| && !Next(w, s).windows[v].account
    requires forall id | id in w.flights :: Owned(w, id) && (w.flights[id].pc.Rotated? ==> Owner(w, id).account)
    ensures Next(w, s).windows[v].access == None
  {
    SameWindows(w, s);
    if Starts(s) {
    } else if Within(s) && w.flights[s.id].window == v {
      if s.Finally? { assert Next(w, s).windows[v] == w.windows[v].(refreshing := None); }
      else if s.Resume? { }
      else { OwnerMoves(w, s); hide Next; }
    } else {
      OthersLeaveWindow(w, s, v);
    }
  }

  lemma NothingYet(w0: World, w: World, t0: Token)
    requires Initial(w0, t0) && LeadsTo(w0, [], w)
    ensures HoldsNothing(w) && AccountsOk(w)
  {
  }

  lemma {:induction false} SignedOutHoldsNothing(w0: World, steps: seq<Step>, w: World, t0: Token, v: nat)
    requires Initial(w0, t0) && LeadsTo(w0, steps, w) && v < |w.windows|
    ensures Sound(w) && HoldsNothing(w) && AccountsOk(w)
    decreases |steps|
  {
    hide Next, Enabled, LeadsTo;
    EveryInterleaving(w0, steps, w, t0);
    if steps == [] {
      NothingYet(w0, w, t0);
    } else {
      var init, s := steps[..|steps| - 1], steps[|steps| - 1];
      var m := LastStep(w0, steps, w);
      SameWindows(m, s);
      SignedOutHoldsNothing(w0, init, m, t0, v);
      AccountsStep(m, s);
      forall u | 0 <= u < |w.windows| && !w.windows[u].account ensures w.windows[u].access == None {
        NothingAfter(m, s, u);
      }
    }
    hide Next, Enabled, LeadsTo;
  }

  /** Only a refresh that is deleting, or has settled, belongs to a window that is signed out. */
  ghost predicate AccountsOk(w: World) {
    forall id | id in w.flights :: At(w, id) && (!Owner(w, id).account ==> Deleting(w.flights[id].pc) || w.flights[id].pc.Settled?)
  }

  lemma AccountsStep(w: World, s: Step)
    requires SingleFlight(w) && AccountsOk(w) && Enabled(w, s)
    ensures AccountsOk(Next(w, s))
  {
    SingleFlightStep(w, s);
    var w' := Next(w, s);
    forall id | id in w'.flights
      ensures At(w', id) && (!Owner(w', id).account ==> Deleting(w'.flights[id].pc) || w'.flights[id].pc.Settled?)
    {
      assert Owned(w', id);
      AccountAfter(w, s, id);
    }
    hide Next, Enabled;
  }

  lemma AccountAfter(w: World, s: Step, id: nat)
    requires SingleFlight(w) && AccountsOk(w) && Enabled(w, s) && At(Next(w, s), id)
    ensures !Owner(Next(w, s), id).account ==> Deleting(Next(w, s).flights[id].pc) || Next(w, s).flights[id].pc.Settled?
  {
    var v := Next(w, s).flights[id].window;
    if Starts(s) {
      StartAccounts(w, s, id);
    } else if Of(s, id) && !s.Finally? {
      MostKeepFlights(w, s);
      if s.Resume? { } else { OwnerMoves(w, s); hide Next; }
    } else {
      if s.Finally? { EndedIsGone(w, s); } else { MostKeepFlights(w, s); }
      OneFlightMoves(w, s, id);
      assert Owned(w, id) && (Within(s) ==> Owned(w, s.id));
      assert Within(s) ==> w.flights[s.id].window != v;
      OthersLeaveWindow(w, s, v);
    }
  }

  lemma StartAccounts(w: World, s: Step, id: nat)
    requires SingleFlight(w) && AccountsOk(w) && Enabled(w, s) && Starts(s) && At(Next(w, s), id)
    ensures !Owner(Next(w, s), id).account ==> Deleting(Next(w, s).flights[id].pc) || Next(w, s).flights[id].pc.Settled?
  {
    StartsAfresh(w, s, id);
  }

  // ---- one win, counted on the run ------------------------------------------

  lemma {:induction false} RunIsDetermined(w0: World, steps: seq<Step>, x: World, y: World)
    requires LeadsTo(w0, steps, x) && LeadsTo(w0, steps, y)
    ensures x == y
    decreases |steps|
  {
    if steps != [] {
      var init, s := steps[..|steps| - 1], steps[|steps| - 1];
      var m :| LeadsTo(w0, init, m) && StepTo(m, s, x);
      var n :| LeadsTo(w0, init, n) && StepTo(n, s, y);
      RunIsDetermined(w0, init, m, n);
    }
    hide Next, Enabled;
  }

  /** A step counts a win of window `v` exactly when it resumes a refresh of it after its store. */
  lemma WinsCounted(w: World, s: Step, v: nat)
    requires SingleFlight(w) && Enabled(w, s) && v < |w.windows|
    ensures v < |Next(w, s).windows|
    ensures Next(w, s).windows[v].wins == w.windows[v].wins + if s.Resume? && w.flights[s.id].window == v then 1 else 0
    ensures Next(w, s).windows[v].launches <= w.windows[v].launches + if s == Launch(v) then 1 else 0
  {
    SameWindows(w, s);
    if Starts(s) {
    } else if Within(s) && w.flights[s.id].window == v {
      if s.Finally? { assert Next(w, s).windows[v] == w.windows[v].(refreshing := None); }
      else if s.Resume? { }
      else { OwnerMoves(w, s); hide Next; }
    } else {
      OthersLeaveWindow(w, s, v);
    }
  }

  lemma {:induction false} WinsGrow(w0: World, steps: seq<Step>, k: nat, x: World, w: World, v: nat, t0: Token)
    requires Initial(w0, t0) && v < |w0.windows| && k <= |steps| && LeadsTo(w0, steps[..k], x) && LeadsTo(w0, steps, w)
    ensures |x.windows| == |w.windows| == |w0.windows| && x.windows[v].wins <= w.windows[v].wins
    decreases |steps| - k
  {
    EveryInterleaving(w0, steps, w, t0);
    EveryInterleaving(w0, steps[..k], x, t0);
    if k == |steps| {
      assert steps[..k] == steps;
      RunIsDetermined(w0, steps, x, w);
    } else {
      var init, s := steps[..|steps| - 1], steps[|steps| - 1];
      var m :| LeadsTo(w0, init, m) && StepTo(m, s, w);
      assert init[..k] == steps[..k];
      EveryInterleaving(w0, init, m, t0);
      WinsGrow(w0, init, k, x, m, v, t0);
      WinsCounted(m, s, v);
    }
    hide Next, Enabled, LeadsTo, SingleFlight;
  }

  lemma {:induction false} LaunchesCounted(w0: World, steps: seq<Step>, w: World, v: nat, t0: Token)
    requires Initial(w0, t0) && v < |w0.windows| && LeadsTo(w0, steps, w) && Launch(v) !in steps
    ensures |w.windows| == |w0.windows| && w.windows[v].launches == 0
    decreases |steps|
  {
    hide Next, Enabled, SingleFlight;
    EveryInterleaving(w0, steps, w, t0);
    if steps != [] {
      var init, s := steps[..|steps| - 1], steps[|steps| - 1];
      var m := LastStep(w0, steps, w);
      assert steps == init + [s] && s in steps && forall x :: x in init ==> x in steps;
      EveryInterleaving(w0, init, m, t0);
      LaunchesCounted(w0, init, m, v, t0);
      WinsCounted(m, s, v);
    }
    hide Next, Enabled, LeadsTo, SingleFlight;
  }

  lemma AfterStep(w0: World, steps: seq<Step>, j: nat, m: World)
    requires WasAt(w0, steps, j, m)
    ensures LeadsTo(w0, steps[..j + 1], Next(m, steps[j]))
  {
    assert steps[..j + 1][..j] == steps[..j] && steps[..j + 1][j] == steps[j];
    assert StepTo(m, steps[j], Next(m, steps[j]));
    hide Next, Enabled;
  }

  /** Step `j` of the run is a rotation of window `v` that was stored. */
  ghost predicate RotationAt(w0: World, steps: seq<Step>, j: nat, v: nat, m: World) {
    WasAt(w0, steps, j, m) && steps[j].Resume? && m.flights[steps[j].id].window == v
  }

  lemma TwoRotationsCount(w0: World, steps: seq<Step>, v: nat, t0: Token, i: nat, x: World, j: nat, y: World)
    requires Initial(w0, t0) && v < |w0.windows| && i < j && RotationAt(w0, steps, i, v, x) && RotationAt(w0, steps, j, v, y)
    ensures LeadsTo(w0, steps[..j + 1], Next(y, steps[j])) && v < |Next(y, steps[j]).windows| && Next(y, steps[j]).windows[v].wins >= 2
  {
    AfterStep(w0, steps, i, x);
    AfterStep(w0, steps, j, y);
    assert steps[..j][..i + 1] == steps[..i + 1];
    EveryInterleaving(w0, steps[..i], x, t0);
    EveryInterleaving(w0, steps[..j], y, t0);
    hide LeadsTo, Next, Enabled, Initial;
    WinsCounted(x, steps[i], v);
    WinsCounted(y, steps[j], v);
    WinsGrow(w0, steps[..j], i + 1, Next(x, steps[i]), y, v, t0);
  }

  /**
   * If window `v` starts refreshes only for callers that sent `t0`, no run holds
   * two rotations of it that were stored.
   */
  lemma OneRotationForOneToken(w0: World, steps: seq<Step>, v: nat, t0: Token, i: nat, x: World, j: nat, y: World)
    requires Initial(w0, t0) && v < |w0.windows| && Launch(v) !in steps && forall s | s in steps :: Sent(s, v, t0)
    requires i <= j && RotationAt(w0, steps, i, v, x) && RotationAt(w0, steps, j, v, y)
    ensures i == j
  {
    hide LeadsTo, Next, Enabled, Initial;
    if i < j {
      var run, w := steps[..j + 1], Next(y, steps[j]);
      TwoRotationsCount(w0, steps, v, t0, i, x, j, y);
      LaunchesCounted(w0, run, w, v, t0);
      OneWinForOneToken(w0, run, w, v, t0);
    }
  }

  // ---- forgetting -----------------------------------------------------------

  /** How many deletes refresh `id` has made. */
  function DeletesOf(steps: seq<Step>, id: nat): nat {
    if steps == [] then 0 else DeletesOf(steps[..|steps| - 1], id) + if steps[|steps| - 1] == DeleteDone(id) then 1 else 0
  }

  /** Where a refresh stands after `n` deletes. */
  predicate DeletesFit(pc: Pc, n: nat) {
    match pc
    case DeletingAccount => n == 1
    case DeletingAccess => n == 2
    case Settled(result) => n == 0 || (n == 3 && result == None)
    case _ => n == 0
  }

  lemma OwnDeletes(w: World, s: Step, n: nat)
    requires Enabled(w, s) && Within(s) && !s.Finally? && At(w, s.id) && DeletesFit(w.flights[s.id].pc, n)
    ensures At(Next(w, s), s.id) && DeletesFit(Next(w, s).flights[s.id].pc, n + if s.DeleteDone? then 1 else 0)
  {
    hide Live, Refusing, Revoking, Spent, Issuing, OtherHolds;
  }

  lemma DeletesStep(w: World, s: Step, id: nat, n: nat)
    requires SingleFlight(w) && Enabled(w, s) && id in Next(w, s).flights
    requires if id in w.flights then DeletesFit(w.flights[id].pc, n) else n == 0
    ensures DeletesFit(Next(w, s).flights[id].pc, n + if s == DeleteDone(id) then 1 else 0)
  {
    assert DeletesFit(Reading, 0);
    hide SingleFlight, DeletesFit;
    if Starts(s) {
      hide Next;
      StartsAfresh(w, s, id);
    } else if s.Finally? {
      EndedIsGone(w, s);
      hide Next;
      if s.id != id { OneFlightMoves(w, s, id); }
    } else {
      MostKeepFlights(w, s);
      if Of(s, id) {
        OwnIsAt(w, s);
        hide Next;
        OwnDeletes(w, s, n);
      } else {
        hide Next;
        OneFlightMoves(w, s, id);
      }
    }
  }

  lemma OwnIsAt(w: World, s: Step)
    requires Enabled(w, s) && Within(s)
    ensures At(w, s.id)
  {
  }

  /** A refresh yet to start has deleted nothing. */
  lemma LaterIds(w: World, s: Step, id: nat)
    requires SingleFlight(w) && Enabled(w, s) && id >= w.nextId
    ensures s != DeleteDone(id) && (id in Next(w, s).flights ==> id < Next(w, s).nextId)
  {
    SingleFlightStep(w, s);
    assert Next(w, s).nextId >= w.nextId by { NextIdGrows(w, s); }
    hide Next;
  }

  lemma {:induction false} DeletesCounted(w0: World, steps: seq<Step>, w: World, t0: Token, id: nat)
    requires Initial(w0, t0) && LeadsTo(w0, steps, w)
    ensures SingleFlight(w) && (id in w.flights ==> DeletesFit(w.flights[id].pc, DeletesOf(steps, id)))
    ensures id >= w.nextId ==> DeletesOf(steps, id) == 0
    decreases |steps|
  {
    EveryInterleaving(w0, steps, w, t0);
    hide Enabled, Next, DeletesFit;
    if steps != [] {
      var init, s := steps[..|steps| - 1], steps[|steps| - 1];
      var m := LastStep(w0, steps, w);
      hide LeadsTo;
      DeletesCounted(w0, init, m, t0, id);
      NextIdGrows(m, s);
      if id >= m.nextId { LaterIds(m, s, id); }
      if id in w.flights {
        if id !in m.flights { NewIsNext(m, s, id); }
        DeletesStep(m, s, id, DeletesOf(init, id));
      }
    }
  }

  lemma NewIsNext(w: World, s: Step, id: nat)
    requires SingleFlight(w) && Enabled(w, s) && id !in w.flights && id in Next(w, s).flights
    ensures id == w.nextId
  {
    hide SingleFlight;
    if Starts(s) { StartsAfresh(w, s, id); }
    else if s.Finally? { EndedIsGone(w, s); }
    else { MostKeepFlights(w, s); }
  }

  /**
   * Over every run a refresh that forgets makes three deletes, the first of which
   * alone empties the shared secret, and settles with nothing after the third.
   */
  lemma ForgetsInThreeSteps(w0: World, steps: seq<Step>, w: World, t0: Token, id: nat)
    requires Initial(w0, t0) && LeadsTo(w0, steps, w) && Enabled(w, DeleteDone(id))
    ensures var n, w' := DeletesOf(steps, id), Next(w, DeleteDone(id));
      && n < 3 && w'.stored == (if n == 0 then None else w.stored) && id in w'.flights
      && (w'.flights[id].pc.Settled? <==> n == 2) && (n == 2 ==> w'.flights[id].pc == Settled(None))
  {
    hide LeadsTo, Initial;
    DeletesCounted(w0, steps, w, t0, id);
  }
}
