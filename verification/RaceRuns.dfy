// Runs from a sound start that end a family or a sign-in: both directions of the
// race between two windows, a lost answer, and what the retry can still save.
module RaceRuns {
  import opened Text
  import opened Auth
  import opened Races
  import opened Answers

  lemma Extend(w0: World, steps: seq<Step>, m: World, s: Step)
    requires LeadsTo(w0, steps, m) && Enabled(m, s)
    ensures LeadsTo(w0, steps + [s], Next(m, s))
  {
    assert (steps + [s])[..|steps|] == steps;
    assert StepTo(m, s, Next(m, s));
    hide Next, Enabled;
  }

  lemma Begin(w0: World)
    ensures LeadsTo(w0, [], w0)
  {
  }

  lemma LaunchIs(w: World, v: nat)
    requires v < |w.windows| && w.windows[v].account && w.windows[v].refreshing == None
    ensures Enabled(w, Launch(v))
    ensures Next(w, Launch(v))
         == w.(windows := w.windows[v := w.windows[v].(refreshing := Some(w.nextId), launches := w.windows[v].launches + 1)],
               flights := w.flights[w.nextId := Flight(v, false, Reading, [], [])], nextId := w.nextId + 1)
  {
  }

  lemma ReadIs(w: World, id: nat)
    requires At(w, id) && w.flights[id].pc.Reading? && w.flights[id].sent == [] && w.stored.Some?
    ensures Enabled(w, ReadDone(id))
    ensures var x, w' := w.stored.value, Next(w, ReadDone(id));
      w' == w.(flights := w.flights[id := w.flights[id].(pc := Posting(x), sent := [x])],
               overlaps := w.overlaps + if OtherHolds(w, id) then 1 else 0)
  {
    hide OtherHolds;
    assert [] + [w.stored.value] == [w.stored.value];
  }

  /** A window starts a refresh and reads the secret. */
  lemma LaunchAndRead(w0: World, before: seq<Step>, w: World, v: nat) returns (steps: seq<Step>, w': World)
    requires LeadsTo(w0, before, w) && v < |w.windows| && w.windows[v].account && w.windows[v].refreshing == None
    requires w.stored.Some? && w.nextId !in w.flights
    ensures LeadsTo(w0, steps, w') && steps == before + [Launch(v)] + [ReadDone(w.nextId)]
    ensures w' == w.(windows := w.windows[v := w.windows[v].(refreshing := Some(w.nextId), launches := w.windows[v].launches + 1)],
                     flights := w.flights[w.nextId := Flight(v, false, Posting(w.stored.value), [w.stored.value], [])],
                     nextId := w.nextId + 1, overlaps := w.overlaps + if OtherHolds(w, w.nextId) then 1 else 0)
  {
    hide LeadsTo, Next, Enabled, OtherHolds;
    var id := w.nextId;
    LaunchIs(w, v);
    var w1 := Next(w, Launch(v));
    Extend(w0, before, w, Launch(v));
    ReadIs(w1, id);
    w' := Next(w1, ReadDone(id));
    Extend(w0, before + [Launch(v)], w1, ReadDone(id));
    steps := before + [Launch(v)] + [ReadDone(id)];
    assert w'.flights == w.flights[id := Flight(v, false, Posting(w.stored.value), [w.stored.value], [])];
    StartHoldsNothing(w, w1, id);
  }

  lemma StartHoldsNothing(w: World, w1: World, id: nat)
    requires id !in w.flights && id in w1.flights && w1.flights == w.flights[id := w1.flights[id]]
    ensures OtherHolds(w1, id) <==> OtherHolds(w, id)
  {
    forall k | k in w.flights ensures k in w1.flights && (k != id ==> w1.flights[k] == w.flights[k]) { }
    if OtherHolds(w, id) {
      var k :| k in w.flights && k != id && Holding(w.flights[k].pc);
      assert k in w1.flights && Holding(w1.flights[k].pc);
    }
  }

  lemma PresentIs(w: World, id: nat)
    requires At(w, id) && w.flights[id].pc.Posting? && Live(w.gateway, w.flights[id].pc.sent)
    ensures Enabled(w, Present(id, true))
    ensures var x := w.flights[id].pc.sent;
      Next(w, Present(id, true))
      == w.(gateway := Spent(w.gateway, x), flights := w.flights[id := w.flights[id].(pc := Checking(w.gateway.records[x].family))])
  {
    hide Spent;
  }

  lemma IssueIs(w: World, id: nat)
    requires At(w, id) && w.flights[id].pc.Checking?
    ensures Enabled(w, Issue(id))
    ensures var f := w.flights[id];
      Next(w, Issue(id))
      == w.(gateway := Issuing(w.gateway, f.pc.family, w.issued + 1), issued := w.issued + 2,
            flights := w.flights[id := f.(pc := Storing(w.issued + 1, w.issued + 2), replies := f.replies + [Accepted])])
  {
    hide Issuing;
  }

  /** A live token is presented, spent, and its successor issued. */
  lemma PresentAndIssue(w0: World, before: seq<Step>, w: World, id: nat) returns (steps: seq<Step>, w': World)
    requires LeadsTo(w0, before, w) && At(w, id) && w.flights[id].pc.Posting? && Live(w.gateway, w.flights[id].pc.sent)
    ensures LeadsTo(w0, steps, w') && steps == before + [Present(id, true)] + [Issue(id)]
    ensures var x, f := w.flights[id].pc.sent, w.flights[id];
      w' == w.(gateway := Issuing(Spent(w.gateway, x), w.gateway.records[x].family, w.issued + 1), issued := w.issued + 2,
               flights := w.flights[id := f.(pc := Storing(w.issued + 1, w.issued + 2), replies := f.replies + [Accepted])])
  {
    hide LeadsTo, Spent, Issuing, Next, Enabled;
    PresentIs(w, id);
    var w1 := Next(w, Present(id, true));
    Extend(w0, before, w, Present(id, true));
    IssueIs(w1, id);
    w' := Next(w1, Issue(id));
    Extend(w0, before + [Present(id, true)], w1, Issue(id));
    steps := before + [Present(id, true)] + [Issue(id)];
    var f := w.flights[id];
    assert w'.flights == w.flights[id := f.(pc := Storing(w.issued + 1, w.issued + 2), replies := f.replies + [Accepted])];
  }

  /** A first request that is refused. */
  lemma PresentRefused(w0: World, before: seq<Step>, w: World, id: nat) returns (steps: seq<Step>, w': World)
    requires LeadsTo(w0, before, w) && At(w, id) && w.flights[id].pc.Posting? && !Live(w.gateway, w.flights[id].pc.sent)
    requires |w.flights[id].sent| == 1 && w.flights[id].replies == []
    ensures LeadsTo(w0, steps, w') && steps == before + [Present(id, true)]
    ensures var f := w.flights[id];
      w' == w.(gateway := Refusing(w.gateway, f.pc.sent),
               flights := w.flights[id := f.(pc := Rereading(f.sent[0]), replies := [Rejected])])
  {
    w' := Next(w, Present(id, true));
    Extend(w0, before, w, Present(id, true));
    steps := before + [Present(id, true)];
    hide LeadsTo, Refusing;
    assert [] + [Rejected] == [Rejected];
  }

  /** The successor is stored. */
  lemma Stored(w0: World, before: seq<Step>, w: World, id: nat) returns (steps: seq<Step>, w': World)
    requires LeadsTo(w0, before, w) && At(w, id) && w.flights[id].pc.Storing?
    ensures LeadsTo(w0, steps, w') && steps == before + [StoreDone(id)]
    ensures var f := w.flights[id];
      w' == w.(stored := Some(f.pc.refresh), flights := w.flights[id := f.(pc := Rotated(f.pc.access))])
  {
    w' := Next(w, StoreDone(id));
    Extend(w0, before, w, StoreDone(id));
    steps := before + [StoreDone(id)];
    hide LeadsTo;
  }

  /** The re-read finds another token, which is refused too. */
  lemma RetryRefused(w0: World, before: seq<Step>, w: World, id: nat) returns (steps: seq<Step>, w': World)
    requires LeadsTo(w0, before, w) && At(w, id) && w.flights[id].pc.Rereading? && |w.flights[id].sent| == 1
    requires w.flights[id].replies == [Rejected]
    requires w.stored.Some? && w.stored.value != w.flights[id].pc.spent && !Live(w.gateway, w.stored.value)
    ensures LeadsTo(w0, steps, w') && steps == before + [RereadDone(id)] + [Present(id, true)]
    ensures |w'.windows| == |w.windows| && !w'.windows[w.flights[id].window].account
    ensures forall v | 0 <= v < |w.windows| && v != w.flights[id].window :: w'.windows[v] == w.windows[v]
    ensures w'.gateway == Refusing(w.gateway, w.stored.value) && w'.stored == w.stored && w'.overlaps == w.overlaps
    ensures id in w'.flights && w'.flights[id].pc == DeletingRefresh && w'.flights[id].replies == [Rejected, Rejected]
  {
    hide LeadsTo, Refusing;
    var w1 := Next(w, RereadDone(id));
    Extend(w0, before, w, RereadDone(id));
    w' := Next(w1, Present(id, true));
    Extend(w0, before + [RereadDone(id)], w1, Present(id, true));
    steps := before + [RereadDone(id)] + [Present(id, true)];
    assert [Rejected] + [Rejected] == [Rejected, Rejected];
  }

  /** The re-read finds the token just refused: forget. */
  lemma SameAgain(w0: World, before: seq<Step>, w: World, id: nat) returns (steps: seq<Step>, w': World)
    requires LeadsTo(w0, before, w) && At(w, id) && w.flights[id].pc.Rereading? && w.stored == Some(w.flights[id].pc.spent)
    ensures LeadsTo(w0, steps, w') && steps == before + [RereadDone(id)]
    ensures |w'.windows| == |w.windows| && !w'.windows[w.flights[id].window].account
    ensures w'.gateway == w.gateway && w'.stored == w.stored && w'.overlaps == w.overlaps && w'.issued == w.issued
    ensures w'.nextFamily == w.nextFamily
    ensures id in w'.flights && w'.flights[id] == w.flights[id].(pc := DeletingRefresh)
  {
    hide LeadsTo;
    w' := Next(w, RereadDone(id));
    Extend(w0, before, w, RereadDone(id));
    steps := before + [RereadDone(id)];
  }

  /** Once spent, the token's next presentation ends the family, with its successor. */
  lemma SpentTwice(w0: World, x: Token, r: Token)
    requires w0.gateway == Gateway(map[x := Record(0, false)], {}, map[x := 0]) && r != x
    ensures var g := Issuing(Spent(w0.gateway, x), 0, r);
      && Live(w0.gateway, x) && Live(g, r) && !Live(g, x)
      && 0 in Refusing(g, x).revoked && !Live(Refusing(g, x), r) && !Live(Refusing(g, x), x)
      && Refusing(Refusing(g, x), r) == Refusing(g, x)
  {
    var g := Issuing(Spent(w0.gateway, x), 0, r);
    assert g.records[x] == Record(0, true);
    assert Refusing(g, x) == Revoking(g, 0);
    assert r !in Revoking(g, 0).records;
  }

  lemma OneHolds(w: World, w1: World)
    requires w.flights == map[] && w1.flights.Keys == {0} && w1.flights[0].pc.Posting?
    ensures !OtherHolds(w, 0) && OtherHolds(w1, 1)
  {
    assert 0 in w1.flights && Holding(w1.flights[0].pc);
  }

  lemma LosslessSnoc(steps: seq<Step>, s: Step)
    requires AllLossless(steps) && Lossless(s)
    ensures AllLossless(steps + [s])
  {
  }

  /** What is used of a sound start. */
  lemma StartIs(w0: World, t0: Token)
    requires Initial(w0, t0)
    ensures w0.stored.Some? && w0.stored.value <= w0.issued && w0.flights == map[] && w0.overlaps == 0
    ensures w0.gateway == Gateway(map[w0.stored.value := Record(0, false)], {}, map[w0.stored.value := 0])
    ensures forall v | 0 <= v < |w0.windows| :: w0.windows[v].account && w0.windows[v].refreshing == None
    ensures Live(w0.gateway, w0.stored.value) && AllLossless([])
  {
  }

  /** The refresh of window `v` that has posted `x`. */
  function Asking(v: nat, x: Token): Flight { Flight(v, false, Posting(x), [x], []) }

  /** Two windows have read the same secret. */
  lemma BothRead(w0: World, t0: Token) returns (steps: seq<Step>, w: World)
    requires Initial(w0, t0) && w0.nextId == 0 && |w0.windows| >= 2
    ensures LeadsTo(w0, steps, w) && AllLossless(steps)
    ensures |w.windows| == |w0.windows| && w.windows[0].account && w.windows[1].account
    ensures w.stored == w0.stored && w.gateway == w0.gateway && w.issued == w0.issued && w.overlaps == 1
    ensures w.flights == map[0 := Asking(0, w0.stored.value), 1 := Asking(1, w0.stored.value)]
  {
    StartIs(w0, t0);
    Begin(w0);
    hide LeadsTo, Next, Enabled, OtherHolds, Initial, AllLossless;
    var s1, w1 := LaunchAndRead(w0, [], w0, 0);
    OneHolds(w0, w1);
    var s2, w2 := LaunchAndRead(w0, s1, w1, 1);
    LosslessSnoc([], Launch(0));
    LosslessSnoc([] + [Launch(0)], ReadDone(0));
    LosslessSnoc(s1, Launch(1));
    LosslessSnoc(s1 + [Launch(1)], ReadDone(1));
    steps, w := s2, w2;
  }

  /** One of them rotates and stores. */
  lemma OtherRotates(w0: World, before: seq<Step>, w: World, x: Token) returns (steps: seq<Step>, w': World)
    requires LeadsTo(w0, before, w) && |w.windows| >= 2 && w.gateway == Gateway(map[x := Record(0, false)], {}, map[x := 0])
    requires w.flights == map[0 := Asking(0, x), 1 := Asking(1, x)] && x <= w.issued
    ensures LeadsTo(w0, steps, w') && steps == before + [Present(1, true)] + [Issue(1)] + [StoreDone(1)]
    ensures w'.windows == w.windows && w'.overlaps == w.overlaps && w'.stored == Some(w.issued + 1)
    ensures w'.gateway == Issuing(Spent(w.gateway, x), 0, w.issued + 1)
    ensures At(w', 0) && w'.flights[0] == Asking(0, x)
  {
    hide LeadsTo, Spent, Issuing, Refusing, Live, Next, Enabled;
    SpentTwice(w, x, w.issued + 1);
    var s3, w3 := PresentAndIssue(w0, before, w, 1);
    steps, w' := Stored(w0, s3, w3, 1);
  }

  /**
   * Another window rotates and stores between our read and our request: the
   * request ends the family, the re-read finds the successor, and that is refused
   * too. One rotation elsewhere signs this window out, and leaves the other with
   * a secret that is over.
   */
  lemma RotatedBeforeWePost(w0: World, t0: Token) returns (steps: seq<Step>, w: World)
    requires Initial(w0, t0) && w0.nextId == 0 && |w0.windows| >= 2
    ensures LeadsTo(w0, steps, w) && AllLossless(steps)
    ensures |w.windows| == |w0.windows| && !w.windows[0].account && w.windows[1].account
    ensures 0 in w.gateway.revoked && !StoredLive(w) && w.overlaps == 1
    ensures 0 in w.flights && w.flights[0].pc == DeletingRefresh && w.flights[0].replies == [Rejected, Rejected]
  {
    StartIs(w0, t0);
    hide LeadsTo, Spent, Issuing, Refusing, Live, Next, Enabled, Initial, AllLossless, Lossless;
    var x, r := w0.stored.value, w0.issued + 1;
    SpentTwice(w0, x, r);
    var s2, w2 := BothRead(w0, t0);
    var s4, w4 := OtherRotates(w0, s2, w2, x);
    LosslessSnoc(s2, Present(1, true));
    LosslessSnoc(s2 + [Present(1, true)], Issue(1));
    LosslessSnoc(s2 + [Present(1, true)] + [Issue(1)], StoreDone(1));
    var s5, w5 := PresentRefused(w0, s4, w4, 0);
    LosslessSnoc(s4, Present(0, true));
    steps, w := RetryRefused(w0, s5, w5, 0);
    LosslessSnoc(s5, RereadDone(0));
    LosslessSnoc(s5 + [RereadDone(0)], Present(0, true));
  }

  /** Our window is granted a successor. */
  lemma WeAreGranted(w0: World, t0: Token) returns (steps: seq<Step>, w: World)
    requires Initial(w0, t0) && w0.nextId == 0 && |w0.windows| >= 1
    ensures LeadsTo(w0, steps, w) && AllLossless(steps)
    ensures |w.windows| == |w0.windows| && w.windows[0].account && (forall v | 1 <= v < |w.windows| :: w.windows[v] == w0.windows[v])
    ensures w.windows[0].refreshing == Some(0) && w.nextId == 1 && w.overlaps == 0 && w.stored == w0.stored && w.issued == w0.issued + 2
    ensures w.gateway == Issuing(Spent(w0.gateway, w0.stored.value), 0, w0.issued + 1)
    ensures w.flights == map[0 := Flight(0, false, Storing(w0.issued + 1, w0.issued + 2), [w0.stored.value], [Accepted])]
  {
    StartIs(w0, t0);
    Begin(w0);
    assert [] + [Accepted] == [Accepted];
    hide LeadsTo, Next, Enabled, OtherHolds, Spent, Issuing, Live, Initial, AllLossless;
    var s1, w1 := LaunchAndRead(w0, [], w0, 0);
    AloneHolds(w0, 0);
    steps, w := PresentAndIssue(w0, s1, w1, 0);
    LosslessSnoc([], Launch(0));
    LosslessSnoc([] + [Launch(0)], ReadDone(0));
    LosslessSnoc(s1, Present(0, true));
    LosslessSnoc(s1 + [Present(0, true)], Issue(0));
  }

  lemma StoringHolds(w: World)
    requires 0 in w.flights && w.flights[0].pc.Storing?
    ensures OtherHolds(w, 1)
  {
    assert Holding(w.flights[0].pc);
  }

  /** Another window reads the token already spent and presents it. */
  lemma LateReader(w0: World, before: seq<Step>, w: World, x: Token) returns (steps: seq<Step>, w': World)
    requires LeadsTo(w0, before, w) && AllLossless(before) && |w.windows| >= 2 && w.stored == Some(x) && !Live(w.gateway, x)
    requires w.windows[1].account && w.windows[1].refreshing == None && w.nextId == 1
    requires w.flights.Keys == {0} && w.flights[0].pc.Storing? && w.flights[0].window == 0
    ensures LeadsTo(w0, steps, w') && AllLossless(steps)
    ensures |w'.windows| == |w.windows| && w'.windows[0] == w.windows[0] && w'.windows[1].account
    ensures w'.gateway == Refusing(w.gateway, x) && w'.stored == w.stored && w'.overlaps == w.overlaps + 1
    ensures At(w', 0) && w'.flights[0] == w.flights[0]
  {
    hide LeadsTo, Refusing, Live, Next, Enabled, OtherHolds, AllLossless, Lossless;
    StoringHolds(w);
    var s2, w2 := LaunchAndRead(w0, before, w, 1);
    LosslessSnoc(before, Launch(1));
    LosslessSnoc(before + [Launch(1)], ReadDone(1));
    steps, w' := PresentRefused(w0, s2, w2, 1);
    LosslessSnoc(s2, Present(1, true));
  }

  /** What a second presentation of our token would do, once we were granted its successor. */
  lemma GrantedInTime(w0: World, t0: Token) returns (steps: seq<Step>, w: World)
    requires Initial(w0, t0) && w0.nextId == 0 && |w0.windows| >= 2
    ensures LeadsTo(w0, steps, w) && AllLossless(steps)
    ensures |w.windows| == |w0.windows| && w.windows[0].account && w.windows[1].account && w.windows[1].refreshing == None
    ensures w.nextId == 1 && w.overlaps == 0 && w.stored == w0.stored
    ensures w.flights == map[0 := Flight(0, false, Storing(w0.issued + 1, w0.issued + 2), [w0.stored.value], [Accepted])]
    ensures var g, x := w.gateway, w0.stored.value;
      !Live(g, x) && 0 in Refusing(g, x).revoked && !Live(Refusing(g, x), w0.issued + 1)
  {
    StartIs(w0, t0);
    hide LeadsTo, Spent, Issuing, Refusing, Live, Next, Enabled, AllLossless, Initial;
    SpentTwice(w0, w0.stored.value, w0.issued + 1);
    steps, w := WeAreGranted(w0, t0);
  }

  /**
   * The other direction: another window reads and posts between the gateway's
   * answer to us and our store. The family ends although we were granted our
   * successor, and the secret we then store is over.
   */
  lemma ReadBeforeWeStore(w0: World, t0: Token) returns (steps: seq<Step>, w: World)
    requires Initial(w0, t0) && w0.nextId == 0 && |w0.windows| >= 2
    ensures LeadsTo(w0, steps, w) && AllLossless(steps)
    ensures |w.windows| == |w0.windows| && w.windows[0].account && w.windows[1].account
    ensures 0 in w.gateway.revoked && !StoredLive(w) && w.overlaps == 1 && w.stored == Some(w0.issued + 1)
    ensures 0 in w.flights && w.flights[0].replies == [Accepted] && w.flights[0].pc == Rotated(w0.issued + 2)
  {
    hide LeadsTo, Spent, Issuing, Refusing, Live, Next, Enabled, AllLossless, Lossless, OtherHolds;
    var x := w0.stored.value;
    var s1, w1 := GrantedInTime(w0, t0);
    hide Initial;
    var s3, w3 := LateReader(w0, s1, w1, x);
    steps, w := StoredLate(w0, s3, w3, 0);
  }

  lemma StoredLate(w0: World, before: seq<Step>, w: World, id: nat) returns (steps: seq<Step>, w': World)
    requires LeadsTo(w0, before, w) && AllLossless(before) && At(w, id) && w.flights[id].pc.Storing?
    ensures LeadsTo(w0, steps, w') && AllLossless(steps)
    ensures w'.windows == w.windows && w'.gateway == w.gateway && w'.overlaps == w.overlaps
    ensures w'.stored == Some(w.flights[id].pc.refresh)
    ensures id in w'.flights && w'.flights[id] == w.flights[id].(pc := Rotated(w.flights[id].pc.access))
  {
    hide LeadsTo, AllLossless, Next, Enabled;
    steps, w' := Stored(w0, before, w, id);
    LosslessSnoc(before, StoreDone(id));
  }

  lemma MissIs(w0: World, before: seq<Step>, w: World, id: nat) returns (steps: seq<Step>, w': World)
    requires LeadsTo(w0, before, w) && At(w, id) && w.flights[id].pc.Storing? && w.flights == map[id := w.flights[id]]
    ensures LeadsTo(w0, steps, w') && steps == before + [Miss(id)] + [Finally(id)]
    ensures var v := w.flights[id].window;
      w' == w.(windows := w.windows[v := w.windows[v].(refreshing := None)], flights := map[])
  {
    hide LeadsTo;
    var w1 := Next(w, Miss(id));
    Extend(w0, before, w, Miss(id));
    w' := Next(w1, Finally(id));
    Extend(w0, before + [Miss(id)], w1, Finally(id));
    steps := before + [Miss(id)] + [Finally(id)];
    assert w'.flights == map[];
  }

  /**
   * No other window is needed: once a rotated token is lost or cannot be stored,
   * the next refresh presents the spent one, which ends the family and signs the
   * window out.
   */
  lemma LostAnswerEndsFamily(w0: World, t0: Token) returns (steps: seq<Step>, w: World)
    requires Initial(w0, t0) && w0.nextId == 0 && |w0.windows| == 1
    ensures LeadsTo(w0, steps, w)
    ensures |w.windows| == 1 && !w.windows[0].account && w.overlaps == 0
    ensures 0 in w.gateway.revoked && !StoredLive(w)
    ensures 1 in w.flights && w.flights[1].pc == DeletingRefresh && w.flights[1].replies == [Rejected]
  {
    StartIs(w0, t0);
    hide LeadsTo, Spent, Issuing, Refusing, Live, Next, Enabled, OtherHolds, Initial;
    var x, r := w0.stored.value, w0.issued + 1;
    SpentTwice(w0, x, r);
    var s1, w1 := WeAreGranted(w0, t0);
    var s2, w2 := MissIs(w0, s1, w1, 0);
    var s3, w3 := LaunchAndRead(w0, s2, w2, 0);
    AloneHolds(w2, 1);
    var s4, w4 := PresentRefused(w0, s3, w3, 1);
    steps, w := SameAgain(w0, s4, w4, 1);
  }

  lemma AloneHolds(w: World, id: nat)
    requires w.flights == map[]
    ensures !OtherHolds(w, id)
  {
  }

  // ---- a new sign-in --------------------------------------------------------

  /** A sign-out elsewhere, and a new sign-in, between our read and our request. */
  lemma SignedInAnew(w0: World, t0: Token) returns (steps: seq<Step>, w: World)
    requires Initial(w0, t0) && w0.nextId == 0 && |w0.windows| >= 1
    ensures LeadsTo(w0, steps, w)
    ensures |w.windows| == |w0.windows| && w.windows[0].account && w.issued == w0.issued + 1
    ensures w.flights == map[0 := Asking(0, w0.stored.value)] && w.stored == Some(w0.issued + 1)
    ensures w.gateway.records == map[w0.issued + 1 := Record(1, false)] && w.gateway.revoked == {0}
  {
    hide LeadsTo;
    Begin(w0);
    var s1, w1 := LaunchAndRead(w0, [], w0, 0);
    Extend(w0, s1, w1, Revoke(0));
    var w2 := Next(w1, Revoke(0));
    assert w2.gateway.records == map[];
    Extend(w0, s1 + [Revoke(0)], w2, SignIn);
    steps, w := s1 + [Revoke(0)] + [SignIn], Next(w2, SignIn);
  }

  /** This is what the retry is good for: the token re-read is of the new sign-in, and granted. */
  lemma RetrySavesNewSignIn(w0: World, t0: Token) returns (steps: seq<Step>, w: World)
    requires Initial(w0, t0) && w0.nextId == 0 && |w0.windows| >= 1
    ensures LeadsTo(w0, steps, w)
    ensures 0 in w.flights && w.flights[0].replies == [Rejected, Accepted] && w.flights[0].pc.Storing?
    ensures |w.windows| >= 1 && w.windows[0].account && Live(w.gateway, w.flights[0].pc.refresh)
  {
    hide LeadsTo;
    var s1, w1 := SignedInAnew(w0, t0);
    var s2, w2 := PresentRefused(w0, s1, w1, 0);
    var s3, w3 := RereadFinds(w0, s2, w2, 0);
    steps, w := PresentAndIssue(w0, s3, w3, 0);
    assert [Rejected] + [Accepted] == [Rejected, Accepted];
  }

  lemma RereadFinds(w0: World, before: seq<Step>, w: World, id: nat) returns (steps: seq<Step>, w': World)
    requires LeadsTo(w0, before, w) && At(w, id) && w.flights[id].pc.Rereading?
    requires w.stored.Some? && w.stored.value != w.flights[id].pc.spent
    ensures LeadsTo(w0, steps, w') && steps == before + [RereadDone(id)]
    ensures var f := w.flights[id];
      w' == w.(flights := w.flights[id := f.(pc := Posting(w.stored.value), sent := f.sent + [w.stored.value])])
  {
    hide LeadsTo;
    w' := Next(w, RereadDone(id));
    Extend(w0, before, w, RereadDone(id));
    steps := before + [RereadDone(id)];
  }

  /**
   * What a refused refresh deletes, if it is live, is of another sign-in than the
   * token it was refused for.
   */
  lemma DeletesAnotherSignIn(w: World, id: nat)
    requires Sound(w) && id in w.flights && w.flights[id].pc == DeletingRefresh && w.flights[id].replies != [] && StoredLive(w)
    ensures w.stored.value in w.gateway.minted && w.flights[id].sent != [] && w.flights[id].sent[0] in w.gateway.minted
    ensures w.gateway.minted[w.stored.value] != w.gateway.minted[w.flights[id].sent[0]]
  {
    var f, g, x := w.flights[id], w.gateway, w.stored.value;
    assert FlightOk(f) && RetryOk(w, f);
    assert f.replies[0] in f.replies;
    assert LiveIn(g, x, g.minted[x]);
  }

  /** And it can be: a sign-in stored after the re-read is deleted with its live token. */
  lemma NewSignInIsDeleted(w0: World, t0: Token) returns (steps: seq<Step>, w: World, w': World)
    requires Initial(w0, t0) && w0.nextId == 0 && |w0.windows| >= 1
    ensures LeadsTo(w0, steps, w) && LeadsTo(w0, steps + [DeleteDone(0)], w')
    ensures StoredLive(w) && w'.stored == None && Live(w'.gateway, w.stored.value)
  {
    hide LeadsTo, Next, Enabled, Initial;
    var s4, w4 := SignedOutThenRefused(w0, t0);
    SignInIs(w4);
    Extend(w0, s4, w4, SignIn);
    w := Next(w4, SignIn);
    steps := s4 + [SignIn];
    DeleteIs(w, 0);
    Extend(w0, steps, w, DeleteDone(0));
    w' := Next(w, DeleteDone(0));
  }

  lemma SignInIs(w: World)
    requires w.nextFamily !in w.gateway.revoked
    ensures Enabled(w, SignIn)
    ensures var w' := Next(w, SignIn); w'.flights == w.flights && w'.windows == w.windows && StoredLive(w')
  {
  }

  lemma DeleteIs(w: World, id: nat)
    requires At(w, id) && w.flights[id].pc == DeletingRefresh
    ensures Enabled(w, DeleteDone(id)) && Next(w, DeleteDone(id)).stored == None && Next(w, DeleteDone(id)).gateway == w.gateway
  {
  }

  /** A refresh whose family was signed out elsewhere is refused and forgets. */
  lemma SignedOutThenRefused(w0: World, t0: Token) returns (steps: seq<Step>, w: World)
    requires Initial(w0, t0) && w0.nextId == 0 && |w0.windows| >= 1
    ensures LeadsTo(w0, steps, w) && At(w, 0) && w.flights[0].pc == DeletingRefresh
    ensures w.nextFamily !in w.gateway.revoked
  {
    StartIs(w0, t0);
    var start := w0.nextFamily;
    assert start == 1;
    hide LeadsTo, Initial;
    Begin(w0);
    var s1, w1 := LaunchAndRead(w0, [], w0, 0);
    Extend(w0, s1, w1, Revoke(0));
    var w2 := Next(w1, Revoke(0));
    assert w2.gateway.records == map[] && w2.gateway.revoked == {0};
    hide Next, Enabled;
    var s3, w3 := PresentRefused(w0, s1 + [Revoke(0)], w2, 0);
    steps, w := SameAgain(w0, s3, w3, 0);
  }

  // ---- a caller that joins too late -----------------------------------------

  lemma NoAnswerIs(w: World, id: nat)
    requires At(w, id) && w.flights[id].pc.Posting?
    ensures Enabled(w, NoAnswer(id))
    ensures var w' := Next(w, NoAnswer(id));
      w'.windows == w.windows && id in w'.flights && w'.flights[id].pc == Settled(Owner(w, id).access)
  {
  }

  /** A refresh that gave up answers a caller that joins it before it is taken down with the very token refused. */
  lemma JoinedTooLate(w0: World, t0: Token) returns (steps: seq<Step>, w: World)
    requires Initial(w0, t0) && w0.nextId == 0 && |w0.windows| >= 1 && w0.windows[0].access == Some(t0)
    ensures LeadsTo(w0, steps, w) && |w.windows| >= 1 && ToldOn401(w, 0, t0) == WaitFor(0)
    ensures 0 in w.flights && w.flights[0].pc == Settled(Some(t0))
  {
    StartIs(w0, t0);
    Begin(w0);
    hide LeadsTo, Next, Enabled, Initial, OtherHolds;
    var s1, w1 := LaunchAndRead(w0, [], w0, 0);
    NoAnswerIs(w1, 0);
    Extend(w0, s1, w1, NoAnswer(0));
    steps, w := s1 + [NoAnswer(0)], Next(w1, NoAnswer(0));
  }
}
