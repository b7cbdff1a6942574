// The approval desk: cards waiting for an answer, a bounded memory of the ones
// already answered, and reconciliation with what the server still holds.
module Approvals {
  import opened Text

  /** How many answered ids are remembered. */
  const ANSWERED_CAP := 500
  /** A held deadline closer than this to the server's is left alone, in milliseconds. */
  const DRIFT := 2000

  /** `auto` is what policy says of the approval; `deadline` what the server says is left. */
  datatype Approval = Approval(id: string, deadline: Option<int>, auto: bool)
  datatype Card = Card(id: string, deadline: Option<int>, warned: bool)

  /**
   * `pending` in insertion order; `answered` in insertion order, oldest first;
   * `history` every id ever added to `answered`.
   */
  datatype Desk = Desk(pending: seq<Card>, answered: seq<string>, history: seq<string>)

  const Empty := Desk([], [], [])

  // ---- the operations, as functions -----------------------------------------

  function Ids(cards: seq<Card>): set<string> { set c | c in cards :: c.id }

  /** `map.delete(id)`. */
  function Without(cards: seq<Card>, id: string): seq<Card> {
    if cards == [] then []
    else Without(cards[..|cards| - 1], id) + if cards[|cards| - 1].id == id then [] else [cards[|cards| - 1]]
  }

  /** `map.set(card.id, card)`: a known key keeps its place. */
  function Put(cards: seq<Card>, card: Card): seq<Card> {
    if cards == [] then [card]
    else if cards[0].id == card.id then [card] + cards[1..]
    else [cards[0]] + Put(cards[1..], card)
  }

  function Latest(ids: seq<string>): seq<string> {
    if |ids| > ANSWERED_CAP then ids[|ids| - ANSWERED_CAP..] else ids
  }

  function Forget(d: Desk, id: string): Desk {
    var d' := d.(pending := Without(d.pending, id));
    if id in d.answered then d' else d'.(answered := Latest(d.answered + [id]), history := d.history + [id])
  }

  function Present(d: Desk, a: Approval): Desk {
    if a.id in Ids(d.pending) || a.id in d.answered then d
    else
      var shown := d.(pending := d.pending + [Card(a.id, a.deadline, false)]);
      if a.auto then Forget(shown, a.id) else shown
  }

  function PresentAll(d: Desk, live: seq<Approval>): Desk {
    if live == [] then d else Present(PresentAll(d, live[..|live| - 1]), live[|live| - 1])
  }

  /** Forget every card of the snapshot that the server no longer holds. */
  function DropStale(d: Desk, cards: seq<Card>, ids: set<string>): Desk {
    if cards == [] then d
    else
      var before, c := DropStale(d, cards[..|cards| - 1], ids), cards[|cards| - 1];
      if c.id in ids then before else Forget(before, c.id)
  }

  /** The countdown is re-anchored when it drifted from the server's. */
  function Anchor(c: Card, stated: Option<int>): Card {
    if stated.None? then c
    else if c.deadline.None? || c.deadline.value - stated.value > DRIFT || stated.value - c.deadline.value > DRIFT
    then c.(deadline := stated, warned := false)
    else c
  }

  function AnchorOne(cards: seq<Card>, a: Approval): (r: seq<Card>)
    ensures |r| == |cards| && forall k | 0 <= k < |cards| :: r[k].id == cards[k].id
  {
    seq(|cards|, k requires 0 <= k < |cards| => if cards[k].id == a.id then Anchor(cards[k], a.deadline) else cards[k])
  }

  function AnchorAll(cards: seq<Card>, live: seq<Approval>): (r: seq<Card>)
    ensures |r| == |cards| && forall k | 0 <= k < |cards| :: r[k].id == cards[k].id
  {
    if live == [] then cards else AnchorOne(AnchorAll(cards, live[..|live| - 1]), live[|live| - 1])
  }

  function LiveIds(live: seq<Approval>): set<string> { set a | a in live :: a.id }

  function Reconcile(d: Desk, live: seq<Approval>): Desk {
    var kept := DropStale(d, d.pending, LiveIds(live));
    PresentAll(kept.(pending := AnchorAll(kept.pending, live)), live)
  }

  // ---- the desk's invariant -------------------------------------------------

  ghost predicate Distinct<T>(xs: seq<T>) { forall i, j | 0 <= i < j < |xs| :: xs[i] != xs[j] }
  ghost predicate DistinctIds(cards: seq<Card>) { forall i, j | 0 <= i < j < |cards| :: cards[i].id != cards[j].id }

  /** One card per id, and the memory is exactly the last 500 ids ever added to it. */
  ghost predicate DeskOk(d: Desk) {
    DistinctIds(d.pending) && Distinct(d.answered) && d.answered == Latest(d.history)
  }

  lemma {:induction false} WithoutIs(cards: seq<Card>, id: string)
    ensures forall c :: c in Without(cards, id) <==> c in cards && c.id != id
    ensures DistinctIds(cards) ==> DistinctIds(Without(cards, id))
    decreases |cards|
  {
    if cards != [] {
      WithoutIs(cards[..|cards| - 1], id);
      var init := cards[..|cards| - 1];
      assert cards == init + [cards[|cards| - 1]];
      if DistinctIds(cards) {
        assert forall c | c in Without(init, id) :: c in init && c.id != cards[|cards| - 1].id;
      }
    }
  }

  lemma IdsOfWithout(cards: seq<Card>, id: string)
    ensures Ids(Without(cards, id)) == Ids(cards) - {id}
  {
    WithoutIs(cards, id);
  }

  lemma LatestStep(history: seq<string>, id: string)
    ensures Latest(Latest(history) + [id]) == Latest(history + [id])
  {
  }

  lemma ForgetOk(d: Desk, id: string)
    requires DeskOk(d)
    ensures DeskOk(Forget(d, id)) && id !in Ids(Forget(d, id).pending) && id in Forget(d, id).answered
    ensures Ids(Forget(d, id).pending) == Ids(d.pending) - {id}
    ensures d.history <= Forget(d, id).history && (forall x | x in Forget(d, id).history :: x in d.history || x == id)
  {
    WithoutIs(d.pending, id);
    IdsOfWithout(d.pending, id);
    LatestStep(d.history, id);
    if id !in d.answered {
      var more := d.answered + [id];
      assert Distinct(more);
      assert Latest(more)[|Latest(more)| - 1] == id;
    }
    assert id in d.answered ==> id in d.history;
  }

  lemma AnsweredIsHistory(d: Desk)
    requires DeskOk(d)
    ensures forall x | x in d.answered :: x in d.history
  {
  }

  lemma PresentOk(d: Desk, a: Approval)
    requires DeskOk(d)
    ensures DeskOk(Present(d, a))
    ensures a.id in Ids(Present(d, a).pending) || a.id in Present(d, a).answered
    ensures Ids(d.pending) <= Ids(Present(d, a).pending) <= Ids(d.pending) + {a.id}
    ensures d.history <= Present(d, a).history
    ensures |Present(d, a).history| <= |d.history| + (if a.auto then 1 else 0)
  {
    if a.id !in Ids(d.pending) && a.id !in d.answered {
      var card := Card(a.id, a.deadline, false);
      var shown := d.(pending := d.pending + [card]);
      assert forall c :: c in shown.pending <==> c in d.pending || c == card;
      assert Ids(shown.pending) == Ids(d.pending) + {a.id} by {
        assert card in shown.pending;
        forall x | x in Ids(shown.pending) ensures x in Ids(d.pending) + {a.id} {
          var c :| c in shown.pending && c.id == x;
        }
        forall x | x in Ids(d.pending) ensures x in Ids(shown.pending) {
          var c :| c in d.pending && c.id == x;
          assert c in shown.pending;
        }
      }
      assert forall k | 0 <= k < |d.pending| :: d.pending[k] in d.pending && d.pending[k].id in Ids(d.pending);
      assert DistinctIds(shown.pending);
      if a.auto { ForgetOk(shown, a.id); }
    }
  }

  // ---- reconciliation -------------------------------------------------------

  lemma {:induction false} DropStaleOk(d: Desk, cards: seq<Card>, ids: set<string>)
    requires DeskOk(d)
    ensures var r := DropStale(d, cards, ids);
      DeskOk(r) && d.history <= r.history && Ids(r.pending) == Ids(d.pending) - (Ids(cards) - ids)
    decreases |cards|
  {
    if cards == [] {
      assert Ids(cards) == {};
    } else {
      var init, c := cards[..|cards| - 1], cards[|cards| - 1];
      DropStaleOk(d, init, ids);
      assert cards == init + [c];
      assert Ids(cards) == Ids(init) + {c.id} by { IdsSnoc(init, c); }
      if c.id !in ids { ForgetOk(DropStale(d, init, ids), c.id); }
    }
  }

  lemma IdsSnoc(cards: seq<Card>, c: Card)
    ensures Ids(cards + [c]) == Ids(cards) + {c.id}
  {
    forall x | x in Ids(cards) ensures x in Ids(cards + [c]) {
      var y :| y in cards && y.id == x;
      assert y in cards + [c];
    }
    assert c in cards + [c];
  }

  lemma SameIds(x: seq<Card>, y: seq<Card>)
    requires |x| == |y| && forall k | 0 <= k < |x| :: x[k].id == y[k].id
    ensures Ids(x) == Ids(y) && (DistinctIds(x) ==> DistinctIds(y))
  {
    forall i | i in Ids(x) ensures i in Ids(y) {
      var k :| 0 <= k < |x| && x[k].id == i;
      assert y[k] in y;
    }
    forall i | i in Ids(y) ensures i in Ids(x) {
      var k :| 0 <= k < |y| && y[k].id == i;
      assert x[k] in x;
    }
  }

  lemma {:induction false} PresentAllOk(d: Desk, live: seq<Approval>)
    requires DeskOk(d)
    ensures var r := PresentAll(d, live);
      && DeskOk(r) && d.history <= r.history
      && Ids(d.pending) <= Ids(r.pending) <= Ids(d.pending) + LiveIds(live)
      && (forall a | a in live :: a.id in Ids(r.pending) || a.id in r.history)
    decreases |live|
  {
    if live == [] {
      assert LiveIds(live) == {};
    } else {
      var init, a := live[..|live| - 1], live[|live| - 1];
      PresentAllOk(d, init);
      PresentOk(PresentAll(d, init), a);
      AnsweredIsHistory(PresentAll(d, live));
      assert live == init + [a];
      assert forall x | x in init :: x in live;
      assert a in live;
      assert LiveIds(init) <= LiveIds(live) && a.id in LiveIds(live);
    }
  }

  /**
   * After a successful poll every card on screen is one the server holds, and
   * every approval the server holds is on screen or was answered here.
   */
  lemma ReconcileAgrees(d: Desk, live: seq<Approval>)
    requires DeskOk(d)
    ensures var r := Reconcile(d, live);
      && DeskOk(r)
      && Ids(r.pending) <= LiveIds(live)
      && (forall a | a in live :: a.id in Ids(r.pending) || a.id in r.history)
      && Ids(d.pending) * LiveIds(live) <= Ids(r.pending)
  {
    var kept := DropStale(d, d.pending, LiveIds(live));
    DropStaleOk(d, d.pending, LiveIds(live));
    var anchored := kept.(pending := AnchorAll(kept.pending, live));
    SameIds(kept.pending, anchored.pending);
    PresentAllOk(anchored, live);
  }

  function Autos(live: seq<Approval>): nat {
    if live == [] then 0 else Autos(live[..|live| - 1]) + if live[|live| - 1].auto then 1 else 0
  }

  lemma PresentRoom(d: Desk, a: Approval)
    requires |d.answered| + (if a.auto then 1 else 0) <= ANSWERED_CAP
    ensures d.answered <= Present(d, a).answered
    ensures |Present(d, a).answered| <= |d.answered| + (if a.auto then 1 else 0)
  {
  }

  /** While the memory has room for the pass, no live approval falls between the two sets. */
  lemma {:induction false} RoomMeansComplete(d: Desk, live: seq<Approval>)
    requires DeskOk(d) && |d.answered| + Autos(live) <= ANSWERED_CAP
    ensures var r := PresentAll(d, live);
      |r.answered| <= |d.answered| + Autos(live) && d.answered <= r.answered
      && forall a | a in live :: a.id in Ids(r.pending) || a.id in r.answered
    decreases |live|
  {
    hide Present, DeskOk;
    if live != [] {
      var init, a := live[..|live| - 1], live[|live| - 1];
      RoomMeansComplete(d, init);
      PresentAllOk(d, init);
      var before := PresentAll(d, init);
      PresentOk(before, a);
      PresentRoom(before, a);
      assert live == init + [a];
    }
  }

  lemma RoomIsEnough(d: Desk, live: seq<Approval>)
    requires DeskOk(d) && |DropStale(d, d.pending, LiveIds(live)).answered| + Autos(live) <= ANSWERED_CAP
    ensures var r := Reconcile(d, live);
      forall a | a in live :: a.id in Ids(r.pending) || a.id in r.answered
  {
    var kept := DropStale(d, d.pending, LiveIds(live));
    DropStaleOk(d, d.pending, LiveIds(live));
    var anchored := kept.(pending := AnchorAll(kept.pending, live));
    SameIds(kept.pending, anchored.pending);
    RoomMeansComplete(anchored, live);
  }

  function IdSeq(live: seq<Approval>): seq<string> {
    seq(|live|, k requires 0 <= k < |live| => live[k].id)
  }

  /** The desk a poll's approvals are presented to. */
  function Anchored(d: Desk, live: seq<Approval>): Desk {
    var kept := DropStale(d, d.pending, LiveIds(live));
    kept.(pending := AnchorAll(kept.pending, live))
  }

  /** Policy answers it on the spot: neither on screen nor remembered. */
  predicate AnsweredAtOnce(d: Desk, a: Approval) { a.auto && a.id !in Ids(d.pending) && a.id !in d.answered }

  /** The ids a pass adds to the memory: of each approval that is answered at once at its turn. */
  function News(d: Desk, live: seq<Approval>): seq<string> {
    if live == [] then []
    else
      var init, a := live[..|live| - 1], live[|live| - 1];
      News(d, init) + if AnsweredAtOnce(PresentAll(d, init), a) then [a.id] else []
  }

  /** Where a remembered id stands in the memory, oldest first. */
  function PlaceOf(ids: seq<string>, id: string): (k: nat)
    requires id in ids
    ensures k < |ids| && ids[k] == id
  {
    if ids[0] == id then 0 else 1 + PlaceOf(ids[1..], id)
  }

  lemma PresentNews(d: Desk, a: Approval)
    ensures Present(d, a).history == d.history + if AnsweredAtOnce(d, a) then [a.id] else []
  {
    assert d.history + [] == d.history;
  }

  lemma {:induction false} PassNews(d: Desk, live: seq<Approval>)
    ensures PresentAll(d, live).history == d.history + News(d, live)
    ensures forall x | x in News(d, live) :: x in LiveIds(live)
    decreases |live|
  {
    if live == [] {
      assert d.history + [] == d.history;
    } else {
      var init, a := live[..|live| - 1], live[|live| - 1];
      PassNews(d, init);
      PresentNews(PresentAll(d, init), a);
      assert live == init + [a] && a in live;
      assert LiveIds(init) <= LiveIds(live) by { assert forall x | x in init :: x in live; }
    }
    hide Present, Forget, AnsweredAtOnce;
  }

  lemma {:induction false} PresentAllConcat(d: Desk, x: seq<Approval>, y: seq<Approval>)
    ensures PresentAll(d, x + y) == PresentAll(PresentAll(d, x), y)
    decreases |y|
  {
    if y == [] {
      assert x + y == x;
    } else {
      assert (x + y)[..|x + y| - 1] == x + y[..|y| - 1];
      PresentAllConcat(d, x, y[..|y| - 1]);
    }
    hide Present;
  }

  /** What a pass leaves on screen of an id it is not about: all that was. */
  lemma PassKeepsOthers(d: Desk, live: seq<Approval>, id: string)
    requires DeskOk(d) && id !in LiveIds(live)
    ensures id in Ids(PresentAll(d, live).pending) <==> id in Ids(d.pending)
  {
    PresentAllOk(d, live);
    hide Present, DeskOk;
  }

  /** An id keeps its place in a growing history until 500 newer ones have come. */
  lemma PushedOut(history: seq<string>, news: seq<string>, id: string)
    requires Distinct(Latest(history)) && id in Latest(history) && id !in news
    ensures id !in Latest(history + news) <==> PlaceOf(Latest(history), id) + ANSWERED_CAP < |Latest(history)| + |news|
  {
    var kept, all := Latest(history), history + news;
    var left := |history| - |kept|;
    var p := PlaceOf(kept, id);
    assert all[left + p] == id;
    assert forall k | 0 <= k < |kept| && k != p :: kept[k] != id;
    assert forall k | left <= k < |all| && k != left + p :: all[k] != id by {
      forall k | left <= k < |all| && k != left + p ensures all[k] != id {
        if k < |history| { assert all[k] == kept[k - left]; } else { assert all[k] == news[k - |history|]; }
      }
    }
    var start := |all| - |Latest(all)|;
    assert forall k | 0 <= k < |Latest(all)| :: Latest(all)[k] == all[start + k];
    if left + p >= start { assert Latest(all)[left + p - start] == id; }
    hide PlaceOf;
  }

  /** After its own turn: not on screen, and so old in the memory that the rest of the pass pushes it out. */
  predicate Squeezed(d: Desk, live: seq<Approval>, m: nat)
    requires m < |live|
  {
    var at, id := PresentAll(Anchored(d, live), live[..m + 1]), live[m].id;
    id !in Ids(at.pending)
    && (id in at.answered ==> PlaceOf(at.answered, id) + ANSWERED_CAP < |at.answered| + |News(at, live[m + 1..])|)
  }

  lemma AnchoredOk(d: Desk, live: seq<Approval>)
    requires DeskOk(d)
    ensures DeskOk(Anchored(d, live)) && Reconcile(d, live) == PresentAll(Anchored(d, live), live)
  {
    DropStaleOk(d, d.pending, LiveIds(live));
    var kept := DropStale(d, d.pending, LiveIds(live));
    SameIds(kept.pending, AnchorAll(kept.pending, live));
  }

  lemma LaterIdsDiffer(live: seq<Approval>, m: nat)
    requires m < |live| && Distinct(IdSeq(live))
    ensures live[m].id !in LiveIds(live[m + 1..])
  {
    var ids := IdSeq(live);
    forall a | a in live[m + 1..] ensures a.id != live[m].id {
      var k :| 0 <= k < |live[m + 1..]| && live[m + 1..][k] == a;
      assert ids[m + 1 + k] == a.id && ids[m] == live[m].id;
    }
  }

  /**
   * A live approval is lost, neither on screen nor remembered after the poll, if
   * and only if it was squeezed out: each live approval that policy answers at
   * its turn pushes one id out of a full memory.
   */
  lemma LostExactly(d: Desk, live: seq<Approval>, m: nat)
    requires DeskOk(d) && Distinct(IdSeq(live)) && m < |live|
    ensures var r, id := Reconcile(d, live), live[m].id;
      id !in Ids(r.pending) && id !in r.answered <==> Squeezed(d, live, m)
  {
    var first, a, rest := live[..m], live[m], live[m + 1..];
    var d0 := Anchored(d, live);
    AnchoredOk(d, live);
    assert live == live[..m + 1] + rest && live[..m + 1] == first + [a] && live[..m + 1][..m] == first;
    PresentAllConcat(d0, live[..m + 1], rest);
    PresentAllOk(d0, first);
    PresentAllOk(d0, live[..m + 1]);
    var at := PresentAll(d0, live[..m + 1]);
    PresentOk(PresentAll(d0, first), a);
    assert at == Present(PresentAll(d0, first), a);
    LaterIdsDiffer(live, m);
    PassKeepsOthers(at, rest, a.id);
    PassNews(at, rest);
    PresentAllOk(at, rest);
    if a.id in at.answered { PushedOut(at.history, News(at, rest), a.id); }
    hide Present, PresentAll, News, Latest, PlaceOf, Reconcile, Anchored, IdSeq;
  }

  /** After a poll each live approval is on screen or remembered, exactly when none was squeezed out. */
  lemma ReconcileComplete(d: Desk, live: seq<Approval>)
    requires DeskOk(d) && Distinct(IdSeq(live))
    ensures var r := Reconcile(d, live);
      (forall a | a in live :: a.id in Ids(r.pending) || a.id in r.answered)
      <==> (forall m | 0 <= m < |live| :: !Squeezed(d, live, m))
  {
    var r := Reconcile(d, live);
    forall m | 0 <= m < |live|
      ensures (live[m].id in Ids(r.pending) || live[m].id in r.answered) <==> !Squeezed(d, live, m)
    {
      LostExactly(d, live, m);
    }
    hide Squeezed, Reconcile, DeskOk, IdSeq;
    if forall m | 0 <= m < |live| :: !Squeezed(d, live, m) {
      forall a | a in live ensures a.id in Ids(r.pending) || a.id in r.answered {
        var m :| 0 <= m < |live| && live[m] == a;
        assert !Squeezed(d, live, m);
      }
    }
  }

  // ---- deadlines ------------------------------------------------------------

  /** A countdown within the drift of the server's. */
  predicate Near(c: Card, stated: int) {
    c.deadline.Some? && -DRIFT <= c.deadline.value - stated <= DRIFT
  }

  lemma {:induction false} AnchoredAreNear(cards: seq<Card>, live: seq<Approval>)
    requires Distinct(IdSeq(live))
    ensures forall k, m | 0 <= k < |cards| && 0 <= m < |live| && cards[k].id == live[m].id && live[m].deadline.Some? ::
      Near(AnchorAll(cards, live)[k], live[m].deadline.value)
    decreases |live|
  {
    if live != [] {
      var init, a := live[..|live| - 1], live[|live| - 1];
      assert IdSeq(live) == IdSeq(init) + [a.id];
      assert forall k | 0 <= k < |init| :: IdSeq(init)[k] == IdSeq(live)[k];
      AnchoredAreNear(cards, init);
      var before := AnchorAll(cards, init);
      forall k, m | 0 <= k < |cards| && 0 <= m < |live| && cards[k].id == live[m].id && live[m].deadline.Some?
        ensures Near(AnchorOne(before, a)[k], live[m].deadline.value)
      {
        if m < |init| {
          assert init[m] == live[m];
          assert IdSeq(live)[m] != IdSeq(live)[|init|];
        }
      }
    }
  }

  /** A pass adds cards only as the server states them. */
  lemma {:induction false} CardsOfPass(d: Desk, live: seq<Approval>)
    ensures forall c | c in PresentAll(d, live).pending ::
      c in d.pending || exists a :: a in live && c == Card(a.id, a.deadline, false)
    decreases |live|
  {
    if live != [] {
      var init, a := live[..|live| - 1], live[|live| - 1];
      CardsOfPass(d, init);
      var before := PresentAll(d, init);
      WithoutIs(before.pending + [Card(a.id, a.deadline, false)], a.id);
      assert a in live && forall x | x in init :: x in live;
      forall c | c in PresentAll(d, live).pending
        ensures c in d.pending || exists a :: a in live && c == Card(a.id, a.deadline, false)
      {
        assert c in before.pending || c == Card(a.id, a.deadline, false);
      }
    }
  }

  lemma OneOfAnId(live: seq<Approval>, i: nat, m: nat)
    requires Distinct(IdSeq(live)) && i < |live| && m < |live| && live[i].id == live[m].id
    ensures i == m
  {
    assert IdSeq(live)[i] == IdSeq(live)[m];
  }

  /** After a poll every card counts down within two seconds of what the server states. */
  lemma AnchorsHold(d: Desk, live: seq<Approval>)
    requires Distinct(IdSeq(live))
    ensures forall c, m | c in Reconcile(d, live).pending && 0 <= m < |live| && c.id == live[m].id && live[m].deadline.Some? ::
      Near(c, live[m].deadline.value)
  {
    var d0 := Anchored(d, live);
    var kept := DropStale(d, d.pending, LiveIds(live)).pending;
    AnchoredAreNear(kept, live);
    CardsOfPass(d0, live);
    forall c, m | c in Reconcile(d, live).pending && 0 <= m < |live| && c.id == live[m].id && live[m].deadline.Some?
      ensures Near(c, live[m].deadline.value)
    {
      if c in d0.pending {
        var k :| 0 <= k < |d0.pending| && d0.pending[k] == c;
        assert kept[k].id == live[m].id;
      } else {
        var a :| a in live && c == Card(a.id, a.deadline, false);
        var i :| 0 <= i < |live| && live[i] == a;
        OneOfAnId(live, i, m);
      }
    }
  }

  // ---- runs -----------------------------------------------------------------

  datatype Step =
    | Show(a: Approval)       // a `tool_pending` event
    | Answer(card: Card)      // the developer decides; the request goes out
    | SendFailed(card: Card)  // the request failed: the card goes back
    | SendGone(card: Card)    // the runtime had let go of it
    | Poll(live: seq<Approval>)

  function Act(d: Desk, s: Step): Desk {
    match s
    case Show(a) => Present(d, a)
    case Answer(card) => Forget(d, card.id)
    case SendFailed(card) => d.(pending := Put(d.pending, card))
    case SendGone(card) => Forget(d, card.id)
    case Poll(live) => Reconcile(d, live)
  }

  function Run(steps: seq<Step>): Desk {
    if steps == [] then Empty else Act(Run(steps[..|steps| - 1]), steps[|steps| - 1])
  }

  lemma {:induction false} PutOk(cards: seq<Card>, card: Card)
    requires DistinctIds(cards)
    ensures DistinctIds(Put(cards, card)) && Ids(Put(cards, card)) == Ids(cards) + {card.id}
    ensures card in Put(cards, card)
    decreases |cards|
  {
    if cards != [] {
      var c, rest := cards[0], cards[1..];
      PutOk(rest, card);
      assert cards == [c] + rest;
      IdsCons(c, rest);
      if c.id == card.id {
        IdsCons(card, rest);
      } else {
        IdsCons(c, Put(rest, card));
        forall k | 0 <= k < |Put(rest, card)| ensures Put(rest, card)[k].id != c.id {
          assert Put(rest, card)[k] in Put(rest, card) && Put(rest, card)[k].id in Ids(rest) + {card.id};
          if Put(rest, card)[k].id in Ids(rest) {
            var x :| x in rest && x.id == Put(rest, card)[k].id;
          }
        }
      }
    }
  }

  lemma IdsCons(c: Card, rest: seq<Card>)
    ensures Ids([c] + rest) == {c.id} + Ids(rest)
  {
    assert c in [c] + rest;
    forall x | x in Ids(rest) ensures x in Ids([c] + rest) {
      var y :| y in rest && y.id == x;
      assert y in [c] + rest;
    }
  }

  lemma ActOk(d: Desk, s: Step)
    requires DeskOk(d)
    ensures DeskOk(Act(d, s))
    ensures s.SendFailed? ==> s.card in Act(d, s).pending
  {
    match s
    case Show(a) => PresentOk(d, a);
    case Answer(card) => ForgetOk(d, card.id);
    case SendFailed(card) => PutOk(d.pending, card);
    case SendGone(card) => ForgetOk(d, card.id);
    case Poll(live) => ReconcileAgrees(d, live);
  }

  lemma {:induction false} RunOk(steps: seq<Step>)
    ensures DeskOk(Run(steps))
    decreases |steps|
  {
    if steps != [] {
      RunOk(steps[..|steps| - 1]);
      ActOk(Run(steps[..|steps| - 1]), steps[|steps| - 1]);
    }
  }

  /** Ids both on screen and remembered as answered. */
  ghost function Overlap(d: Desk): set<string> { set id | id in Ids(d.pending) && id in d.answered }

  lemma ForgetShrinks(d: Desk, id: string)
    ensures Overlap(Forget(d, id)) <= Overlap(d)
  {
    IdsOfWithout(d.pending, id);
    assert forall x | x in Latest(d.answered + [id]) :: x in d.answered || x == id;
  }

  lemma PresentShrinks(d: Desk, a: Approval)
    ensures Overlap(Present(d, a)) <= Overlap(d)
  {
    if a.id !in Ids(d.pending) && a.id !in d.answered {
      var card := Card(a.id, a.deadline, false);
      var shown := d.(pending := d.pending + [card]);
      IdsSnoc(d.pending, card);
      assert Overlap(shown) <= Overlap(d);
      ForgetShrinks(shown, a.id);
    }
  }

  lemma {:induction false} DropStaleShrinks(d: Desk, cards: seq<Card>, ids: set<string>)
    ensures Overlap(DropStale(d, cards, ids)) <= Overlap(d)
    decreases |cards|
  {
    if cards != [] {
      DropStaleShrinks(d, cards[..|cards| - 1], ids);
      ForgetShrinks(DropStale(d, cards[..|cards| - 1], ids), cards[|cards| - 1].id);
    }
  }

  lemma {:induction false} PresentAllShrinks(d: Desk, live: seq<Approval>)
    ensures Overlap(PresentAll(d, live)) <= Overlap(d)
    decreases |live|
  {
    if live != [] {
      PresentAllShrinks(d, live[..|live| - 1]);
      PresentShrinks(PresentAll(d, live[..|live| - 1]), live[|live| - 1]);
    }
  }

  lemma ReconcileShrinks(d: Desk, live: seq<Approval>)
    ensures Overlap(Reconcile(d, live)) <= Overlap(d)
  {
    var kept := DropStale(d, d.pending, LiveIds(live));
    DropStaleShrinks(d, d.pending, LiveIds(live));
    var anchored := kept.(pending := AnchorAll(kept.pending, live));
    SameIds(kept.pending, anchored.pending);
    PresentAllShrinks(anchored, live);
  }

  /** Only a send that failed puts a remembered id on screen. */
  lemma ActShrinks(d: Desk, s: Step)
    requires DeskOk(d)
    ensures Overlap(Act(d, s)) <= Overlap(d) + (if s.SendFailed? then {s.card.id} else {})
  {
    match s
    case Show(a) => PresentShrinks(d, a);
    case Answer(card) => ForgetShrinks(d, card.id);
    case SendFailed(card) => PutOk(d.pending, card);
    case SendGone(card) => ForgetShrinks(d, card.id);
    case Poll(live) => ReconcileShrinks(d, live);
  }

  /** The step answers for the id, or reports how the answer was sent. */
  predicate About(s: Step, id: string) {
    match s
    case Answer(card) => card.id == id
    case SendFailed(card) => card.id == id
    case SendGone(card) => card.id == id
    case _ => false
  }

  function LastAbout(steps: seq<Step>, id: string): Option<Step> {
    if steps == [] then None
    else if About(steps[|steps| - 1], id) then Some(steps[|steps| - 1])
    else LastAbout(steps[..|steps| - 1], id)
  }

  /**
   * Over every run: an id among the last 500 answered is never on screen, unless
   * the last answer given for it failed to send.
   */
  lemma {:induction false} RememberedIsNotShown(steps: seq<Step>, id: string)
    requires id in Latest(Run(steps).history) && id in Ids(Run(steps).pending)
    ensures LastAbout(steps, id).Some? && LastAbout(steps, id).value.SendFailed?
    decreases |steps|
  {
    RunOk(steps);
    if steps != [] {
      var init, s := steps[..|steps| - 1], steps[|steps| - 1];
      RunOk(init);
      ActShrinks(Run(init), s);
      assert id in Overlap(Run(steps));
      if About(s, id) {
        if !s.SendFailed? { ForgetOk(Run(init), id); }
      } else {
        assert id in Overlap(Run(init));
        RememberedIsNotShown(init, id);
      }
    }
  }

  /** Answering cards one after the other. */
  function Answers(ids: seq<string>): seq<Step> {
    seq(|ids|, k requires 0 <= k < |ids| => Answer(Card(ids[k], None, false)))
  }

  lemma {:induction false} AnsweredInOrder(ids: seq<string>)
    requires Distinct(ids)
    ensures Run(Answers(ids)) == Desk([], Latest(ids), ids)
    decreases |ids|
  {
    if ids != [] {
      var init, id := ids[..|ids| - 1], ids[|ids| - 1];
      AnsweredInOrder(init);
      assert Answers(ids) == Answers(init) + [Answer(Card(id, None, false))];
      assert Answers(ids)[..|ids| - 1] == Answers(init);
      assert ids == init + [id];
      assert id !in init by { assert forall k | 0 <= k < |init| :: init[k] == ids[k]; }
      assert id !in Latest(init);
      LatestStep(init, id);
    }
  }

  /**
   * One automatic approval is enough to lose another: once 500 ids are answered,
   * a poll that still lists the oldest of them, and after it one new approval
   * that policy answers, leaves the oldest neither on screen nor remembered.
   */
  lemma OneAutomaticIsEnough(ids: seq<string>, x: Approval, y: Approval)
    requires Distinct(ids) && |ids| == ANSWERED_CAP && x.id == ids[0] && y.id !in ids && y.auto
    ensures var r := Run(Answers(ids) + [Poll([x, y])]);
      x.id !in Ids(r.pending) && x.id !in r.answered
  {
    AnsweredInOrder(ids);
    var steps, live := Answers(ids) + [Poll([x, y])], [x, y];
    assert steps[..|steps| - 1] == Answers(ids);
    var d := Desk([], ids, ids);
    assert Run(steps) == Reconcile(d, live);
    assert Distinct(IdSeq(live));
    assert live[..1] == [x] && live[1..] == [y] && [x][..0] == [] && [y][..0] == [];
    assert AnchorAll([], live) == [];
    assert Anchored(d, live) == d;
    assert PresentAll(d, []) == d;
    assert PresentAll(d, [x]) == Present(d, x) == d;
    assert News(d, [y]) == News(d, []) + [y.id];
    assert PlaceOf(ids, x.id) == 0;
    LostExactly(d, live, 0);
  }

  /**
   * Answering an id again does not renew its place: with a full memory whose
   * oldest id is `id`, one more new id pushes it out even right after a repeat.
   */
  lemma RepeatDoesNotRenew(d: Desk, id: string, other: string)
    requires DeskOk(d) && |d.answered| == ANSWERED_CAP && d.answered[0] == id && other !in d.answered
    ensures id in Forget(d, id).answered && id !in Forget(Forget(d, id), other).answered
  {
    var a := Forget(d, id).answered;
    assert a == d.answered;
    assert Latest(a + [other]) == a[1..] + [other];
  }

  // ---- the object -----------------------------------------------------------

  class Service {
    var pending: seq<Card>
    var answered: seq<string>
    var pollFailing: bool
    ghost var history: seq<string>

    ghost function View(): Desk
      reads this
    {
      Desk(pending, answered, history)
    }

    constructor ()
      ensures View() == Empty && !pollFailing
    {
      pending, answered, pollFailing, history := [], [], false, [];
    }

    predicate Has(id: string)
      reads this
    {
      exists c :: c in pending && c.id == id
    }

    /** Take a card off the screen and remember its id, dropping the oldest past the cap. */
    method ForgetId(id: string)
      requires |answered| <= ANSWERED_CAP
      modifies this`pending, this`answered, this`history
      ensures View() == Forget(old(View()), id) && |answered| <= ANSWERED_CAP
    {
      pending := Without(pending, id);
      if id !in answered {
        answered := answered + [id];
        history := history + [id];
        ghost var all := answered;
        while |answered| > ANSWERED_CAP
          modifies this`answered
          invariant |answered| <= |all| && answered == all[|all| - |answered|..]
          invariant |answered| == |all| || |answered| >= ANSWERED_CAP
        {
          answered := answered[1..];
        }
      }
    }

    /** Put a new approval on screen, unless it is there or was answered; policy may answer at once. */
    method PresentApproval(a: Approval)
      requires |answered| <= ANSWERED_CAP
      modifies this`pending, this`answered, this`history
      ensures View() == Present(old(View()), a) && |answered| <= ANSWERED_CAP
    {
      assert Has(a.id) <==> a.id in Ids(pending);
      if Has(a.id) || a.id in answered { return; }
      pending := pending + [Card(a.id, a.deadline, false)];
      if a.auto { ForgetId(a.id); }
    }

    /** Before the request goes out: the card must not be seen as waiting any more. */
    method Decide(card: Card)
      requires |answered| <= ANSWERED_CAP
      modifies this`pending, this`answered, this`history
      ensures View() == Act(old(View()), Answer(card)) && |answered| <= ANSWERED_CAP
    {
      ForgetId(card.id);
    }

    /** After it came back: a failed send puts the card back, a 410 lets it go. */
    method Decided(card: Card, sent: bool, gone: bool)
      requires |answered| <= ANSWERED_CAP
      modifies this`pending, this`answered, this`history
      ensures |answered| <= ANSWERED_CAP
      ensures View() == if sent then old(View())
                        else if gone then Act(old(View()), SendGone(card))
                        else Act(old(View()), SendFailed(card))
    {
      if sent { return; }
      if gone { ForgetId(card.id); } else { pending := Put(pending, card); }
    }

    /** One poll's answer, or `None` when it failed and nothing may be concluded. */
    method ReconcileWith(reply: Option<seq<Approval>>)
      requires |answered| <= ANSWERED_CAP
      modifies this
      ensures |answered| <= ANSWERED_CAP && pollFailing == reply.None?
      ensures View() == if reply.None? then old(View()) else Act(old(View()), Poll(reply.value))
    {
      pollFailing := reply.None?;
      if reply.None? { return; }
      hide DropStale, AnchorAll, PresentAll, LiveIds, Forget, Present, AnchorOne;
      var live := reply.value;
      var ids := LiveIds(live);
      var snapshot := pending;
      NothingDone(View(), pending, ids);
      for k := 0 to |snapshot|
        invariant |answered| <= ANSWERED_CAP && pollFailing == reply.None?
        invariant View() == DropStale(old(View()), snapshot[..k], ids)
      {
        DropSnoc(old(View()), snapshot, k, ids);
        if snapshot[k].id !in ids { ForgetId(snapshot[k].id); }
      }
      assert snapshot[..|snapshot|] == snapshot;
      ghost var kept := View();
      NothingDone(kept, kept.pending, ids);
      for k := 0 to |live|
        invariant |answered| <= ANSWERED_CAP && pollFailing == reply.None?
        invariant View() == kept.(pending := AnchorAll(kept.pending, live[..k]))
      {
        AnchorSnoc(kept.pending, live, k);
        pending := AnchorOne(pending, live[k]);
      }
      assert live[..|live|] == live;
      ghost var anchored := View();
      NothingDone(anchored, anchored.pending, ids);
      for k := 0 to |live|
        invariant |answered| <= ANSWERED_CAP && pollFailing == reply.None?
        invariant View() == PresentAll(anchored, live[..k])
      {
        PresentSnoc(anchored, live, k);
        PresentApproval(live[k]);
      }
    }
  }

  lemma NothingDone(d: Desk, cards: seq<Card>, ids: set<string>)
    ensures DropStale(d, [], ids) == d && AnchorAll(cards, []) == cards && PresentAll(d, []) == d
  {
  }

  lemma DropSnoc(d: Desk, cards: seq<Card>, k: nat, ids: set<string>)
    requires k < |cards|
    ensures var before := DropStale(d, cards[..k], ids);
      DropStale(d, cards[..k + 1], ids) == if cards[k].id in ids then before else Forget(before, cards[k].id)
  {
    assert cards[..k + 1][..k] == cards[..k];
    hide Forget;
  }

  lemma AnchorSnoc(cards: seq<Card>, live: seq<Approval>, k: nat)
    requires k < |live|
    ensures AnchorAll(cards, live[..k + 1]) == AnchorOne(AnchorAll(cards, live[..k]), live[k])
  {
    assert live[..k + 1][..k] == live[..k];
    hide AnchorOne;
  }

  lemma PresentSnoc(d: Desk, live: seq<Approval>, k: nat)
    requires k < |live|
    ensures PresentAll(d, live[..k + 1]) == Present(PresentAll(d, live[..k]), live[k])
  {
    assert live[..k + 1][..k] == live[..k];
    hide Present;
  }
}
