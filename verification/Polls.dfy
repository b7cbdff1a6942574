// What one poll leaves on the approval desk, card by card: which cards stay and in
// what order, which countdowns are set again, and which cards are added.
module Polls {
  import opened Text
  import opened Approvals

  /** `at` are, in ascending order, exactly the places below `n` that are picked. */
  ghost predicate Places(at: seq<nat>, n: nat, picked: set<nat>) {
    (forall i, j | 0 <= i < j < |at| :: at[i] < at[j]) && (forall k: nat :: k in at <==> k in picked) && forall k | k in picked :: k < n
  }

  // ---- one card taken off or put back ---------------------------------------

  lemma {:induction false} WithoutNone(cards: seq<Card>, id: string)
    requires id !in Ids(cards)
    ensures Without(cards, id) == cards
    decreases |cards|
  {
    if cards != [] {
      var n := |cards| - 1;
      assert cards == cards[..n] + [cards[n]];
      IdsSnoc(cards[..n], cards[n]);
      WithoutNone(cards[..n], id);
    }
  }

  /** Taking a card off the screen leaves the others as they were, in their order. */
  lemma {:induction false} WithoutAt(cards: seq<Card>, k: nat)
    requires DistinctIds(cards) && k < |cards|
    ensures Without(cards, cards[k].id) == cards[..k] + cards[k + 1..]
    decreases |cards|
  {
    var n, id := |cards| - 1, cards[k].id;
    assert cards == cards[..n] + [cards[n]];
    if k == n {
      assert id !in Ids(cards[..n]) by { assert forall j | 0 <= j < n :: cards[j].id != id; }
      WithoutNone(cards[..n], id);
      assert cards[n + 1..] == [];
    } else {
      WithoutAt(cards[..n], k);
      assert cards[k + 1..] == cards[..n][k + 1..] + [cards[n]];
    }
  }

  lemma PutOne(c: Card, rest: seq<Card>, card: Card)
    ensures Put([c] + rest, card) == if c.id == card.id then [card] + rest else [c] + Put(rest, card)
  {
    assert ([c] + rest)[1..] == rest;
  }

  /** A card put back takes the place of the one with its id, or the last place. */
  lemma {:induction false} PutAt(cards: seq<Card>, card: Card)
    requires DistinctIds(cards)
    ensures card.id !in Ids(cards) ==> Put(cards, card) == cards + [card]
    ensures forall k | 0 <= k < |cards| && cards[k].id == card.id :: Put(cards, card) == cards[k := card]
    decreases |cards|
  {
    if cards != [] {
      var c, rest := cards[0], cards[1..];
      PutAt(rest, card);
      PutOne(c, rest, card);
      assert cards == [c] + rest;
      IdsCons(c, rest);
      hide Put, Ids;
      forall k | 0 <= k < |cards| && cards[k].id == card.id ensures Put(cards, card) == cards[k := card] {
        if k > 0 {
          assert rest[k - 1] == cards[k] && c.id != card.id;
          assert cards[k := card] == [c] + rest[k - 1 := card];
        } else {
          assert cards[0 := card] == [card] + rest;
        }
      }
    }
  }

  // ---- the cards that stay --------------------------------------------------

  /** The cards whose ids are not gone. */
  function Remaining(cards: seq<Card>, gone: set<string>): seq<Card> {
    if cards == [] then []
    else
      var c := cards[|cards| - 1];
      Remaining(cards[..|cards| - 1], gone) + if c.id in gone then [] else [c]
  }

  lemma {:induction false} RemainingLess(cards: seq<Card>, gone: set<string>, id: string)
    ensures Without(Remaining(cards, gone), id) == Remaining(cards, gone + {id})
    decreases |cards|
  {
    if cards != [] {
      var init, c := cards[..|cards| - 1], cards[|cards| - 1];
      RemainingLess(init, gone, id);
      var kept := Remaining(init, gone);
      if c.id in gone {
        assert kept + [] == kept;
      } else {
        assert (kept + [c])[..|kept|] == kept;
      }
    }
  }

  lemma {:induction false} RemainingAll(cards: seq<Card>)
    ensures Remaining(cards, {}) == cards
    decreases |cards|
  {
    if cards != [] { RemainingAll(cards[..|cards| - 1]); }
  }

  lemma {:induction false} DropLeaves(d: Desk, cards: seq<Card>, ids: set<string>)
    ensures DropStale(d, cards, ids).pending == Remaining(d.pending, Ids(cards) - ids)
    decreases |cards|
  {
    if cards == [] {
      assert Ids(cards) - ids == {};
      RemainingAll(d.pending);
    } else {
      var init, c := cards[..|cards| - 1], cards[|cards| - 1];
      DropLeaves(d, init, ids);
      hide Remaining, Without;
      assert cards == init + [c];
      IdsSnoc(init, c);
      RemainingLess(d.pending, Ids(init) - ids, c.id);
      if c.id in ids {
        assert Ids(cards) - ids == Ids(init) - ids;
      } else {
        assert Ids(cards) - ids == Ids(init) - ids + {c.id};
      }
    }
  }

  ghost function Staying(cards: seq<Card>, gone: set<string>): set<nat> { set k: nat | k < |cards| && cards[k].id !in gone }

  lemma {:induction false} RemainingPlaces(cards: seq<Card>, gone: set<string>) returns (at: seq<nat>)
    ensures Places(at, |cards|, Staying(cards, gone)) && |at| == |Remaining(cards, gone)|
    ensures forall i | 0 <= i < |at| :: at[i] < |cards| && Remaining(cards, gone)[i] == cards[at[i]]
    decreases |cards|
  {
    at := [];
    if cards != [] {
      var n := |cards| - 1;
      at := RemainingPlaces(cards[..n], gone);
      assert cards == cards[..n] + [cards[n]];
      assert forall k: nat :: k in Staying(cards, gone) <==> k in Staying(cards[..n], gone) || (k == n && cards[n].id !in gone);
      assert forall i | 0 <= i < |at| :: at[i] in at;
      if cards[n].id !in gone { at := at + [n]; }
    }
  }

  // ---- the countdowns -------------------------------------------------------

  ghost predicate Within(c: Card, stated: int) { c.deadline.Some? && -2000 <= c.deadline.value - stated <= 2000 }

  /** No approval of this id states a deadline further than two seconds from the card's. */
  ghost predicate NoDrift(c: Card, live: seq<Approval>) {
    forall a | a in live && a.id == c.id && a.deadline.Some? :: Within(c, a.deadline.value)
  }

  ghost predicate AllState(id: string, live: seq<Approval>, stated: int) {
    (exists a :: a in live && a.id == id) && forall a | a in live && a.id == id :: a.deadline == Some(stated)
  }

  /**
   * What becomes of a card that stays: while nothing drifted it is left alone, its
   * warning too; otherwise it counts down to what the server states and may warn again.
   */
  ghost predicate Anchors(c: Card, live: seq<Approval>, r: Card) {
    && r.id == c.id && (NoDrift(c, live) ==> r == c)
    && forall stated | AllState(c.id, live, stated) && !Within(c, stated) :: r == Card(c.id, Some(stated), false)
  }

  lemma {:induction false} CardAnchors(cards: seq<Card>, live: seq<Approval>, k: nat)
    requires k < |cards|
    ensures Anchors(cards[k], live, AnchorAll(cards, live)[k])
    decreases |live|
  {
    if live != [] {
      var init, a, c := live[..|live| - 1], live[|live| - 1], cards[k];
      CardAnchors(cards, init, k);
      assert live == init + [a];
      var r := AnchorAll(cards, init)[k];
      assert AnchorAll(cards, live)[k] == if r.id == a.id then Anchor(r, a.deadline) else r;
      assert forall x | x in init :: x in live;
      hide AnchorAll;
      forall stated | AllState(c.id, live, stated) && !Within(c, stated)
        ensures (if r.id == a.id then Anchor(r, a.deadline) else r) == Card(c.id, Some(stated), false)
      {
        if exists x :: x in init && x.id == c.id { assert AllState(c.id, init, stated); }
      }
    }
  }

  // ---- the cards that are added ---------------------------------------------

  /** An approval gets a card at its turn when it is not shown, not remembered, and not answered by policy. */
  ghost predicate GetsCard(d: Desk, live: seq<Approval>, m: nat)
    requires m < |live|
  {
    !live[m].auto && live[m].id !in Ids(PresentAll(d, live[..m]).pending) && live[m].id !in PresentAll(d, live[..m]).answered
  }

  ghost function Added(d: Desk, live: seq<Approval>): set<nat> { set m: nat | m < |live| && GetsCard(d, live, m) }

  lemma PresentAdds(d: Desk, a: Approval)
    ensures Present(d, a).pending == d.pending
      + if !a.auto && a.id !in Ids(d.pending) && a.id !in d.answered then [Card(a.id, a.deadline, false)] else []
  {
    if a.id !in Ids(d.pending) {
      var shown := d.pending + [Card(a.id, a.deadline, false)];
      assert shown[..|d.pending|] == d.pending;
      WithoutNone(d.pending, a.id);
    }
  }

  /** The cards of a pass are those there were, and after them the added ones. */
  ghost predicate Appended(before: seq<Card>, live: seq<Approval>, at: seq<nat>, after: seq<Card>) {
    && |after| == |before| + |at| && after[..|before|] == before
    && forall i | 0 <= i < |at| :: at[i] < |live| && after[|before| + i] == Card(live[at[i]].id, live[at[i]].deadline, false)
  }

  lemma AppendOne(before: seq<Card>, live: seq<Approval>, at: seq<nat>, after: seq<Card>)
    requires live != [] && Appended(before, live[..|live| - 1], at, after)
    ensures Appended(before, live, at, after)
    ensures var n := |live| - 1; Appended(before, live, at + [n], after + [Card(live[n].id, live[n].deadline, false)])
  {
  }

  lemma {:induction false} PassAdds(d: Desk, live: seq<Approval>) returns (at: seq<nat>)
    ensures Places(at, |live|, Added(d, live)) && Appended(d.pending, live, at, PresentAll(d, live).pending)
    decreases |live|
  {
    at := [];
    if live != [] {
      var n := |live| - 1;
      var before := PresentAll(d, live[..n]);
      at := PassAdds(d, live[..n]);
      PresentAdds(before, live[n]);
      AppendOne(d.pending, live, at, before.pending);
      AddedSnoc(d, live);
      assert PresentAll(d, live) == Present(before, live[n]);
      hide Added, PresentAll, Present, Appended;
      assert forall i | 0 <= i < |at| :: at[i] in at;
      if GetsCard(d, live, n) {
        at := at + [n];
      } else {
        assert before.pending + [] == before.pending;
      }
    }
  }

  lemma GetsCardEarly(d: Desk, live: seq<Approval>, n: nat, m: nat)
    requires m < n <= |live|
    ensures GetsCard(d, live[..n], m) == GetsCard(d, live, m)
  {
    assert live[..n][..m] == live[..m];
  }

  lemma AddedSnoc(d: Desk, live: seq<Approval>)
    requires live != []
    ensures var n := |live| - 1; Added(d, live) == Added(d, live[..n]) + (if GetsCard(d, live, n) then {n} else {})
  {
    var n := |live| - 1;
    forall m: nat | m < n ensures GetsCard(d, live[..n], m) == GetsCard(d, live, m) { GetsCardEarly(d, live, n, m); }
    hide GetsCard;
  }

  // ---- the poll -------------------------------------------------------------

  /**
   * After a poll: first the cards whose approvals are still live, in the order they
   * had, each anchored as it should be; then the added ones, in the server's order.
   */
  lemma PollLeaves(d: Desk, live: seq<Approval>) returns (kept: seq<nat>, added: seq<nat>, still: seq<Card>)
    ensures Places(kept, |d.pending|, set k: nat | k < |d.pending| && d.pending[k].id in LiveIds(live))
    ensures |still| == |kept| && forall i | 0 <= i < |kept| :: kept[i] < |d.pending| && Anchors(d.pending[kept[i]], live, still[i])
    ensures Places(added, |live|, Added(Anchored(d, live), live)) && Appended(still, live, added, Reconcile(d, live).pending)
  {
    var ids, d0 := LiveIds(live), Anchored(d, live);
    DropLeaves(d, d.pending, ids);
    var gone := Ids(d.pending) - ids;
    kept := RemainingPlaces(d.pending, gone);
    StayingAreLive(d.pending, ids);
    var rest := Remaining(d.pending, gone);
    still := AnchorAll(rest, live);
    assert d0.pending == still;
    assert Reconcile(d, live) == PresentAll(d0, live);
    added := PassAdds(d0, live);
    hide Reconcile, PresentAll, AnchorAll, Anchored, DropStale, Remaining, Anchors, Added, Staying, Appended, Places;
    forall i | 0 <= i < |kept| ensures kept[i] < |d.pending| && Anchors(d.pending[kept[i]], live, still[i]) {
      CardAnchors(rest, live, i);
    }
  }

  lemma StayingAreLive(cards: seq<Card>, ids: set<string>)
    ensures Staying(cards, Ids(cards) - ids) == set k: nat | k < |cards| && cards[k].id in ids
  {
    assert forall k | 0 <= k < |cards| :: cards[k] in cards;
  }

  /** What forgetting remembers: a new id last, an old one where it was, and never more than 500. */
  lemma ForgetRemembers(d: Desk, id: string)
    requires DeskOk(d)
    ensures var r := Forget(d, id);
      && r.history == d.history + (if id in d.answered then [] else [id])
      && |r.answered| == (if |r.history| < 500 then |r.history| else 500)
      && forall i: nat | i < |r.answered| :: r.answered[i] == r.history[|r.history| - |r.answered| + i]
  {
    ForgetOk(d, id);
  }
}
