// Properties of uninterrupted runs: what the transcript shows and what the
// picture says of each path. Network.dfy takes up drops and reconnects.
module Stream {
  import opened Text
  import opened RunSpec

  // ---- folds ----------------------------------------------------------------

  /** The picture after a run of events, whatever became of their rows. */
  function PictureOf(es: seq<Event>): Picture {
    if es == [] then Blank else Absorb(PictureOf(es[..|es| - 1]), es[|es| - 1].body)
  }

  /** The state after a run of events taken without a drop or a timer. */
  ghost function After(es: seq<Event>): State {
    if es == [] then Fresh else Accept(After(es[..|es| - 1]), es[|es| - 1])
  }

  lemma PictureSnoc(es: seq<Event>, e: Event)
    ensures PictureOf(es + [e]) == Absorb(PictureOf(es), e.body)
  {
    assert (es + [e])[..|es|] == es;
  }

  // ---- the transcript, declared ---------------------------------------------

  /** The next event, from index `i` on, that lets go of a held row. */
  function NextReleasing(es: seq<Event>, i: nat): (r: Option<nat>)
    requires i <= |es|
    ensures r.Some? ==> i <= r.value < |es| && Releasing(es[r.value].body)
    decreases |es| - i
  {
    if i == |es| then None
    else if Releasing(es[i].body) then Some(i)
    else NextReleasing(es, i + 1)
  }

  /** The two sentences a run says twice. */
  predicate SaysAgain(b: Body, next: Body) {
    match b
    case Assistant(text) => next.Plan? && Same(text, next.text)
    case Failure(message) => next.Finish? && Same(message, next.summary)
    case _ => false
  }

  /**
   * The rows event `i` puts into the transcript of `es`. An `assistant` or
   * `error` row is shown unless the next releasing event says it again, and not
   * before that event has come; a result makes a row only if no row can be reached.
   */
  ghost function Shows(es: seq<Event>, i: nat): seq<Row>
    requires i < |es|
    decreases i, 1
  {
    var p, e := PictureOf(es[..i + 1]), es[i];
    match OwnRow(p, e.id, e.body)
    case Some(row) => [row]
    case None =>
      match HeldRow(p, e.id, e.body)
      case Some(row) =>
        var next := NextReleasing(es, i + 1);
        if next.None? || SaysAgain(e.body, es[next.value].body) then [] else [row]
      case None =>
        if e.body.ToolResult? && RowOfCall(Transcript(es, i), e.body.call) == None then
          [OrphanRow(p, e.id, e.body.call, e.body.name)]
        else []
  }

  /** The rows the first `n` events of `es` put into its transcript. */
  ghost function Transcript(es: seq<Event>, n: nat): seq<Row>
    requires n <= |es|
    decreases n, 0
  {
    if n == 0 then [] else Transcript(es, n - 1) + Shows(es, n - 1)
  }

  /** The last event that let go of held rows. */
  function LastReleasing(es: seq<Event>): (r: Option<nat>)
    ensures r.Some? ==> r.value < |es| && Releasing(es[r.value].body)
    ensures r.Some? ==> forall k | r.value < k < |es| :: !Releasing(es[k].body)
    ensures r.None? ==> forall k | 0 <= k < |es| :: !Releasing(es[k].body)
  {
    if es == [] then None
    else if Releasing(es[|es| - 1].body) then Some(|es| - 1)
    else LastReleasing(es[..|es| - 1])
  }

  /** The row still waiting for its twin. */
  function Waiting(es: seq<Event>): Option<Row> {
    match LastReleasing(es)
    case None => None
    case Some(h) => HeldRow(PictureOf(es[..h + 1]), es[h].id, es[h].body)
  }

  lemma {:induction false} NextOfSnoc(es: seq<Event>, e: Event, i: nat)
    requires i <= |es|
    ensures NextReleasing(es + [e], i)
         == if NextReleasing(es, i).Some? then NextReleasing(es, i)
            else if Releasing(e.body) then Some(|es|) else None
    decreases |es| - i
  {
    if i < |es| && !Releasing(es[i].body) { NextOfSnoc(es, e, i + 1); }
  }

  lemma {:induction false} NextWithin(es: seq<Event>, i: nat, j: nat)
    requires i <= j < |es| && Releasing(es[j].body)
    ensures NextReleasing(es, i).Some?
    decreases j - i
  {
    if i < j && !Releasing(es[i].body) { NextWithin(es, i + 1, j); }
  }

  lemma {:induction false} NoNext(es: seq<Event>, i: nat)
    requires i <= |es| && forall k | i <= k < |es| :: !Releasing(es[k].body)
    ensures NextReleasing(es, i) == None
    decreases |es| - i
  {
    if i < |es| { NoNext(es, i + 1); }
  }

  /** The row one more event lets go of: the waiting one, unless the event says it again. */
  function LetGo(es: seq<Event>, e: Event): seq<Row> {
    if Releasing(e.body) && Waiting(es).Some? && !SaysAgain(es[LastReleasing(es).value].body, e.body)
    then [Waiting(es).value] else []
  }

  lemma NoShow(es: seq<Event>, i: nat)
    requires i < |es| && !Releasing(es[i].body)
    ensures Shows(es, i) == []
  {
  }

  /** What an event shows is settled once its next releasing event is known. */
  lemma SameShow(es: seq<Event>, e: Event, i: nat)
    requires i < |es| && NextReleasing(es, i + 1).Some? && Transcript(es + [e], i) == Transcript(es, i)
    ensures Shows(es + [e], i) == Shows(es, i)
  {
    assert (es + [e])[..i + 1] == es[..i + 1] && (es + [e])[i] == es[i];
    NextOfSnoc(es, e, i + 1);
    hide Transcript, PictureOf, RowOfCall;
  }

  /** One more event leaves what earlier events showed alone, but for the waiting row. */
  lemma {:induction false} EarlierRows(es: seq<Event>, e: Event, n: nat)
    requires n <= |es|
    requires LastReleasing(es).Some? ==> n <= LastReleasing(es).value
    ensures Transcript(es + [e], n) == Transcript(es, n)
    decreases n
  {
    if n > 0 {
      hide Shows, PictureOf, NextReleasing;
      var i := n - 1;
      EarlierRows(es, e, i);
      if LastReleasing(es).Some? {
        NextWithin(es, n, LastReleasing(es).value);
        SameShow(es, e, i);
      } else {
        NoShow(es, i);
        NoShow(es + [e], i);
      }
    }
  }

  lemma {:induction false} TailRows(es: seq<Event>, e: Event, n: nat)
    requires n <= |es|
    requires LastReleasing(es).Some? ==> LastReleasing(es).value < n
    ensures Transcript(es + [e], n) == Transcript(es, n) + (if LastReleasing(es).Some? then LetGo(es, e) else [])
    decreases n
  {
    hide Shows, LetGo, LastReleasing;
    var h := LastReleasing(es);
    if h.None? {
      EarlierRows(es, e, n);
    } else if n == h.value + 1 {
      EarlierRows(es, e, h.value);
      AtLastReleasing(es, e, h.value);
    } else {
      var i := n - 1;
      TailRows(es, e, i);
      NoShow(es, i);
      NoShow(es + [e], i);
    }
  }

  lemma AtLastReleasing(es: seq<Event>, e: Event, h: nat)
    requires LastReleasing(es) == Some(h)
    requires Transcript(es + [e], h) == Transcript(es, h)
    ensures Shows(es + [e], h) == Shows(es, h) + LetGo(es, e)
  {
    var more := es + [e];
    assert more[..h + 1] == es[..h + 1] && more[h] == es[h] && more[|es|] == e;
    NoNext(es, h + 1);
    NextOfSnoc(es, e, h + 1);
  }

  /** A held row carries the turn it was held in until the next releasing event. */
  lemma {:induction false} TurnOfWaiting(es: seq<Event>)
    requires LastReleasing(es).Some?
    ensures PictureOf(es[..LastReleasing(es).value + 1]).turn == PictureOf(es).turn
    decreases |es|
  {
    var last := |es| - 1;
    if Releasing(es[last].body) {
      assert es[..last + 1] == es;
    } else {
      TurnOfWaiting(es[..last]);
      var h := LastReleasing(es).value;
      assert es[..last][..h + 1] == es[..h + 1];
    }
  }

  /** The class's own test for a twin, turn included, is the declared one. */
  lemma TwinIsSaidAgain(es: seq<Event>, e: Event)
    requires Waiting(es).Some?
    ensures Twin(Waiting(es).value, PictureOf(es).turn, e.body)
       <==> SaysAgain(es[LastReleasing(es).value].body, e.body)
  {
    TurnOfWaiting(es);
  }

  lemma WaitingSnoc(es: seq<Event>, e: Event)
    ensures Waiting(es + [e])
         == if Releasing(e.body) then HeldRow(PictureOf(es + [e]), e.id, e.body) else Waiting(es)
  {
    var more := es + [e];
    assert more[..|es|] == es && more[..|es| + 1] == more;
    if !Releasing(e.body) && LastReleasing(es).Some? {
      assert more[..LastReleasing(es).value + 1] == es[..LastReleasing(es).value + 1];
    }
  }

  /** What the transcript and the held row look like one event later. */
  lemma TranscriptSnoc(es: seq<Event>, e: Event)
    ensures Transcript(es + [e], |es| + 1) == Transcript(es, |es|) + LetGo(es, e) + Shows(es + [e], |es|)
    ensures Transcript(es + [e], |es|) == Transcript(es, |es|) + LetGo(es, e)
  {
    TailRows(es, e, |es|);
    assert LastReleasing(es).None? ==> LetGo(es, e) == [];
  }

  lemma ShowsLast(es: seq<Event>, e: Event)
    ensures var p := PictureOf(es + [e]);
      Shows(es + [e], |es|)
      == match OwnRow(p, e.id, e.body)
         case Some(row) => [row]
         case None =>
           if e.body.ToolResult? && RowOfCall(Transcript(es + [e], |es|), e.body.call) == None
           then [OrphanRow(p, e.id, e.body.call, e.body.name)] else []
  {
    var more := es + [e];
    assert more[..|es| + 1] == more && more[|es|] == e;
    NoNext(more, |es| + 1);
  }

  /** What is known of a state after a run: rows as declared, the waiting row held. */
  ghost predicate Declared(es: seq<Event>, s: State) {
    s.pic == PictureOf(es) && s.rows == Transcript(es, |es|) && s.held == Waiting(es)
  }

  lemma SettleIsLetGo(es: seq<Event>, s: State, e: Event)
    requires Declared(es, s)
    ensures var t := Settle(s, e.body);
      t.rows == s.rows + LetGo(es, e) && t.held == (if Releasing(e.body) then None else s.held)
      && t.pic == s.pic
  {
    if s.held.Some? { TwinIsSaidAgain(es, e); }
  }

  lemma TransientChangesNothing(es: seq<Event>, e: Event)
    requires Transient(e.body)
    ensures PictureOf(es + [e]) == PictureOf(es)
    ensures Transcript(es + [e], |es| + 1) == Transcript(es, |es|)
    ensures Waiting(es + [e]) == Waiting(es)
  {
    PictureSnoc(es, e);
    AbsorbNothing(PictureOf(es), e.body);
    TranscriptSnoc(es, e);
    NoShow(es + [e], |es|);
    NoLetGo(es, e);
    WaitingSnoc(es, e);
    hide Transcript, Waiting, Shows, PictureOf, LetGo, Absorb;
  }

  lemma AbsorbNothing(p: Picture, b: Body)
    requires Transient(b)
    ensures Absorb(p, b) == p
  {
  }

  lemma NoLetGo(es: seq<Event>, e: Event)
    requires !Releasing(e.body)
    ensures LetGo(es, e) == []
  {
  }

  lemma DeclaredStep(es: seq<Event>, s: State, e: Event)
    requires Declared(es, s)
    ensures Declared(es + [e], Accept(s, e))
  {
    if Transient(e.body) {
      TransientChangesNothing(es, e);
    } else {
      PictureSnoc(es, e);
      SettleIsLetGo(es, s, e);
      TranscriptSnoc(es, e);
      ShowsLast(es, e);
      WaitingSnoc(es, e);
      StoredStep(es, s, e);
    }
  }

  /** The rows and held row a stored event leaves, from the pieces it is made of. */
  lemma StoredStep(es: seq<Event>, s: State, e: Event)
    requires !Transient(e.body)
    requires var t := Settle(s, e.body); t.pic == s.pic && t.held == (if Releasing(e.body) then None else s.held)
    ensures var t, u, p := Settle(s, e.body), Store(s, e), Absorb(s.pic, e.body);
      && u.pic == p
      && u.held == (if Releasing(e.body) then HeldRow(p, e.id, e.body) else s.held)
      && u.rows == t.rows +
           match OwnRow(p, e.id, e.body)
           case Some(row) => [row]
           case None =>
             if e.body.ToolResult? && RowOfCall(t.rows, e.body.call) == None
             then [OrphanRow(p, e.id, e.body.call, e.body.name)] else []
  {
    hide Settle, Absorb;
  }

  /**
   * With no drop and no timer the transcript is the declared one: sentences said
   * twice show once, every other row shows, in order.
   */
  lemma {:induction false} TranscriptIsDeclared(es: seq<Event>)
    ensures Declared(es, After(es))
    decreases |es|
  {
    if es != [] {
      var init, e := es[..|es| - 1], es[|es| - 1];
      TranscriptIsDeclared(init);
      DeclaredStep(init, After(init), e);
      assert init + [e] == es;
    }
  }

  // ---- touched paths --------------------------------------------------------

  function PathOf(r: Report): string {
    match r case Changed(m) => m.path case Named(path) => path
  }

  /** How a path was changed, in order; path-only reports say nothing of it. */
  function Kinds(rs: seq<Report>, path: string): seq<MutationKind> {
    if rs == [] then []
    else
      var r := rs[|rs| - 1];
      Kinds(rs[..|rs| - 1], path) + if r.Changed? && r.mutation.path == path then [r.mutation.kind] else []
  }

  /** A creation at `i` that no later deletion undid. */
  ghost predicate CreatedAt(ks: seq<MutationKind>, i: int) {
    0 <= i < |ks| && ks[i] == Create && forall j | i < j < |ks| :: ks[j] != Delete
  }

  /** Deleted if that came last, else created if a creation still stands, else modified. */
  ghost function Verdict(ks: seq<MutationKind>): Option<MutationKind> {
    if ks == [] then None
    else if ks[|ks| - 1] == Delete then Some(Delete)
    else if exists i :: CreatedAt(ks, i) then Some(Create)
    else Some(Modify)
  }

  lemma VerdictStep(ks: seq<MutationKind>, k: MutationKind)
    ensures Verdict(ks + [k]) == if k == Delete || Verdict(ks) != Some(Create) then Some(k) else Some(Create)
  {
    var more := ks + [k];
    if k == Create { assert CreatedAt(more, |ks|); }
    if k == Modify {
      if i :| CreatedAt(ks, i) && Verdict(ks) == Some(Create) { assert CreatedAt(more, i); }
      if i :| CreatedAt(more, i) {
        assert more[i] == ks[i];
        assert forall j | i < j < |ks| :: ks[j] == more[j];
        assert CreatedAt(ks, i);
        assert ks[|ks| - 1] == more[|ks| - 1];
      }
    }
  }

  ghost predicate Mentioned(rs: seq<Report>, path: string) { exists r :: r in rs && PathOf(r) == path }

  predicate Guards(r: Report, path: string) { r.Changed? && r.mutation.path == path && r.mutation.guarded }

  ghost predicate Guarded(rs: seq<Report>, path: string) { exists r :: r in rs && Guards(r, path) }

  /** What the fold knows of a path is what its reports say of it. */
  ghost predicate Told(rs: seq<Report>, path: string, touched: map<string, Touched>) {
    && (path in touched <==> Mentioned(rs, path))
    && (path in touched ==> touched[path].kind == Verdict(Kinds(rs, path)))
    && (path in touched ==> (touched[path].guarded <==> Guarded(rs, path)))
    && (path !in touched ==> Kinds(rs, path) == [] && !Guarded(rs, path))
  }

  lemma MentionedSnoc(rs: seq<Report>, r: Report, path: string)
    ensures Mentioned(rs + [r], path) <==> Mentioned(rs, path) || PathOf(r) == path
    ensures Guarded(rs + [r], path) <==> Guarded(rs, path) || Guards(r, path)
    ensures Kinds(rs + [r], path)
         == Kinds(rs, path) + if r.Changed? && r.mutation.path == path then [r.mutation.kind] else []
  {
    var more := rs + [r];
    assert more[..|rs|] == rs && more[|rs|] == r && r in more;
    assert forall x :: x in more <==> x in rs || x == r;
  }

  lemma ToldStep(rs: seq<Report>, r: Report, path: string, touched: map<string, Touched>)
    requires Told(rs, path, touched)
    ensures Told(rs + [r], path, Note(touched, r))
  {
    MentionedSnoc(rs, r, path);
    if r.Changed? { VerdictStep(Kinds(rs, path), r.mutation.kind); }
    hide Mentioned, Guarded, Kinds, Verdict;
    assert Verdict([]) == None by { EmptyVerdict(); }
    assert Kinds(rs, path) + [] == Kinds(rs, path);
  }

  lemma EmptyVerdict()
    ensures Verdict([]) == None
  {
  }

  /** For every sequence of reports and every path. */
  lemma {:induction false} PathStory(rs: seq<Report>, path: string)
    ensures Told(rs, path, NoteAll(map[], rs))
    decreases |rs|
  {
    if rs != [] {
      var init, r := rs[..|rs| - 1], rs[|rs| - 1];
      PathStory(init, path);
      assert rs == init + [r];
      ToldStep(init, r, path, NoteAll(map[], init));
    }
  }

  /** Everything a run of events reports about paths. */
  function ReportsOf(es: seq<Event>): seq<Report> {
    if es == [] then []
    else ReportsOf(es[..|es| - 1]) + Reports(PictureOf(es[..|es| - 1]), es[|es| - 1].body)
  }

  lemma {:induction false} NoteAllOfConcat(t: map<string, Touched>, x: seq<Report>, y: seq<Report>)
    ensures NoteAll(t, x + y) == NoteAll(NoteAll(t, x), y)
    decreases |y|
  {
    if y == [] {
      assert x + y == x;
    } else {
      assert (x + y)[..|x + y| - 1] == x + y[..|y| - 1];
      NoteAllOfConcat(t, x, y[..|y| - 1]);
    }
  }

  lemma AbsorbNotes(p: Picture, b: Body)
    ensures Absorb(p, b).touched == NoteAll(p.touched, Reports(p, b))
  {
  }

  /** The touched set of a run is what all its reports, in order, say. */
  lemma {:induction false} TouchedIsTold(es: seq<Event>, path: string)
    ensures PictureOf(es).touched == NoteAll(map[], ReportsOf(es))
    ensures Told(ReportsOf(es), path, PictureOf(es).touched)
    decreases |es|
  {
    PathStory(ReportsOf(es), path);
    if es != [] {
      var init, e := es[..|es| - 1], es[|es| - 1];
      TouchedIsTold(init, path);
      AbsorbNotes(PictureOf(init), e.body);
      NoteAllOfConcat(map[], ReportsOf(init), Reports(PictureOf(init), e.body));
    }
  }
}
