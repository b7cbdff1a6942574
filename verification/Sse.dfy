// The event-stream parser: an incremental reader over chunks that may be cut
// anywhere, proved equal to decoding the whole text at once.
module Sse {
  import opened Text

  /** An event's data: absent, a decoded value, or the note that a bad frame was skipped. */
  datatype Payload<J> = Empty | Json(value: J) | Skipped
  datatype Event<J> = Event(id: int, kind: string, data: Payload<J>)

  /**
   * The two readers the runtime lends the parser: `Number`, with `None` where it
   * gives a falsy number, and `JSON.parse`, with `None` where it throws.
   */
  datatype Host<!J> = Host(number: string -> Option<int>, json: string -> Option<J>)

  // ---- one frame ------------------------------------------------------------

  datatype Fields = Fields(id: int, kind: string, data: seq<string>)

  function Assign<J>(host: Host<J>, lastId: int, f: Fields, name: string, value: string): Fields {
    if name == "id" then f.(id := match host.number(value) case Some(n) => n case None => lastId)
    else if name == "event" then f.(kind := value)
    else if name == "data" then f.(data := f.data + [value])
    else f
  }

  /** One line of a frame: a comment or blank changes nothing, a field is assigned. */
  function Field<J>(host: Host<J>, lastId: int, f: Fields, raw: string): Fields {
    var line := if EndsWith(raw, '\r') then raw[..|raw| - 1] else raw;
    if line == "" || line[0] == ':' then f
    else
      match IndexOf(line, ':')
      case None => Assign(host, lastId, f, line, "")
      case Some(colon) =>
        var value := line[colon + 1..];
        Assign(host, lastId, f, line[..colon], if StartsWith(value, ' ') then value[1..] else value)
  }

  function FieldsOf<J>(host: Host<J>, lastId: int, lines: seq<string>): Fields {
    if lines == [] then Fields(lastId, "", [])
    else Field(host, lastId, FieldsOf(host, lastId, lines[..|lines| - 1]), lines[|lines| - 1])
  }

  /** What the fields of a frame amount to: nothing, an event, or a skipped one. */
  function EventOf<J>(host: Host<J>, f: Fields): Option<Event<J>> {
    if f.kind == "" && f.data == [] then None
    else if f.data == [] then Some(Event(f.id, f.kind, Empty))
    else
      match host.json(Join(f.data, "\n"))
      case None => Some(Event(f.id, if f.kind == "" then "error" else f.kind, Skipped))
      case Some(v) => Some(Event(f.id, if f.kind == "" then "message" else f.kind, Json(v)))
  }

  function Decoded<J>(host: Host<J>, frame: string, lastId: int): Option<Event<J>> {
    EventOf(host, FieldsOf(host, lastId, Split(frame, '\n')))
  }

  lemma NoFields<J>(host: Host<J>, lastId: int)
    ensures FieldsOf(host, lastId, []) == Fields(lastId, "", [])
  {
  }

  lemma FieldsSnoc<J>(host: Host<J>, lastId: int, lines: seq<string>, raw: string)
    ensures FieldsOf(host, lastId, lines + [raw]) == Field(host, lastId, FieldsOf(host, lastId, lines), raw)
  {
    assert (lines + [raw])[..|lines|] == lines;
  }

  method DecodeFrame<J>(host: Host<J>, frame: string, lastId: int) returns (r: Option<Event<J>>)
    ensures r == Decoded(host, frame, lastId)
  {
    hide FieldsOf, Split, Join, IndexOf;
    var id, kind, data: seq<string> := lastId, "", [];
    var lines := Split(frame, '\n');
    NoFields(host, lastId);
    for k := 0 to |lines|
      invariant Fields(id, kind, data) == FieldsOf(host, lastId, lines[..k])
    {
      assert lines[..k + 1] == lines[..k] + [lines[k]];
      FieldsSnoc(host, lastId, lines[..k], lines[k]);
      var raw := lines[k];
      var line := if EndsWith(raw, '\r') then raw[..|raw| - 1] else raw;
      if line == "" || line[0] == ':' { continue; }
      var colon := IndexOf(line, ':');
      var name := if colon.None? then line else line[..colon.value];
      var value := if colon.None? then "" else line[colon.value + 1..];
      if StartsWith(value, ' ') { value := value[1..]; }
      if name == "id" {
        var n := host.number(value);
        id := if n.Some? then n.value else lastId;
      } else if name == "event" {
        kind := value;
      } else if name == "data" {
        data := data + [value];
      }
      assert Fields(id, kind, data) == Assign(host, lastId, FieldsOf(host, lastId, lines[..k]), name, value);
    }
    assert lines[..|lines|] == lines;
    if kind == "" && data == [] { return None; }
    if data == [] { return Some(Event(id, kind, Empty)); }
    var parsed := host.json(Join(data, "\n"));
    if parsed.None? { return Some(Event(id, if kind == "" then "error" else kind, Skipped)); }
    return Some(Event(id, if kind == "" then "message" else kind, Json(parsed.value)));
  }

  // ---- frames ---------------------------------------------------------------

  /** Where the first blank line is: `s.indexOf('\n\n')`. */
  function Boundary(s: string): (r: Option<nat>)
    ensures r.Some? ==> r.value + 2 <= |s|
  {
    if |s| < 2 then None
    else if s[0] == '\n' && s[1] == '\n' then Some(0)
    else
      var k :- Boundary(s[1..]);
      Some(k + 1)
  }

  /** The complete frames of a text, and what is left after the last. */
  function Frames(s: string): seq<string>
    decreases |s|
  {
    match Boundary(s)
    case None => []
    case Some(b) => [s[..b]] + Frames(s[b + 2..])
  }

  function Rest(s: string): string
    decreases |s|
  {
    match Boundary(s)
    case None => s
    case Some(b) => Rest(s[b + 2..])
  }

  lemma {:induction false} BoundaryOfConcat(x: string, y: string)
    requires Boundary(x).Some?
    ensures Boundary(x + y) == Boundary(x)
    decreases |x|
  {
    if !(x[0] == '\n' && x[1] == '\n') {
      assert (x + y)[1..] == x[1..] + y;
      BoundaryOfConcat(x[1..], y);
    }
  }

  lemma FirstFrame(s: string)
    ensures match Boundary(s)
      case None => Frames(s) == [] && Rest(s) == s
      case Some(b) => b + 2 <= |s| && Frames(s) == [s[..b]] + Frames(s[b + 2..]) && Rest(s) == Rest(s[b + 2..])
  {
  }

  /** What is left over only matters through what follows it. */
  lemma {:induction false} FramesOfConcat(x: string, y: string)
    ensures Frames(x + y) == Frames(x) + Frames(Rest(x) + y)
    ensures Rest(x + y) == Rest(Rest(x) + y)
    decreases |x|
  {
    hide Boundary;
    match Boundary(x)
    case None =>
      assert Frames(x) == [] && Rest(x) == x;
      assert [] + Frames(x + y) == Frames(x + y);
    case Some(b) =>
      BoundaryOfConcat(x, y);
      assert (x + y)[..b] == x[..b];
      assert (x + y)[b + 2..] == x[b + 2..] + y;
      FramesOfConcat(x[b + 2..], y);
  }

  lemma {:induction false} RestIsPartial(x: string)
    ensures Boundary(Rest(x)) == None && Frames(Rest(x)) == []
    decreases |x|
  {
    match Boundary(x)
    case None =>
    case Some(b) => RestIsPartial(x[b + 2..]);
  }

  lemma {:induction false} CrClosesNothing(x: string)
    requires Boundary(x) == None
    ensures Boundary(x + "\r") == None
    decreases |x|
  {
    if x != "" {
      assert (x + "\r")[1..] == x[1..] + "\r";
      CrClosesNothing(x[1..]);
    }
  }

  // ---- the whole stream -----------------------------------------------------

  /** The id the next frame inherits. */
  function LastId<J>(host: Host<J>, frames: seq<string>): int {
    if frames == [] then 0
    else
      var before := LastId(host, frames[..|frames| - 1]);
      match Decoded(host, frames[|frames| - 1], before)
      case None => before
      case Some(e) => e.id
  }

  function Events<J>(host: Host<J>, frames: seq<string>): seq<Event<J>> {
    if frames == [] then []
    else
      var init := frames[..|frames| - 1];
      Events(host, init) +
      match Decoded(host, frames[|frames| - 1], LastId(host, init))
      case None => []
      case Some(e) => [e]
  }

  /** Decode a whole text in one go: fold line ends, cut frames, decode each. */
  function Decode<J>(host: Host<J>, text: string): seq<Event<J>> {
    Events(host, Frames(FoldCrLf(text)))
  }

  lemma {:induction false} EventsOfPrefix<J>(host: Host<J>, x: seq<string>, y: seq<string>)
    ensures Events(host, x) <= Events(host, x + y)
    decreases |y|
  {
    if y == [] {
      assert x + y == x;
    } else {
      var init := y[..|y| - 1];
      assert (x + y)[..|x + y| - 1] == x + init;
      EventsOfPrefix(host, x, init);
    }
  }

  /** The text without the CR that is held back at its end. */
  function Body(seen: string): string {
    if EndsWith(seen, '\r') then seen[..|seen| - 1] else seen
  }

  /** Holding a final CR back hides no frame. */
  lemma HeldCrHidesNothing(seen: string)
    ensures Frames(FoldCrLf(seen)) == Frames(FoldCrLf(Body(seen)))
  {
    if EndsWith(seen, '\r') {
      var body := Body(seen);
      assert seen == body + "\r";
      FoldOfConcat(body, "\r");
      assert FoldCrLf("\r") == "\r" by { FoldChar('\r', ""); assert ['\r'] + "" == "\r"; }
      FramesOfConcat(FoldCrLf(body), "\r");
      RestIsPartial(FoldCrLf(body));
      CrClosesNothing(Rest(FoldCrLf(body)));
    }
  }

  /** More text never changes the events already decoded. */
  lemma DecodeOfPrefix<J>(host: Host<J>, text: string, more: string)
    ensures Decode(host, text) <= Decode(host, text + more)
  {
    HeldCrHidesNothing(text);
    var body := Body(text);
    var tail := text[|body|..] + more;
    assert text + more == body + tail;
    FoldOfBody(text, more);
    FramesOfConcat(FoldCrLf(body), FoldCrLf(tail));
    EventsOfPrefix(host, Frames(FoldCrLf(body)), Frames(Rest(FoldCrLf(body)) + FoldCrLf(tail)));
  }

  /** The body never ends where a CRLF could be cut. */
  lemma FoldOfBody(seen: string, more: string)
    ensures FoldCrLf(seen + more) == FoldCrLf(Body(seen)) + FoldCrLf(seen[|Body(seen)|..] + more)
  {
    var body := Body(seen);
    var tail := seen[|body|..] + more;
    assert seen + more == body + tail;
    FoldOfConcat(body, tail);
  }

  /** The same stream with CRLF line ends decodes to the same events. */
  lemma CrLfDecodesAlike<J>(host: Host<J>, text: string)
    requires forall k | 0 <= k < |text| - 1 :: !(text[k] == '\r' && text[k + 1] == '\n')
    ensures Decode(host, ToCrLf(text)) == Decode(host, text)
  {
    FoldOfToCrLf(text);
    FoldWithoutPair(text);
  }

  // ---- the incremental parser -----------------------------------------------

  class Parser<J> {
    const host: Host<J>
    var buffer: string
    var pendingCr: bool
    var lastId: int
    /** Everything read so far. */
    ghost var seen: string

    ghost predicate Valid()
      reads this
    {
      && pendingCr == EndsWith(seen, '\r')
      && buffer == Rest(FoldCrLf(Body(seen)))
      && lastId == LastId(host, Frames(FoldCrLf(Body(seen))))
    }

    constructor (host: Host<J>)
      ensures Valid() && this.host == host && seen == ""
    {
      this.host, buffer, pendingCr, lastId, seen := host, "", false, 0, "";
    }

    /** Decode every complete frame in the buffer and keep what follows the last. */
    method Drain(ghost before: seq<string>) returns (out: seq<Event<J>>)
      requires lastId == LastId(host, before)
      modifies this`buffer, this`lastId
      ensures buffer == Rest(old(buffer))
      ensures lastId == LastId(host, before + Frames(old(buffer)))
      ensures Events(host, before + Frames(old(buffer))) == Events(host, before) + out
    {
      hide Decoded, LastId, Events, Frames, Rest, Boundary;
      ghost var done: seq<string> := [];
      out := [];
      assert before + done == before;
      var boundary := Boundary(buffer);
      while boundary.Some?
        invariant boundary == Boundary(buffer)
        invariant done + Frames(buffer) == Frames(old(buffer)) && Rest(buffer) == Rest(old(buffer))
        invariant lastId == LastId(host, before + done)
        invariant Events(host, before + done) == Events(host, before) + out
        decreases |buffer|
      {
        FirstFrame(buffer);
        var frame := buffer[..boundary.value];
        buffer := buffer[boundary.value + 2..];
        var parsed := DecodeFrame(host, frame, lastId);
        EventsSnoc(host, before + done, frame);
        assert before + (done + [frame]) == (before + done) + [frame];
        done := done + [frame];
        if parsed.Some? {
          lastId := parsed.value.id;
          out := out + [parsed.value];
        }
        boundary := Boundary(buffer);
      }
      FirstFrame(buffer);
      assert done == Frames(old(buffer));
    }

    /** Read one chunk, wherever it was cut, and yield the events it completes. */
    method Feed(chunk: string) returns (out: seq<Event<J>>)
      requires Valid()
      modifies this
      ensures Valid() && seen == old(seen) + chunk
      ensures Decode(host, seen) == Decode(host, old(seen)) + out
    {
      var text := chunk;
      if pendingCr {
        text := "\r" + text;
        pendingCr := false;
      }
      if EndsWith(text, '\r') {
        text := text[..|text| - 1];
        pendingCr := true;
      }
      CutChunk(seen, chunk, text);
      ghost var before := Frames(FoldCrLf(Body(seen)));
      buffer := buffer + FoldCrLf(text);
      out := Drain(before);
      HeldCrHidesNothing(seen);
      seen := seen + chunk;
      HeldCrHidesNothing(seen);
    }
  }

  lemma EventsSnoc<J>(host: Host<J>, frames: seq<string>, frame: string)
    ensures var r := Decoded(host, frame, LastId(host, frames));
      && LastId(host, frames + [frame]) == (if r.Some? then r.value.id else LastId(host, frames))
      && Events(host, frames + [frame]) == Events(host, frames) + (if r.Some? then [r.value] else [])
  {
    assert (frames + [frame])[..|frames|] == frames;
  }

  /** What one chunk adds, once a held CR is put back and a final one held again. */
  lemma CutChunk(seen: string, chunk: string, text: string)
    requires text == Body((if EndsWith(seen, '\r') then "\r" else "") + chunk)
    ensures Body(seen + chunk) == Body(seen) + text
    ensures EndsWith(seen + chunk, '\r') <==> EndsWith((if EndsWith(seen, '\r') then "\r" else "") + chunk, '\r')
    ensures var folded := FoldCrLf(Body(seen)); var rest := Rest(folded) + FoldCrLf(text);
      && Frames(FoldCrLf(Body(seen + chunk))) == Frames(folded) + Frames(rest)
      && Rest(FoldCrLf(Body(seen + chunk))) == Rest(rest)
  {
    var body := Body(seen);
    assert Body(seen + chunk) == body + text;
    FoldOfConcat(body, text);
    FramesOfConcat(FoldCrLf(body), FoldCrLf(text));
  }

  function Concat(chunks: seq<string>): string {
    if chunks == [] then "" else Concat(chunks[..|chunks| - 1]) + chunks[|chunks| - 1]
  }

  /**
   * The parser over a whole body. The result depends on the concatenation of the
   * chunks alone, so two ways of cutting one text yield the same events.
   */
  method ParseSse<J>(host: Host<J>, chunks: seq<string>) returns (events: seq<Event<J>>)
    ensures events == Decode(host, Concat(chunks))
  {
    var parser := new Parser(host);
    events := [];
    assert Decode(host, "") == [];
    for k := 0 to |chunks|
      invariant fresh(parser) && parser.Valid() && parser.host == host
      invariant parser.seen == Concat(chunks[..k])
      invariant events == Decode(host, parser.seen)
    {
      assert chunks[..k + 1][..k] == chunks[..k];
      var out := parser.Feed(chunks[k]);
      events := events + out;
    }
    assert chunks[..|chunks|] == chunks;
  }

  // ---- a server's encoding --------------------------------------------------

  datatype Msg = Msg(id: nat, kind: string, data: string)
  /** What a server writes: an event, or the comment that keeps the link alive. */
  datatype Item = Message(msg: Msg) | KeepAlive

  function DataLines(ls: seq<string>): (r: seq<string>)
    ensures |r| == |ls|
  {
    seq(|ls|, k requires 0 <= k < |ls| => "data" + ": " + ls[k])
  }

  function FrameLines(item: Item): seq<string> {
    match item
    case KeepAlive => [": keep-alive"]
    case Message(m) =>
      ["id" + ": " + Decimal(m.id), "event" + ": " + m.kind] + DataLines(Split(m.data, '\n'))
  }

  function FrameText(item: Item): string { Join(FrameLines(item), "\n") }

  function FrameTexts(items: seq<Item>): seq<string> {
    seq(|items|, k requires 0 <= k < |items| => FrameText(items[k]))
  }

  function Encode(items: seq<Item>): string {
    if items == [] then "" else FrameText(items[0]) + "\n\n" + Encode(items[1..])
  }

  /** The event a reader should get for a message. */
  function Expected<J>(host: Host<J>, m: Msg): Event<J> {
    match host.json(m.data)
    case Some(v) => Event(m.id, if m.kind == "" then "message" else m.kind, Json(v))
    case None => Event(m.id, if m.kind == "" then "error" else m.kind, Skipped)
  }

  function Received<J>(host: Host<J>, items: seq<Item>): seq<Event<J>> {
    if items == [] then []
    else
      Received(host, items[..|items| - 1]) +
      match items[|items| - 1]
      case KeepAlive => []
      case Message(m) => [Expected(host, m)]
  }

  /** Ids the host reads back, and no line end inside a field or CR inside the data. */
  ghost predicate Sendable<J>(host: Host<J>, item: Item) {
    item.Message? ==>
      && host.number(Decimal(item.msg.id)) == Some(item.msg.id)
      && '\n' !in item.msg.kind && '\r' !in item.msg.kind && '\r' !in item.msg.data
  }

  // ---- the round trip -------------------------------------------------------

  lemma {:induction false} IndexAfter(p: string, rest: string, c: char)
    requires c !in p
    ensures IndexOf(p + [c] + rest, c) == Some(|p|)
    decreases |p|
  {
    if p != "" {
      assert (p + [c] + rest)[1..] == p[1..] + [c] + rest;
      IndexAfter(p[1..], rest, c);
    }
  }

  /** A written field line reads back as that field, leading spaces and all. */
  lemma FieldOfLine<J>(host: Host<J>, lastId: int, f: Fields, name: string, value: string)
    requires name != "" && ':' !in name && '\r' !in value
    ensures Field(host, lastId, f, name + ": " + value) == Assign(host, lastId, f, name, value)
  {
    var line := name + ": " + value;
    assert line == name + [':'] + (" " + value);
    IndexAfter(name, " " + value, ':');
    assert line[0] == name[0] && name[0] in name;
    assert !EndsWith(line, '\r') by {
      if value != "" { assert line[|line| - 1] == value[|value| - 1] && value[|value| - 1] in value; }
      else { assert line[|line| - 1] == ' '; }
    }
    assert line[..|name|] == name;
    assert line[|name| + 1..] == " " + value;
    assert (" " + value)[1..] == value;
  }

  lemma {:induction false} FieldsOfData<J>(host: Host<J>, lastId: int, pre: seq<string>, ls: seq<string>)
    requires forall l | l in ls :: '\r' !in l
    ensures var f := FieldsOf(host, lastId, pre);
      FieldsOf(host, lastId, pre + DataLines(ls)) == f.(data := f.data + ls)
    decreases |ls|
  {
    hide FieldsOf, Field;
    if ls == [] {
      assert pre + DataLines(ls) == pre;
    } else {
      var init, last := ls[..|ls| - 1], ls[|ls| - 1];
      var line := "data" + ": " + last;
      assert pre + DataLines(ls) == (pre + DataLines(init)) + [line];
      FieldsOfData(host, lastId, pre, init);
      FieldsSnoc(host, lastId, pre + DataLines(init), line);
      FieldOfLine(host, lastId, FieldsOf(host, lastId, pre + DataLines(init)), "data", last);
      assert init + [last] == ls;
    }
  }

  lemma {:induction false} PiecesWithout(s: string, sep: char, c: char)
    requires c !in s
    ensures forall p | p in Split(s, sep) :: c !in p
    decreases |s|
  {
    if s != "" { PiecesWithout(s[1..], sep, c); }
  }

  lemma FieldsOfMessage<J>(host: Host<J>, lastId: int, m: Msg)
    requires Sendable(host, Message(m))
    ensures FieldsOf(host, lastId, FrameLines(Message(m))) == Fields(m.id, m.kind, Split(m.data, '\n'))
  {
    hide Field, DataLines;
    var l1, l2 := "id" + ": " + Decimal(m.id), "event" + ": " + m.kind;
    assert [] + [l1] == [l1] && [l1] + [l2] == [l1, l2];
    FieldsSnoc(host, lastId, [], l1);
    FieldOfLine(host, lastId, Fields(lastId, "", []), "id", Decimal(m.id));
    FieldsSnoc(host, lastId, [l1], l2);
    FieldOfLine(host, lastId, Fields(m.id, "", []), "event", m.kind);
    PiecesWithout(m.data, '\n', '\r');
    FieldsOfData(host, lastId, [l1, l2], Split(m.data, '\n'));
  }

  lemma LinesAreLines<J>(host: Host<J>, item: Item)
    requires Sendable(host, item)
    ensures |FrameLines(item)| >= 1
    ensures forall l | l in FrameLines(item) :: l != "" && '\n' !in l
  {
  }

  /** A frame as written decodes to the event it was written for. */
  lemma DecodedFrame<J>(host: Host<J>, item: Item, lastId: int)
    requires Sendable(host, item)
    ensures Decoded(host, FrameText(item), lastId)
         == if item.KeepAlive? then None else Some(Expected(host, item.msg))
  {
    LinesAreLines(host, item);
    SplitOfJoin(FrameLines(item), '\n');
    match item
    case KeepAlive =>
      var ls := FrameLines(item);
      assert ls[..0] == [] && ls[|ls| - 1] == ": keep-alive";
      assert FieldsOf(host, lastId, ls) == Fields(lastId, "", []);
    case Message(m) =>
      FieldsOfMessage(host, lastId, m);
      JoinOfSplit(m.data, '\n');
  }

  lemma {:induction false} BoundaryOfLine(l: string, t: string)
    requires l != "" && '\n' !in l
    requires Boundary(t) == None && !StartsWith(t, '\n')
    ensures Boundary(l + "\n" + t) == None
    decreases |l|
  {
    var s := l + "\n" + t;
    if |l| == 1 {
      assert s[1..] == "\n" + t;
      assert ("\n" + t)[1..] == t;
      assert s[0] == l[0] && l[0] in l;
    } else {
      assert s[1..] == l[1..] + "\n" + t;
      assert s[0] == l[0] && l[0] in l;
      BoundaryOfLine(l[1..], t);
    }
  }

  lemma {:induction false} BoundaryOfLastLine(l: string)
    requires '\n' !in l
    ensures Boundary(l) == None
    decreases |l|
  {
    if |l| >= 2 {
      assert l[0] in l;
      BoundaryOfLastLine(l[1..]);
    }
  }

  lemma {:induction false} NoBoundaryInside(lines: seq<string>)
    requires |lines| >= 1 && forall l | l in lines :: l != "" && '\n' !in l
    ensures var s := Join(lines, "\n");
      Boundary(s) == None && s != "" && !StartsWith(s, '\n') && !EndsWith(s, '\n')
    decreases |lines|
  {
    var l := lines[0];
    assert l in lines && l[0] in l && l[|l| - 1] in l;
    if |lines| == 1 {
      BoundaryOfLastLine(l);
    } else {
      assert forall k | k in lines[1..] :: k in lines;
      NoBoundaryInside(lines[1..]);
      BoundaryOfLine(l, Join(lines[1..], "\n"));
    }
  }

  lemma {:induction false} BoundaryAtEnd(s: string, rest: string)
    requires Boundary(s) == None && !EndsWith(s, '\n')
    ensures Boundary(s + "\n\n" + rest) == Some(|s|)
    decreases |s|
  {
    var t := s + "\n\n" + rest;
    if s != "" {
      assert t[1..] == s[1..] + "\n\n" + rest;
      if |s| == 1 { assert t[0] == s[0] == s[|s| - 1]; }
      BoundaryAtEnd(s[1..], rest);
    }
  }

  lemma NoFrames()
    ensures Frames("") == []
  {
  }

  lemma FramesAt(s: string, more: string)
    requires Boundary(s + "\n\n" + more) == Some(|s|)
    ensures Frames(s + "\n\n" + more) == [s] + Frames(more)
  {
    var t := s + "\n\n" + more;
    assert t[..|s|] == s && t[|s| + 2..] == more;
  }

  lemma {:induction false} FramesOfEncode<J>(host: Host<J>, items: seq<Item>)
    requires forall item | item in items :: Sendable(host, item)
    ensures Frames(Encode(items)) == FrameTexts(items)
    decreases |items|
  {
    hide FrameLines, Frames, Boundary;
    if items == [] {
      assert Encode(items) == "" && FrameTexts(items) == [];
      NoFrames();
    } else {
      var s, more := FrameText(items[0]), Encode(items[1..]);
      assert items[0] in items;
      LinesAreLines(host, items[0]);
      NoBoundaryInside(FrameLines(items[0]));
      BoundaryAtEnd(s, more);
      FramesAt(s, more);
      FramesOfEncode(host, items[1..]);
      assert FrameTexts(items) == [s] + FrameTexts(items[1..]);
    }
  }

  lemma {:induction false} EventsOfEncode<J>(host: Host<J>, items: seq<Item>)
    requires forall item | item in items :: Sendable(host, item)
    ensures Events(host, FrameTexts(items)) == Received(host, items)
    decreases |items|
  {
    if items != [] {
      var init, last := items[..|items| - 1], items[|items| - 1];
      assert last in items;
      assert FrameTexts(items)[..|items| - 1] == FrameTexts(init);
      EventsOfEncode(host, init);
      DecodedFrame(host, last, LastId(host, FrameTexts(init)));
    }
  }

  lemma {:induction false} JoinWithoutCr(lines: seq<string>)
    requires forall l | l in lines :: '\r' !in l
    ensures '\r' !in Join(lines, "\n")
    decreases |lines|
  {
    if |lines| > 1 { JoinWithoutCr(lines[1..]); }
  }

  lemma FrameWithoutCr<J>(host: Host<J>, item: Item)
    requires Sendable(host, item)
    ensures '\r' !in FrameText(item)
  {
    if item.Message? { PiecesWithout(item.msg.data, '\n', '\r'); }
    JoinWithoutCr(FrameLines(item));
  }

  lemma {:induction false} EncodeWithoutCr<J>(host: Host<J>, items: seq<Item>)
    requires forall item | item in items :: Sendable(host, item)
    ensures '\r' !in Encode(items)
    decreases |items|
  {
    hide FrameText, Sendable;
    if items != [] {
      assert items[0] in items;
      FrameWithoutCr(host, items[0]);
      EncodeWithoutCr(host, items[1..]);
    }
  }

  /**
   * A server's stream, keep-alives and multi-line data included, is received as
   * it was sent, with LF line ends or with CRLF.
   */
  lemma RoundTrip<J>(host: Host<J>, items: seq<Item>)
    requires forall item | item in items :: Sendable(host, item)
    ensures Decode(host, Encode(items)) == Received(host, items)
    ensures Decode(host, ToCrLf(Encode(items))) == Received(host, items)
  {
    EncodeWithoutCr(host, items);
    var s := Encode(items);
    FoldWithoutCr(s);
    FramesOfEncode(host, items);
    EventsOfEncode(host, items);
    forall k | 0 <= k < |s| - 1 ensures !(s[k] == '\r' && s[k + 1] == '\n') { assert s[k] in s; }
    CrLfDecodesAlike(host, s);
  }
}
