// What the lines of an event-stream frame stand for, line by line.
module FrameFields {
  import opened Text
  import opened Sse

  // ---- one line -------------------------------------------------------------

  /** The line less the CR it may end in. */
  ghost predicate Bare(raw: string, line: string) { raw == line + "\r" || (raw == line && !EndsWith(raw, '\r')) }

  /** The line assigns this value to this field: everything after the colon, less one leading blank. */
  ghost predicate Assigns(raw: string, name: string, value: string) {
    name != "" && ':' !in name && ((Bare(raw, name) && value == "")
      || (Bare(raw, name + ":" + value) && !StartsWith(value, ' ')) || Bare(raw, name + ": " + value))
  }

  ghost predicate Names(raw: string, name: string) { exists value :: Assigns(raw, name, value) }

  lemma BareOf(raw: string)
    ensures Bare(raw, if EndsWith(raw, '\r') then raw[..|raw| - 1] else raw)
    ensures forall line | Bare(raw, line) :: line == if EndsWith(raw, '\r') then raw[..|raw| - 1] else raw
  {
    if EndsWith(raw, '\r') { assert raw == raw[..|raw| - 1] + "\r"; }
    forall line | Bare(raw, line) ensures line == if EndsWith(raw, '\r') then raw[..|raw| - 1] else raw {
      if raw == line + "\r" { assert raw[..|raw| - 1] == line; }
    }
  }

  lemma ColonAfter(name: string, rest: string)
    requires ':' !in name
    ensures IndexOf(name + ":" + rest, ':') == Some(|name|)
    ensures (name + ":" + rest)[..|name|] == name && (name + ":" + rest)[|name| + 1..] == rest
  {
    IndexAfter(name, rest, ':');
    assert name + [':'] + rest == name + ":" + rest;
  }

  lemma FieldWithColon<J>(host: Host<J>, lastId: int, f: Fields, raw: string, name: string, rest: string)
    requires name != "" && ':' !in name && Bare(raw, name + ":" + rest)
    ensures Field(host, lastId, f, raw) == Assign(host, lastId, f, name, if StartsWith(rest, ' ') then rest[1..] else rest)
  {
    BareOf(raw);
    ColonAfter(name, rest);
    var line := name + ":" + rest;
    assert line[0] == name[0] && name[0] in name;
    hide IndexOf, Assign, Bare;
  }

  lemma FieldAssigns<J>(host: Host<J>, lastId: int, f: Fields, raw: string, name: string, value: string)
    requires Assigns(raw, name, value)
    ensures Field(host, lastId, f, raw) == Assign(host, lastId, f, name, value)
  {
    hide Assign, Bare, IndexOf;
    if Bare(raw, name) && value == "" {
      BareOf(raw);
      assert IndexOf(name, ':') == None;
      assert name[0] in name;
    } else if Bare(raw, name + ":" + value) && !StartsWith(value, ' ') {
      hide Field;
      FieldWithColon(host, lastId, f, raw, name, value);
    } else {
      hide Field;
      assert name + ": " + value == name + ":" + (" " + value) && (" " + value)[1..] == value;
      FieldWithColon(host, lastId, f, raw, name, " " + value);
    }
  }

  /** A line that is no field: blank, or with nothing before its colon. */
  lemma NoField<J>(host: Host<J>, lastId: int, f: Fields, raw: string)
    requires forall name :: !Names(raw, name)
    ensures Field(host, lastId, f, raw) == f
  {
    var line := if EndsWith(raw, '\r') then raw[..|raw| - 1] else raw;
    if line != "" && line[0] != ':' {
      var name, value := SomeField(raw, line);
      assert Names(raw, name);
    }
  }

  /** Every other line is one. */
  lemma SomeField(raw: string, line: string) returns (name: string, value: string)
    requires line == (if EndsWith(raw, '\r') then raw[..|raw| - 1] else raw) && line != "" && line[0] != ':'
    ensures Assigns(raw, name, value)
  {
    BareOf(raw);
    var colon := IndexOf(line, ':');
    hide IndexOf, Bare;
    if colon.None? {
      name, value := line, "";
    } else {
      var rest := line[colon.value + 1..];
      name, value := line[..colon.value], if StartsWith(rest, ' ') then rest[1..] else rest;
      assert line == name + ":" + rest;
      if StartsWith(rest, ' ') { assert line == name + ": " + value; }
    }
  }

  // ---- all the lines --------------------------------------------------------

  /** The last line that names the field, if one does. */
  ghost predicate LastNamed(lines: seq<string>, name: string, k: nat) {
    k < |lines| && Names(lines[k], name) && forall j | k < j < |lines| :: !Names(lines[j], name)
  }

  ghost predicate NoneNamed(lines: seq<string>, name: string) { forall k | 0 <= k < |lines| :: !Names(lines[k], name) }

  /** `data` holds the values of the lines at these places, which are all that name it, in order. */
  ghost predicate DataAt(lines: seq<string>, at: seq<nat>, data: seq<string>) {
    && |at| == |data| && (forall i, j | 0 <= i < j < |at| :: at[i] < at[j])
    && (forall i | 0 <= i < |at| :: at[i] < |lines| && Assigns(lines[at[i]], "data", data[i]))
    && forall k: nat | k < |lines| :: k in at <==> Names(lines[k], "data")
  }

  /** The id of a frame: the number on its last `id` line, the inherited one when it has none or no number. */
  ghost predicate IdIs<J>(host: Host<J>, lastId: int, lines: seq<string>, id: int) {
    && (NoneNamed(lines, "id") ==> id == lastId)
    && forall k: nat, value | LastNamed(lines, "id", k) && Assigns(lines[k], "id", value) :: id == host.number(value).GetOr(lastId)
  }

  /** Its kind: what its last `event` line says, nothing when it has none. */
  ghost predicate KindIs(lines: seq<string>, kind: string) {
    && (NoneNamed(lines, "event") ==> kind == "")
    && forall k: nat, value | LastNamed(lines, "event", k) && Assigns(lines[k], "event", value) :: kind == value
  }

  /** The line without its CR, and where its first colon is. */
  function Line(raw: string): string { if EndsWith(raw, '\r') then raw[..|raw| - 1] else raw }

  lemma PlainLine(raw: string, name: string)
    requires Bare(raw, name) && ':' !in name
    ensures Line(raw) == name && IndexOf(Line(raw), ':') == None
  {
    BareOf(raw);
  }

  lemma ColonLine(raw: string, name: string, rest: string)
    requires Bare(raw, name + ":" + rest) && ':' !in name
    ensures var line := Line(raw); IndexOf(line, ':') == Some(|name|) && line[..|name|] == name && line[|name| + 1..] == rest
  {
    BareOf(raw);
    ColonAfter(name, rest);
    hide IndexOf, Bare;
  }

  /** A line names one field, and gives it one value. */
  lemma OneField(raw: string, n1: string, v1: string, n2: string, v2: string)
    requires Assigns(raw, n1, v1) && Assigns(raw, n2, v2)
    ensures n1 == n2 && v1 == v2
  {
    AsLine(raw, n1, v1);
    AsLine(raw, n2, v2);
    hide Assigns, Bare, IndexOf, Line;
  }

  /** The field and value of a line are found at its first colon. */
  function AtColon(line: string, colon: Option<nat>): (string, string)
    requires colon.Some? ==> colon.value < |line|
  {
    match colon
    case None => (line, "")
    case Some(c) => (line[..c], if StartsWith(line[c + 1..], ' ') then line[c + 1..][1..] else line[c + 1..])
  }

  lemma AsLine(raw: string, name: string, value: string)
    requires Assigns(raw, name, value)
    ensures AtColon(Line(raw), IndexOf(Line(raw), ':')) == (name, value)
  {
    hide Bare, IndexOf, Line;
    if Bare(raw, name) && value == "" {
      PlainLine(raw, name);
    } else if Bare(raw, name + ":" + value) && !StartsWith(value, ' ') {
      ColonLine(raw, name, value);
    } else {
      assert name + ": " + value == name + ":" + (" " + value) && (" " + value)[1..] == value;
      ColonLine(raw, name, " " + value);
    }
  }

  ghost predicate Stands<J>(host: Host<J>, lastId: int, lines: seq<string>, f: Fields, at: seq<nat>) {
    IdIs(host, lastId, lines, f.id) && KindIs(lines, f.kind) && DataAt(lines, at, f.data)
  }

  /** The line assigns this value to this field, or nothing to any. */
  ghost predicate NothingElse(raw: string, name: string, value: string) {
    if Assigns(raw, name, value) then forall n, v | Assigns(raw, n, v) :: n == name && v == value else forall n, v :: !Assigns(raw, n, v)
  }

  /** What one line adds. */
  lemma LineAdds<J>(host: Host<J>, lastId: int, f: Fields, raw: string) returns (name: string, value: string)
    ensures NothingElse(raw, name, value)
    ensures Field(host, lastId, f, raw) == if Assigns(raw, name, value) then Assign(host, lastId, f, name, value) else f
  {
    name, value := "", "";
    hide Assigns, Field, Assign;
    if n :| Names(raw, n) {
      name := n;
      value :| Assigns(raw, n, value);
      FieldAssigns(host, lastId, f, raw, name, value);
      forall n2, v2 | Assigns(raw, n2, v2) ensures n2 == name && v2 == value { OneField(raw, name, value, n2, v2); }
    } else {
      NoField(host, lastId, f, raw);
      assert forall n, v | Assigns(raw, n, v) :: Names(raw, n);
    }
  }

  lemma IdOfMore<J>(host: Host<J>, lastId: int, lines: seq<string>, raw: string, id: int, name: string, value: string)
    requires IdIs(host, lastId, lines, id)
    requires NothingElse(raw, name, value)
    ensures IdIs(host, lastId, lines + [raw], if Assigns(raw, name, value) && name == "id" then host.number(value).GetOr(lastId) else id)
  {
    hide Assigns;
    var all := lines + [raw];
    LastOfMore(lines, raw, "id");
    assert all[|lines|] == raw && forall k | 0 <= k < |lines| :: all[k] == lines[k];
  }

  lemma KindOfMore(lines: seq<string>, raw: string, kind: string, name: string, value: string)
    requires KindIs(lines, kind)
    requires NothingElse(raw, name, value)
    ensures KindIs(lines + [raw], if Assigns(raw, name, value) && name == "event" then value else kind)
  {
    hide Assigns;
    var all := lines + [raw];
    LastOfMore(lines, raw, "event");
    assert all[|lines|] == raw && forall k | 0 <= k < |lines| :: all[k] == lines[k];
  }

  lemma DataGoesOn(lines: seq<string>, raw: string, at: seq<nat>, data: seq<string>)
    requires DataAt(lines, at, data) && !Names(raw, "data")
    ensures DataAt(lines + [raw], at, data)
  {
    var all := lines + [raw];
    assert all[|lines|] == raw && forall k | 0 <= k < |lines| :: all[k] == lines[k];
    assert forall i | 0 <= i < |at| :: at[i] in at;
    hide Assigns, Names;
  }

  lemma DataGrows(lines: seq<string>, raw: string, at: seq<nat>, data: seq<string>, value: string)
    requires DataAt(lines, at, data) && Assigns(raw, "data", value)
    ensures DataAt(lines + [raw], at + [|lines|], data + [value])
  {
    assert Names(raw, "data");
    hide Assigns, Names;
    var all, more := lines + [raw], at + [|lines|];
    assert all[|lines|] == raw && forall k | 0 <= k < |lines| :: all[k] == lines[k];
    assert forall i | 0 <= i < |at| :: at[i] in at;
  }

  lemma DataOfMore(lines: seq<string>, raw: string, at: seq<nat>, data: seq<string>, name: string, value: string)
    requires DataAt(lines, at, data)
    requires NothingElse(raw, name, value)
    ensures var more := Assigns(raw, name, value) && name == "data";
      DataAt(lines + [raw], if more then at + [|lines|] else at, if more then data + [value] else data)
  {
    hide Assigns, DataAt;
    if Assigns(raw, name, value) && name == "data" {
      DataGrows(lines, raw, at, data, value);
    } else {
      assert !Names(raw, "data");
      DataGoesOn(lines, raw, at, data);
    }
  }

  lemma OneMoreLine<J>(host: Host<J>, lastId: int, lines: seq<string>, raw: string, f: Fields, at: seq<nat>) returns (more: seq<nat>)
    requires Stands(host, lastId, lines, f, at)
    ensures Stands(host, lastId, lines + [raw], Field(host, lastId, f, raw), more)
  {
    var name, value := LineAdds(host, lastId, f, raw);
    IdOfMore(host, lastId, lines, raw, f.id, name, value);
    KindOfMore(lines, raw, f.kind, name, value);
    DataOfMore(lines, raw, at, f.data, name, value);
    more := if Assigns(raw, name, value) && name == "data" then at + [|lines|] else at;
    hide Assigns, Field, IdIs, KindIs, DataAt;
  }

  lemma LastOfMore(lines: seq<string>, raw: string, name: string)
    ensures NoneNamed(lines + [raw], name) <==> NoneNamed(lines, name) && !Names(raw, name)
    ensures Names(raw, name) ==> forall k: nat :: LastNamed(lines + [raw], name, k) <==> k == |lines|
    ensures !Names(raw, name) ==> forall k: nat :: LastNamed(lines + [raw], name, k) <==> LastNamed(lines, name, k)
  {
    var all := lines + [raw];
    assert all[|lines|] == raw && forall k | 0 <= k < |lines| :: all[k] == lines[k];
    hide Names;
  }

  lemma NothingStands<J>(host: Host<J>, lastId: int)
    ensures Stands(host, lastId, [], FieldsOf(host, lastId, []), [])
  {
    NoFields(host, lastId);
    hide FieldsOf, Assigns;
  }

  /** For every sequence of lines: what the fields read from them are. */
  lemma {:induction false} FieldsStand<J>(host: Host<J>, lastId: int, lines: seq<string>) returns (at: seq<nat>)
    ensures Stands(host, lastId, lines, FieldsOf(host, lastId, lines), at)
    decreases |lines|
  {
    hide Field, FieldsOf, Stands;
    if lines == [] {
      at := [];
      NothingStands(host, lastId);
    } else {
      var n := |lines| - 1;
      at := FieldsStand(host, lastId, lines[..n]);
      at := OneMoreLine(host, lastId, lines[..n], lines[n], FieldsOf(host, lastId, lines[..n]), at);
      FieldsSnoc(host, lastId, lines[..n], lines[n]);
      assert lines == lines[..n] + [lines[n]];
    }
  }

  /**
   * The event of a frame: none without a kind and data; otherwise the frame's id, and
   * its data lines put back together, decoded or noted as skipped.
   */
  lemma FrameStands<J>(host: Host<J>, frame: string, lastId: int) returns (lines: seq<string>, f: Fields, at: seq<nat>)
    ensures Join(lines, "\n") == frame && (forall l | l in lines :: '\n' !in l) && Stands(host, lastId, lines, f, at)
    ensures Decoded(host, frame, lastId) == None <==> f.kind == "" && f.data == []
    ensures forall e | Decoded(host, frame, lastId) == Some(e) ::
      e.id == f.id && (f.kind != "" ==> e.kind == f.kind) && (f.data == [] ==> e == Event(f.id, f.kind, Empty))
    ensures forall e | Decoded(host, frame, lastId) == Some(e) && f.data != [] ::
      match host.json(Join(f.data, "\n"))
      case Some(v) => e.data == Json(v) && (f.kind == "" ==> e.kind == "message")
      case None => e.data == Skipped && (f.kind == "" ==> e.kind == "error")
  {
    lines := Split(frame, '\n');
    f := FieldsOf(host, lastId, lines);
    at := FieldsStand(host, lastId, lines);
    JoinOfSplit(frame, '\n');
    hide FieldsOf, Split, Join, Stands;
  }

  /** The id a frame inherits: that of the last event before it, and 0 before the first. */
  lemma {:induction false} InheritedId<J>(host: Host<J>, frames: seq<string>)
    ensures LastId(host, frames) == if Events(host, frames) == [] then 0 else Events(host, frames)[|Events(host, frames)| - 1].id
    decreases |frames|
  {
    if frames != [] { InheritedId(host, frames[..|frames| - 1]); }
    hide Decoded;
  }
}
