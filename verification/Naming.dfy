// Names: splitting an identifier into words and the case conversions built on it.
// Letters are the ASCII ones; case conversion leaves every other character alone.
module Naming {
  import opened Text

  // ---- characters and case --------------------------------------------------

  predicate IsLetter(c: char) { IsUpper(c) || IsLower(c) }
  predicate IsAlnum(c: char) { IsLetter(c) || IsDigit(c) }
  predicate IsSeparator(c: char) { c == '_' || c == '-' || c == ' ' || c == '.' || c == '/' }

  // ---- initialisms ----------------------------------------------------------

  const GENERAL_A_TO_Q: set<string> :=
    {"ACL", "API", "ASCII", "CPU", "CSS", "DNS", "EOF", "GUID", "HTML", "HTTP"}
    + {"HTTPS", "ID", "IP", "JSON", "LHS", "QPS"}
  const GENERAL_R_TO_Z: set<string> :=
    {"RAM", "RHS", "RPC", "SLA", "SMTP", "SQL", "SSH", "TCP", "TLS", "TTL"}
    + {"UDP", "UI", "UID", "UUID", "URI", "URL", "UTF8", "VM", "XML", "XMPP", "XSRF", "XSS"}
  const POSTAL: set<string> :=
    {"PPO", "HOA", "DOP", "OTP", "PIN", "SMS", "PAN", "IFSC", "GST", "KYC"}
    + {"MICR", "NEFT", "RTGS", "UPI", "DOB", "CSI", "PLI", "RPLI", "GDS", "NPS"}
  const INITIALISMS: set<string> := GENERAL_A_TO_Q + GENERAL_R_TO_Z + POSTAL

  function Concat(parts: seq<string>): string {
    if parts == [] then "" else parts[0] + Concat(parts[1..])
  }

  /**
   * Split a word into known words, longest head first, backtracking. `None` when
   * no complete split exists.
   */
  function Decompose(known: set<string>, word: string): (r: Option<seq<string>>)
    decreases |word|, |word| + 1
  {
    if word == "" then Some([]) else TryHeads(known, word, |word|)
  }

  function TryHeads(known: set<string>, word: string, n: nat): (r: Option<seq<string>>)
    requires 0 < |word| && n <= |word|
    decreases |word|, n
  {
    if n < 2 then None
    else if word[..n] !in known then TryHeads(known, word, n - 1)
    else
      match Decompose(known, word[n..])
      case Some(rest) => Some([word[..n]] + rest)
      case None => TryHeads(known, word, n - 1)
  }

  /** The word written as known words of two letters or more. */
  ghost predicate Segments(known: set<string>, parts: seq<string>, word: string) {
    Concat(parts) == word && forall p | p in parts :: p in known && |p| >= 2
  }

  /** Where two segmentations part, `x` takes the longer head. */
  ghost predicate LongerFirst(x: seq<string>, y: seq<string>) {
    if x == [] then y == []
    else y != [] && (|x[0]| > |y[0]| || (x[0] == y[0] && LongerFirst(x[1..], y[1..])))
  }

  /** `r` is a best segmentation, or none exists. */
  ghost predicate Best(known: set<string>, word: string, r: Option<seq<string>>) {
    match r
    case Some(parts) =>
      Segments(known, parts, word) && forall other | Segments(known, other, word) :: LongerFirst(parts, other)
    case None => forall other :: !Segments(known, other, word)
  }

  lemma HeadOf(known: set<string>, other: seq<string>, word: string)
    requires Segments(known, other, word) && word != ""
    ensures other != [] && 2 <= |other[0]| <= |word| && other[0] == word[..|other[0]|] && other[0] in known
    ensures Segments(known, other[1..], word[|other[0]|..])
  {
    assert other[0] in other;
    assert word == other[0] + Concat(other[1..]);
  }

  lemma NotEmpty(known: set<string>, other: seq<string>, word: string)
    requires Segments(known, other, word) && other != []
    ensures word != ""
  {
    assert other[0] in other;
  }

  /** Sound, complete, and longest head first. */
  lemma {:induction false} DecomposeIsBest(known: set<string>, word: string)
    ensures Best(known, word, Decompose(known, word))
    decreases |word|, |word| + 1
  {
    if word == "" {
      forall other | Segments(known, other, word) ensures LongerFirst([], other) {
        if other != [] { NotEmpty(known, other, word); }
      }
    } else {
      TryHeadsIsBest(known, word, |word|);
      forall other | Segments(known, other, word) ensures |other| > 0 && |other[0]| <= |word| {
        HeadOf(known, other, word);
      }
    }
  }

  /** `TryHeads` settles every segmentation whose head is at most `n` long. */
  lemma {:induction false} TryHeadsIsBest(known: set<string>, word: string, n: nat)
    requires 0 < |word| && n <= |word|
    ensures match TryHeads(known, word, n)
      case Some(parts) => Segments(known, parts, word)
        && forall other | Segments(known, other, word) && |other| > 0 && |other[0]| <= n :: LongerFirst(parts, other)
      case None => forall other | |other| > 0 && |other[0]| <= n :: !Segments(known, other, word)
    decreases |word|, n
  {
    forall other | Segments(known, other, word) ensures other != [] && |other[0]| >= 2 { HeadOf(known, other, word); }
    if n >= 2 {
      TryHeadsIsBest(known, word, n - 1);
      var head, tail := word[..n], word[n..];
      DecomposeIsBest(known, tail);
      forall other | Segments(known, other, word) && |other| > 0 && |other[0]| == n
        ensures head in known && Decompose(known, tail).Some?
                && LongerFirst([head] + Decompose(known, tail).value, other)
      {
        HeadOf(known, other, word);
        assert Segments(known, other[1..], tail);
      }
      if head in known && Decompose(known, tail).Some? {
        var parts := [head] + Decompose(known, tail).value;
        assert parts[1..] == Decompose(known, tail).value;
        assert Concat(parts) == head + tail == word;
        assert parts[0] == head;
      }
    }
  }

  predicate Shaped(w: string) { |w| >= 2 && (w[0] == 'I' && w[1] == 'D' ==> |w| == 2) }

  lemma ShapedAtoQ(w: string)
    requires w in GENERAL_A_TO_Q
    ensures Shaped(w)
  {
  }

  lemma ShapedRtoZ(w: string)
    requires w in GENERAL_R_TO_Z
    ensures Shaped(w)
  {
  }

  lemma ShapedPostal(w: string)
    requires w in POSTAL
    ensures Shaped(w)
  {
  }

  /** Every known initialism is long enough to be a segment, and only "ID" starts with those letters. */
  lemma InitialismsAreLong(w: string)
    requires w in INITIALISMS
    ensures Shaped(w)
  {
    if w in GENERAL_A_TO_Q { ShapedAtoQ(w); }
    else if w in GENERAL_R_TO_Z { ShapedRtoZ(w); }
    else { ShapedPostal(w); }
  }

  // ---- words ----------------------------------------------------------------

  /** A capital starts a word after a lower-case letter or digit, or before a lower-case letter in a run. */
  predicate StartsWord(s: string, i: nat)
    requires i < |s| && IsUpper(s[i])
  {
    i > 0 && (IsLower(s[i - 1]) || IsDigit(s[i - 1]) || (IsUpper(s[i - 1]) && i + 1 < |s| && IsLower(s[i + 1])))
  }

  function Flushed(current: string): seq<string> { if current == "" then [] else [current] }

  /** The words from position `i` on, with `current` already read of the word at hand. */
  function RawWords(s: string, i: nat, current: string): seq<string>
    requires i <= |s|
    decreases |s| - i
  {
    if i == |s| then Flushed(current)
    else if IsSeparator(s[i]) then Flushed(current) + RawWords(s, i + 1, "")
    else if IsUpper(s[i]) && StartsWord(s, i) then Flushed(current) + RawWords(s, i + 1, [s[i]])
    else RawWords(s, i + 1, current + [s[i]])
  }

  predicate AllLetters(s: string) { s != "" && forall c | c in s :: IsLetter(c) }

  /** An all-capitals word that is a complete concatenation of initialisms becomes its parts. */
  function SplitRun(word: string): seq<string> {
    if |word| <= 3 || word != Upper(word) || !AllLetters(word) || |word| > 32 then [word]
    else
      match Decompose(INITIALISMS, word)
      case Some(parts) => if |parts| >= 2 then parts else [word]
      case None => [word]
  }

  function SplitRuns(ws: seq<string>): seq<string> {
    if ws == [] then [] else SplitRuns(ws[..|ws| - 1]) + SplitRun(ws[|ws| - 1])
  }

  function Words(s: string): seq<string> { SplitRuns(RawWords(s, 0, "")) }

  lemma Join3<T>(x: seq<T>, y: seq<T>, z: seq<T>)
    ensures x + (y + z) == (x + y) + z
  {
  }

  /** Split an identifier, accepting Pascal, camel, snake, kebab and any mixture. */
  method SplitWords(source: string) returns (ws: seq<string>)
    ensures ws == Words(source)
  {
    var out: seq<string> := [];
    var current := "";
    for i := 0 to |source|
      invariant out + RawWords(source, i, current) == RawWords(source, 0, "")
    {
      var c := source[i];
      if IsSeparator(c) {
        Join3(out, Flushed(current), RawWords(source, i + 1, ""));
        out := out + Flushed(current);
        current := "";
      } else if IsDigit(c) {
        current := current + [c];
      } else if IsUpper(c) {
        if StartsWord(source, i) {
          Join3(out, Flushed(current), RawWords(source, i + 1, [c]));
          assert "" + [c] == [c];
          out := out + Flushed(current);
          current := "";
        }
        current := current + [c];
      } else {
        current := current + [c];
      }
    }
    out := out + Flushed(current);
    ws := [];
    for k := 0 to |out|
      invariant ws == SplitRuns(out[..k])
    {
      assert out[..k + 1][..k] == out[..k];
      ws := ws + SplitRun(out[k]);
    }
    assert out[..|out|] == out;
  }

  // ---- case conversions -----------------------------------------------------

  function Capitalise(word: string): string {
    if word == "" then ""
    else if Upper(word) in INITIALISMS then Upper(word)
    else [UpperChar(word[0])] + Lower(word[1..])
  }

  function LowerAll(ws: seq<string>): (r: seq<string>)
    ensures |r| == |ws|
  {
    seq(|ws|, k requires 0 <= k < |ws| => Lower(ws[k]))
  }

  function CapitaliseAll(ws: seq<string>): (r: seq<string>)
    ensures |r| == |ws|
  {
    seq(|ws|, k requires 0 <= k < |ws| => Capitalise(ws[k]))
  }

  function Pascal(s: string): string { Concat(CapitaliseAll(Words(s))) }

  function Camel(s: string): string {
    var ws := Words(s);
    if ws == [] then "" else Lower(ws[0]) + Concat(CapitaliseAll(ws[1..]))
  }

  function Snake(s: string): string { Join(LowerAll(Words(s)), "_") }

  function Kebab(s: string): string { Dashed(Snake(s)) }

  /** `s.replace(/_/g, '-')`. */
  function Dashed(s: string): (r: string)
    ensures |r| == |s|
  {
    seq(|s|, k requires 0 <= k < |s| => if s[k] == '_' then '-' else s[k])
  }

  // ---- words have no separators ---------------------------------------------

  /** Not empty, and nothing in it that would separate words. */
  predicate Solid(w: string) { w != "" && forall c | c in w :: !IsSeparator(c) }

  /** Solid and without capitals: a word the splitter reads back whole. */
  predicate Plain(w: string) { Solid(w) && forall c | c in w :: !IsUpper(c) }

  lemma {:induction false} RawWordsAreSolid(s: string, i: nat, current: string)
    requires i <= |s| && (current == "" || Solid(current))
    ensures forall w | w in RawWords(s, i, current) :: Solid(w)
    decreases |s| - i
  {
    if i < |s| {
      if IsSeparator(s[i]) {
        RawWordsAreSolid(s, i + 1, "");
      } else if IsUpper(s[i]) && StartsWord(s, i) {
        RawWordsAreSolid(s, i + 1, [s[i]]);
      } else {
        RawWordsAreSolid(s, i + 1, current + [s[i]]);
      }
    }
  }

  lemma {:induction false} PartsWithin(parts: seq<string>, word: string)
    requires Concat(parts) == word
    ensures forall p, c | p in parts && c in p :: c in word
    decreases |parts|
  {
    if parts != [] {
      PartsWithin(parts[1..], Concat(parts[1..]));
      assert parts == [parts[0]] + parts[1..];
    }
  }

  lemma SplitRunIs(word: string)
    ensures Concat(SplitRun(word)) == word
    ensures forall p | p in SplitRun(word) :: p == word || |p| >= 2
    ensures |SplitRun(word)| >= 1
  {
    DecomposeIsBest(INITIALISMS, word);
    assert Concat([word]) == word + Concat([]) == word;
  }

  lemma SplitRunIsSolid(word: string)
    requires Solid(word)
    ensures forall p | p in SplitRun(word) :: Solid(p)
  {
    SplitRunIs(word);
    PartsWithin(SplitRun(word), word);
  }

  lemma {:induction false} WordsAreSolid(ws: seq<string>)
    requires forall w | w in ws :: Solid(w)
    ensures forall w | w in SplitRuns(ws) :: Solid(w)
    decreases |ws|
  {
    if ws != [] {
      WordsAreSolid(ws[..|ws| - 1]);
      SplitRunIsSolid(ws[|ws| - 1]);
    }
  }

  lemma SolidWords(s: string)
    ensures forall w | w in Words(s) :: Solid(w)
  {
    RawWordsAreSolid(s, 0, "");
    WordsAreSolid(RawWords(s, 0, ""));
  }

  // ---- reading a lower-cased name back --------------------------------------

  lemma LowerIsPlain(w: string)
    requires Solid(w)
    ensures Plain(Lower(w)) && Lower(Lower(w)) == Lower(w) && Upper(Lower(w)) == Upper(w)
  {
  }

  lemma {:induction false} RawPlain(s: string, i: nat, n: nat, current: string)
    requires i + n <= |s| && forall k | i <= k < i + n :: !IsUpper(s[k]) && !IsSeparator(s[k])
    ensures RawWords(s, i, current) == RawWords(s, i + n, current + s[i..i + n])
    decreases n
  {
    if n == 0 {
      assert current + s[i..i] == current;
    } else {
      RawPlain(s, i + 1, n - 1, current + [s[i]]);
      assert current + s[i..i + n] == (current + [s[i]]) + s[i + 1..i + n];
    }
  }

  lemma RawWord(prefix: string, w: string, more: string)
    requires Plain(w)
    ensures RawWords(prefix + w + more, |prefix|, "") == RawWords(prefix + w + more, |prefix| + |w|, w)
  {
    var s, p := prefix + w + more, |prefix|;
    assert s[p..p + |w|] == w;
    forall k | p <= k < p + |w| ensures !IsUpper(s[k]) && !IsSeparator(s[k]) {
      assert s[k] == w[k - p] && w[k - p] in w;
    }
    RawPlain(s, p, |w|, "");
    assert "" + w == w;
  }

  /** Plain words joined by a separator split back into those words. */
  lemma {:induction false} RawOfJoin(prefix: string, ws: seq<string>, sep: char)
    requires IsSeparator(sep) && forall w | w in ws :: Plain(w)
    ensures RawWords(prefix + Join(ws, [sep]), |prefix|, "") == ws
    decreases |ws|
  {
    var s := prefix + Join(ws, [sep]);
    if ws != [] {
      var w, more := ws[0], if |ws| == 1 then "" else [sep] + Join(ws[1..], [sep]);
      assert w in ws && w != "";
      assert s == prefix + w + more;
      RawWord(prefix, w, more);
      hide Plain;
      if |ws| > 1 {
        assert s == (prefix + w + [sep]) + Join(ws[1..], [sep]);
        RawOfJoin(prefix + w + [sep], ws[1..], sep);
        assert s[|prefix| + |w|] == sep;
        assert ws == [w] + ws[1..];
      } else {
        assert ws == [w];
      }
    }
  }

  lemma PlainRun(w: string)
    requires Plain(w)
    ensures SplitRun(w) == [w]
  {
    if AllLetters(w) {
      assert w[0] in w && IsLower(w[0]);
      assert Upper(w)[0] == UpperChar(w[0]) != w[0];
    }
  }

  lemma {:induction false} PlainRuns(ws: seq<string>)
    requires forall w | w in ws :: Plain(w)
    ensures SplitRuns(ws) == ws
    decreases |ws|
  {
    hide SplitRun, Plain;
    if ws != [] {
      PlainRuns(ws[..|ws| - 1]);
      assert ws[|ws| - 1] in ws;
      PlainRun(ws[|ws| - 1]);
      assert ws == ws[..|ws| - 1] + [ws[|ws| - 1]];
    }
  }

  lemma WordsOfJoin(ws: seq<string>, sep: char)
    requires IsSeparator(sep) && forall w | w in ws :: Plain(w)
    ensures Words(Join(ws, [sep])) == ws
  {
    RawOfJoin("", ws, sep);
    assert "" + Join(ws, [sep]) == Join(ws, [sep]);
    PlainRuns(ws);
  }

  lemma {:induction false} DashedJoin(ws: seq<string>)
    requires forall w | w in ws :: Plain(w)
    ensures Dashed(Join(ws, "_")) == Join(ws, "-")
    decreases |ws|
  {
    if |ws| >= 1 {
      assert ws[0] in ws;
      assert Dashed(ws[0]) == ws[0] by { assert forall k | 0 <= k < |ws[0]| :: ws[0][k] in ws[0]; }
      if |ws| > 1 {
        DashedJoin(ws[1..]);
        assert Dashed(ws[0] + "_" + Join(ws[1..], "_")) == Dashed(ws[0]) + "-" + Dashed(Join(ws[1..], "_"));
      }
    }
  }

  lemma CapitaliseForgetsCase(w: string)
    requires Solid(w)
    ensures Capitalise(Lower(w)) == Capitalise(w)
  {
    LowerIsPlain(w);
    assert Lower(w)[0] == LowerChar(w[0]);
    assert Lower(Lower(w)[1..]) == Lower(w[1..]);
  }

  lemma LoweredWords(s: string)
    ensures forall w | w in LowerAll(Words(s)) :: Plain(w)
    ensures LowerAll(LowerAll(Words(s))) == LowerAll(Words(s))
    ensures CapitaliseAll(LowerAll(Words(s))) == CapitaliseAll(Words(s))
  {
    SolidWords(s);
    forall k | 0 <= k < |Words(s)| ensures Plain(LowerAll(Words(s))[k]) {
      assert Words(s)[k] in Words(s);
      LowerIsPlain(Words(s)[k]);
    }
    forall k | 0 <= k < |Words(s)|
      ensures LowerAll(LowerAll(Words(s)))[k] == LowerAll(Words(s))[k]
      ensures CapitaliseAll(LowerAll(Words(s)))[k] == CapitaliseAll(Words(s))[k]
    {
      assert Words(s)[k] in Words(s);
      LowerIsPlain(Words(s)[k]);
      CapitaliseForgetsCase(Words(s)[k]);
    }
  }

  /**
   * `snake` is a canonical form: it is its own, kebab case has the same one, and
   * the Pascal and camel forms of a name depend on nothing else.
   */
  lemma SnakeIsCanonical(s: string)
    ensures Snake(Snake(s)) == Snake(s)
    ensures Snake(Kebab(s)) == Snake(s) && Kebab(Snake(s)) == Kebab(s)
    ensures Pascal(Snake(s)) == Pascal(s) == Pascal(Kebab(s))
    ensures Camel(Snake(s)) == Camel(s)
  {
    LoweredWords(s);
    var ws := LowerAll(Words(s));
    WordsOfJoin(ws, '_');
    WordsOfJoin(ws, '-');
    DashedJoin(ws);
    assert Words(Snake(s)) == ws && Words(Kebab(s)) == ws;
    if ws != [] {
      assert CapitaliseAll(ws[1..]) == CapitaliseAll(ws)[1..];
      assert CapitaliseAll(Words(s)[1..]) == CapitaliseAll(Words(s))[1..];
      assert Lower(ws[0]) == LowerAll(ws)[0] == ws[0] == Lower(Words(s)[0]);
    }
  }

  lemma RawOfIdS()
    ensures RawWords("id_s", 0, "") == ["id", "s"]
  {
    var s := "id_s";
    assert s[0] == 'i' && s[1] == 'd' && s[2] == '_' && s[3] == 's' && |s| == 4;
    assert "" + ['s'] == "s" && "" + ['i'] == "i" && "i" + ['d'] == "id";
    assert RawWords(s, 3, "") == RawWords(s, 4, "s") == ["s"];
    assert RawWords(s, 2, "id") == ["id"] + RawWords(s, 3, "");
    assert RawWords(s, 0, "") == RawWords(s, 1, "i") == RawWords(s, 2, "id");
  }

  lemma RawOfIds()
    ensures RawWords("IDS", 0, "") == ["IDS"]
  {
    var t := "IDS";
    assert t[0] == 'I' && t[1] == 'D' && t[2] == 'S' && |t| == 3;
    assert "" + ['I'] == "I" && "I" + ['D'] == "ID" && "ID" + ['S'] == "IDS";
    assert RawWords(t, 2, "ID") == RawWords(t, 3, "IDS") == ["IDS"];
    assert RawWords(t, 0, "") == RawWords(t, 1, "I") == RawWords(t, 2, "ID");
  }

  lemma WordsOfIdS()
    ensures Words("id_s") == ["id", "s"] && Words("IDS") == ["IDS"]
  {
    RawOfIdS();
    RawOfIds();
    hide RawWords;
    assert SplitRuns(["id"]) == ["id"] by { assert ["id"][..0] == []; }
    assert SplitRuns(["id", "s"]) == ["id", "s"] by { assert ["id", "s"][..1] == ["id"]; }
    assert SplitRuns(["IDS"]) == ["IDS"] by { assert ["IDS"][..0] == []; }
  }

  lemma CapitaliseKnown(w: string)
    requires w != "" && Upper(w) in INITIALISMS
    ensures Capitalise(w) == Upper(w)
  {
  }

  lemma CapitaliseOther(w: string)
    requires w != "" && Upper(w) !in INITIALISMS
    ensures Capitalise(w) == [UpperChar(w[0])] + Lower(w[1..])
  {
  }

  lemma SomeInitialisms()
    ensures "ID" in INITIALISMS && "S" !in INITIALISMS && "IDS" !in INITIALISMS
  {
    if "S" in INITIALISMS { InitialismsAreLong("S"); }
    if "IDS" in INITIALISMS { InitialismsAreLong("IDS"); }
    assert "ID" in {"HTTPS", "ID", "IP", "JSON", "LHS", "QPS"};
  }

  lemma CasesOfIdS()
    ensures Upper("id") == "ID" && Upper("s") == "S" && Upper("IDS") == "IDS"
    ensures Lower("") == "" && Lower("DS") == "ds" && UpperChar('s') == 'S' && UpperChar('I') == 'I'
  {
  }

  lemma CapitalsOfIdS()
    ensures Capitalise("id") == "ID" && Capitalise("s") == "S" && Capitalise("IDS") == "Ids"
  {
    hide Capitalise, INITIALISMS, Upper, Lower;
    SomeInitialisms();
    CasesOfIdS();
    assert "s"[1..] == "" && "IDS"[1..] == "DS";
    CapitaliseKnown("id");
    CapitaliseOther("s");
    CapitaliseOther("IDS");
  }

  /** Pascal case is not canonical: a second application can undo an initialism. */
  lemma PascalIsNotIdempotent()
    ensures Pascal("id_s") == "IDS" && Pascal("IDS") == "Ids"
  {
    WordsOfIdS();
    CapitalsOfIdS();
    hide Words, Capitalise;
    assert CapitaliseAll(["id", "s"]) == ["ID", "S"];
    assert Concat(["S"]) == "S" && ["ID", "S"][1..] == ["S"];
    assert CapitaliseAll(["IDS"]) == ["Ids"];
    assert Concat(["Ids"]) == "Ids";
  }

  // ---- where words are cut ---------------------------------------------------

  /** The characters that divide words. */
  predicate Divides(c: char) { c in "_- ./" }

  /** Between positions `i` and `i + 1` a word ends: a capital after a small letter or digit, or one that starts a word after a run. */
  predicate CutAfter(s: string, i: nat) {
    i + 1 < |s| && 'A' <= s[i + 1] <= 'Z'
    && ('a' <= s[i] <= 'z' || '0' <= s[i] <= '9'
        || ('A' <= s[i] <= 'Z' && i + 2 < |s| && 'a' <= s[i + 2] <= 'z'))
  }

  datatype Span = Span(start: nat, end: nat)

  ghost predicate Covered(spans: seq<Span>, i: nat) { exists k :: 0 <= k < |spans| && spans[k].start <= i < spans[k].end }

  /** No word is cut inside, and words that touch are cut apart. */
  ghost predicate CutRight(s: string, spans: seq<Span>) {
    && (forall k, i: nat | 0 <= k < |spans| && spans[k].start <= i && i + 1 < spans[k].end :: !CutAfter(s, i))
    && (forall k | 0 <= k < |spans| && 0 < spans[k].end < |s| && !Divides(s[spans[k].end]) :: CutAfter(s, spans[k].end - 1))
  }

  /**
   * The words are the stretches `spans` of the source from `from` on: in order,
   * covering every character but the dividers; no word is cut inside, and two words
   * that touch are cut between.
   */
  ghost predicate CutInto(s: string, from: nat, ws: seq<string>, spans: seq<Span>) {
    && |spans| == |ws|
    && (forall k | 0 <= k < |spans| ::
          from <= spans[k].start < spans[k].end <= |s| && ws[k] == s[spans[k].start..spans[k].end])
    && (forall k, m | 0 <= k < m < |spans| :: spans[k].end <= spans[m].start)
    && (forall i | from <= i < |s| :: Covered(spans, i) <==> !Divides(s[i]))
    && CutRight(s, spans)
  }

  lemma DividesIs(c: char)
    ensures Divides(c) <==> IsSeparator(c)
  {
  }

  lemma StartsIsCut(s: string, i: nat)
    requires 0 < i < |s| && !IsSeparator(s[i])
    ensures IsUpper(s[i]) && StartsWord(s, i) <==> CutAfter(s, i - 1)
  {
  }

  /** A word put before the others. */
  lemma FirstCutRight(s: string, x: Span, spans: seq<Span>)
    requires CutRight(s, spans) && CutRight(s, [x])
    ensures CutRight(s, [x] + spans)
  {
    hide CutAfter, Divides;
    var more := [x] + spans;
    assert [x][0] == x && forall k | 0 <= k < |more| :: more[k] == if k == 0 then [x][0] else spans[k - 1];
  }

  lemma SpanFirst(s: string, start: nat, i: nat, from: nat, ws: seq<string>, spans: seq<Span>)
    requires start < i <= from <= |s| && CutInto(s, from, ws, spans)
    requires forall k | start <= k < i :: !Divides(s[k])
    requires forall k | i <= k < from :: Divides(s[k])
    requires forall k: nat | start <= k && k + 1 < i :: !CutAfter(s, k)
    requires i < |s| && !Divides(s[i]) ==> CutAfter(s, i - 1)
    ensures CutInto(s, start, [s[start..i]] + ws, [Span(start, i)] + spans)
  {
    var more := [Span(start, i)] + spans;
    hide CutAfter, Divides, Covered;
    forall x | start <= x < |s| ensures Covered(more, x) <==> !Divides(s[x]) {
      CoveredFirst(Span(start, i), spans, x);
      if x < from { NotCovered(s, from, ws, spans, x); }
    }
    FirstCutRight(s, Span(start, i), spans);
    assert CutRight(s, more);
    hide CutRight;
  }

  lemma CoveredFirst(x: Span, spans: seq<Span>, i: nat)
    ensures Covered([x] + spans, i) <==> x.start <= i < x.end || Covered(spans, i)
  {
    var more := [x] + spans;
    assert more[0] == x;
    if k :| 0 <= k < |spans| && spans[k].start <= i < spans[k].end { assert more[k + 1] == spans[k]; }
    if k :| 0 <= k < |more| && more[k].start <= i < more[k].end { if k > 0 { assert spans[k - 1] == more[k]; } }
  }

  lemma NotCovered(s: string, from: nat, ws: seq<string>, spans: seq<Span>, i: nat)
    requires CutInto(s, from, ws, spans) && i < from
    ensures !Covered(spans, i)
  {
    hide CutAfter, Divides;
  }

  /** Dividers put before the words. */
  lemma SpansLater(s: string, start: nat, from: nat, ws: seq<string>, spans: seq<Span>)
    requires start <= from <= |s| && CutInto(s, from, ws, spans) && forall k | start <= k < from :: Divides(s[k])
    ensures CutInto(s, start, ws, spans)
  {
    forall i | start <= i < |s| ensures Covered(spans, i) <==> !Divides(s[i]) {
      if i < from { NotCovered(s, from, ws, spans, i); }
    }
    hide CutAfter, Divides, Covered;
  }

  lemma NoSpans(s: string)
    ensures CutInto(s, |s|, [], [])
  {
  }

  /** A capital that starts a word stands behind a character of the word before. */
  lemma StartsInside(s: string, start: nat, i: nat)
    requires start <= i < |s| && IsUpper(s[i]) && StartsWord(s, i) && (start < i || start == 0 || Divides(s[start - 1]))
    ensures start < i
  {
  }

  lemma RawStep(s: string, i: nat, current: string)
    requires i <= |s|
    ensures RawWords(s, i, current)
      == if i == |s| then (if current != "" then [current] else [])
         else if IsSeparator(s[i]) then (if current != "" then [current] else []) + RawWords(s, i + 1, "")
         else if IsUpper(s[i]) && StartsWord(s, i) then (if current != "" then [current] else []) + RawWords(s, i + 1, [s[i]])
         else RawWords(s, i + 1, current + [s[i]])
  {
    hide StartsWord;
  }

  lemma {:induction false} SpansFrom(s: string, start: nat, i: nat) returns (spans: seq<Span>)
    requires start <= i <= |s| && forall k | start <= k < i :: !Divides(s[k])
    requires forall k: nat | start <= k && k + 1 < i :: !CutAfter(s, k)
    requires start < i || start == 0 || Divides(s[start - 1])
    ensures CutInto(s, start, RawWords(s, i, s[start..i]), spans)
    decreases |s| - i
  {
    hide CutInto, CutAfter, StartsWord, Divides, RawWords, IsSeparator, IsUpper;
    var current := s[start..i];
    RawStep(s, i, current);
    if i == |s| {
      NoSpans(s);
      if start < i {
        SpanFirst(s, start, i, i, [], []);
        assert [current] + [] == [current];
        spans := [Span(start, i)] + [];
      } else {
        spans := [];
      }
    } else {
      DividesIs(s[i]);
      if IsSeparator(s[i]) {
        var rest := SpansFrom(s, i + 1, i + 1);
        assert s[i + 1..i + 1] == "";
        if start < i {
          SpanFirst(s, start, i, i + 1, RawWords(s, i + 1, ""), rest);
          spans := [Span(start, i)] + rest;
        } else {
          SpansLater(s, start, i + 1, RawWords(s, i + 1, ""), rest);
          assert [] + RawWords(s, i + 1, "") == RawWords(s, i + 1, "");
          spans := rest;
        }
      } else if IsUpper(s[i]) && StartsWord(s, i) {
        StartsInside(s, start, i);
        StartsIsCut(s, i);
        var rest := SpansFrom(s, i, i + 1);
        assert s[i..i + 1] == [s[i]];
        SpanFirst(s, start, i, i, RawWords(s, i + 1, [s[i]]), rest);
        spans := [Span(start, i)] + rest;
      } else {
        if start < i { StartsIsCut(s, i); }
        assert s[start..i + 1] == current + [s[i]];
        spans := SpansFrom(s, start, i + 1);
      }
    }
  }

  /**
   * Before runs of initialisms are taken apart, the words are the stretches between
   * dividers, cut exactly where a capital follows a small letter or digit, or
   * follows a capital and precedes a small letter.
   */
  lemma WordsAreStretches(s: string) returns (spans: seq<Span>)
    ensures CutInto(s, 0, RawWords(s, 0, ""), spans)
  {
    assert s[0..0] == "";
    spans := SpansFrom(s, 0, 0);
  }

  /** Two neighbouring characters are in different words exactly when a word is cut between them. */
  lemma NeighboursCut(s: string, spans: seq<Span>, i: nat)
    requires CutInto(s, 0, RawWords(s, 0, ""), spans) && i + 1 < |s| && !Divides(s[i]) && !Divides(s[i + 1])
    ensures (exists k :: 0 <= k < |spans| && spans[k].start <= i && i + 1 < spans[k].end) <==> !CutAfter(s, i)
  {
    hide CutAfter, Divides, RawWords;
    assert Covered(spans, i);
    assert CutRight(s, spans);
    hide CutInto;
    var k :| 0 <= k < |spans| && spans[k].start <= i < spans[k].end;
    if i + 1 < spans[k].end { assert !CutAfter(s, i); } else { assert spans[k].end == i + 1; }
  }

  // ---- runs of initialisms ----------------------------------------------------

  predicate AllCapitals(w: string) { forall k | 0 <= k < |w| :: 'A' <= w[k] <= 'Z' }

  /** A run that is taken apart: 4 to 32 capitals, no initialism itself but written with some. */
  ghost predicate TakenApart(w: string) {
    4 <= |w| <= 32 && AllCapitals(w) && w !in INITIALISMS && exists parts :: Segments(INITIALISMS, parts, w)
  }

  lemma CapitalsAre(w: string)
    requires w != ""
    ensures w == Upper(w) && AllLetters(w) <==> AllCapitals(w)
  {
    if AllCapitals(w) {
      forall c | c in w ensures IsLetter(c) { var k :| 0 <= k < |w| && w[k] == c; }
    }
    if w == Upper(w) && AllLetters(w) {
      forall k | 0 <= k < |w| ensures 'A' <= w[k] <= 'Z' { assert w[k] in w && w[k] == Upper(w)[k]; }
    }
  }

  lemma OnePartIsWhole(known: set<string>, parts: seq<string>, w: string)
    requires Segments(known, parts, w) && |parts| == 1
    ensures w in known && parts == [w]
  {
    assert parts[0] in parts && parts == [parts[0]] && parts[1..] == [];
    assert Concat(parts) == parts[0] + Concat(parts[1..]) == parts[0] + "" == parts[0];
  }

  lemma WholeIsLongest(known: set<string>, w: string)
    requires w in known && |w| >= 2
    ensures Decompose(known, w) == Some([w])
  {
    assert w[..|w|] == w && w[|w|..] == "" && Decompose(known, "") == Some([]);
    assert TryHeads(known, w, |w|) == Some([w] + []);
    assert [w] + [] == [w];
  }

  /** Exactly such a run becomes the best of its segmentations; every other word stays as it is. */
  lemma SplitRunExactly(w: string)
    requires w != ""
    ensures if TakenApart(w) then Best(INITIALISMS, w, Some(SplitRun(w))) && |SplitRun(w)| >= 2 else SplitRun(w) == [w]
  {
    CapitalsAre(w);
    DecomposeIsBest(INITIALISMS, w);
    hide INITIALISMS, Upper, AllLetters, AllCapitals, LongerFirst;
    var d := Decompose(INITIALISMS, w);
    if d.Some? && |d.value| == 1 { OnePartIsWhole(INITIALISMS, d.value, w); }
    assert Concat([]) == "";
    if w in INITIALISMS && |w| >= 2 { WholeIsLongest(INITIALISMS, w); }
    hide Decompose, Segments;
  }

  // ---- the four cases -----------------------------------------------------------

  /** A word with its first letter a capital, or all of it when it is an initialism. */
  function Titled(w: string): string {
    if w == "" then "" else if Upper(w) in INITIALISMS then Upper(w) else [UpperChar(w[0])] + w[1..]
  }

  function AllTitled(ws: seq<string>): string {
    if ws == [] then "" else Titled(ws[0]) + AllTitled(ws[1..])
  }

  lemma CapitalisedIsTitled(w: string)
    requires Plain(w)
    ensures Capitalise(w) == Titled(w)
  {
    assert forall k | 1 <= k < |w| :: w[k] in w;
    assert Lower(w[1..]) == w[1..];
    hide INITIALISMS, Upper;
  }

  lemma {:induction false} CapitalisedAllTitled(ws: seq<string>)
    requires forall w | w in ws :: Plain(w)
    ensures Concat(CapitaliseAll(ws)) == AllTitled(ws)
    decreases |ws|
  {
    hide Capitalise, Titled, INITIALISMS, Upper, Lower, Plain;
    if ws != [] {
      assert ws[0] in ws;
      CapitalisedIsTitled(ws[0]);
      CapitalisedAllTitled(ws[1..]);
      assert CapitaliseAll(ws)[1..] == CapitaliseAll(ws[1..]);
    } else {
      assert CapitaliseAll(ws) == [];
    }
  }

  /** Small-letter words joined by any divider are written in the four cases as those words. */
  lemma CasesOfWords(ws: seq<string>, sep: char)
    requires ws != [] && IsSeparator(sep) && forall w | w in ws :: Plain(w)
    ensures var s := Join(ws, [sep]);
      && Snake(s) == Join(ws, "_") && Kebab(s) == Join(ws, "-")
      && Pascal(s) == AllTitled(ws) && Camel(s) == ws[0] + AllTitled(ws[1..])
  {
    hide Words, Capitalise, Titled, AllTitled, INITIALISMS, Upper, Plain, Concat, Lower;
    WordsOfJoin(ws, sep);
    DashedJoin(ws);
    LowAreLow(ws);
    CapitalisedAllTitled(ws);
    CapitalisedAllTitled(ws[1..]);
    assert Lower(ws[0]) == LowerAll(ws)[0];
  }

  lemma LowAreLow(ws: seq<string>)
    requires forall w | w in ws :: Plain(w)
    ensures LowerAll(ws) == ws
  {
    hide Lower, Plain;
    forall k | 0 <= k < |ws| ensures LowerAll(ws)[k] == ws[k] {
      assert ws[k] in ws;
      LowIsLow(ws[k]);
    }
  }

  lemma LowIsLow(w: string)
    requires Plain(w)
    ensures Lower(w) == w
  {
    assert forall k | 0 <= k < |w| :: w[k] in w;
  }
}
