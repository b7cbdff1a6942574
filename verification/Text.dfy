// Strings as the extension handles them: split and joined on separators, with
// CRLF folded to LF, trimmed, and holding decimal numerals.
module Text {

  /** Absence as a value; usable with `:-`. */
  datatype Option<+T> = None | Some(value: T) {
    predicate IsFailure() { None? }
    function PropagateFailure<U>(): Option<U> requires None? { None }
    function Extract(): T requires Some? { value }
    function GetOr(fallback: T): T { match this case Some(v) => v case None => fallback }
  }

  // ---- split and join -------------------------------------------------------

  /** `s.split(sep)` for a one-character separator: never empty, pieces free of `sep`. */
  function Split(s: string, sep: char): (parts: seq<string>)
    ensures |parts| >= 1
    ensures forall p | p in parts :: sep !in p
  {
    if s == "" then [""]
    else
      var rest := Split(s[1..], sep);
      if s[0] == sep then [""] + rest else [[s[0]] + rest[0]] + rest[1..]
  }

  /** `parts.join(sep)`. */
  function Join(parts: seq<string>, sep: string): string {
    if |parts| == 0 then ""
    else if |parts| == 1 then parts[0]
    else parts[0] + sep + Join(parts[1..], sep)
  }

  /** Pieces written one after the other with a separator between any two. */
  function Spliced(pieces: seq<string>, separators: string): string
    requires |pieces| == |separators| + 1
  {
    if separators == "" then pieces[0] else pieces[0] + [separators[0]] + Spliced(pieces[1..], separators[1..])
  }

  /** Splitting at the first separator after a piece that contains none. */
  lemma {:induction false} SplitHead(p: string, rest: string, sep: char)
    requires sep !in p
    ensures Split(p + [sep] + rest, sep) == [p] + Split(rest, sep)
    decreases |p|
  {
    var s := p + [sep] + rest;
    if p == "" {
      assert s[1..] == rest;
    } else {
      assert s[1..] == p[1..] + [sep] + rest;
      SplitHead(p[1..], rest, sep);
      assert [s[0]] + p[1..] == p;
    }
  }

  lemma {:induction false} SplitNone(p: string, sep: char)
    requires sep !in p
    ensures Split(p, sep) == [p]
    decreases |p|
  {
    if p != "" {
      SplitNone(p[1..], sep);
      assert [p[0]] + p[1..] == p;
    }
  }

  /** Splitting what was joined gives the pieces back, when no piece holds the separator. */
  lemma {:induction false} SplitOfJoin(parts: seq<string>, sep: char)
    requires |parts| >= 1
    requires forall p | p in parts :: sep !in p
    ensures Split(Join(parts, [sep]), sep) == parts
    decreases |parts|
  {
    if |parts| == 1 {
      SplitNone(parts[0], sep);
    } else {
      SplitOfJoin(parts[1..], sep);
      SplitHead(parts[0], Join(parts[1..], [sep]), sep);
      assert parts[0] + [sep] + Join(parts[1..], [sep]) == Join(parts, [sep]);
    }
  }

  /** Joining what was split gives the string back: `Split` loses nothing. */
  lemma {:induction false} JoinOfSplit(s: string, sep: char)
    ensures Join(Split(s, sep), [sep]) == s
    decreases |s|
  {
    if s != "" {
      JoinOfSplit(s[1..], sep);
      var rest := Split(s[1..], sep);
      if s[0] == sep {
        assert ([""] + rest)[1..] == rest;
      } else if |rest| > 1 {
        var all := [[s[0]] + rest[0]] + rest[1..];
        assert all[1..] == rest[1..];
        assert Join(all, [sep]) == [s[0]] + Join(rest, [sep]);
      }
    }
  }

  function Count(s: string, c: char): nat {
    if s == "" then 0 else (if s[0] == c then 1 else 0) + Count(s[1..], c)
  }

  lemma {:induction false} CountOfConcat(x: string, y: string, c: char)
    ensures Count(x + y, c) == Count(x, c) + Count(y, c)
    decreases |x|
  {
    if x == "" {
      assert x + y == y;
    } else {
      assert (x + y)[1..] == x[1..] + y;
      CountOfConcat(x[1..], y, c);
    }
  }

  lemma {:induction false} CountZero(s: string, c: char)
    ensures Count(s, c) == 0 <==> c !in s
    decreases |s|
  {
    if s != "" {
      CountZero(s[1..], c);
      assert s == [s[0]] + s[1..];
    }
  }

  /** Joining on LF adds one LF per gap, and more if a piece already holds one. */
  lemma {:induction false} CountOfJoin(parts: seq<string>)
    requires |parts| >= 1
    ensures Count(Join(parts, "\n"), '\n') >= |parts| - 1
    ensures (exists p :: p in parts && '\n' in p) ==> Count(Join(parts, "\n"), '\n') > |parts| - 1
    decreases |parts|
  {
    CountZero(parts[0], '\n');
    if |parts| > 1 {
      CountOfJoin(parts[1..]);
      CountOfConcat(parts[0], "\n", '\n');
      CountOfConcat(parts[0] + "\n", Join(parts[1..], "\n"), '\n');
      assert Count("\n", '\n') == 1 + Count("", '\n') by { assert "\n"[1..] == ""; }
      assert parts == [parts[0]] + parts[1..];
    }
  }

  lemma {:induction false} SplitLength(s: string, sep: char)
    ensures |Split(s, sep)| == Count(s, sep) + 1
    decreases |s|
  {
    if s != "" { SplitLength(s[1..], sep); }
  }

  // ---- line ends ------------------------------------------------------------

  predicate EndsWith(s: string, c: char) { |s| > 0 && s[|s| - 1] == c }
  predicate StartsWith(s: string, c: char) { |s| > 0 && s[0] == c }

  /** `s.replace(/\r\n/g, '\n')`. A CR that no LF follows stays. */
  function FoldCrLf(s: string): string {
    if s == "" then ""
    else if |s| >= 2 && s[0] == '\r' && s[1] == '\n' then "\n" + FoldCrLf(s[2..])
    else [s[0]] + FoldCrLf(s[1..])
  }

  lemma FoldPair(rest: string)
    ensures FoldCrLf("\r\n" + rest) == "\n" + FoldCrLf(rest)
  {
    assert ("\r\n" + rest)[2..] == rest;
  }

  lemma FoldChar(c: char, rest: string)
    requires !(c == '\r' && StartsWith(rest, '\n'))
    ensures FoldCrLf([c] + rest) == [c] + FoldCrLf(rest)
  {
    assert ([c] + rest)[1..] == rest;
  }

  lemma FoldEmpty()
    ensures FoldCrLf("") == ""
  {
  }

  /** Folding is piecewise unless the cut falls between a CR and its LF. */
  lemma {:induction false} FoldOfConcat(x: string, y: string)
    requires !(EndsWith(x, '\r') && StartsWith(y, '\n'))
    ensures FoldCrLf(x + y) == FoldCrLf(x) + FoldCrLf(y)
    decreases |x|
  {
    hide FoldCrLf;
    if x == "" {
      assert x + y == y;
      FoldEmpty();
    } else if |x| >= 2 && x[0] == '\r' && x[1] == '\n' {
      var t := x[2..];
      FoldOfConcat(t, y);
      FoldPair(t);
      FoldPair(t + y);
      assert x == "\r\n" + t;
      assert x + y == "\r\n" + (t + y);
    } else {
      var c, t := x[0], x[1..];
      FoldOfConcat(t, y);
      FoldChar(c, t);
      FoldChar(c, t + y);
      assert x == [c] + t;
      assert x + y == [c] + (t + y);
    }
  }

  /** Text without a CR is left alone. */
  lemma {:induction false} FoldWithoutCr(s: string)
    requires '\r' !in s
    ensures FoldCrLf(s) == s
    decreases |s|
  {
    if s != "" { FoldWithoutCr(s[1..]); }
  }

  /** Text without a CRLF is left alone. */
  lemma {:induction false} FoldWithoutPair(s: string)
    requires forall k | 0 <= k < |s| - 1 :: !(s[k] == '\r' && s[k + 1] == '\n')
    ensures FoldCrLf(s) == s
    decreases |s|
  {
    if s != "" {
      FoldWithoutPair(s[1..]);
      FoldChar(s[0], s[1..]);
      assert [s[0]] + s[1..] == s;
    }
  }

  /** `s` with every LF written as CRLF. */
  function ToCrLf(s: string): string {
    if s == "" then ""
    else (if s[0] == '\n' then "\r\n" else [s[0]]) + ToCrLf(s[1..])
  }

  /** Folding undoes `ToCrLf` on text that holds no CRLF of its own. */
  lemma {:induction false} FoldOfToCrLf(s: string)
    requires forall k | 0 <= k < |s| - 1 :: !(s[k] == '\r' && s[k + 1] == '\n')
    ensures FoldCrLf(ToCrLf(s)) == s
    ensures !StartsWith(ToCrLf(s), '\n')
    decreases |s|
  {
    if s != "" {
      FoldOfToCrLf(s[1..]);
      var rest := ToCrLf(s[1..]);
      if s[0] == '\n' { FoldPair(rest); } else { FoldChar(s[0], rest); }
    }
  }

  // ---- searching and case ---------------------------------------------------

  function IndexOf(s: string, c: char): (r: Option<nat>)
    ensures r.Some? ==> r.value < |s| && s[r.value] == c && c !in s[..r.value]
    ensures r.None? ==> c !in s
  {
    if s == "" then None
    else if s[0] == c then Some(0)
    else
      var k :- IndexOf(s[1..], c);
      assert s[..k + 1] == [s[0]] + s[1..][..k];
      Some(k + 1)
  }

  predicate IsUpper(c: char) { 'A' <= c <= 'Z' }
  predicate IsLower(c: char) { 'a' <= c <= 'z' }

  function LowerChar(c: char): char { if IsUpper(c) then c + 32 as char else c }
  function UpperChar(c: char): char { if IsLower(c) then c - 32 as char else c }

  function Lower(s: string): (r: string)
    ensures |r| == |s|
  {
    seq(|s|, k requires 0 <= k < |s| => LowerChar(s[k]))
  }

  function Upper(s: string): (r: string)
    ensures |r| == |s|
  {
    seq(|s|, k requires 0 <= k < |s| => UpperChar(s[k]))
  }

  // ---- decimal numerals -----------------------------------------------------

  predicate IsDigit(c: char) { '0' <= c <= '9' }

  function DigitChar(d: nat): (c: char)
    requires d < 10
    ensures IsDigit(c) && c as int - '0' as int == d
  {
    ('0' as int + d) as char
  }

  function Decimal(n: nat): (s: string)
    ensures |s| >= 1
    ensures forall c | c in s :: IsDigit(c)
  {
    if n < 10 then [DigitChar(n)] else Decimal(n / 10) + [DigitChar(n % 10)]
  }

  function DigitsValue(s: string): nat
    requires forall c | c in s :: IsDigit(c)
  {
    if s == "" then 0
    else
      assert s[|s| - 1] in s && IsDigit(s[|s| - 1]);
      DigitsValue(s[..|s| - 1]) * 10 + (s[|s| - 1] as int - '0' as int)
  }

  lemma {:induction false} ValueOfDecimal(n: nat)
    ensures DigitsValue(Decimal(n)) == n
  {
    if n >= 10 {
      ValueOfDecimal(n / 10);
      assert Decimal(n)[..|Decimal(n)| - 1] == Decimal(n / 10);
    } else {
      assert DigitsValue("") == 0;
      assert [DigitChar(n)][..0] == "";
    }
  }

  /** How many digits a string starts with. */
  function DigitRun(s: string): (k: nat)
    ensures k <= |s|
    ensures forall c | c in s[..k] :: IsDigit(c)
  {
    if s == "" || !IsDigit(s[0]) then 0
    else
      var k := DigitRun(s[1..]);
      assert s[..k + 1] == [s[0]] + s[1..][..k];
      k + 1
  }

  /** Read a numeral and the text after it. */
  function ReadNat(s: string): Option<(nat, string)> {
    var k := DigitRun(s);
    if k == 0 then None else Some((DigitsValue(s[..k]), s[k..]))
  }

  lemma {:induction false} DigitRunOf(d: string, rest: string)
    requires forall c | c in d :: IsDigit(c)
    requires rest == "" || !IsDigit(rest[0])
    ensures DigitRun(d + rest) == |d|
    decreases |d|
  {
    if d == "" {
      assert d + rest == rest;
    } else {
      assert (d + rest)[1..] == d[1..] + rest;
      DigitRunOf(d[1..], rest);
      assert (d + rest)[0] == d[0] && d[0] in d;
    }
  }

  lemma ReadOfDecimal(n: nat, rest: string)
    requires rest == "" || !IsDigit(rest[0])
    ensures ReadNat(Decimal(n) + rest) == Some((n, rest))
  {
    DigitRunOf(Decimal(n), rest);
    ValueOfDecimal(n);
    var s := Decimal(n) + rest;
    assert s[..|Decimal(n)|] == Decimal(n);
    assert s[|Decimal(n)|..] == rest;
  }

  // ---- trimming -------------------------------------------------------------

  predicate IsSpace(c: char) {
    c == ' ' || '\t' <= c <= '\r' || c == '\U{a0}' || c == '\U{1680}' || '\U{2000}' <= c <= '\U{200a}'
    || c == '\U{2028}' || c == '\U{2029}' || c == '\U{202f}' || c == '\U{205f}' || c == '\U{3000}' || c == '\U{feff}'
  }

  function TrimStart(s: string): string {
    if s != "" && IsSpace(s[0]) then TrimStart(s[1..]) else s
  }

  function TrimEnd(s: string): string {
    if s != "" && IsSpace(s[|s| - 1]) then TrimEnd(s[..|s| - 1]) else s
  }

  /** `s.trim()`. */
  function Trim(s: string): string { TrimEnd(TrimStart(s)) }
}
