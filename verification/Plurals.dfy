// The plural, table and route inferred from an entity's name, against the
// validators that take them.
module Plurals {
  import opened Text
  import opened Naming

  // ---- plurals and validators -----------------------------------------------

  const UNCOUNTABLE: set<string> := {"data", "info", "equipment", "staff", "news", "series", "species"}

  function Irregular(word: string): Option<string> {
    match word
    case "person" => Some("people") case "child" => Some("children") case "man" => Some("men")
    case "woman" => Some("women") case "datum" => Some("data") case "index" => Some("indexes")
    case "status" => Some("statuses") case "foot" => Some("feet") case "tooth" => Some("teeth")
    case "mouse" => Some("mice") case "criterion" => Some("criteria")
    case _ => None
  }

  predicate HasSuffix(w: string, suffix: string) {
    |suffix| <= |w| && w[|w| - |suffix|..] == suffix
  }

  /** What any plain object inherits: a look-up by name finds these as well as its own keys. */
  const INHERITED: set<string> :=
    {"constructor", "hasOwnProperty", "isPrototypeOf", "propertyIsEnumerable", "toLocaleString", "toString", "valueOf"}
    + {"__defineGetter__", "__defineSetter__", "__lookupGetter__", "__lookupSetter__", "__proto__"}

  /** What looking a word up in the table of irregular plurals gives: an entry, or something that is no word. */
  datatype Found = Entry(plural: string) | Inherited | Missing

  function LookUp(word: string): Found {
    if Irregular(word).Some? then Entry(Irregular(word).value)
    else if word in INHERITED then Inherited
    else Missing
  }

  /** The plural of a lower-case word; `None` when the look-up found no word but something else. */
  function PluraliseWord(word: string): Option<string> {
    if word == "" || word in UNCOUNTABLE then Some(word)
    else
      match LookUp(word)
      case Entry(plural) => Some(plural)
      case Inherited => None
      case Missing =>
        if HasSuffix(word, "s") || HasSuffix(word, "x") || HasSuffix(word, "z") || HasSuffix(word, "ch") || HasSuffix(word, "sh")
          then Some(word + "es")
        else if |word| > 1 && HasSuffix(word, "y") && word[|word| - 2] !in "aeiou" then Some(word[..|word| - 1] + "ies")
        else Some(word + "s")
  }

  function RestoreCase(original: string, inflected: string): string {
    if original == "" || inflected == "" then inflected
    else if |original| > 1 && original == Upper(original) then Upper(inflected)
    else if IsUpper(original[0]) then [UpperChar(inflected[0])] + inflected[1..]
    else inflected
  }

  function Pluralise(source: string): Option<string> {
    var ws := Words(source);
    if ws == [] then Some("")
    else
      var last := ws[|ws| - 1];
      var inflected :- PluraliseWord(Lower(last));
      var parts := ws[..|ws| - 1] + [RestoreCase(last, inflected)];
      Some(if '_' in source then Join(parts, "_") else if '-' in source then Join(parts, "-") else Concat(parts))
  }

  const GO_KEYWORDS: set<string> :=
    {"break", "case", "chan", "const", "continue", "default", "defer", "else"}
    + {"fallthrough", "for", "func", "go", "goto", "if", "import", "interface"}
    + {"map", "package", "range", "return", "select", "struct", "switch", "type", "var"}

  const RESERVED: set<string> :=
    {"resp", "repo", "port", "log", "domain", "dblib", "config", "sq", "pgx"}
    + {"handler", "response", "bootstrap", "time", "context", "serverHandler"}
    + {"serverRoute", "fx", "ctx", "sctx", "req", "err", "base", "data", "md"}
    + {"ins", "del", "svc", "commandTag", "skip", "limit", "id", "res"}

  predicate IsIdent(s: string) { s != "" && IsLetter(s[0]) && forall c | c in s :: IsAlnum(c) }

  predicate IsSnake(s: string) { s != "" && IsLower(s[0]) && forall c | c in s :: IsSlug(c) || c == '_' }

  predicate IsSlug(c: char) { IsLower(c) || IsDigit(c) }

  /** Slugs divided by single dashes or slashes, none at either end. */
  predicate IsPath(t: string) {
    && t != "" && IsSlug(t[0]) && IsSlug(t[|t| - 1])
    && (forall c | c in t :: IsSlug(c) || c == '-' || c == '/')
    && (forall k | 0 <= k < |t| - 1 :: IsSlug(t[k]) || IsSlug(t[k + 1]))
  }

  function StripSlashes(s: string): string {
    if s == "" then ""
    else if s[0] == '/' then StripSlashes(s[1..])
    else if s[|s| - 1] == '/' then StripSlashes(s[..|s| - 1])
    else s
  }

  predicate AcceptsName(raw: string) {
    IsIdent(Pascal(raw)) && Lower(Pascal(raw)) !in GO_KEYWORDS && Camel(Pascal(raw)) !in RESERVED
  }

  predicate AcceptsPlural(raw: string) { IsIdent(Pascal(raw)) }
  predicate AcceptsTable(raw: string) { IsSnake(Lower(raw)) }
  predicate AcceptsRoute(raw: string) { IsPath(StripSlashes(Lower(raw))) }

  // ---- words of an identifier -----------------------------------------------

  /** Words of letters and digits, the first starting with a letter. */
  ghost predicate Named(ws: seq<string>) {
    ws != [] && IsIdent(ws[0]) && forall w | w in ws :: Alnum(w)
  }

  predicate Alnum(w: string) { w != "" && forall c | c in w :: IsAlnum(c) }

  lemma {:induction false} RawOfIdent(s: string, i: nat, current: string)
    requires i <= |s| && Alnum(current) && forall k | i <= k < |s| :: IsAlnum(s[k])
    ensures var r := RawWords(s, i, current);
      r != [] && r[0] != "" && r[0][0] == current[0] && forall w | w in r :: Alnum(w)
    decreases |s| - i
  {
    if i < |s| {
      if IsUpper(s[i]) && StartsWord(s, i) {
        RawOfIdent(s, i + 1, [s[i]]);
      } else {
        RawOfIdent(s, i + 1, current + [s[i]]);
      }
    }
  }

  /** Words of letters and digits, the first starting with `c`. */
  ghost predicate Starting(ws: seq<string>, c: char) {
    ws != [] && ws[0] != "" && ws[0][0] == c && forall w | w in ws :: Alnum(w)
  }

  lemma StartingThen(x: seq<string>, c: char, y: seq<string>)
    requires Starting(x, c) && forall w | w in y :: Alnum(w)
    ensures Starting(x + y, c)
  {
    hide Alnum;
  }

  lemma PartsOfRun(w: string)
    requires Alnum(w)
    ensures Starting(SplitRun(w), w[0])
  {
    SplitRunIs(w);
    PartsWithin(SplitRun(w), w);
    assert SplitRun(w)[0] in SplitRun(w);
  }

  lemma {:induction false} RunsOfIdent(ws: seq<string>, c: char)
    requires Starting(ws, c)
    ensures Starting(SplitRuns(ws), c)
    decreases |ws|
  {
    hide SplitRun, Alnum;
    var init, last := ws[..|ws| - 1], ws[|ws| - 1];
    assert last in ws && Alnum(last);
    if init == [] {
      assert [] + SplitRun(last) == SplitRun(last);
      PartsOfRun(last);
    } else {
      assert forall w | w in init :: w in ws;
      RunsOfIdent(init, c);
      PartsOfLater(last);
      StartingThen(SplitRuns(init), c, SplitRun(last));
    }
  }

  lemma PartsOfLater(w: string)
    requires Alnum(w)
    ensures forall p | p in SplitRun(w) :: Alnum(p)
  {
    PartsOfRun(w);
  }

  lemma WordsOfIdent(s: string)
    requires IsIdent(s)
    ensures Named(Words(s)) && Starting(Words(s), s[0]) && IsLetter(s[0])
  {
    assert s[0] in s && forall k | 0 <= k < |s| :: s[k] in s;
    assert "" + [s[0]] == [s[0]];
    RawOfIdent(s, 1, [s[0]]);
    RunsOfIdent(RawWords(s, 0, ""), s[0]);
    assert Words(s)[0] in Words(s);
  }

  lemma {:induction false} ConcatOfNamed(ws: seq<string>)
    requires forall w | w in ws :: Alnum(w)
    ensures forall c | c in Concat(ws) :: IsAlnum(c)
    ensures ws != [] ==> Concat(ws) != "" && ws[0] != "" && Concat(ws)[0] == ws[0][0]
    decreases |ws|
  {
    if ws != [] {
      assert ws[0] in ws;
      ConcatOfNamed(ws[1..]);
    }
  }

  lemma CapitaliseIs(w: string)
    requires w != ""
    ensures Capitalise(w) == Upper(w) || Capitalise(w) == [UpperChar(w[0])] + Lower(w[1..])
  {
  }

  lemma UpperNamed(w: string)
    requires Alnum(w)
    ensures Alnum(Upper(w)) && (IsLetter(w[0]) ==> IsLetter(Upper(w)[0]))
  {
    forall k | 0 <= k < |w| ensures IsAlnum(Upper(w)[k]) { assert w[k] in w; }
    AlnumByIndex(Upper(w));
  }

  lemma MixedNamed(w: string)
    requires Alnum(w)
    ensures var m := [UpperChar(w[0])] + Lower(w[1..]); Alnum(m) && (IsLetter(w[0]) ==> IsLetter(m[0]))
  {
    var m := [UpperChar(w[0])] + Lower(w[1..]);
    forall k | 0 <= k < |m| ensures IsAlnum(m[k]) { assert w[k] in w; }
    AlnumByIndex(m);
  }

  lemma CapitaliseNamed(w: string)
    requires Alnum(w)
    ensures Alnum(Capitalise(w)) && (IsLetter(w[0]) ==> IsLetter(Capitalise(w)[0]))
  {
    CapitaliseIs(w);
    UpperNamed(w);
    MixedNamed(w);
    hide Capitalise, Alnum, Upper, Lower;
  }

  lemma AlnumByIndex(w: string)
    requires w != "" && forall k | 0 <= k < |w| :: IsAlnum(w[k])
    ensures Alnum(w)
  {
  }

  lemma PascalOfIdent(s: string)
    requires IsIdent(s)
    ensures IsIdent(Pascal(s))
  {
    WordsOfIdent(s);
    var ws := Words(s);
    forall k | 0 <= k < |ws| ensures Alnum(CapitaliseAll(ws)[k]) {
      assert ws[k] in ws;
      CapitaliseNamed(ws[k]);
    }
    assert ws[0] in ws;
    CapitaliseNamed(ws[0]);
    ConcatOfNamed(CapitaliseAll(ws));
  }

  predicate Slug(w: string) { w != "" && forall c | c in w :: IsSlug(c) }

  lemma LowerOfAlnum(w: string)
    requires Alnum(w)
    ensures Slug(Lower(w)) && (IsLetter(w[0]) ==> IsLower(Lower(w)[0]))
  {
    assert forall k | 0 <= k < |w| :: w[k] in w;
  }

  lemma SlugsOfIdent(s: string)
    requires IsIdent(s)
    ensures var ws := LowerAll(Words(s)); ws != [] && (forall w | w in ws :: Slug(w)) && ws[0] != "" && IsLower(ws[0][0])
  {
    WordsOfIdent(s);
    var ws := Words(s);
    hide Words, Slug, Alnum;
    forall k | 0 <= k < |ws| ensures Slug(LowerAll(ws)[k]) {
      assert ws[k] in ws;
      LowerOfAlnum(ws[k]);
    }
    assert ws[0] in ws;
    LowerOfAlnum(ws[0]);
  }

  /** Slugs joined by one divider form a path, with nothing but slugs and that divider in it. */
  lemma {:induction false} JoinOfSlugs(ws: seq<string>, sep: char)
    requires ws != [] && (forall w | w in ws :: Slug(w)) && !IsSlug(sep)
    ensures var t := Join(ws, [sep]);
      && t != "" && ws[0] != "" && t[0] == ws[0][0] && IsSlug(t[0]) && IsSlug(t[|t| - 1])
      && (forall k | 0 <= k < |t| :: IsSlug(t[k]) || t[k] == sep)
      && (forall k | 0 <= k < |t| - 1 :: IsSlug(t[k]) || IsSlug(t[k + 1]))
    decreases |ws|
  {
    var w := ws[0];
    assert w in ws;
    assert forall k | 0 <= k < |w| :: w[k] in w;
    if |ws| > 1 {
      JoinOfSlugs(ws[1..], sep);
      var u := Join(ws[1..], [sep]);
      var t := Join(ws, [sep]);
      assert t == w + [sep] + u;
      assert t[..|w|] == w && t[|w|] == sep && t[|w| + 1..] == u;
      forall k | 0 <= k < |t| - 1 ensures IsSlug(t[k]) || IsSlug(t[k + 1]) {
        if k < |w| { assert t[k] == w[k]; }
        else if k == |w| { assert t[k + 1] == u[0]; }
        else { assert t[k] == u[k - |w| - 1] && t[k + 1] == u[k - |w|]; }
      }
      forall k | 0 <= k < |t| ensures IsSlug(t[k]) || t[k] == sep {
        if k < |w| { assert t[k] == w[k]; }
        else if k > |w| { assert t[k] == u[k - |w| - 1]; }
      }
      assert t[|t| - 1] == u[|u| - 1];
    }
  }

  lemma LowerOfLow(t: string)
    requires forall k | 0 <= k < |t| :: !IsUpper(t[k])
    ensures Lower(t) == t
  {
  }

  lemma StripOfPath(t: string)
    requires t != "" && t[0] != '/' && t[|t| - 1] != '/'
    ensures StripSlashes("/" + t) == t
  {
    assert ("/" + t)[1..] == t;
    assert StripSlashes(t) == t;
  }

  /** Any identifier gives a table and a route that their validators take. */
  lemma IdentsPass(s: string)
    requires IsIdent(s)
    ensures AcceptsPlural(s) && AcceptsTable(Snake(s)) && AcceptsRoute("/" + Kebab(s))
  {
    PascalOfIdent(s);
    SlugsOfIdent(s);
    LoweredWords(s);
    var ws := LowerAll(Words(s));
    JoinOfSlugs(ws, '_');
    JoinOfSlugs(ws, '-');
    DashedJoin(ws);
    var table, route := Join(ws, "_"), Join(ws, "-");
    LowerOfLow(table);
    LowerOfLow(route);
    assert Snake(s) == table && Kebab(s) == route;
    assert Lower("/" + route) == "/" + route by { LowerOfLow("/" + route); }
    StripOfPath(route);
  }

  // ---- the plural of an accepted name ---------------------------------------

  lemma IrregularIsSlug(w: string)
    requires Irregular(w).Some?
    ensures Slug(Irregular(w).value) && IsLower(Irregular(w).value[0])
  {
  }

  lemma PluralForms(w: string)
    requires PluraliseWord(w).Some?
    ensures var p := PluraliseWord(w).value;
      p == w || Irregular(w) == Some(p) || p == w + "es" || p == w + "s" || (|w| > 1 && p == w[..|w| - 1] + "ies")
  {
    hide Irregular, HasSuffix, INHERITED;
  }

  lemma PluralIsAlnum(w: string)
    requires Slug(w) && PluraliseWord(w).Some?
    ensures var p := PluraliseWord(w).value; Slug(p) && (IsLower(w[0]) ==> IsLower(p[0]))
  {
    PluralForms(w);
    if Irregular(w).Some? { IrregularIsSlug(w); }
    hide Irregular, PluraliseWord;
    assert forall k | 0 <= k < |w| :: w[k] in w;
  }

  lemma RestoredIsAlnum(original: string, p: string)
    requires Alnum(original) && Slug(p)
    ensures Alnum(RestoreCase(original, p)) && (IsLower(p[0]) ==> IsLetter(RestoreCase(original, p)[0]))
  {
    assert forall k | 0 <= k < |p| :: p[k] in p;
  }

  /** Replacing the last word by a word keeps an identifier's words those of an identifier. */
  lemma LastReplaced(ws: seq<string>, c: char, w: string)
    requires Starting(ws, c) && IsLetter(c) && Alnum(w) && ws[|ws| - 1] != "" && (IsLetter(ws[|ws| - 1][0]) ==> IsLetter(w[0]))
    ensures IsIdent(Concat(ws[..|ws| - 1] + [w]))
  {
    hide Alnum;
    var parts := ws[..|ws| - 1] + [w];
    assert forall x | x in parts :: Alnum(x);
    ConcatOfNamed(parts);
    assert parts[0] == (if |ws| == 1 then w else ws[0]);
  }

  lemma PluralByWords(s: string)
    requires IsIdent(s) && Pluralise(s).Some?
    ensures var ws := Words(s);
      && ws != [] && PluraliseWord(Lower(ws[|ws| - 1])).Some?
      && Pluralise(s).value
         == Concat(ws[..|ws| - 1] + [RestoreCase(ws[|ws| - 1], PluraliseWord(Lower(ws[|ws| - 1])).value)])
  {
    WordsOfIdent(s);
    hide Words, PluraliseWord, RestoreCase;
    assert '_' !in s && '-' !in s;
  }

  /** A plural of an identifier is an identifier. */
  lemma PluralOfIdent(s: string)
    requires IsIdent(s) && Pluralise(s).Some?
    ensures IsIdent(Pluralise(s).value)
  {
    PluralByWords(s);
    WordsOfIdent(s);
    hide Words, Pluralise, PluraliseWord, RestoreCase, IsIdent, Alnum, Slug;
    var ws := Words(s);
    var last := ws[|ws| - 1];
    assert last in ws;
    LowerOfAlnum(last);
    PluralIsAlnum(Lower(last));
    RestoredIsAlnum(last, PluraliseWord(Lower(last)).value);
    LastReplaced(ws, s[0], RestoreCase(last, PluraliseWord(Lower(last)).value));
  }

  /**
   * For every name the wizard accepts: a plural is inferred exactly when the
   * last word is not "constructor", and then the inferred plural, table and
   * route all pass their own validators.
   */
  lemma InferredNamesPass(raw: string)
    ensures AcceptsName(raw) ==>
      (var name := Pascal(raw); var ws := Words(name);
       && ws != []
       && (Pluralise(name).None? <==> Lower(ws[|ws| - 1]) == "constructor")
       && (Pluralise(name).Some? ==>
             (var plural := Pluralise(name).value;
              AcceptsPlural(plural) && AcceptsTable(Snake(plural)) && AcceptsRoute("/" + Kebab(plural)))))
  {
    if AcceptsName(raw) {
      var name := Pascal(raw);
      WordsOfIdent(name);
      var ws := Words(name);
      assert ws[|ws| - 1] in ws;
      LowerOfAlnum(ws[|ws| - 1]);
      OnlyConstructorFails(Lower(ws[|ws| - 1]));
      hide Pascal, Words, PluraliseWord, Snake, Kebab, AcceptsPlural, AcceptsTable, AcceptsRoute;
      if Pluralise(name).Some? {
        PluralOfIdent(name);
        IdentsPass(Pluralise(name).value);
      }
    }
  }

  /** Of the inherited names only one is lower-case and without separators. */
  /** A capital or an underscore in a name keeps it from being such a word. */
  lemma NotASlug(word: string, k: nat)
    requires k < |word| && !IsSlug(word[k])
    ensures !Slug(word)
  {
    assert word[k] in word;
  }

  lemma OneInheritedWord(word: string)
    requires word in INHERITED && Slug(word)
    ensures word == "constructor"
  {
    hide Slug;
    NotASlug("hasOwnProperty", 3);
    NotASlug("isPrototypeOf", 2);
    NotASlug("propertyIsEnumerable", 8);
    NotASlug("toLocaleString", 2);
    NotASlug("toString", 2);
    NotASlug("valueOf", 5);
    NotASlug("__defineGetter__", 0);
    NotASlug("__defineSetter__", 0);
    NotASlug("__lookupGetter__", 0);
    NotASlug("__lookupSetter__", 0);
    NotASlug("__proto__", 0);
  }

  lemma OnlyConstructorFails(word: string)
    requires Slug(word)
    ensures PluraliseWord(word).None? <==> word == "constructor"
  {
    if word in INHERITED { OneInheritedWord(word); }
    assert "constructor" in INHERITED;
  }

  // ---- the name that fails --------------------------------------------------

  predicate LowerWord(w: string) { |w| >= 2 && forall k | 0 <= k < |w| :: IsLower(w[k]) }

  function Title(w: string): string
    requires w != ""
  {
    [UpperChar(w[0])] + w[1..]
  }

  lemma RawOfTitle(w: string)
    requires LowerWord(w)
    ensures RawWords(Title(w), 0, "") == [Title(w)]
  {
    var t := Title(w);
    assert "" + [t[0]] == [t[0]] && [t[0]] + t[1..1 + (|t| - 1)] == t;
    assert forall k | 1 <= k < |t| :: t[k] == w[k];
    RawPlain(t, 1, |t| - 1, [t[0]]);
  }

  lemma RunOfTitle(w: string)
    requires LowerWord(w)
    ensures SplitRun(Title(w)) == [Title(w)]
  {
    assert Upper(Title(w))[1] == UpperChar(w[1]) != Title(w)[1];
    hide Decompose, INITIALISMS;
  }

  lemma OneRun(w: string)
    ensures SplitRuns([w]) == SplitRun(w)
  {
    hide SplitRun;
    assert [w][..0] == [];
    assert SplitRuns([w][..0]) == [];
    assert [] + SplitRun(w) == SplitRun(w);
  }

  lemma LowerOfTitle(w: string)
    requires LowerWord(w)
    ensures Lower(Title(w)) == w
  {
  }

  lemma WordsOfTitle(w: string)
    requires LowerWord(w)
    ensures Words(Title(w)) == [Title(w)] && Lower(Title(w)) == w
  {
    LowerOfTitle(w);
    RawOfTitle(w);
    RunOfTitle(w);
    OneRun(Title(w));
    hide SplitRun, SplitRuns, RawWords, Lower, Title;
  }

  lemma WordsOfLower(w: string)
    requires LowerWord(w)
    ensures Words(w) == [w]
  {
    assert Join([w], "_") == w;
    assert forall c | c in w :: IsLower(c);
    WordsOfJoin([w], '_');
  }

  /** A lower-case word that is no initialism is recorded with a capital, and its camel form is the word. */
  lemma NameOfWord(w: string)
    requires LowerWord(w) && Upper(w) !in INITIALISMS
    ensures Pascal(w) == Title(w) && Camel(Title(w)) == w && IsIdent(Title(w))
  {
    WordsOfLower(w);
    WordsOfTitle(w);
    CapitaliseOther(w);
    assert Lower(w[1..]) == w[1..];
    TitleIsIdent(w);
    hide Words, Capitalise, Lower, Upper, INITIALISMS, LowerWord, IsIdent;
    assert CapitaliseAll([w]) == [Title(w)];
    assert Concat([Title(w)]) == Title(w);
    assert CapitaliseAll([Title(w)][1..]) == [];
    assert Concat([]) == "" && w + "" == w;
  }

  lemma TitleIsIdent(w: string)
    requires LowerWord(w)
    ensures IsIdent(Title(w))
  {
    assert forall k | 0 <= k < |Title(w)| :: IsAlnum(Title(w)[k]);
  }

  predicate Short(w: string) { |w| < 11 }

  lemma InitialismsAreShort(w: string)
    requires w in INITIALISMS
    ensures Short(w)
  {
    if w in GENERAL_A_TO_Q { ShortAtoQ(w); } else if w in GENERAL_R_TO_Z { ShortRtoZ(w); } else { ShortPostal(w); }
  }

  lemma ShortAtoQ(w: string)
    requires w in GENERAL_A_TO_Q
    ensures Short(w)
  {
  }

  lemma ShortRtoZ(w: string)
    requires w in GENERAL_R_TO_Z
    ensures Short(w)
  {
  }

  lemma ShortPostal(w: string)
    requires w in POSTAL
    ensures Short(w)
  {
  }

  predicate LongIsNotC(w: string) { |w| == 11 ==> w[0] != 'c' }

  lemma KeywordsOfEleven(w: string)
    requires w in GO_KEYWORDS
    ensures LongIsNotC(w)
  {
  }

  lemma ReservedOfEleven(w: string)
    requires w in RESERVED
    ensures LongIsNotC(w)
  {
  }

  lemma UpperLength(w: string)
    ensures |Upper(w)| == |w|
  {
  }

  /**
   * The wizard accepts `constructor`, records it as `Constructor`, and then has
   * no plural to infer for it.
   */
  lemma ConstructorIsAccepted()
    ensures AcceptsName("constructor") && Pascal("constructor") == "Constructor"
    ensures AcceptsName("Constructor") && Pascal("Constructor") == "Constructor"
    ensures Pluralise("Constructor") == None
  {
    var w := "constructor";
    hide Words, Pascal, Camel, Lower, Upper, INITIALISMS, GO_KEYWORDS, RESERVED, INHERITED, PluraliseWord;
    assert LowerWord(w) && |w| == 11 && w[0] == 'c' && Title(w) == "Constructor";
    UpperLength(w);
    if Upper(w) in INITIALISMS { InitialismsAreShort(Upper(w)); }
    NameOfWord(w);
    PascalOfTitle(w);
    WordsOfTitle(w);
    if w in GO_KEYWORDS { KeywordsOfEleven(w); }
    if w in RESERVED { ReservedOfEleven(w); }
    OnlyConstructorFails(w);
  }

  lemma PascalOfTitle(w: string)
    requires LowerWord(w) && Upper(w) !in INITIALISMS
    ensures Pascal(Title(w)) == Title(w)
  {
    WordsOfTitle(w);
    var t := Title(w);
    assert Upper(t) == Upper(w);
    CapitaliseOther(t);
    assert Lower(t[1..]) == t[1..] && UpperChar(t[0]) == t[0];
    assert CapitaliseAll([t]) == [t];
    assert Concat([t]) == t + Concat([t][1..]) == t;
  }

  // ---- what a plural is -------------------------------------------------------

  /** The words whose plural the table gives. */
  const IRREGULARS: seq<(string, string)> :=
    [("person", "people"), ("child", "children"), ("man", "men"), ("woman", "women"), ("datum", "data"), ("index", "indexes"),
     ("status", "statuses"), ("foot", "feet"), ("tooth", "teeth"), ("mouse", "mice"), ("criterion", "criteria")]

  lemma IrregularIsListed(w: string)
    ensures Irregular(w).Some? ==> exists k :: 0 <= k < |IRREGULARS| && IRREGULARS[k] == (w, Irregular(w).value)
  {
    var l := IRREGULARS;
    assert l[0] == ("person", "people") && l[1] == ("child", "children") && l[2] == ("man", "men") && l[3] == ("woman", "women");
    assert l[4] == ("datum", "data") && l[5] == ("index", "indexes") && l[6] == ("status", "statuses") && l[7] == ("foot", "feet");
    assert l[8] == ("tooth", "teeth") && l[9] == ("mouse", "mice") && l[10] == ("criterion", "criteria");
  }

  lemma ListedIsIrregular(k: nat)
    requires k < |IRREGULARS|
    ensures PluraliseWord(IRREGULARS[k].0) == Some(IRREGULARS[k].1)
  {
    ListedIsCountable(k);
    ListedEntry(k);
    hide UNCOUNTABLE, INHERITED, Irregular, IRREGULARS;
  }

  lemma ListedEntry(k: nat)
    requires k < |IRREGULARS|
    ensures Irregular(IRREGULARS[k].0) == Some(IRREGULARS[k].1)
  {
    hide UNCOUNTABLE, INHERITED;
  }

  lemma ListedIsCountable(k: nat)
    requires k < |IRREGULARS|
    ensures IRREGULARS[k].0 !in UNCOUNTABLE && IRREGULARS[k].0 != ""
  {
  }

  /** A word in no table, ending as it may: `-s`, `-x`, `-z`, `-ch`, `-sh` take "es", a consonant and `-y` become "ies", the others take "s". */
  predicate Hisses(w: string) {
    w != "" && (w[|w| - 1] in "sxz" || (|w| >= 2 && w[|w| - 1] == 'h' && w[|w| - 2] in "cs"))
  }

  predicate EndsInConsonantY(w: string) { |w| >= 2 && w[|w| - 1] == 'y' && w[|w| - 2] !in "aeiou" }

  lemma SuffixIs(w: string)
    requires w != ""
    ensures HasSuffix(w, "s") || HasSuffix(w, "x") || HasSuffix(w, "z") || HasSuffix(w, "ch") || HasSuffix(w, "sh") <==> Hisses(w)
    ensures HasSuffix(w, "y") <==> w[|w| - 1] == 'y'
  {
    assert w[|w| - 1..] == [w[|w| - 1]];
    if |w| >= 2 { assert w[|w| - 2..] == [w[|w| - 2], w[|w| - 1]]; }
  }

  lemma RegularPlural(w: string)
    requires w != "" && w !in UNCOUNTABLE && Irregular(w) == None && w !in INHERITED
    ensures PluraliseWord(w)
         == Some(if Hisses(w) then w + "es" else if EndsInConsonantY(w) then w[..|w| - 1] + "ies" else w + "s")
  {
    SuffixIs(w);
    hide UNCOUNTABLE, INHERITED, Irregular, HasSuffix;
  }

  /** The plural takes the case of the word: all capitals, a capital first, or as it is. */
  lemma CaseRestored(original: string, plural: string)
    requires original != "" && plural != ""
    ensures var r := RestoreCase(original, plural);
      && |r| == |plural|
      && (|original| > 1 && (forall k | 0 <= k < |original| :: !IsLower(original[k])) ==> r == Upper(plural))
      && (IsLower(original[0]) ==> r == plural)
      && ('A' <= original[0] <= 'Z' && (exists k :: 0 <= k < |original| && IsLower(original[k])) ==>
            r[0] == UpperChar(plural[0]) && r[1..] == plural[1..])
  {
    if forall k | 0 <= k < |original| :: !IsLower(original[k]) { assert original == Upper(original); }
    if k :| 0 <= k < |original| && IsLower(original[k]) { assert Upper(original)[k] != original[k]; }
    if IsLower(original[0]) { assert Upper(original)[0] != original[0]; }
  }

  /** Of several words the last is made plural, and they stay joined as they were. */
  lemma PluralOfWords(ws: seq<string>, sep: char, last: string, plural: string)
    requires |ws| >= 2 && IsSeparator(sep) && forall w | w in ws :: Plain(w)
    requires last == ws[|ws| - 1] && LowerWord(last) && PluraliseWord(last) == Some(plural)
    ensures var parts := ws[..|ws| - 1] + [plural];
      Pluralise(Join(ws, [sep])) == Some(if sep == '_' then Join(parts, "_") else if sep == '-' then Join(parts, "-") else Concat(parts))
  {
    hide Plain, Words, PluraliseWord, INHERITED, Lower, RestoreCase, IsSeparator, Pluralise, LowerWord, Join, Concat, UNCOUNTABLE, INITIALISMS;
    var s := Join(ws, [sep]);
    WordsOfJoin(ws, sep);
    LowIsLow(last);
    LastIsNamed(last);
    PluralNotEmpty(last);
    LowerStays(last, plural);
    SeparatorsOf(ws, sep);
    PluraliseIs(s, ws);
  }

  lemma LastIsNamed(w: string)
    requires LowerWord(w)
    ensures w != ""
  {
  }

  lemma PluraliseIs(s: string, ws: seq<string>)
    requires Words(s) == ws && ws != [] && PluraliseWord(Lower(ws[|ws| - 1])).Some?
    ensures var last := ws[|ws| - 1];
      var parts := ws[..|ws| - 1] + [RestoreCase(last, PluraliseWord(Lower(last)).value)];
      Pluralise(s) == Some(if '_' in s then Join(parts, "_") else if '-' in s then Join(parts, "-") else Concat(parts))
  {
    hide Words, PluraliseWord, RestoreCase, Lower;
  }

  lemma LowerStays(w: string, plural: string)
    requires LowerWord(w) && plural != ""
    ensures RestoreCase(w, plural) == plural
  {
    CaseRestored(w, plural);
  }

  lemma PluralNotEmpty(w: string)
    requires w != "" && PluraliseWord(w).Some?
    ensures PluraliseWord(w).value != ""
  {
    PluralForms(w);
    if Irregular(w).Some? { IrregularIsSlug(w); }
    hide PluraliseWord, Irregular;
  }

  lemma {:induction false} SeparatorsOf(ws: seq<string>, sep: char)
    requires IsSeparator(sep) && forall w | w in ws :: Plain(w)
    ensures '_' in Join(ws, [sep]) <==> |ws| >= 2 && sep == '_'
    ensures '-' in Join(ws, [sep]) <==> |ws| >= 2 && sep == '-'
    decreases |ws|
  {
    if ws != [] {
      assert ws[0] in ws && '_' !in ws[0] && '-' !in ws[0];
      if |ws| >= 2 {
        SeparatorsOf(ws[1..], sep);
        assert Join(ws, [sep]) == ws[0] + [sep] + Join(ws[1..], [sep]);
        assert sep in [sep];
      }
    }
  }

  // ---- what the validators take ---------------------------------------------

  ghost predicate Slugs(ws: seq<string>, dividers: string) {
    |ws| == |dividers| + 1 && (forall w | w in ws :: Slug(w)) && forall k | 0 <= k < |dividers| :: dividers[k] in "-/"
  }

  /** A slug, a divider and a path make a path. */
  lemma PathGrows(w: string, c: char, u: string)
    requires Slug(w) && c in "-/" && IsPath(u)
    ensures IsPath(w + [c] + u)
  {
    var t := w + [c] + u;
    assert w[0] in w && t[0] == w[0] && t[|t| - 1] == u[|u| - 1];
    forall k | 0 <= k < |t| - 1 ensures IsSlug(t[k]) || IsSlug(t[k + 1]) {
      if k < |w| { assert t[k] == w[k] && w[k] in w; }
      else if k == |w| { assert t[k + 1] == u[0]; }
      else { assert t[k] == u[k - |w| - 1] && t[k + 1] == u[k - |w|]; }
    }
  }

  lemma {:induction false} SlugsMakePath(ws: seq<string>, dividers: string)
    requires Slugs(ws, dividers)
    ensures IsPath(Spliced(ws, dividers))
    decreases |dividers|
  {
    assert ws[0] in ws;
    if dividers == "" {
      var w := ws[0];
      assert forall k | 0 <= k < |w| :: w[k] in w;
    } else {
      SlugsMakePath(ws[1..], dividers[1..]);
      PathGrows(ws[0], dividers[0], Spliced(ws[1..], dividers[1..]));
    }
  }

  lemma {:induction false} PathIsSlugs(t: string, from: nat) returns (ws: seq<string>, dividers: string)
    requires IsPath(t) && 0 < from <= |t| && forall k | 0 <= k < from :: IsSlug(t[k])
    ensures Slugs(ws, dividers) && Spliced(ws, dividers) == t
    decreases |t|, |t| - from
  {
    if from == |t| {
      ws, dividers := [t], "";
    } else if IsSlug(t[from]) {
      ws, dividers := PathIsSlugs(t, from + 1);
    } else {
      var rest := t[from + 1..];
      assert t[from] in t && from + 1 < |t| && IsSlug(t[from + 1]);
      PathAfter(t, from);
      ws, dividers := PathIsSlugs(rest, 1);
      assert t == t[..from] + [t[from]] + rest;
      var w, more := t[..from], ws;
      ws, dividers := [w] + ws, [t[from]] + dividers;
      assert ws[1..] == more;
    }
  }

  lemma PathAfter(t: string, k: nat)
    requires IsPath(t) && k + 1 < |t| && IsSlug(t[k + 1])
    ensures IsPath(t[k + 1..])
  {
    var u := t[k + 1..];
    assert forall c | c in u :: c in t;
    assert forall j | 0 <= j < |u| :: u[j] == t[k + 1 + j];
  }

  /** A route is taken exactly when, in small letters and without slashes around it, it is slugs with single dashes or slashes between them. */
  lemma RouteIsSlugs(raw: string)
    ensures AcceptsRoute(raw) <==> exists ws, dividers :: Slugs(ws, dividers) && Spliced(ws, dividers) == StripSlashes(Lower(raw))
  {
    var t := StripSlashes(Lower(raw));
    hide StripSlashes, Lower;
    if IsPath(t) { var ws, dividers := PathIsSlugs(t, 1); }
    if ws, dividers :| Slugs(ws, dividers) && Spliced(ws, dividers) == t { SlugsMakePath(ws, dividers); }
  }

  predicate SmallOrDigit(c: char) { 'a' <= c <= 'z' || '0' <= c <= '9' }

  /** A name, a plural and a table are taken exactly when their recorded form is spelled as it must be and free. */
  lemma NamesTaken(raw: string)
    ensures var name := Pascal(raw);
      && (AcceptsPlural(raw)
          <==> name != "" && !('0' <= name[0] <= '9') && forall k | 0 <= k < |name| :: SmallOrDigit(name[k]) || 'A' <= name[k] <= 'Z')
      && (AcceptsName(raw) <==> AcceptsPlural(raw) && Lower(name) !in GO_KEYWORDS && Camel(name) !in RESERVED)
    ensures AcceptsTable(raw)
      <==> (raw != "" && !('0' <= raw[0] <= '9' || raw[0] == '_')
            && forall k | 0 <= k < |raw| :: SmallOrDigit(raw[k]) || 'A' <= raw[k] <= 'Z' || raw[k] == '_')
  {
    var name, low := Pascal(raw), Lower(raw);
    hide Pascal, Camel, GO_KEYWORDS, RESERVED;
    assert forall k | 0 <= k < |name| :: name[k] in name;
    assert forall k | 0 <= k < |low| :: low[k] in low && low[k] == LowerChar(raw[k]);
    assert forall c | c in low :: exists k :: 0 <= k < |low| && low[k] == c;
  }
}
