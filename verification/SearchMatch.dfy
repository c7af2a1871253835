/** Downloads' text search: the joined, folded match and its shortcut around the displayed name, held to the plain
    reading of the search language. */
module SearchMatch {
  import opened Support
  import opened Text

  const SEPARATOR: char := '\U{1}'

  /** What the search takes from elsewhere: the engine's case fold and Python's lower case, a collection's base name and
      whether several bases are one. */
  datatype Language = Language(
    caseFold: char -> char, lower: char -> char, base: string -> string, alike: seq<string> -> bool)

  predicate Plain(c: char) {
    c == SEPARATOR || c == ' ' || c == '+' || c == '(' || c == ')' || '0' <= c <= '9' || 'a' <= c <= 'z'
  }

  /** The fold leaves separators, digits, signs and lower-case letters alone; white space has no case; and a base is a
      prefix of its name. */
  ghost predicate Sane(lang: Language) {
    && (forall c | Plain(c) :: lang.caseFold(c) == c)
    && (forall c | IsSpace(c) :: lang.lower(c) == c)
    && (forall s :: lang.base(s) <= s)
  }

  /** A search text: trimmed, not empty, and free of the separator. */
  predicate Valid(needle: string) {
    needle != "" && !IsSpace(needle[0]) && !IsSpace(needle[|needle| - 1]) && SEPARATOR !in needle
  }

  // ---- folding ------------------------------------------------------------------------------------

  /** Every run of white space as one space. */
  function Squeeze(s: string): string {
    if s == "" then ""
    else if !IsSpace(s[0]) then [s[0]] + Squeeze(s[1..])
    else if |s| > 1 && IsSpace(s[1]) then Squeeze(s[1..])
    else [' '] + Squeeze(s[1..])
  }

  function Each(s: string, f: char -> char): (r: string)
    ensures |r| == |s| && forall i | 0 <= i < |s| :: r[i] == f(s[i])
  {
    seq(|s|, i requires 0 <= i < |s| => f(s[i]))
  }

  /** The text as the language compares it. */
  function Fold(lang: Language, s: string): string {
    Each(Trim(Squeeze(s)), lang.caseFold)
  }

  // ---- a transfer's searched fields ---------------------------------------------------------------

  /** The searched facts of a transfer; an absent text is empty, and a listed name or host never is. */
  datatype Row = Row(
    root: string, canonicalRoot: bool, names: seq<string>, tag: string, hash: string, error: string,
    hosts: seq<string>, contributors: seq<string>)

  predicate Listed(row: Row) {
    forall name | name in row.names :: name != ""
  }

  function NonEmpty(xs: seq<string>): seq<string> {
    if xs == [] then [] else (if xs[0] != "" then [xs[0]] else []) + NonEmpty(xs[1..])
  }

  function Fields(row: Row): seq<string> {
    NonEmpty([row.root, row.tag, row.hash, row.error] + row.names + row.contributors)
  }

  /** What is searched: every text of the transfer that is not empty, and nothing else. */
  lemma FieldsMean(row: Row, f: string)
    ensures f in Fields(row) <==>
              f != "" && (f in {row.root, row.tag, row.hash, row.error} || f in row.names || f in row.contributors)
  {
    hide NonEmpty;
    var own := [row.root, row.tag, row.hash, row.error];
    NonEmptyKeeps(own + row.names + row.contributors, f);
    assert f in own <==> f in {row.root, row.tag, row.hash, row.error} by {
      if f in own {
        var i :| 0 <= i < 4 && own[i] == f;
      }
      if f in {row.root, row.tag, row.hash, row.error} {
        assert own[0] == row.root && own[1] == row.tag && own[2] == row.hash && own[3] == row.error;
      }
    }
  }

  function Join(xs: seq<string>): string {
    if xs == [] then "" else if |xs| == 1 then xs[0] else xs[0] + [SEPARATOR] + Join(xs[1..])
  }

  ghost predicate Matches(lang: Language, needle: string, text: string) {
    Within(needle, Fold(lang, text))
  }

  ghost predicate FieldMatch(lang: Language, needle: string, row: Row) {
    exists f | f in Fields(row) :: Matches(lang, needle, f)
  }

  // ---- hosts --------------------------------------------------------------------------------------

  predicate LabelChar(c: char) {
    'a' <= c <= 'z' || '0' <= c <= '9' || c == '-'
  }

  predicate HostChar(c: char) {
    LabelChar(c) || c == '.'
  }

  predicate Label(s: string) {
    1 <= |s| <= 63 && (forall i | 0 <= i < |s| :: LabelChar(s[i])) && s[0] != '-' && s[|s| - 1] != '-'
  }

  /** The labels between the dots. */
  predicate Labels(s: string, from: nat)
    requires from <= |s|
    decreases |s| - from
  {
    var n := UntilDot(s, from);
    Label(s[from..n]) && (n < |s| ==> Labels(s, n + 1))
  }

  function UntilDot(s: string, from: nat): (n: nat)
    requires from <= |s|
    ensures from <= n <= |s| && (n < |s| ==> s[n] == '.')
    decreases |s| - from
  {
    if from == |s| || s[from] == '.' then from else UntilDot(s, from + 1)
  }

  function DropDots(s: string): (r: string)
    ensures r <= s
  {
    if s != "" && s[|s| - 1] == '.' then DropDots(s[..|s| - 1]) else s
  }

  function DropWww(s: string): (r: string)
    ensures |r| <= |s| && r == s[|s| - |r|..]
  {
    if |s| >= 4 && s[0] == 'w' && s[1] == 'w' && s[2] == 'w' && s[3] == '.' then s[4..] else s
  }

  /** The browser-safe form of a source host, if it has one: trimmed, lower-cased, without a leading "www." and trailing
      dots, of at most 253 characters, every label strictly ASCII. */
  function Safe(lang: Language, h: string): Option<string> {
    var host := DropDots(DropWww(Each(Trim(h), lang.lower)));
    if host == "" || |host| > 253 || !Labels(host, 0) then None else Some(host)
  }

  /** A safe host holds the text. */
  ghost predicate HostMatch(lang: Language, needle: string, row: Row) {
    exists h | h in row.hosts :: Safe(lang, h).Some? && Within(needle, Safe(lang, h).value)
  }

  /** The same, as it runs: only where the raw host holds the text too. */
  ghost predicate HostFound(lang: Language, needle: string, row: Row) {
    exists h | h in row.hosts :: Matches(lang, needle, h) && Safe(lang, h).Some? && Within(needle, Safe(lang, h).value)
  }

  // ---- the displayed name -------------------------------------------------------------------------

  function Dec(n: nat): string {
    (if n < 10 then "" else Dec(n / 10)) + ["0123456789"[n % 10]]
  }

  const UNNAMED := "(unnamed)"

  /** The names shown: trimmed, and none of them blank. */
  function Shown(names: seq<string>): seq<string> {
    if names == [] then []
    else (if Trim(names[0]) != "" then [Trim(names[0])] else []) + Shown(names[1..])
  }

  function Bases(lang: Language, names: seq<string>): seq<string> {
    if names == [] then [] else [lang.base(names[0])] + Bases(lang, names[1..])
  }

  /** The files share one base name. */
  predicate Together(lang: Language, shown: seq<string>) {
    shown != [] && lang.base(shown[0]) != "" && lang.alike(Bases(lang, shown))
  }

  /** The displayed name names a collection, and so ends in a count of files. */
  predicate Collection(row: Row) {
    |Shown(row.names)| >= 2 && !(row.canonicalRoot && Trim(row.root) != "")
  }

  function Title(lang: Language, shown: seq<string>): string
    requires shown != []
  {
    if Together(lang, shown) then lang.base(shown[0]) else shown[0]
  }

  /** The files the title does not name itself. */
  function Others(lang: Language, shown: seq<string>): nat
    requires shown != []
  {
    if Together(lang, shown) then |shown| else |shown| - 1
  }

  /** "N files". */
  function FilesText(n: nat): string {
    Dec(n) + " files"
  }

  function Displayed(lang: Language, row: Row): string {
    var shown, root := Shown(row.names), Trim(row.root);
    if Collection(row) then (Title(lang, shown) + [' ']) + ['+'] + ([' '] + FilesText(Others(lang, shown)))
    else if shown == [] || (row.canonicalRoot && root != "") then (if root != "" then root else UNNAMED)
    else shown[0]
  }

  /** What is shown: the root where it names the transfer or no file has a name; the one file's name; and for several files
      their common base name with the number of them all, or the first one's name with the number of the others. */
  lemma DisplayedExactly(lang: Language, row: Row)
    ensures var shown, root, title := Shown(row.names), Trim(row.root), Displayed(lang, row);
            if row.canonicalRoot && root != "" then title == root
            else if |shown| == 0 then title == (if root == "" then UNNAMED else root)
            else if |shown| == 1 then title == shown[0]
            else if lang.base(shown[0]) == "" || !lang.alike(Bases(lang, shown))
            then title == shown[0] + " + " + Dec(|shown| - 1) + " files"
            else title == lang.base(shown[0]) + " + " + Dec(|shown|) + " files"
  {
    hide Dec, Shown, Trim, Bases;
    var shown := Shown(row.names);
    if Collection(row) {
      var title, n := Title(lang, shown), Others(lang, shown);
      assert title + " + " + Dec(n) + " files" == (title + [' ']) + ['+'] + ([' '] + (Dec(n) + " files")) by {
        assert " + " == [' ', '+', ' '];
      }
    }
  }

  // ---- the two readings ---------------------------------------------------------------------------

  /** The search language's own reading: some field, a safe host, or the displayed name holds the text. */
  ghost predicate Direct(lang: Language, needle: string, row: Row) {
    FieldMatch(lang, needle, row) || HostMatch(lang, needle, row) || Matches(lang, needle, Displayed(lang, row))
  }

  function CountText(n: nat): string {
    [' ', '+', ' '] + FilesText(n)
  }

  /** The shortcut does compute the displayed name for this text. */
  ghost predicate Computes(needle: string, row: Row) {
    if |row.names| < 2 then row.names == [] && row.root == ""
    else '+' in needle || Within(needle, CountText(|row.names|)) || Within(needle, CountText(|row.names| - 1))
  }

  /** The search as it runs: one match over the joined fields, then hosts, and the displayed name only where it is
      thought it could add a match. */
  ghost predicate Fast(lang: Language, needle: string, row: Row) {
    || Within(needle, Fold(lang, Join(Fields(row))))
    || HostFound(lang, needle, row)
    || (Computes(needle, row) && Matches(lang, needle, Displayed(lang, row)))
  }

  // ---- substrings ---------------------------------------------------------------------------------

  lemma WithinMiddle(n: string, a: string, b: string, c: string)
    requires Within(n, b)
    ensures Within(n, a + b + c)
  {
    var i :| WithinAt(n, b, i);
    assert (a + b + c)[|a| + i..|a| + i + |n|] == b[i..i + |n|];
    assert WithinAt(n, a + b + c, |a| + i);
  }

  lemma WithinThrough(n: string, a: string, b: string)
    requires Within(n, a) && Within(a, b)
    ensures Within(n, b)
  {
    var i :| WithinAt(a, b, i);
    assert b == b[..i] + a + b[i + |a|..];
    WithinMiddle(n, b[..i], a, b[i + |a|..]);
  }

  lemma WithinSelf(n: string)
    ensures Within(n, n)
  {
    assert WithinAt(n, n, 0);
  }

  lemma SliceRight(a: string, b: string, i: nat, k: nat)
    requires i + k <= |b|
    ensures (a + b)[|a| + i..|a| + i + k] == b[i..i + k]
  {
  }

  /** What an occurrence covers is in the text. */
  lemma Covered(n: string, s: string, i: int, j: int)
    requires WithinAt(n, s, i) && 0 <= j < |s|
    ensures i <= j < i + |n| ==> s[j] in n
  {
    if i <= j < i + |n| {
      assert s[j] == s[i..i + |n|][j - i];
    }
  }

  /** A text without the separator never spans it. */
  lemma WithinSplit(n: string, a: string, sep: char, b: string)
    requires n != "" && sep !in n
    ensures Within(n, a + [sep] + b) <==> Within(n, a) || Within(n, b)
  {
    var s := a + [sep] + b;
    if i :| WithinAt(n, s, i) {
      Covered(n, s, i, |a|);
      if i + |n| <= |a| {
        assert a[i..i + |n|] == s[i..i + |n|];
        assert WithinAt(n, a, i);
      } else {
        assert i > |a|;
        SliceRight(a + [sep], b, i - |a| - 1, |n|);
        assert WithinAt(n, b, i - |a| - 1);
      }
    }
    if Within(n, a) {
      WithinMiddle(n, "", a, [sep] + b);
      assert "" + a + ([sep] + b) == s;
    }
    if Within(n, b) {
      WithinMiddle(n, a + [sep], b, "");
      assert a + [sep] + b + "" == s;
    }
  }

  lemma WithinEdges(n: string, x: string)
    requires n != "" && n[0] != ' ' && n[|n| - 1] != ' '
    ensures Within(n, [' '] + x) <==> Within(n, x)
    ensures Within(n, x + [' ']) <==> Within(n, x)
  {
    if i :| WithinAt(n, [' '] + x, i) {
      assert ([' '] + x)[i..i + |n|][0] == n[0];
      assert x[i - 1..i - 1 + |n|] == ([' '] + x)[i..i + |n|];
      assert WithinAt(n, x, i - 1);
    }
    if i :| WithinAt(n, x + [' '], i) {
      assert (x + [' '])[i..i + |n|][|n| - 1] == n[|n| - 1];
      assert x[i..i + |n|] == (x + [' '])[i..i + |n|];
      assert WithinAt(n, x, i);
    }
    if Within(n, x) {
      WithinMiddle(n, [' '], x, "");
      WithinMiddle(n, "", x, [' ']);
      assert [' '] + x + "" == [' '] + x && "" + x + [' '] == x + [' '];
    }
  }

  // ---- folding keeps fields apart -----------------------------------------------------------------

  /** The fold before its ends are trimmed. */
  function Loose(lang: Language, s: string): string {
    Each(Squeeze(s), lang.caseFold)
  }

  lemma EachJoins(a: string, b: string, f: char -> char)
    ensures Each(a + b, f) == Each(a, f) + Each(b, f)
  {
  }

  predicate SpacesPlain(s: string) {
    forall i | 0 <= i < |s| :: IsSpace(s[i]) ==> s[i] == ' '
  }

  lemma {:induction false} SqueezeSpaces(s: string)
    ensures SpacesPlain(Squeeze(s))
  {
    if s != "" {
      SqueezeSpaces(s[1..]);
    }
  }

  lemma ValidEnds(n: string)
    requires Valid(n)
    ensures n != "" && n[0] != ' ' && n[|n| - 1] != ' '
  {
  }

  /** A valid text never needs a space at an end. */
  lemma EndSpaces(lang: Language, n: string, y: string)
    requires Sane(lang) && Valid(n)
    ensures Within(n, Each([' '] + y, lang.caseFold)) <==> Within(n, Each(y, lang.caseFold))
    ensures Within(n, Each(y + [' '], lang.caseFold)) <==> Within(n, Each(y, lang.caseFold))
  {
    hide Valid;
    ValidEnds(n);
    EachJoins([' '], y, lang.caseFold);
    EachJoins(y, [' '], lang.caseFold);
    assert Each([' '], lang.caseFold) == [' '] by { assert Plain(' '); }
    WithinEdges(n, Each(y, lang.caseFold));
  }

  lemma {:induction false} TrimStartLoose(lang: Language, n: string, x: string)
    requires Sane(lang) && Valid(n) && SpacesPlain(x)
    ensures Within(n, Each(TrimStart(x), lang.caseFold)) <==> Within(n, Each(x, lang.caseFold))
  {
    hide Valid;
    hide Sane;
    hide Each;
    hide Within;
    if x != "" && IsSpace(x[0]) {
      assert x == [' '] + x[1..];
      TrimStartLoose(lang, n, x[1..]);
      EndSpaces(lang, n, x[1..]);
    }
  }

  lemma {:induction false} TrimEndLoose(lang: Language, n: string, x: string)
    requires Sane(lang) && Valid(n) && SpacesPlain(x)
    ensures Within(n, Each(TrimEnd(x), lang.caseFold)) <==> Within(n, Each(x, lang.caseFold))
  {
    hide Valid;
    hide Sane;
    hide Each;
    hide Within;
    if x != "" && IsSpace(x[|x| - 1]) {
      assert x == x[..|x| - 1] + [' '];
      TrimEndLoose(lang, n, x[..|x| - 1]);
      EndSpaces(lang, n, x[..|x| - 1]);
    }
  }

  lemma MatchesLoose(lang: Language, n: string, s: string)
    requires Sane(lang) && Valid(n)
    ensures Matches(lang, n, s) <==> Within(n, Loose(lang, s))
  {
    hide Valid;
    hide Sane;
    hide IsSpace;
    var x := Squeeze(s);
    SqueezeSpaces(s);
    TrimStartLoose(lang, n, x);
    var y := TrimStart(x);
    assert SpacesPlain(y);
    TrimEndLoose(lang, n, y);
  }

  /** Squeezing never reaches across a visible character. */
  lemma {:induction false} SqueezeAcross(a: string, c: char, b: string)
    requires !IsSpace(c)
    ensures Squeeze(a + [c] + b) == Squeeze(a) + [c] + Squeeze(b)
  {
    var s := a + [c] + b;
    if a == "" {
      assert s[0] == c && s[1..] == b;
    } else {
      SqueezeAcross(a[1..], c, b);
      assert s[0] == a[0] && s[1..] == a[1..] + [c] + b;
      assert s[1] == if |a| > 1 then a[1] else c;
      if |a| == 1 {
        assert a[1..] == "";
      }
    }
  }

  /** A visible character left alone by the fold splits a match. */
  lemma LooseAcross(lang: Language, n: string, a: string, c: char, b: string)
    requires n != "" && c !in n && !IsSpace(c) && lang.caseFold(c) == c
    ensures Within(n, Loose(lang, a + [c] + b)) <==> Within(n, Loose(lang, a)) || Within(n, Loose(lang, b))
  {
    SqueezeAcross(a, c, b);
    EachJoins(Squeeze(a) + [c], Squeeze(b), lang.caseFold);
    EachJoins(Squeeze(a), [c], lang.caseFold);
    assert Each([c], lang.caseFold) == [c];
    WithinSplit(n, Loose(lang, a), c, Loose(lang, b));
  }

  lemma {:induction false} SqueezeStarts(s: string)
    requires s != "" && IsSpace(s[0])
    ensures Squeeze(s) != "" && Squeeze(s)[0] == ' '
  {
    if |s| > 1 && IsSpace(s[1]) {
      SqueezeStarts(s[1..]);
    }
  }

  lemma {:induction false} SqueezePrefix(a: string, b: string)
    ensures Squeeze(a) <= Squeeze(a + b)
  {
    if a != "" {
      SqueezePrefix(a[1..], b);
      assert (a + b)[0] == a[0] && (a + b)[1..] == a[1..] + b;
      if |a| == 1 {
        assert a[1..] == "" && a[1..] + b == b;
        if b != "" && IsSpace(a[0]) && IsSpace(b[0]) {
          assert (a + b)[1] == b[0];
          SqueezeStarts(b);
        }
      } else {
        assert (a + b)[1] == a[1];
      }
    }
  }

  /** A prefix of a text matches nothing the text does not. */
  lemma LoosePrefix(lang: Language, n: string, a: string, s: string)
    requires a <= s && Within(n, Loose(lang, a))
    ensures Within(n, Loose(lang, s))
  {
    hide Squeeze;
    var b := s[|a|..];
    assert s == a + b;
    SqueezePrefix(a, b);
    var x, y := Squeeze(a), Squeeze(s);
    assert y == x + y[|x|..];
    EachJoins(x, y[|x|..], lang.caseFold);
    WithinMiddle(n, "", Loose(lang, a), Each(y[|x|..], lang.caseFold));
    assert "" + Loose(lang, a) + Each(y[|x|..], lang.caseFold) == Loose(lang, s);
  }

  lemma {:induction false} LooseTrimStart(lang: Language, n: string, s: string)
    requires Within(n, Loose(lang, TrimStart(s)))
    ensures Within(n, Loose(lang, s))
  {
    if s != "" && IsSpace(s[0]) {
      LooseTrimStart(lang, n, s[1..]);
      if !(|s| > 1 && IsSpace(s[1])) {
        EachJoins([' '], Squeeze(s[1..]), lang.caseFold);
        WithinMiddle(n, Each([' '], lang.caseFold), Loose(lang, s[1..]), "");
        assert Each([' '], lang.caseFold) + Loose(lang, s[1..]) + "" == Loose(lang, s);
      }
    }
  }

  /** Neither does a trimmed text, or a prefix of it. */
  lemma LooseTrim(lang: Language, n: string, a: string, s: string)
    requires a <= Trim(s) && Within(n, Loose(lang, a))
    ensures Within(n, Loose(lang, s))
  {
    assert Trim(s) <= TrimStart(s);
    assert a <= TrimStart(s);
    LoosePrefix(lang, n, a, TrimStart(s));
    LooseTrimStart(lang, n, s);
  }

  // ---- the joined match ---------------------------------------------------------------------------

  lemma {:induction false} JoinMatches(lang: Language, n: string, xs: seq<string>)
    requires Sane(lang) && Valid(n)
    ensures Within(n, Loose(lang, Join(xs))) <==> exists f | f in xs :: Within(n, Loose(lang, f))
  {
    if |xs| == 1 {
      assert xs[0] in xs;
    } else if |xs| > 1 {
      JoinMatches(lang, n, xs[1..]);
      assert Plain(SEPARATOR);
      LooseAcross(lang, n, xs[0], SEPARATOR, Join(xs[1..]));
      assert forall f :: f in xs <==> f == xs[0] || f in xs[1..];
    }
  }

  /** One match over the joined fields is a match of some field. */
  lemma JoinedIsFieldwise(lang: Language, n: string, row: Row)
    requires Sane(lang) && Valid(n)
    ensures Within(n, Fold(lang, Join(Fields(row)))) <==> FieldMatch(lang, n, row)
  {
    MatchesLoose(lang, n, Join(Fields(row)));
    JoinMatches(lang, n, Fields(row));
    forall f { MatchesLoose(lang, n, f); }
  }

  // ---- what the displayed name adds ---------------------------------------------------------------

  lemma {:induction false} DecDigits(n: nat)
    ensures Dec(n) != "" && forall c | c in Dec(n) :: '0' <= c <= '9'
  {
    if n >= 10 {
      DecDigits(n / 10);
    }
  }

  /** The number a decimal text writes. */
  function ValueOf(s: string): int {
    if s == "" then 0 else 10 * ValueOf(s[..|s| - 1]) + (s[|s| - 1] as int - '0' as int)
  }

  /** A count is written in decimal, without a leading zero. */
  lemma {:induction false} DecWrites(n: nat)
    ensures ValueOf(Dec(n)) == n && Dec(n) != "" && (n > 0 ==> Dec(n)[0] != '0')
  {
    var digits := "0123456789";
    assert digits[n % 10] as int - '0' as int == n % 10;
    if n >= 10 {
      DecWrites(n / 10);
      assert Dec(n)[..|Dec(n)| - 1] == Dec(n / 10);
    } else {
      assert Dec(n) == [digits[n]];
      assert Dec(n)[..0] == "";
    }
  }

  /** A text that is already folded stays as it is. */
  lemma {:induction false} SqueezeFixed(s: string)
    requires SpacesPlain(s) && forall i | 0 < i < |s| :: !(IsSpace(s[i - 1]) && IsSpace(s[i]))
    ensures Squeeze(s) == s
  {
    if s != "" {
      forall i | 0 < i < |s[1..]| ensures !(IsSpace(s[1..][i - 1]) && IsSpace(s[1..][i])) {
        assert s[1..][i] == s[i + 1] && s[1..][i - 1] == s[i];
      }
      SqueezeFixed(s[1..]);
      if |s| > 1 {
        assert !(IsSpace(s[0]) && IsSpace(s[1]));
      }
    }
  }

  lemma PlainLoose(lang: Language, s: string)
    requires Sane(lang) && (forall c | c in s :: Plain(c)) && forall i | 0 < i < |s| :: !(s[i - 1] == ' ' && s[i] == ' ')
    ensures Loose(lang, s) == s
  {
    forall i | 0 <= i < |s| ensures IsSpace(s[i]) ==> s[i] == ' ' {
      assert Plain(s[i]);
    }
    SqueezeFixed(s);
  }

  /** What a displayed name may say that no field says: the placeholder, or the count of a collection. */
  function Extra(lang: Language, row: Row): Option<string> {
    if Collection(row) then Some(FilesText(Others(lang, Shown(row.names))))
    else if Displayed(lang, row) == UNNAMED && Trim(row.root) == "" && Shown(row.names) == [] then Some(UNNAMED)
    else None
  }

  lemma FilesSpaces(n: nat)
    ensures var s := FilesText(n);
            && |s| == |Dec(n)| + 6 && s[0] != ' ' && s[|s| - 1] == 's'
            && (forall i | 0 <= i < |s| :: Plain(s[i]) && (s[i] == ' ' <==> i == |Dec(n)|))
            && forall i | 0 <= i < |s| :: s[i] != SEPARATOR && s[i] != '+'
  {
    DecDigits(n);
    var d, tail, s := Dec(n), " files", FilesText(n);
    assert tail[0] == ' ' && tail[1] == 'f' && tail[2] == 'i' && tail[3] == 'l' && tail[4] == 'e' && tail[5] == 's';
    forall i | 0 <= i < |s| ensures s[i] == if i < |d| then d[i] else tail[i - |d|] {
    }
    forall i | 0 <= i < |d| ensures '0' <= d[i] <= '9' {
      assert d[i] in d;
    }
  }

  /** The count is a valid text, and folds to itself. */
  lemma CountFolded(lang: Language, n: nat)
    requires Sane(lang)
    ensures Loose(lang, [' '] + FilesText(n)) == [' '] + FilesText(n)
    ensures Valid(FilesText(n)) && ' ' in FilesText(n) && '+' !in FilesText(n)
  {
    hide FilesText;
    hide Squeeze;
    FilesSpaces(n);
    var s := [' '] + FilesText(n);
    assert FilesText(n)[|Dec(n)|] == ' ';
    assert Plain(FilesText(n)[0]) && Plain(' ');
    forall i | 0 < i < |s| ensures !(s[i - 1] == ' ' && s[i] == ' ') {
      assert s[i] == FilesText(n)[i - 1];
      assert i > 1 ==> s[i - 1] == FilesText(n)[i - 2];
    }
    forall c | c in s ensures Plain(c) {
      assert c == ' ' || c in FilesText(n);
    }
    PlainLoose(lang, s);
  }

  lemma UnnamedFolded(lang: Language)
    requires Sane(lang)
    ensures Loose(lang, UNNAMED) == UNNAMED && Valid(UNNAMED) && '(' in UNNAMED && '+' !in UNNAMED
  {
    hide Squeeze;
    assert UNNAMED == ['(', 'u', 'n', 'n', 'a', 'm', 'e', 'd', ')'];
    assert UNNAMED[0] == '(';
    PlainLoose(lang, UNNAMED);
  }

  lemma {:induction false} NonEmptyKeeps(xs: seq<string>, f: string)
    ensures f in NonEmpty(xs) <==> f in xs && f != ""
  {
    if xs != [] {
      NonEmptyKeeps(xs[1..], f);
      assert f in xs <==> f == xs[0] || f in xs[1..];
    }
  }

  lemma {:induction false} ShownFrom(names: seq<string>, x: string)
    ensures x in Shown(names) ==> x != "" && exists name | name in names :: x == Trim(name)
  {
    if names != [] {
      ShownFrom(names[1..], x);
      assert names[0] in names && forall name | name in names[1..] :: name in names;
    }
  }

  /** A match in a prefix of a shown name is a match of that file name. */
  lemma ShownMatches(lang: Language, n: string, row: Row, a: string)
    requires Sane(lang) && Valid(n) && Listed(row) && Shown(row.names) != [] && a <= Shown(row.names)[0]
    requires Within(n, Loose(lang, a))
    ensures FieldMatch(lang, n, row)
  {
    ShownFrom(row.names, Shown(row.names)[0]);
    var name :| name in row.names && Shown(row.names)[0] == Trim(name);
    LooseTrim(lang, n, a, name);
    MatchesLoose(lang, n, name);
    NonEmptyKeeps([row.root, row.tag, row.hash, row.error] + row.names + row.contributors, name);
    assert name in Fields(row);
  }

  lemma TrimNothing()
    ensures Trim([]) == []
  {
  }

  lemma RootMatches(lang: Language, n: string, row: Row)
    requires Sane(lang) && Valid(n) && Trim(row.root) != "" && Within(n, Loose(lang, Trim(row.root)))
    ensures FieldMatch(lang, n, row)
  {
    hide Trim;
    hide Squeeze;
    hide NonEmpty;
    hide Within;
    LooseTrim(lang, n, Trim(row.root), row.root);
    MatchesLoose(lang, n, row.root);
    TrimNothing();
    var all := [row.root, row.tag, row.hash, row.error] + row.names + row.contributors;
    assert all[0] == row.root;
    assert row.root != [];
    NonEmptyKeeps(all, row.root);
    assert row.root in Fields(row);
  }

  lemma {:induction false} SqueezeTail(x: string)
    ensures Squeeze(x + [' ']) == Squeeze(x) || Squeeze(x + [' ']) == Squeeze(x) + [' ']
  {
    if x == "" {
      assert x + [' '] == [' '];
    } else {
      SqueezeTail(x[1..]);
      assert (x + [' '])[0] == x[0] && (x + [' '])[1..] == x[1..] + [' '];
      if |x| == 1 {
        assert x[1..] == "" && x[1..] + [' '] == [' '] && Squeeze([' ']) == [' '];
      } else {
        assert (x + [' '])[1] == x[1];
      }
    }
  }

  lemma LooseTail(lang: Language, n: string, x: string)
    requires Sane(lang) && Valid(n) && Within(n, Loose(lang, x + [' ']))
    ensures Within(n, Loose(lang, x))
  {
    hide Squeeze;
    SqueezeTail(x);
    EndSpaces(lang, n, Squeeze(x));
  }

  /** A match in a collection's displayed name that holds no "+" is a match of a file name, or lies in the count. */
  lemma CollectionMatches(lang: Language, n: string, row: Row)
    requires Sane(lang) && Valid(n) && Listed(row) && Collection(row) && '+' !in n
    requires Matches(lang, n, Displayed(lang, row))
    ensures FieldMatch(lang, n, row) || Within(n, Extra(lang, row).value)
  {
    hide FilesText;
    hide Squeeze;
    hide Shown;
    hide Trim;
    hide FieldMatch;
    var shown := Shown(row.names);
    var title, count := Title(lang, shown), FilesText(Others(lang, shown));
    MatchesLoose(lang, n, Displayed(lang, row));
    assert Plain('+');
    LooseAcross(lang, n, title + [' '], '+', [' '] + count);
    if Within(n, Loose(lang, title + [' '])) {
      LooseTail(lang, n, title);
      ShownMatches(lang, n, row, title);
    } else {
      CountFolded(lang, Others(lang, shown));
      ValidEnds(n);
      WithinEdges(n, count);
    }
  }

  /** Beyond the extra text, a displayed name adds no match to those of the fields. */
  lemma DisplayAdds(lang: Language, n: string, row: Row)
    requires Sane(lang) && Valid(n) && Listed(row) && Matches(lang, n, Displayed(lang, row))
    ensures || FieldMatch(lang, n, row)
            || (Extra(lang, row).Some? && ((Collection(row) && '+' in n) || Within(n, Extra(lang, row).value)))
  {
    var shown, root := Shown(row.names), Trim(row.root);
    MatchesLoose(lang, n, Displayed(lang, row));
    if Collection(row) {
      if '+' !in n {
        CollectionMatches(lang, n, row);
      }
    } else if shown == [] || (row.canonicalRoot && root != "") {
      if root != "" {
        RootMatches(lang, n, row);
      } else {
        UnnamedFolded(lang);
      }
    } else {
      ShownMatches(lang, n, row, shown[0]);
    }
  }

  lemma {:induction false} ShownFewer(names: seq<string>)
    ensures |Shown(names)| <= |names|
  {
    if names != [] {
      ShownFewer(names[1..]);
    }
  }

  lemma CountDisplayed(lang: Language, row: Row)
    requires Sane(lang) && Collection(row)
    ensures Matches(lang, Extra(lang, row).value, Displayed(lang, row))
  {
    hide FilesText;
    hide Squeeze;
    hide Shown;
    hide Trim;
    var shown := Shown(row.names);
    var title, count := Title(lang, shown), FilesText(Others(lang, shown));
    CountFolded(lang, Others(lang, shown));
    assert Plain('+');
    WithinSelf(count);
    ValidEnds(count);
    WithinEdges(count, count);
    LooseAcross(lang, count, title + [' '], '+', [' '] + count);
    MatchesLoose(lang, count, Displayed(lang, row));
  }

  lemma {:induction false} LabelsChars(s: string, from: nat)
    requires from <= |s| && Labels(s, from)
    ensures forall i | from <= i < |s| :: HostChar(s[i])
    decreases |s| - from
  {
    var n := UntilDot(s, from);
    forall i | from <= i < n ensures HostChar(s[i]) {
      assert LabelChar(s[from..n][i - from]);
    }
    if n < |s| {
      LabelsChars(s, n + 1);
    }
  }

  /** A stretch of the host between two dots, or between a dot and an end. */
  ghost predicate Stretch(s: string, i: nat, j: nat) {
    && i <= j <= |s| && (i == 0 || s[i - 1] == '.') && (j == |s| || s[j] == '.')
    && forall k | i <= k < j :: s[k] != '.'
  }

  const LETTERS := {'a', 'b', 'c', 'd', 'e', 'f', 'g', 'h', 'i', 'j', 'k', 'l', 'm', 'n', 'o', 'p', 'q', 'r', 's', 't', 'u',
                    'v', 'w', 'x', 'y', 'z'}
  const DIGITS := {'0', '1', '2', '3', '4', '5', '6', '7', '8', '9'}

  lemma LabelCharIs(c: char)
    ensures LabelChar(c) <==> c in LETTERS || c in DIGITS || c == '-'
  {
  }

  /** A label has one to sixty-three letters, digits and hyphens, and neither begins nor ends with a hyphen. */
  ghost predicate ProperLabel(s: string) {
    && |s| >= 1 && |s| < 64 && (forall c | c in s :: c in LETTERS || c in DIGITS || c == '-')
    && '-' != s[0] && '-' != s[|s| - 1]
  }

  lemma LabelIs(s: string)
    ensures Label(s) <==> ProperLabel(s)
  {
    forall i | 0 <= i < |s| ensures LabelChar(s[i]) <==> s[i] in LETTERS || s[i] in DIGITS || s[i] == '-' {
      LabelCharIs(s[i]);
    }
    forall c | c in s ensures LabelChar(c) <==> c in LETTERS || c in DIGITS || c == '-' {
      LabelCharIs(c);
    }
  }

  lemma {:induction false} LabelsMean(s: string, from: nat)
    requires from <= |s| && (from == 0 || s[from - 1] == '.')
    ensures Labels(s, from) <==> forall i: nat, j: nat | from <= i && Stretch(s, i, j) :: ProperLabel(s[i..j])
    decreases |s| - from
  {
    hide ProperLabel, Label, UntilDot;
    var n := UntilDot(s, from);
    NoDotBefore(s, from);
    assert Stretch(s, from, n);
    LabelIs(s[from..n]);
    if n < |s| {
      LabelsMean(s, n + 1);
    }
    forall i: nat, j: nat | from <= i && Stretch(s, i, j) ensures (i == from && j == n) || (n < |s| && n + 1 <= i) {
    }
  }

  lemma {:induction false} NoDotBefore(s: string, from: nat)
    requires from <= |s|
    ensures forall k | from <= k < UntilDot(s, from) :: s[k] != '.'
    decreases |s| - from
  {
    if from < |s| && s[from] != '.' {
      NoDotBefore(s, from + 1);
    }
  }

  lemma {:induction false} DropDotsMeans(s: string)
    ensures var r := DropDots(s);
            && (forall k | |r| <= k < |s| :: s[k] == '.') && (r != "" ==> r[|r| - 1] != '.')
  {
    if s != "" && s[|s| - 1] == '.' {
      DropDotsMeans(s[..|s| - 1]);
    }
  }

  /** The safe form, by what it is: the trimmed and lower-cased host without one leading "www." and without its trailing
      dots, if that is neither empty nor longer than 253 and every stretch between dots is a proper label. */
  lemma SafeExactly(lang: Language, h: string, host: string)
    ensures var lowered := Each(Trim(h), lang.lower);
            var rest := if "www." <= lowered then lowered[4..] else lowered;
            Safe(lang, h) == Some(host) <==>
              && host <= rest && (forall k | |host| <= k < |rest| :: rest[k] == '.')
              && host != "" && host[|host| - 1] != '.' && |host| <= 253
              && forall i: nat, j: nat | Stretch(host, i, j) :: ProperLabel(host[i..j])
  {
    hide Labels, ProperLabel, Stretch, Trim;
    var lowered := Each(Trim(h), lang.lower);
    WwwIs(lowered);
    var rest := DropWww(lowered);
    DropDotsMeans(rest);
    LabelsMean(DropDots(rest), 0);
    if host <= rest && (forall k | |host| <= k < |rest| :: rest[k] == '.') && host != "" && host[|host| - 1] != '.' {
      SameDrop(rest, host);
    }
  }

  lemma WwwIs(s: string)
    ensures DropWww(s) == if "www." <= s then s[4..] else s
  {
  }

  lemma SameDrop(rest: string, host: string)
    requires host <= rest && (forall k | |host| <= k < |rest| :: rest[k] == '.') && host != "" && host[|host| - 1] != '.'
    ensures DropDots(rest) == host
  {
    hide DropDots;
    DropDotsMeans(rest);
    var r := DropDots(rest);
    assert rest[|host| - 1] == host[|host| - 1];
    assert |r| >= |host|;
  }

  /** A safe host is a text of host characters, and so a valid one without a space or a sign. */
  lemma SafeChars(lang: Language, h: string)
    requires Safe(lang, h).Some?
    ensures var host := Safe(lang, h).value; Valid(host) && forall i | 0 <= i < |host| :: HostChar(host[i])
  {
    hide Trim, Each, DropDots, DropWww;
    var host := Safe(lang, h).value;
    LabelsChars(host, 0);
    assert HostChar(host[0]) && HostChar(host[|host| - 1]);
  }

  lemma HostHolds(lang: Language, h: string, text: string, c: char)
    requires Safe(lang, h).Some? && Within(text, Safe(lang, h).value) && c in text
    ensures HostChar(c)
  {
    hide Safe, HostChar;
    SafeChars(lang, h);
    var host := Safe(lang, h).value;
    var i :| WithinAt(text, host, i);
    var k :| 0 <= k < |text| && text[k] == c;
    assert host[i + k] == host[i..i + |text|][k];
  }

  /** The fold agrees with the lower case on every character of the host that lowers to a host character. */
  ghost predicate Agrees(lang: Language, h: string) {
    forall c | c in h && HostChar(lang.lower(c)) :: lang.caseFold(c) == lang.lower(c)
  }

  /** The safe form is what becomes of one stretch of the raw host, which holds no white space. */
  lemma SafeStretch(lang: Language, h: string) returns (before: string, part: string, after: string)
    requires Safe(lang, h).Some?
    ensures h == before + part + after && Each(part, lang.lower) == Safe(lang, h).value
  {
    hide Labels, Trim, DropWww, DropDots;
    var trimmed, lowered := Trim(h), Each(Trim(h), lang.lower);
    var rest := DropWww(lowered);
    var skip, n := |lowered| - |rest|, |DropDots(rest)|;
    part := trimmed[skip..skip + n];
    var a, z := TrimStretch(h);
    before, after := a + trimmed[..skip], trimmed[skip + n..] + z;
    assert trimmed == trimmed[..skip] + part + trimmed[skip + n..];
  }

  lemma Suffixed(s: string, r: string)
    requires |r| <= |s| && r == s[|s| - |r|..]
    ensures s == s[..|s| - |r|] + r
  {
  }

  lemma Prefixed(s: string, r: string)
    requires |r| <= |s| && r == s[..|r|]
    ensures s == r + s[|r|..]
  {
  }

  lemma Joined(a: string, b: string, c: string)
    ensures a + b + c == a + (b + c)
  {
  }

  lemma TrimStretch(h: string) returns (a: string, z: string)
    ensures h == a + Trim(h) + z
  {
    hide TrimStart, TrimEnd, IsSpace;
    var start := TrimStart(h);
    var trimmed := TrimEnd(start);
    a, z := h[..|h| - |start|], start[|trimmed|..];
    Suffixed(h, start);
    Prefixed(start, trimmed);
    Joined(a, trimmed, z);
  }

  lemma NoSpaces(s: string)
    requires forall i | 0 <= i < |s| :: !IsSpace(s[i])
    ensures Squeeze(s) == s
  {
    SqueezeFixed(s);
  }

  /** A stretch without white space is found in the text it is part of. */
  lemma LooseStretch(lang: Language, before: string, part: string, after: string)
    requires part != "" && forall i | 0 <= i < |part| :: !IsSpace(part[i])
    ensures Within(Each(part, lang.caseFold), Loose(lang, before + part + after))
  {
    hide Squeeze, IsSpace;
    NoSpaces(part);
    var tail := part + after;
    SqueezePrefix(part, after);
    WithinSelf(Loose(lang, part));
    LoosePrefix(lang, Loose(lang, part), part, tail);
    assert tail == "" + [tail[0]] + tail[1..];
    assert before + part + after == before + [tail[0]] + tail[1..];
    assert tail[0] == part[0];
    SqueezeAcross(before, tail[0], tail[1..]);
    SqueezeAcross("", tail[0], tail[1..]);
    SqueezeEmpty();
    assert Squeeze(before + part + after) == Squeeze(before) + Squeeze(tail);
    EachJoins(Squeeze(before), Squeeze(tail), lang.caseFold);
    WithinMiddle(Loose(lang, part), Loose(lang, before), Loose(lang, tail), "");
    assert Loose(lang, before) + Loose(lang, tail) + "" == Loose(lang, before + part + after);
  }

  lemma SqueezeEmpty()
    ensures Squeeze("") == ""
  {
  }

  /** Where fold and lower case agree, the raw host holds its safe form: looking at it first loses nothing. */
  lemma AgreeingHolds(lang: Language, h: string)
    requires Sane(lang) && Safe(lang, h).Some? && Agrees(lang, h)
    ensures Matches(lang, Safe(lang, h).value, h)
  {
    hide Safe, Squeeze, Trim, HostChar;
    var host := Safe(lang, h).value;
    SafeChars(lang, h);
    var before, part, after := SafeStretch(lang, h);
    forall i | 0 <= i < |part| ensures !IsSpace(part[i]) && lang.caseFold(part[i]) == host[i] {
      assert host[i] == lang.lower(part[i]) && HostChar(host[i]);
      assert part[i] in h by { assert h[|before| + i] == part[i]; }
      SpaceNoHost(host[i]);
    }
    assert Each(part, lang.caseFold) == host;
    LooseStretch(lang, before, part, after);
    MatchesLoose(lang, host, h);
  }

  lemma SpaceNoHost(c: char)
    requires HostChar(c)
    ensures !IsSpace(c)
  {
  }

  /** On one host: looking at the raw host first loses no text exactly if it does not lose the safe host itself. */
  lemma GuardExactly(lang: Language, h: string)
    requires Safe(lang, h).Some?
    ensures (forall n | Valid(n) && Within(n, Safe(lang, h).value) :: Matches(lang, n, h))
            <==> Matches(lang, Safe(lang, h).value, h)
  {
    hide Safe;
    SafeChars(lang, h);
    var host := Safe(lang, h).value;
    WithinSelf(host);
    if Matches(lang, host, h) {
      forall n | Valid(n) && Within(n, host) ensures Matches(lang, n, h) {
        WithinThrough(n, host, Fold(lang, h));
      }
    }
  }

  /** The displayed name does hold its extra text, and no host does. */
  lemma ExtraDisplayed(lang: Language, row: Row)
    requires Sane(lang) && Extra(lang, row).Some?
    ensures var extra := Extra(lang, row).value;
            Valid(extra) && '+' !in extra && Matches(lang, extra, Displayed(lang, row)) && !HostMatch(lang, extra, row)
  {
    hide FilesText;
    hide Squeeze;
    hide Shown;
    hide Trim;
    hide Safe;
    hide Valid;
    var extra := Extra(lang, row).value;
    if Collection(row) {
      CountFolded(lang, Others(lang, Shown(row.names)));
      CountDisplayed(lang, row);
    } else {
      UnnamedFolded(lang);
      WithinSelf(extra);
      MatchesLoose(lang, extra, UNNAMED);
    }
    assert (if Collection(row) then ' ' else '(') in extra;
    NoHost(lang, extra, if Collection(row) then ' ' else '(', row);
  }

  /** No host holds a text with a character no host has. */
  lemma NoHost(lang: Language, text: string, c: char, row: Row)
    requires c in text && !HostChar(c)
    ensures !HostMatch(lang, text, row)
  {
    hide Safe, HostChar;
    forall h | h in row.hosts && Safe(lang, h).Some? ensures !Within(text, Safe(lang, h).value) {
      if Within(text, Safe(lang, h).value) {
        HostHolds(lang, h, text, c);
      }
    }
  }

  lemma ComputesThrough(n: string, extra: string, row: Row)
    requires Within(n, extra) && '+' !in extra && Computes(extra, row)
    ensures Computes(n, row)
  {
    if |row.names| >= 2 {
      if Within(extra, CountText(|row.names|)) {
        WithinThrough(n, extra, CountText(|row.names|));
      } else {
        WithinThrough(n, extra, CountText(|row.names| - 1));
      }
    }
  }

  // ---- the shortcut -------------------------------------------------------------------------------

  /** The shortcut never invents a match. */
  lemma FastIsSound(lang: Language, n: string, row: Row)
    requires Sane(lang) && Valid(n) && Fast(lang, n, row)
    ensures Direct(lang, n, row)
  {
    JoinedIsFieldwise(lang, n, row);
  }

  /** The text of the displayed name that the shortcut may lose is not lost. */
  ghost predicate ExtraCovered(lang: Language, row: Row) {
    Extra(lang, row).Some? ==>
      Computes(Extra(lang, row).value, row) || FieldMatch(lang, Extra(lang, row).value, row)
  }

  /** No safe host is lost to the look at the raw host: it holds its safe form, or the shortcut finds that otherwise. */
  ghost predicate HostsCovered(lang: Language, row: Row) {
    forall h | h in row.hosts && Safe(lang, h).Some? ::
      Matches(lang, Safe(lang, h).value, h) || Fast(lang, Safe(lang, h).value, row)
  }

  lemma FieldThrough(lang: Language, n: string, text: string, row: Row)
    requires Within(n, text) && FieldMatch(lang, text, row)
    ensures FieldMatch(lang, n, row)
  {
    var f :| f in Fields(row) && Matches(lang, text, f);
    WithinThrough(n, text, Fold(lang, f));
    assert Matches(lang, n, f);
  }

  lemma ExtraLosesNothing(lang: Language, n: string, row: Row)
    requires Sane(lang) && Valid(n) && Listed(row) && ExtraCovered(lang, row)
    requires Matches(lang, n, Displayed(lang, row))
    ensures Fast(lang, n, row)
  {
    hide Displayed, Safe;
    JoinedIsFieldwise(lang, n, row);
    if !FieldMatch(lang, n, row) && !Computes(n, row) {
      DisplayAdds(lang, n, row);
      ShownFewer(row.names);
      var extra := Extra(lang, row).value;
      assert Within(n, extra);
      ExtraDisplayed(lang, row);
      if Computes(extra, row) {
        ComputesThrough(n, extra, row);
      } else {
        FieldThrough(lang, n, extra, row);
      }
    }
  }

  /** What finds a text without a plus sign finds every valid text within it. */
  lemma FastThrough(lang: Language, n: string, text: string, row: Row)
    requires Sane(lang) && Valid(n) && Valid(text) && '+' !in text && Within(n, text) && Fast(lang, text, row)
    ensures Fast(lang, n, row)
  {
    hide Displayed, Safe, Valid, Computes;
    JoinedIsFieldwise(lang, n, row);
    JoinedIsFieldwise(lang, text, row);
    if FieldMatch(lang, text, row) {
      FieldThrough(lang, n, text, row);
    } else if HostFound(lang, text, row) {
      var h :| h in row.hosts && Matches(lang, text, h) && Safe(lang, h).Some? && Within(text, Safe(lang, h).value);
      WithinThrough(n, text, Fold(lang, h));
      WithinThrough(n, text, Safe(lang, h).value);
      assert Matches(lang, n, h);
    } else {
      ComputesThrough(n, text, row);
      WithinThrough(n, text, Fold(lang, Displayed(lang, row)));
    }
  }

  lemma HostLosesNothing(lang: Language, n: string, row: Row)
    requires Sane(lang) && Valid(n) && HostsCovered(lang, row) && HostMatch(lang, n, row)
    ensures Fast(lang, n, row)
  {
    hide Displayed, Safe, Valid, Computes;
    var h :| h in row.hosts && Safe(lang, h).Some? && Within(n, Safe(lang, h).value);
    var host := Safe(lang, h).value;
    if Matches(lang, host, h) {
      WithinThrough(n, host, Fold(lang, h));
      assert Matches(lang, n, h);
    } else {
      SafeSign(lang, h);
      FastThrough(lang, n, host, row);
    }
  }

  lemma SafeSign(lang: Language, h: string)
    requires Safe(lang, h).Some?
    ensures Valid(Safe(lang, h).value) && '+' !in Safe(lang, h).value
  {
    hide Safe;
    SafeChars(lang, h);
  }

  /** The shortcut is the plain reading, for every search text, exactly when it loses none of finitely many: the extra
      text of the displayed name, and the safe form of each host. */
  lemma FastIsDirect(lang: Language, row: Row)
    requires Sane(lang) && Listed(row)
    ensures (forall n | Valid(n) :: Fast(lang, n, row) <==> Direct(lang, n, row)) <==>
              ExtraCovered(lang, row) && HostsCovered(lang, row)
  {
    hide Displayed, Safe, Valid, Computes, Extra, Fields;
    forall n | Valid(n) ensures Fast(lang, n, row) ==> Direct(lang, n, row) {
      if Fast(lang, n, row) { FastIsSound(lang, n, row); }
    }
    if ExtraCovered(lang, row) && HostsCovered(lang, row) {
      forall n | Valid(n) ensures Direct(lang, n, row) ==> Fast(lang, n, row) {
        CoveredLosesNothing(lang, n, row);
      }
    } else if !ExtraCovered(lang, row) {
      ExtraLost(lang, row);
    } else {
      HostLost(lang, row);
    }
  }

  lemma CoveredLosesNothing(lang: Language, n: string, row: Row)
    requires Sane(lang) && Valid(n) && Listed(row) && ExtraCovered(lang, row) && HostsCovered(lang, row)
    ensures Direct(lang, n, row) ==> Fast(lang, n, row)
  {
    hide Displayed, Safe, Valid, Computes, Extra, ExtraCovered, HostsCovered;
    JoinedIsFieldwise(lang, n, row);
    if Matches(lang, n, Displayed(lang, row)) {
      ExtraLosesNothing(lang, n, row);
    }
    if HostMatch(lang, n, row) {
      HostLosesNothing(lang, n, row);
    }
  }

  lemma ExtraLost(lang: Language, row: Row)
    requires Sane(lang) && !ExtraCovered(lang, row)
    ensures exists n :: Valid(n) && Direct(lang, n, row) && !Fast(lang, n, row)
  {
    hide Displayed, Safe;
    var extra := Extra(lang, row).value;
    ExtraDisplayed(lang, row);
    JoinedIsFieldwise(lang, extra, row);
    assert Valid(extra) && Direct(lang, extra, row) && !Fast(lang, extra, row);
  }

  lemma HostLost(lang: Language, row: Row)
    requires !HostsCovered(lang, row)
    ensures exists n :: Valid(n) && Direct(lang, n, row) && !Fast(lang, n, row)
  {
    hide Displayed, Safe;
    var h :| h in row.hosts && Safe(lang, h).Some? && !Fast(lang, Safe(lang, h).value, row);
    var host := Safe(lang, h).value;
    SafeChars(lang, h);
    WithinSelf(host);
    assert Valid(host) && Direct(lang, host, row) && !Fast(lang, host, row);
  }

  lemma {:induction false} AllShown(names: seq<string>)
    requires forall name | name in names :: Trim(name) != ""
    ensures |Shown(names)| == |names|
  {
    if names != [] {
      AllShown(names[1..]);
    }
  }

  /** Where no file name and no root name is blank space, and the fold agrees with the lower case on the hosts, nothing is
      lost. */
  lemma NothingLost(lang: Language, row: Row)
    requires Sane(lang) && Listed(row)
    requires (forall name | name in row.names :: Trim(name) != "") && (row.root != "" ==> Trim(row.root) != "")
    requires forall h | h in row.hosts :: Agrees(lang, h)
    ensures forall n | Valid(n) :: Fast(lang, n, row) <==> Direct(lang, n, row)
  {
    hide Displayed, Safe, Valid, Computes, Extra, Fields, ExtraCovered;
    NothingBlank(lang, row);
    forall h | h in row.hosts && Safe(lang, h).Some? ensures Matches(lang, Safe(lang, h).value, h) {
      AgreeingHolds(lang, h);
    }
    FastIsDirect(lang, row);
  }

  /** Without a blank name the displayed name is not lost. */
  lemma NothingBlank(lang: Language, row: Row)
    requires Sane(lang) && Listed(row)
    requires (forall name | name in row.names :: Trim(name) != "") && (row.root != "" ==> Trim(row.root) != "")
    ensures ExtraCovered(lang, row)
  {
    hide FilesText;
    hide Trim;
    AllShown(row.names);
    if Collection(row) {
      var k := Others(lang, Shown(row.names));
      WithinSelf(FilesText(k));
      WithinMiddle(FilesText(k), [' ', '+', ' '], FilesText(k), "");
      assert [' ', '+', ' '] + FilesText(k) + "" == CountText(k);
      hide Shown;
    } else {
      NoneExtra(lang, row);
    }
  }

  lemma NoneExtra(lang: Language, row: Row)
    requires !Collection(row) && |Shown(row.names)| == |row.names| && (row.root != "" ==> Trim(row.root) != "")
    ensures Extra(lang, row).Some? ==> Computes(Extra(lang, row).value, row)
  {
  }

  /** A transfer whose one file is named by a space. */
  const BLANK_NAMED := Row("", false, [[' ']], "", "", "", [], [])

  lemma SpaceFolds(lang: Language)
    ensures Trim([' ']) == [] && Fold(lang, [' ']) == []
  {
    assert TrimStart([' ']) == [];
    assert Squeeze([' ']) == [' '];
  }

  lemma BlankFields(f: string)
    requires f in Fields(BLANK_NAMED)
    ensures f == [' ']
  {
    hide NonEmpty;
    var all := [BLANK_NAMED.root, BLANK_NAMED.tag, BLANK_NAMED.hash, BLANK_NAMED.error]
               + BLANK_NAMED.names + BLANK_NAMED.contributors;
    NonEmptyKeeps(all, f);
    var i :| 0 <= i < |all| && all[i] == f;
    assert i == 4;
  }

  lemma BlankShown(lang: Language)
    ensures Displayed(lang, BLANK_NAMED) == UNNAMED && Extra(lang, BLANK_NAMED) == Some(UNNAMED)
    ensures !Computes(UNNAMED, BLANK_NAMED)
  {
    hide Trim;
    SpaceFolds(lang);
    TrimNothing();
    var names := BLANK_NAMED.names;
    assert names[0] == [' '] && names[1..] == [];
    assert Shown([]) == [];
    assert Shown(names) == [];
  }

  /** The list shows it as "(unnamed)", and searching for "(unnamed)" does not find it. */
  lemma BlankNameLost(lang: Language)
    requires Sane(lang)
    ensures Direct(lang, UNNAMED, BLANK_NAMED) && !Fast(lang, UNNAMED, BLANK_NAMED)
  {
    hide Displayed;
    hide Fold;
    hide Extra;
    BlankShown(lang);
    ExtraDisplayed(lang, BLANK_NAMED);
    JoinedIsFieldwise(lang, UNNAMED, BLANK_NAMED);
    forall f | f in Fields(BLANK_NAMED) ensures !Matches(lang, UNNAMED, f) {
      BlankFields(f);
      SpaceFolds(lang);
    }
  }

  /** A transfer whose one host is written with the Kelvin sign. */
  const KELVIN_HOSTED := Row("", false, ["a"], "", "", "", [['\U{212a}', '\U{212a}', '\U{212a}']], [])

  lemma TrimVisible(s: string)
    requires s != "" && !IsSpace(s[0]) && !IsSpace(s[|s| - 1])
    ensures Trim(s) == s
  {
  }

  lemma OneLabel(s: string)
    requires Label(s)
    ensures Labels(s, 0)
  {
    forall i | 0 <= i < |s| ensures s[i] != '.' {
      assert LabelChar(s[i]);
    }
    NoDot(s, 0);
    assert s[0..|s|] == s;
  }

  lemma {:induction false} NoDot(s: string, from: nat)
    requires from <= |s| && forall i | 0 <= i < |s| :: s[i] != '.'
    ensures UntilDot(s, from) == |s|
    decreases |s| - from
  {
    if from < |s| {
      NoDot(s, from + 1);
    }
  }

  lemma KelvinSafe(lang: Language)
    requires lang.lower('\U{212a}') == 'k'
    ensures Safe(lang, KELVIN_HOSTED.hosts[0]) == Some("kkk")
  {
    hide Trim, Labels, IsSpace;
    var h, host := KELVIN_HOSTED.hosts[0], "kkk";
    KelvinVisible();
    TrimVisible(h);
    assert Each(h, lang.lower) == host;
    assert DropWww(host) == host && DropDots(host) == host;
    OneLabel(host);
  }

  lemma KelvinVisible()
    ensures !IsSpace('\U{212a}')
  {
  }

  lemma KelvinFold(lang: Language)
    requires lang.caseFold('\U{212a}') == '\U{212a}'
    ensures Fold(lang, KELVIN_HOSTED.hosts[0]) == KELVIN_HOSTED.hosts[0]
  {
    var h := KELVIN_HOSTED.hosts[0];
    hide Trim, Squeeze, IsSpace;
    KelvinVisible();
    NoSpaces(h);
    TrimVisible(h);
    assert Each(h, lang.caseFold) == h;
  }

  lemma KelvinFields(lang: Language, f: string)
    requires f in Fields(KELVIN_HOSTED)
    ensures |f| == 1
  {
    hide NonEmpty;
    var row := KELVIN_HOSTED;
    var all := [row.root, row.tag, row.hash, row.error] + row.names + row.contributors;
    NonEmptyKeeps(all, f);
    var i :| 0 <= i < |all| && all[i] == f;
    assert i == 4;
  }

  lemma FirstFound(n: string, s: string, i: int)
    requires WithinAt(n, s, i) && n != ""
    ensures 0 <= i < |s| && s[i] == n[0]
  {
    assert s[i..i + |n|][0] == s[i];
  }

  lemma ShortFold(lang: Language, f: string)
    requires |f| == 1
    ensures |Fold(lang, f)| <= 1
  {
    assert f[1..] == "";
    assert |Squeeze(f)| == 1;
  }

  /** With an engine that folds ASCII alone, the host the list shows as "kkk" is not found by that text. */
  lemma KelvinLost(lang: Language)
    requires Sane(lang) && lang.lower('\U{212a}') == 'k' && lang.caseFold('\U{212a}') == '\U{212a}'
    ensures Direct(lang, "kkk", KELVIN_HOSTED) && !Fast(lang, "kkk", KELVIN_HOSTED)
  {
    hide Displayed, Fold, Safe, Fields, Squeeze;
    var n, row := "kkk", KELVIN_HOSTED;
    KelvinSafe(lang);
    KelvinFold(lang);
    WithinSelf(n);
    assert row.hosts[0] in row.hosts;
    JoinedIsFieldwise(lang, n, row);
    forall f | f in Fields(row) ensures !Matches(lang, n, f) {
      KelvinFields(lang, f);
      ShortFold(lang, f);
    }
    forall i ensures !WithinAt(n, row.hosts[0], i) {
      if WithinAt(n, row.hosts[0], i) {
        FirstFound(n, row.hosts[0], i);
      }
    }
  }
}
