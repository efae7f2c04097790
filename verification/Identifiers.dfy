/** The regular expressions that decide which identifiers are accepted (sanitizer.go, users/users.go), and the languages
    they denote. */
module Identifiers {

  datatype Regex =
    | Empty
    | Range(lo: char, hi: char)
    | Either(left: Regex, right: Regex)
    | Cat(first: Regex, second: Regex)
    | Star(body: Regex)

  function Plus(r: Regex): Regex {
    Cat(r, Star(r))
  }

  function Maybe(r: Regex): Regex {
    Either(Empty, r)
  }

  function Just(c: char): Regex {
    Range(c, c)
  }

  /** The whole string is in the language of the expression, as the anchors demand. */
  ghost predicate Matches(r: Regex, s: string)
    decreases |s|, r
  {
    match r
    case Empty => s == ""
    case Range(lo, hi) => |s| == 1 && lo <= s[0] <= hi
    case Either(left, right) => Matches(left, s) || Matches(right, s)
    case Cat(first, second) => exists i :: 0 <= i <= |s| && Matches(first, s[..i]) && Matches(second, s[i..])
    case Star(body) => s == "" || exists i :: 0 < i <= |s| && Matches(body, s[..i]) && Matches(r, s[i..])
  }

  const LOWER := Range('a', 'z')
  const LOWER_OR_DIGIT := Either(Range('a', 'z'), Range('0', '9'))
  const LETTER := Either(Range('a', 'z'), Range('A', 'Z'))

  /** ^[a-z]+([-][a-z0-9]+)*[a-z]+$ */
  const ID_EXP := Cat(Plus(LOWER), Cat(Star(Cat(Just('-'), Plus(LOWER_OR_DIGIT))), Plus(LOWER)))

  /** ^[a-zA-Z]+([ ]?[a-zA-Z]+)*$ with the separator in place of the blank. */
  function NameExp(separator: char): Regex {
    Cat(Plus(LETTER), Star(Cat(Maybe(Just(separator)), Plus(LETTER))))
  }

  predicate IsLower(c: char) {
    'a' <= c <= 'z'
  }

  predicate IsLowerOrDigit(c: char) {
    'a' <= c <= 'z' || '0' <= c <= '9'
  }

  predicate IsLetter(c: char) {
    'a' <= c <= 'z' || 'A' <= c <= 'Z'
  }

  predicate AllIn(p: char -> bool, s: string) {
    forall i :: 0 <= i < |s| ==> p(s[i])
  }

  /** The classes by their places in the code table. */
  lemma ClassesWrittenOut(c: char)
    ensures IsLower(c) <==> 97 <= c as int <= 122
    ensures IsLowerOrDigit(c) <==> 97 <= c as int <= 122 || 48 <= c as int <= 57
    ensures IsLetter(c) <==> 97 <= c as int <= 122 || 65 <= c as int <= 90
  {
  }

  /** A non-empty string of such characters. */
  predicate RunOf(p: char -> bool, s: string) {
    s != "" && AllIn(p, s)
  }

  /** The expression denotes exactly the one-character strings of the class. */
  ghost predicate Denotes(r: Regex, p: char -> bool) {
    forall s: string :: Matches(r, s) <==> |s| == 1 && p(s[0])
  }

  lemma CatIntro(first: Regex, second: Regex, a: string, b: string)
    requires Matches(first, a) && Matches(second, b)
    ensures Matches(Cat(first, second), a + b)
  {
    assert (a + b)[..|a|] == a && (a + b)[|a|..] == b;
  }

  lemma CatElim(first: Regex, second: Regex, s: string) returns (a: string, b: string)
    requires Matches(Cat(first, second), s)
    ensures s == a + b && Matches(first, a) && Matches(second, b)
  {
    var i :| 0 <= i <= |s| && Matches(first, s[..i]) && Matches(second, s[i..]);
    a, b := s[..i], s[i..];
  }

  lemma StarIntro(body: Regex, a: string, b: string)
    requires a != "" && Matches(body, a) && Matches(Star(body), b)
    ensures Matches(Star(body), a + b)
  {
    assert (a + b)[..|a|] == a && (a + b)[|a|..] == b;
  }

  lemma StarElim(body: Regex, s: string) returns (a: string, b: string)
    requires s != "" && Matches(Star(body), s)
    ensures s == a + b && a != "" && Matches(body, a) && Matches(Star(body), b)
  {
    var i :| 0 < i <= |s| && Matches(body, s[..i]) && Matches(Star(body), s[i..]);
    a, b := s[..i], s[i..];
  }

  lemma AllInCat(p: char -> bool, a: string, b: string)
    ensures AllIn(p, a + b) <==> AllIn(p, a) && AllIn(p, b)
  {
    if AllIn(p, a + b) {
      assert forall i :: 0 <= i < |a| ==> a[i] == (a + b)[i];
      assert forall i :: 0 <= i < |b| ==> b[i] == (a + b)[|a| + i];
    }
  }

  lemma {:induction false} StarOfClass(r: Regex, p: char -> bool, s: string)
    requires Denotes(r, p)
    ensures Matches(Star(r), s) <==> AllIn(p, s)
    decreases |s|
  {
    if s != "" {
      assert s == s[..1] + s[1..];
      StarOfClass(r, p, s[1..]);
      AllInCat(p, s[..1], s[1..]);
      if Matches(Star(r), s) {
        var a, b := StarElim(r, s);
        assert a == s[..1] && b == s[1..];
      }
      if AllIn(p, s) {
        StarIntro(r, s[..1], s[1..]);
      }
    }
  }

  lemma PlusOfClass(r: Regex, p: char -> bool, s: string)
    requires Denotes(r, p)
    ensures Matches(Plus(r), s) <==> RunOf(p, s)
  {
    if Matches(Plus(r), s) {
      var a, b := CatElim(r, Star(r), s);
      StarOfClass(r, p, b);
      AllInCat(p, a, b);
      assert AllIn(p, s);
    }
    if RunOf(p, s) {
      assert s == s[..1] + s[1..];
      AllInCat(p, s[..1], s[1..]);
      StarOfClass(r, p, s[1..]);
      CatIntro(r, Star(r), s[..1], s[1..]);
    }
  }

  lemma LowerRuns(s: string)
    ensures Matches(Plus(LOWER), s) <==> RunOf(IsLower, s)
  {
    assert Denotes(LOWER, IsLower);
    PlusOfClass(LOWER, IsLower, s);
  }

  lemma LowerOrDigitRuns(s: string)
    ensures Matches(Plus(LOWER_OR_DIGIT), s) <==> RunOf(IsLowerOrDigit, s)
  {
    assert Denotes(LOWER_OR_DIGIT, IsLowerOrDigit);
    PlusOfClass(LOWER_OR_DIGIT, IsLowerOrDigit, s);
  }

  lemma LetterRuns(s: string)
    ensures Matches(Plus(LETTER), s) <==> RunOf(IsLetter, s)
  {
    assert Denotes(LETTER, IsLetter);
    PlusOfClass(LETTER, IsLetter, s);
  }

  // ---- Splitting at a separator ----

  function PrependFirst(w: string, parts: seq<string>): (longer: seq<string>)
    requires parts != []
    ensures |longer| == |parts|
  {
    [w + parts[0]] + parts[1..]
  }

  function Split(s: string, separator: char): (parts: seq<string>)
    ensures |parts| > 0
  {
    if s == "" then [""]
    else
      var rest := Split(s[1..], separator);
      if s[0] == separator then [""] + rest else PrependFirst([s[0]], rest)
  }

  function Last<T>(xs: seq<T>): T
    requires xs != []
  {
    xs[|xs| - 1]
  }

  function AppendLast(parts: seq<string>, w: string): (longer: seq<string>)
    requires parts != []
    ensures |longer| == |parts|
  {
    parts[..|parts| - 1] + [Last(parts) + w]
  }

  /** Both ends can be extended in either order. */
  lemma ExtendBothEnds(v: string, parts: seq<string>, w: string)
    requires parts != []
    ensures AppendLast(PrependFirst(v, parts), w) == PrependFirst(v, AppendLast(parts, w))
  {
    var left := AppendLast(PrependFirst(v, parts), w);
    var right := PrependFirst(v, AppendLast(parts, w));
    if |parts| == 1 {
      assert (v + parts[0]) + w == v + (parts[0] + w);
    }
    forall i | 0 <= i < |parts| ensures left[i] == right[i] {}
  }

  /** The first part has no separator; what follows it is nothing, or a separator and the other parts. */
  lemma {:induction false} SplitFirst(s: string, separator: char)
    ensures var parts := Split(s, separator);
      && separator !in parts[0] && parts[0] <= s
      && (|parts| == 1 ==> s == parts[0])
      && (|parts| > 1 ==> |parts[0]| < |s| && s[|parts[0]|] == separator
                          && Split(s[|parts[0]| + 1..], separator) == parts[1..])
  {
    if s != "" && s[0] != separator {
      SplitFirst(s[1..], separator);
      var rest := Split(s[1..], separator);
      var parts := Split(s, separator);
      assert s == [s[0]] + s[1..];
      if |parts| > 1 {
        assert s[|parts[0]| + 1..] == s[1..][|rest[0]| + 1..];
      }
    }
  }

  /** Text without a separator in front of a string joins its first part. */
  lemma {:induction false} SplitPrepend(w: string, s: string, separator: char)
    requires separator !in w
    ensures Split(w + s, separator) == PrependFirst(w, Split(s, separator))
  {
    if w == "" {
      var parts := Split(s, separator);
      assert w + s == s && w + parts[0] == parts[0];
      assert [parts[0]] + parts[1..] == parts;
    } else {
      SplitPrepend(w[1..], s, separator);
      assert (w + s)[1..] == w[1..] + s;
      assert [w[0]] + (w[1..] + Split(s, separator)[0]) == w + Split(s, separator)[0];
    }
  }

  lemma SplitWhole(w: string, separator: char)
    requires separator !in w
    ensures Split(w, separator) == [w]
  {
    SplitPrepend(w, "", separator);
    assert w + "" == w;
  }

  lemma AppendLastBehind(first: string, rest: seq<string>, w: string)
    requires rest != []
    ensures AppendLast([first] + rest, w) == [first] + AppendLast(rest, w)
  {
    assert ([first] + rest)[..|rest|] == [first] + rest[..|rest| - 1];
  }

  /** Text without a separator behind a string joins its last part. */
  lemma {:induction false} SplitAppend(s: string, w: string, separator: char)
    requires separator !in w
    ensures Split(s + w, separator) == AppendLast(Split(s, separator), w)
  {
    if s == "" {
      SplitWhole(w, separator);
      assert s + w == w && "" + w == w;
    } else {
      SplitAppend(s[1..], w, separator);
      assert (s + w)[1..] == s[1..] + w;
      var rest := Split(s[1..], separator);
      if s[0] == separator {
        AppendLastBehind("", rest, w);
      } else {
        ExtendBothEnds([s[0]], rest, w);
      }
    }
  }

  lemma SplitAround(w: string, v: string, separator: char)
    requires separator !in w
    ensures Split(w + [separator] + v, separator) == [w] + Split(v, separator)
  {
    var tail := [separator] + v;
    assert w + [separator] + v == w + tail && tail[1..] == v;
    SplitPrepend(w, tail, separator);
    assert w + "" == w;
  }

  predicate EndsIn(s: string, l: string) {
    |l| <= |s| && s[|s| - |l|..] == l
  }

  lemma {:induction false} SplitSuffix(s: string, separator: char)
    ensures EndsIn(s, Last(Split(s, separator)))
    decreases |s|
  {
    SplitFirst(s, separator);
    var parts := Split(s, separator);
    if |parts| == 1 {
      assert s[0..] == s;
    } else {
      var n := |parts[0]| + 1;
      var rest := s[n..];
      SplitSuffix(rest, separator);
      var l := Last(parts);
      assert Last(Split(rest, separator)) == l;
      assert s[|s| - |l|..] == rest[|rest| - |l|..];
    }
  }

  predicate AllRuns(p: char -> bool, parts: seq<string>) {
    forall i :: 0 <= i < |parts| ==> RunOf(p, parts[i])
  }

  // ---- Bucket, key and url identifiers ----

  /** Parts joined by dashes: the first of letters, the others of letters or digits, the last at least two long and
      ending in a letter. */
  predicate IsId(s: string) {
    var parts := Split(s, '-');
    && RunOf(IsLower, parts[0])
    && AllRuns(IsLowerOrDigit, parts[1..])
    && |Last(parts)| >= 2
    && IsLower(Last(Last(parts)))
  }

  function Dashed(): Regex {
    Cat(Just('-'), Plus(LOWER_OR_DIGIT))
  }

  lemma DashedElim(t: string)
    requires Matches(Dashed(), t)
    ensures t != "" && t[0] == '-' && RunOf(IsLowerOrDigit, t[1..])
  {
    var a, b := CatElim(Just('-'), Plus(LOWER_OR_DIGIT), t);
    LowerOrDigitRuns(b);
    assert |a| == 1 && a[0] == '-' && t[1..] == b;
  }

  lemma DashedIntro(w: string)
    requires RunOf(IsLowerOrDigit, w)
    ensures Matches(Dashed(), ['-'] + w)
  {
    LowerOrDigitRuns(w);
    assert Matches(Just('-'), ['-']);
    CatIntro(Just('-'), Plus(LOWER_OR_DIGIT), ['-'], w);
  }

  /** What the starred group matches. */
  predicate DashedRuns(t: string) {
    t == "" || (t[0] == '-' && AllRuns(IsLowerOrDigit, Split(t[1..], '-')))
  }

  lemma {:induction false} StarGivesRuns(t: string)
    requires Matches(Star(Dashed()), t)
    ensures DashedRuns(t)
    decreases |t|
  {
    if t != "" {
      var a, b := StarElim(Dashed(), t);
      DashedElim(a);
      StarGivesRuns(b);
      var w := a[1..];
      assert '-' !in w;
      if b == "" {
        assert t[1..] == w;
        SplitWhole(w, '-');
      } else {
        assert t[1..] == w + ['-'] + b[1..];
        SplitAround(w, b[1..], '-');
      }
    }
  }

  /** The first run, and what is left of the group. */
  lemma FirstRun(u: string) returns (w: string, rest: string)
    requires AllRuns(IsLowerOrDigit, Split(u, '-'))
    ensures u == w + rest && RunOf(IsLowerOrDigit, w) && DashedRuns(rest)
  {
    SplitFirst(u, '-');
    var parts := Split(u, '-');
    w := parts[0];
    rest := u[|w|..];
    if |parts| > 1 {
      assert rest[1..] == u[|w| + 1..];
      forall k | 0 <= k < |parts| - 1 ensures RunOf(IsLowerOrDigit, parts[1..][k]) {
        assert parts[1..][k] == parts[k + 1];
      }
    }
  }

  lemma {:induction false} RunsGiveStar(t: string)
    requires DashedRuns(t)
    ensures Matches(Star(Dashed()), t)
    decreases |t|
  {
    if t != "" {
      var w, rest := FirstRun(t[1..]);
      DashedIntro(w);
      RunsGiveStar(rest);
      StarIntro(Dashed(), ['-'] + w, rest);
      assert t == (['-'] + w) + rest;
    }
  }

  lemma LettersHaveNoDash(s: string)
    requires RunOf(IsLower, s)
    ensures '-' !in s
  {
  }

  lemma LongerLast(parts: seq<string>, y: string)
    requires parts != [] && AllRuns(IsLowerOrDigit, parts) && RunOf(IsLower, y)
    ensures var longer := AppendLast(parts, y);
      AllRuns(IsLowerOrDigit, longer) && |Last(longer)| >= 2 && IsLower(Last(Last(longer)))
  {
  }

  /** The three pieces of a match make an identifier. */
  lemma PiecesGiveId(x: string, t: string, y: string)
    requires RunOf(IsLower, x) && DashedRuns(t) && RunOf(IsLower, y)
    ensures IsId(x + t + y)
  {
    LettersHaveNoDash(x);
    LettersHaveNoDash(y);
    if t == "" {
      assert x + t + y == x + y;
      SplitWhole(x + y, '-');
    } else {
      var u := t[1..];
      var parts := Split(u, '-');
      assert x + t + y == x + ['-'] + (u + y);
      SplitAround(x, u + y, '-');
      SplitAppend(u, y, '-');
      LongerLast(parts, y);
    }
  }

  lemma MatchPieces(s: string) returns (x: string, t: string, y: string)
    requires Matches(ID_EXP, s)
    ensures s == x + t + y
    ensures Matches(Plus(LOWER), x) && Matches(Star(Dashed()), t) && Matches(Plus(LOWER), y)
  {
    var rest;
    x, rest := CatElim(Plus(LOWER), Cat(Star(Dashed()), Plus(LOWER)), s);
    t, y := CatElim(Star(Dashed()), Plus(LOWER), rest);
  }

  lemma MatchGivesId(s: string)
    requires Matches(ID_EXP, s)
    ensures IsId(s)
  {
    var x, t, y := MatchPieces(s);
    LowerRuns(x);
    LowerRuns(y);
    StarGivesRuns(t);
    PiecesGiveId(x, t, y);
  }

  /** Taking the last letter off leaves runs, as the last part is at least two long. */
  lemma ShorterLast(u: string, y: string)
    requires |y| == 1 && IsLower(y[0])
    requires AllRuns(IsLowerOrDigit, Split(u + y, '-')) && |Last(Split(u + y, '-'))| >= 2
    ensures AllRuns(IsLowerOrDigit, Split(u, '-'))
  {
    SplitAppend(u, y, '-');
    var parts, longer := Split(u, '-'), Split(u + y, '-');
    forall k | 0 <= k < |parts| ensures RunOf(IsLowerOrDigit, parts[k]) {
      assert RunOf(IsLowerOrDigit, longer[k]);
      if k == |parts| - 1 {
        assert longer[k] == parts[k] + y;
        assert forall z :: 0 <= z < |parts[k]| ==> parts[k][z] == longer[k][z];
      }
    }
  }

  lemma OnePart(s: string) returns (x: string, y: string)
    requires IsId(s) && |Split(s, '-')| == 1
    ensures s == x + y && RunOf(IsLower, x) && RunOf(IsLower, y)
  {
    SplitFirst(s, '-');
    x, y := s[..|s| - 1], s[|s| - 1..];
    assert s == x + y && Split(s, '-')[0] == s;
    AllInCat(IsLower, x, y);
  }

  /** The last letter can be set aside. */
  lemma CutLastLetter(v: string) returns (u: string, y: string)
    requires var parts := Split(v, '-');
      AllRuns(IsLowerOrDigit, parts) && |Last(parts)| >= 2 && IsLower(Last(Last(parts)))
    ensures v == u + y && |y| == 1 && IsLower(y[0]) && AllRuns(IsLowerOrDigit, Split(u, '-'))
  {
    SplitSuffix(v, '-');
    u, y := v[..|v| - 1], v[|v| - 1..];
    assert v == u + y;
    ShorterLast(u, y);
  }

  lemma SeveralParts(s: string) returns (x: string, u: string, y: string)
    requires IsId(s) && |Split(s, '-')| > 1
    ensures s == x + ['-'] + (u + y) && RunOf(IsLower, x) && RunOf(IsLower, y)
    ensures AllRuns(IsLowerOrDigit, Split(u, '-'))
  {
    SplitFirst(s, '-');
    x := Split(s, '-')[0];
    var v := s[|x| + 1..];
    assert s == x + ['-'] + v;
    u, y := CutLastLetter(v);
  }

  lemma GlueTail(t: string, y: string)
    requires DashedRuns(t) && RunOf(IsLower, y)
    ensures Matches(Cat(Star(Dashed()), Plus(LOWER)), t + y)
  {
    LowerRuns(y);
    RunsGiveStar(t);
    CatIntro(Star(Dashed()), Plus(LOWER), t, y);
  }

  /** A match of the whole from its three pieces. */
  lemma GlueMatches(x: string, t: string, y: string)
    requires RunOf(IsLower, x) && DashedRuns(t) && RunOf(IsLower, y)
    ensures Matches(ID_EXP, x + (t + y))
  {
    LowerRuns(x);
    GlueTail(t, y);
    CatIntro(Plus(LOWER), Cat(Star(Dashed()), Plus(LOWER)), x, t + y);
  }

  lemma IdGivesMatch(s: string)
    requires IsId(s)
    ensures Matches(ID_EXP, s)
  {
    if |Split(s, '-')| == 1 {
      var x, y := OnePart(s);
      GlueMatches(x, "", y);
      assert s == x + ("" + y);
    } else {
      var x, u, y := SeveralParts(s);
      var t := ['-'] + u;
      assert t[1..] == u;
      GlueMatches(x, t, y);
      assert s == x + (t + y);
    }
  }

  /** The expression accepts exactly these identifiers. */
  lemma IdLanguage(s: string)
    ensures Matches(ID_EXP, s) <==> IsId(s)
  {
    if Matches(ID_EXP, s) {
      MatchGivesId(s);
    }
    if IsId(s) {
      IdGivesMatch(s);
    }
  }

  lemma SplitTwo(v: string, w: string, separator: char)
    requires separator !in v && separator !in w
    ensures Split(v + [separator] + w, separator) == [v, w]
  {
    SplitPrepend(v, [separator] + w, separator);
    assert v + ([separator] + w) == v + [separator] + w && ([separator] + w)[1..] == w;
    SplitWhole(w, separator);
    assert [v + ""] + [w] == [v, w] by { assert v + "" == v; }
  }

  lemma IdOfOnePart(w: string)
    requires '-' !in w
    ensures IsId(w) <==> |w| >= 2 && AllIn(IsLower, w)
  {
    SplitWhole(w, '-');
    assert [w][1..] == [] && Last([w]) == w;
    if |w| >= 2 && AllIn(IsLower, w) {
      assert IsLower(w[|w| - 1]);
    }
  }

  lemma IdOfTwoParts(v: string, w: string)
    requires '-' !in v && '-' !in w
    ensures IsId(v + "-" + w) <==>
            RunOf(IsLower, v) && AllIn(IsLowerOrDigit, w) && |w| >= 2 && IsLower(w[|w| - 1])
  {
    SplitTwo(v, w, '-');
    assert [v, w][1..] == [w] && Last([v, w]) == w;
  }

  /** Written out for identifiers without a dash, */
  lemma IdWithoutDash(w: string)
    requires '-' !in w
    ensures Matches(ID_EXP, w) <==> |w| >= 2 && forall i :: 0 <= i < |w| ==> 97 <= w[i] as int <= 122
  {
    IdLanguage(w);
    IdOfOnePart(w);
    assert AllIn(IsLower, w) <==> forall i :: 0 <= i < |w| ==> 97 <= w[i] as int <= 122;
  }

  /** and with one: before it letters only, behind it letters or digits, at least two and the last a letter. */
  lemma IdWithOneDash(v: string, w: string)
    requires '-' !in v && '-' !in w
    ensures Matches(ID_EXP, v + "-" + w) <==>
            && |v| >= 1 && (forall i :: 0 <= i < |v| ==> 97 <= v[i] as int <= 122)
            && |w| >= 2 && 97 <= w[|w| - 1] as int <= 122
            && forall i :: 0 <= i < |w| ==> 97 <= w[i] as int <= 122 || 48 <= w[i] as int <= 57
  {
    IdLanguage(v + "-" + w);
    IdOfTwoParts(v, w);
    assert AllIn(IsLower, v) <==> forall i :: 0 <= i < |v| ==> 97 <= v[i] as int <= 122;
    assert AllIn(IsLowerOrDigit, w) <==>
           forall i :: 0 <= i < |w| ==> 97 <= w[i] as int <= 122 || 48 <= w[i] as int <= 57;
  }

  /** Every character other than the separator is in some part. */
  lemma {:induction false} PartsHoldAll(s: string, separator: char, i: nat)
    requires i < |s| && s[i] != separator
    ensures exists p :: 0 <= p < |Split(s, separator)| && s[i] in Split(s, separator)[p]
  {
    var rest := Split(s[1..], separator);
    var parts := Split(s, separator);
    if i == 0 {
      assert s[0] in parts[0];
    } else {
      PartsHoldAll(s[1..], separator, i - 1);
      var p :| 0 <= p < |rest| && s[i] in rest[p];
      if s[0] == separator {
        assert parts[p + 1] == rest[p];
      } else {
        assert s[i] in parts[p];
      }
    }
  }

  /** An accepted identifier is not empty and consists of lower-case letters, digits and dashes. */
  lemma IdAlphabet(s: string)
    requires IsId(s)
    ensures s != "" && forall i :: 0 <= i < |s| ==> s[i] == '-' || IsLowerOrDigit(s[i])
  {
    var parts := Split(s, '-');
    forall i | 0 <= i < |s| ensures s[i] == '-' || IsLowerOrDigit(s[i]) {
      if s[i] != '-' {
        PartsHoldAll(s, '-', i);
        var p :| 0 <= p < |parts| && s[i] in parts[p];
        if p > 0 {
          assert RunOf(IsLowerOrDigit, parts[1..][p - 1]);
        }
      }
    }
  }

  // ---- Names of users ----

  /** Runs of letters joined by single separators. */
  predicate IsName(s: string, separator: char) {
    AllRuns(IsLetter, Split(s, separator))
  }

  function Word(separator: char): Regex {
    Cat(Maybe(Just(separator)), Plus(LETTER))
  }

  /** The letters of a word, without the separator it may begin with. */
  function WithoutLead(t: string, separator: char): string {
    if t != "" && t[0] == separator then t[1..] else t
  }

  lemma MaybeMatches(separator: char, t: string)
    ensures Matches(Maybe(Just(separator)), t) <==> t == "" || t == [separator]
  {
    assert Matches(Empty, t) <==> t == "";
    assert Matches(Just(separator), t) <==> t == [separator];
  }

  lemma WordElim(t: string, separator: char)
    requires !IsLetter(separator) && Matches(Word(separator), t)
    ensures RunOf(IsLetter, WithoutLead(t, separator))
  {
    var a, b := CatElim(Maybe(Just(separator)), Plus(LETTER), t);
    LetterRuns(b);
    MaybeMatches(separator, a);
    assert WithoutLead(t, separator) == b;
  }

  lemma WordIntro(t: string, separator: char)
    requires RunOf(IsLetter, WithoutLead(t, separator))
    ensures Matches(Word(separator), t)
  {
    var w := WithoutLead(t, separator);
    var lead := t[..|t| - |w|];
    LetterRuns(w);
    MaybeMatches(separator, lead);
    CatIntro(Maybe(Just(separator)), Plus(LETTER), lead, w);
    assert t == lead + w;
  }

  /** What the starred group matches. */
  predicate Words(t: string, separator: char) {
    t == "" || IsName(WithoutLead(t, separator), separator)
  }

  /** A word in front of words makes words. */
  lemma WordsExtend(w: string, rest: string, separator: char)
    requires !IsLetter(separator) && RunOf(IsLetter, w) && Words(rest, separator)
    ensures IsName(w + rest, separator)
  {
    assert separator !in w;
    if rest == "" {
      assert w + rest == w;
      SplitWhole(w, separator);
    } else if rest[0] == separator {
      assert w + rest == w + [separator] + rest[1..];
      SplitAround(w, rest[1..], separator);
    } else {
      SplitPrepend(w, rest, separator);
    }
  }

  lemma {:induction false} StarGivesWords(t: string, separator: char)
    requires !IsLetter(separator) && Matches(Star(Word(separator)), t)
    ensures Words(t, separator)
    decreases |t|
  {
    if t != "" {
      var a, b := StarElim(Word(separator), t);
      WordElim(a, separator);
      StarGivesWords(b, separator);
      var w := WithoutLead(a, separator);
      WordsExtend(w, b, separator);
      assert WithoutLead(t, separator) == w + b;
    }
  }

  /** The first run of a name, and what the starred group has left to match. */
  lemma FirstWord(s: string, separator: char) returns (w: string, rest: string)
    requires IsName(s, separator)
    ensures s == w + rest && RunOf(IsLetter, w) && Words(rest, separator)
  {
    SplitFirst(s, separator);
    var parts := Split(s, separator);
    w := parts[0];
    rest := s[|w|..];
    if |parts| > 1 {
      assert rest[1..] == s[|w| + 1..];
      forall k | 0 <= k < |parts| - 1 ensures RunOf(IsLetter, parts[1..][k]) {
        assert parts[1..][k] == parts[k + 1];
      }
    }
  }

  lemma {:induction false} WordsGiveStar(t: string, separator: char)
    requires !IsLetter(separator) && Words(t, separator)
    ensures Matches(Star(Word(separator)), t)
    decreases |t|
  {
    if t != "" {
      var w, rest := FirstWord(WithoutLead(t, separator), separator);
      var a := t[..|t| - |rest|];
      assert t == a + rest && WithoutLead(a, separator) == w;
      WordIntro(a, separator);
      WordsGiveStar(rest, separator);
      StarIntro(Word(separator), a, rest);
    }
  }

  lemma MatchGivesName(s: string, separator: char)
    requires !IsLetter(separator) && Matches(NameExp(separator), s)
    ensures IsName(s, separator)
  {
    var w, rest := CatElim(Plus(LETTER), Star(Word(separator)), s);
    LetterRuns(w);
    StarGivesWords(rest, separator);
    WordsExtend(w, rest, separator);
  }

  lemma NameGivesMatch(s: string, separator: char)
    requires !IsLetter(separator) && IsName(s, separator)
    ensures Matches(NameExp(separator), s)
  {
    var w, rest := FirstWord(s, separator);
    LetterRuns(w);
    WordsGiveStar(rest, separator);
    CatIntro(Plus(LETTER), Star(Word(separator)), w, rest);
  }

  /** The expression accepts exactly letter runs joined by single separators. */
  lemma NameLanguage(s: string, separator: char)
    requires !IsLetter(separator)
    ensures Matches(NameExp(separator), s) <==> IsName(s, separator)
  {
    if Matches(NameExp(separator), s) {
      MatchGivesName(s, separator);
    }
    if IsName(s, separator) {
      NameGivesMatch(s, separator);
    }
  }

  /** Written out for names of one word and of two. */
  lemma NameOfTwoWords(v: string, w: string, separator: char)
    requires !IsLetter(separator) && separator !in v && separator !in w
    ensures Matches(NameExp(separator), v) <==>
            |v| >= 1 && forall i :: 0 <= i < |v| ==> 97 <= v[i] as int <= 122 || 65 <= v[i] as int <= 90
    ensures Matches(NameExp(separator), v + [separator] + w) <==>
            Matches(NameExp(separator), v) && Matches(NameExp(separator), w)
  {
    SplitWhole(v, separator);
    SplitWhole(w, separator);
    SplitTwo(v, w, separator);
    NameLanguage(v, separator);
    NameLanguage(w, separator);
    NameLanguage(v + [separator] + w, separator);
    assert [v][0] == v && [w][0] == w && [v, w][0] == v && [v, w][1] == w;
    assert AllIn(IsLetter, v) <==>
           forall i :: 0 <= i < |v| ==> 97 <= v[i] as int <= 122 || 65 <= v[i] as int <= 90;
  }
}
