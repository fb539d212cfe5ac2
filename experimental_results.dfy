/**
  python/experimental_results.py: the triaxial test results of Sun et al.
  (2016). The file names of a directory are searched for the pattern
  axial_strain_p=(\d+)kPa_q=(\d+)kPa_f=(\d+)Hz.dat, each match giving an
  experiment at confining pressure p, deviatoric stress q and frequency f;
  get_data selects the experiments matching filters on p, q and f.

  Listing the directory, loading the files and resampling the curves
  (genfromtxt, argsort, log, linspace, interp, exp) are a parameter that
  maps the two file names to the resampled curve. The pattern matcher, the
  filters and the selection are shared with RawExperimentalResults.
 */
module ExperimentalResults {
  import opened Common

  // ---------------------------------------------------------------------------
  // The file-name pattern
  // ---------------------------------------------------------------------------

  predicate AllDigits(s: string) {
    forall i :: 0 <= i < |s| ==> IsDigit(s[i])
  }

  /** The length of the run of digits starting at i: what a greedy \d* takes. */
  function DigitRun(s: string, i: nat): (n: nat)
    ensures n > 0 ==> i + n <= |s|
    decreases |s| - i
  {
    if i < |s| && IsDigit(s[i]) then 1 + DigitRun(s, i + 1) else 0
  }

  /** The run is all digits and ends at a non-digit or at the end. */
  lemma {:induction false} DigitRunSpec(s: string, i: nat)
    requires i <= |s|
    ensures var n := DigitRun(s, i);
      (forall j :: i <= j < i + n ==> IsDigit(s[j])) && (i + n == |s| || !IsDigit(s[i + n]))
    decreases |s| - i
  {
    if i < |s| && IsDigit(s[i]) {
      DigitRunSpec(s, i + 1);
    }
  }

  /** A run of n digits ended by a non-digit (or the end) is what DigitRun
      finds. */
  lemma {:induction false} DigitRunExact(s: string, i: nat, n: nat)
    requires i + n <= |s| && (forall j :: i <= j < i + n ==> IsDigit(s[j])) && (i + n == |s| || !IsDigit(s[i + n]))
    ensures DigitRun(s, i) == n
    decreases n
  {
    if n > 0 {
      DigitRunExact(s, i + 1, n - 1);
    }
  }

  /** What a \d+ group matches. */
  type Digits = g: string | g != [] && AllDigits(g) witness "0"

  /** float() of a digit group. */
  function Float(g: Digits): real {
    DigitsValue(g) as real
  }

  /** What a match yields: the three groups and the character the unescaped
      '.' before "dat" matched; these determine the matched text. */
  datatype Match = Match(p: Digits, q: Digits, f: Digits, dot: char)

  /** The text the pattern matches for groups g1, g2, g3 and the character c
      that the unescaped '.' before "dat" stands for. */
  function MatchText(g1: string, g2: string, g3: string, c: char): string {
    "axial_strain_p=" + (g1 + ("kPa_q=" + (g2 + ("kPa_f=" + (g3 + ("Hz" + ([c] + "dat")))))))
  }

  /** group(0): the matched text. */
  function Text(m: Match): string {
    MatchText(m.p, m.q, m.f, m.dot)
  }

  /** The pattern, declaratively: digit groups, any character but a newline
      for '.', and the text at position i of s. */
  ghost predicate IsMatch(s: string, i: nat, g1: Digits, g2: Digits, g3: Digits, c: char) {
    c != '\n' && OccursAt(s, MatchText(g1, g2, g3, c), i)
  }

  /** The pieces of a regular expression without alternation: a literal
      text, a greedy (\d+) group, and an unescaped '.', which matches any
      character but a newline. */
  datatype Token = Lit(text: string) | DigitGroup | AnyChar

  /** axial_strain_p=(\d+)kPa_q=(\d+)kPa_f=(\d+)Hz.dat */
  const Pattern: seq<Token> :=
    [Lit("axial_strain_p="), DigitGroup, Lit("kPa_q="), DigitGroup, Lit("kPa_f="), DigitGroup,
     Lit("Hz"), AnyChar, Lit("dat")]

  /** Matching the tokens at position i, operationally: each digit group
      takes the whole run of digits. The result is what every group and
      every '.' matched, in order. */
  function MatchFrom(s: string, i: nat, pat: seq<Token>): Option<seq<string>>
    decreases |s| - i, |pat|
  {
    if |s| < i then None
    else if pat == [] then Some([])
    else match pat[0]
      case Lit(t) => if LiteralAt(s, t, i) then MatchFrom(s, i + |t|, pat[1..]) else None
      case DigitGroup =>
        var n := DigitRun(s, i);
        if n == 0 then None
        else Prepend(s[i..i + n], MatchFrom(s, i + n, pat[1..]))
      case AnyChar =>
        if i < |s| && s[i] != '\n' then Prepend([s[i]], MatchFrom(s, i + 1, pat[1..])) else None
  }

  /** The literal t at position i of s, character by character. */
  predicate LiteralAt(s: string, t: string, i: nat)
    decreases |s| - i
  {
    if t == [] then i <= |s| else i < |s| && s[i] == t[0] && LiteralAt(s, t[1..], i + 1)
  }

  /** Character by character is the same as the slice comparison. */
  lemma {:induction false} LiteralAtIsOccurs(s: string, t: string, i: nat)
    ensures LiteralAt(s, t, i) <==> OccursAt(s, t, i)
    decreases |t|
  {
    if t != [] {
      LiteralAtIsOccurs(s, t[1..], i + 1);
      if i < |s| && i + |t| <= |s| {
        var w := s[i..i + |t|];
        assert w[0] == s[i] && w[1..] == s[i + 1..i + 1 + |t[1..]|];
        assert w == [w[0]] + w[1..];
        assert t == [t[0]] + t[1..];
      }
    }
  }

  function Prepend(piece: string, rest: Option<seq<string>>): Option<seq<string>> {
    match rest
    case None => None
    case Some(pieces) => Some([piece] + pieces)
  }

  /** The text the tokens stand for with the given pieces for the groups and
      the dots. */
  function Render(pat: seq<Token>, pieces: seq<string>): string
    decreases |pat| + |pieces|
  {
    if pat == [] then []
    else if pat[0].Lit? then pat[0].text + Render(pat[1..], pieces)
    else if pieces == [] then Render(pat[1..], [])
    else pieces[0] + Render(pat[1..], pieces[1..])
  }

  /** One piece per group and dot: digits for a group, a character other
      than a newline for a dot. */
  predicate Fits(pat: seq<Token>, pieces: seq<string>)
    decreases |pat|
  {
    if pat == [] then pieces == []
    else match pat[0]
      case Lit(_) => Fits(pat[1..], pieces)
      case DigitGroup => pieces != [] && pieces[0] != [] && AllDigits(pieces[0]) && Fits(pat[1..], pieces[1..])
      case AnyChar => pieces != [] && |pieces[0]| == 1 && pieces[0][0] != '\n' && Fits(pat[1..], pieces[1..])
  }

  /** Every group is followed by a literal that starts with a non-digit, so
      that taking the whole run of digits loses no match. */
  predicate Separated(pat: seq<Token>)
    decreases |pat|
  {
    if pat == [] then true
    else if pat[0].DigitGroup?
    then |pat| > 1 && pat[1].Lit? && pat[1].text != [] && !IsDigit(pat[1].text[0]) && Separated(pat[1..])
    else Separated(pat[1..])
  }

  /** A concatenation that occurs at i has its halves one after the other. */
  lemma OccursSplit(s: string, x: string, y: string, i: nat)
    requires OccursAt(s, x + y, i)
    ensures OccursAt(s, x, i) && OccursAt(s, y, i + |x|)
  {
    assert s[i..i + |x|] == s[i..i + |x + y|][..|x|] == (x + y)[..|x|] == x;
    assert s[i + |x|..i + |x| + |y|] == s[i..i + |x + y|][|x|..] == (x + y)[|x|..] == y;
  }

  /** Halves one after the other make their concatenation occur. */
  lemma OccursJoin(s: string, x: string, y: string, i: nat)
    requires OccursAt(s, x, i) && OccursAt(s, y, i + |x|)
    ensures OccursAt(s, x + y, i)
  {
    assert s[i..i + |x + y|] == s[i..i + |x|] + s[i + |x|..i + |x| + |y|];
  }

  /** A group of digits followed by a text that starts with a non-digit is
      the whole run DigitRun takes. */
  lemma GroupRun(s: string, g: string, i: nat, rest: string)
    requires g != [] && AllDigits(g) && OccursAt(s, g, i) && OccursAt(s, rest, i + |g|)
    requires rest != [] && !IsDigit(rest[0])
    ensures DigitRun(s, i) == |g| && s[i..i + |g|] == g
  {
    assert forall j :: i <= j < i + |g| ==> s[j] == s[i..i + |g|][j - i];
    assert s[i + |g|] == s[i + |g|..i + |g| + |rest|][0];
    DigitRunExact(s, i, |g|);
  }

  /** What the operational matcher finds fits the tokens and occurs at i. */
  lemma {:induction false} MatchFromSound(s: string, i: nat, pat: seq<Token>)
    requires MatchFrom(s, i, pat).Some?
    ensures var pieces := MatchFrom(s, i, pat).value;
      Fits(pat, pieces) && OccursAt(s, Render(pat, pieces), i)
    decreases |pat|, 1
  {
    if pat != [] {
      match pat[0]
      case Lit(_) => LiteralSound(s, i, pat);
      case DigitGroup => GroupSound(s, i, pat);
      case AnyChar => DotSound(s, i, pat);
    }
  }

  lemma {:induction false} LiteralSound(s: string, i: nat, pat: seq<Token>)
    requires pat != [] && pat[0].Lit? && MatchFrom(s, i, pat).Some?
    ensures var pieces := MatchFrom(s, i, pat).value;
      Fits(pat, pieces) && OccursAt(s, Render(pat, pieces), i)
    decreases |pat|, 0
  {
    var t := pat[0].text;
    var pieces := MatchFrom(s, i, pat).value;
    LiteralAtIsOccurs(s, t, i);
    assert pieces == MatchFrom(s, i + |t|, pat[1..]).value;
    MatchFromSound(s, i + |t|, pat[1..]);
    OccursJoin(s, t, Render(pat[1..], pieces), i);
    assert Render(pat, pieces) == t + Render(pat[1..], pieces);
  }

  lemma {:induction false} GroupSound(s: string, i: nat, pat: seq<Token>)
    requires pat != [] && pat[0].DigitGroup? && MatchFrom(s, i, pat).Some?
    ensures var pieces := MatchFrom(s, i, pat).value;
      Fits(pat, pieces) && OccursAt(s, Render(pat, pieces), i)
    decreases |pat|, 0
  {
    var pieces := MatchFrom(s, i, pat).value;
    var n := DigitRun(s, i);
    var g := s[i..i + n];
    var rest := MatchFrom(s, i + n, pat[1..]).value;
    assert pieces == [g] + rest && pieces[1..] == rest;
    MatchFromSound(s, i + n, pat[1..]);
    DigitRunSpec(s, i);
    assert AllDigits(g) by {
      forall k | 0 <= k < |g|
        ensures IsDigit(g[k])
      {
        assert g[k] == s[i + k];
      }
    }
    OccursJoin(s, g, Render(pat[1..], rest), i);
    assert Render(pat, pieces) == g + Render(pat[1..], rest);
  }

  lemma {:induction false} DotSound(s: string, i: nat, pat: seq<Token>)
    requires pat != [] && pat[0].AnyChar? && MatchFrom(s, i, pat).Some?
    ensures var pieces := MatchFrom(s, i, pat).value;
      Fits(pat, pieces) && OccursAt(s, Render(pat, pieces), i)
    decreases |pat|, 0
  {
    var pieces := MatchFrom(s, i, pat).value;
    var rest := MatchFrom(s, i + 1, pat[1..]).value;
    assert pieces == [[s[i]]] + rest && pieces[1..] == rest;
    MatchFromSound(s, i + 1, pat[1..]);
    assert s[i..i + 1] == [s[i]];
    OccursJoin(s, [s[i]], Render(pat[1..], rest), i);
    assert Render(pat, pieces) == [s[i]] + Render(pat[1..], rest);
  }

  /** The text of fitting pieces after a literal starts with that literal. */
  lemma RenderAfterLiteral(pat: seq<Token>, pieces: seq<string>)
    requires pat != [] && pat[0].Lit? && pat[0].text != []
    ensures Render(pat, pieces) != [] && Render(pat, pieces)[0] == pat[0].text[0]
  {
  }

  /** Every occurrence of the text of fitting pieces is what the matcher
      finds, provided the tokens are separated. */
  lemma {:induction false} MatchFromComplete(s: string, i: nat, pat: seq<Token>, pieces: seq<string>)
    requires Separated(pat) && Fits(pat, pieces) && OccursAt(s, Render(pat, pieces), i)
    ensures MatchFrom(s, i, pat) == Some(pieces)
    decreases |pat|, 1
  {
    if pat != [] {
      match pat[0]
      case Lit(_) => LiteralComplete(s, i, pat, pieces);
      case DigitGroup => GroupComplete(s, i, pat, pieces);
      case AnyChar => DotComplete(s, i, pat, pieces);
    }
  }

  lemma {:induction false} LiteralComplete(s: string, i: nat, pat: seq<Token>, pieces: seq<string>)
    requires pat != [] && pat[0].Lit?
    requires Separated(pat) && Fits(pat, pieces) && OccursAt(s, Render(pat, pieces), i)
    ensures MatchFrom(s, i, pat) == Some(pieces)
    decreases |pat|, 0
  {
    var t := pat[0].text;
    assert Render(pat, pieces) == t + Render(pat[1..], pieces);
    OccursSplit(s, t, Render(pat[1..], pieces), i);
    LiteralAtIsOccurs(s, t, i);
    MatchFromComplete(s, i + |t|, pat[1..], pieces);
  }

  lemma {:induction false} GroupComplete(s: string, i: nat, pat: seq<Token>, pieces: seq<string>)
    requires pat != [] && pat[0].DigitGroup?
    requires Separated(pat) && Fits(pat, pieces) && OccursAt(s, Render(pat, pieces), i)
    ensures MatchFrom(s, i, pat) == Some(pieces)
    decreases |pat|, 0
  {
    var g, rest := pieces[0], Render(pat[1..], pieces[1..]);
    assert Render(pat, pieces) == g + rest;
    OccursSplit(s, g, rest, i);
    RenderAfterLiteral(pat[1..], pieces[1..]);
    GroupRun(s, g, i, rest);
    MatchFromComplete(s, i + |g|, pat[1..], pieces[1..]);
    assert pieces == [g] + pieces[1..];
  }

  lemma {:induction false} DotComplete(s: string, i: nat, pat: seq<Token>, pieces: seq<string>)
    requires pat != [] && pat[0].AnyChar?
    requires Separated(pat) && Fits(pat, pieces) && OccursAt(s, Render(pat, pieces), i)
    ensures MatchFrom(s, i, pat) == Some(pieces)
    decreases |pat|, 0
  {
    var rest := Render(pat[1..], pieces[1..]);
    assert Render(pat, pieces) == pieces[0] + rest;
    OccursSplit(s, pieces[0], rest, i);
    assert s[i] == s[i..i + 1][0] == pieces[0][0];
    assert pieces[0] == [s[i]];
    MatchFromComplete(s, i + 1, pat[1..], pieces[1..]);
    assert pieces == [[s[i]]] + pieces[1..];
  }

  /** The pattern's text for groups g1, g2, g3 and dot c is MatchText. */
  lemma RenderPattern(g1: string, g2: string, g3: string, c: char)
    ensures Render(Pattern, [g1, g2, g3, [c]]) == MatchText(g1, g2, g3, c)
  {
    var p1, p2, p3, p4, p5, p6, p7, p8 := Pattern[1..], Pattern[2..], Pattern[3..], Pattern[4..],
                                          Pattern[5..], Pattern[6..], Pattern[7..], Pattern[8..];
    assert p1[1..] == p2 && p2[1..] == p3 && p3[1..] == p4 && p4[1..] == p5;
    assert p5[1..] == p6 && p6[1..] == p7 && p7[1..] == p8 && p8[1..] == [];
    var c1, c2, c3: seq<string> := [g2, g3, [c]], [g3, [c]], [[c]];
    assert [g1, g2, g3, [c]][1..] == c1 && c1[1..] == c2 && c2[1..] == c3 && c3[1..] == [];
    var s8 := "dat";
    var s7 := [c] + s8;
    var s6 := "Hz" + s7;
    var s5 := g3 + s6;
    var s4 := "kPa_f=" + s5;
    var s3 := g2 + s4;
    var s2 := "kPa_q=" + s3;
    var s1 := g1 + s2;
    assert p8[0] == Lit("dat") && Render(p8[1..], []) == [];
    assert Render(p8, []) == s8;
    assert Render(p7, c3) == s7;
    assert Render(p6, c3) == s6;
    assert Render(p5, c2) == s5;
    assert Render(p4, c2) == s4;
    assert Render(p3, c1) == s3;
    assert Render(p2, c1) == s2;
    assert Render(p1, [g1, g2, g3, [c]]) == s1;
    assert MatchText(g1, g2, g3, c) == "axial_strain_p=" + s1;
  }

  /** The pattern's groups are separated by literals like 'kPa_q='. */
  lemma PatternSeparated()
    ensures Separated(Pattern)
  {
    assert Separated(Pattern[8..]);
    assert Separated(Pattern[5..]);
    assert Separated(Pattern[3..]);
  }

  /** Three digit groups and a dot other than a newline fit the pattern. */
  lemma PatternFits(g1: Digits, g2: Digits, g3: Digits, c: char)
    requires c != '\n'
    ensures Fits(Pattern, [g1, g2, g3, [c]])
  {
    assert Pattern[8..][1..] == [];
    assert Fits(Pattern[7..], [[c]]);
    assert Fits(Pattern[5..], [g3, [c]]);
    assert Fits(Pattern[3..], [g2, g3, [c]]);
  }

  /** The pieces of a match of the pattern as a Match: three digit groups
      and one character. */
  function ToMatch(pieces: seq<string>): (r: Option<Match>)
    ensures r.Some? <==> |pieces| == 4 && pieces[0] != [] && AllDigits(pieces[0]) && pieces[1] != [] &&
                         AllDigits(pieces[1]) && pieces[2] != [] && AllDigits(pieces[2]) && |pieces[3]| == 1
    ensures r.Some? ==> pieces == [r.value.p, r.value.q, r.value.f, [r.value.dot]]
  {
    if |pieces| == 4 && pieces[0] != [] && AllDigits(pieces[0]) && pieces[1] != [] && AllDigits(pieces[1]) &&
       pieces[2] != [] && AllDigits(pieces[2]) && |pieces[3]| == 1
    then assert pieces[3] == [pieces[3][0]];
      Some(Match(pieces[0], pieces[1], pieces[2], pieces[3][0]))
    else None
  }

  /** Whether the pattern matches at position i. */
  predicate MatchesAt(s: string, i: nat) {
    MatchFrom(s, i, Pattern).Some?
  }

  /** The match of the pattern at position i. */
  function MatchAt(s: string, i: nat): Option<Match> {
    match MatchFrom(s, i, Pattern)
    case None => None
    case Some(pieces) => ToMatch(pieces)
  }

  /** The pieces of a match of the pattern are three groups of digits and
      one character other than a newline. */
  lemma PatternPieces(pieces: seq<string>)
    requires Fits(Pattern, pieces)
    ensures ToMatch(pieces).Some? && ToMatch(pieces).value.dot != '\n'
  {
    assert Fits(Pattern[1..], pieces);
    var r1 := pieces[1..];
    assert Fits(Pattern[3..], r1);
    var r2 := r1[1..];
    assert Fits(Pattern[5..], r2);
    var r3 := r2[1..];
    assert Fits(Pattern[7..], r3);
    assert Fits(Pattern[8..], r3[1..]);
    assert Pattern[8..][1..] == [];
    assert r3[1..] == [];
  }

  /** MatchAt has a match exactly where the pattern matches. */
  lemma MatchesAtIsMatchAt(s: string, i: nat)
    ensures MatchesAt(s, i) <==> MatchAt(s, i).Some?
  {
    if MatchesAt(s, i) {
      MatchFromSound(s, i, Pattern);
      PatternPieces(MatchFrom(s, i, Pattern).value);
    }
  }

  /** Every declarative match is the one MatchAt finds. */
  lemma MatchAtComplete(s: string, i: nat, g1: Digits, g2: Digits, g3: Digits, c: char)
    requires IsMatch(s, i, g1, g2, g3, c)
    ensures MatchAt(s, i) == Some(Match(g1, g2, g3, c))
  {
    RenderPattern(g1, g2, g3, c);
    PatternFits(g1, g2, g3, c);
    PatternSeparated();
    MatchFromComplete(s, i, Pattern, [g1, g2, g3, [c]]);
  }

  /** Every match MatchAt finds is a declarative match of its groups; the
      text is group 0. */
  lemma MatchAtSound(s: string, i: nat)
    requires MatchAt(s, i).Some?
    ensures var m := MatchAt(s, i).value;
      IsMatch(s, i, m.p, m.q, m.f, m.dot) && OccursAt(s, Text(m), i)
  {
    MatchFromSound(s, i, Pattern);
    var pieces := MatchFrom(s, i, Pattern).value;
    PatternPieces(pieces);
    var m := MatchAt(s, i).value;
    RenderPattern(m.p, m.q, m.f, m.dot);
  }

  /** re.search: the first position from i on where the pattern matches. */
  function FirstMatch(s: string, i: nat): (r: Option<nat>)
    requires i <= |s|
    ensures r.Some? ==> i <= r.value <= |s|
    decreases |s| - i
  {
    if MatchesAt(s, i) then Some(i)
    else if i == |s| then None
    else FirstMatch(s, i + 1)
  }

  /** The position found is a match and no earlier one is; without a
      position there is no match from i on. */
  lemma {:induction false} FirstMatchSpec(s: string, i: nat)
    requires i <= |s|
    ensures var r := FirstMatch(s, i);
      (r.Some? ==> MatchesAt(s, r.value) && forall j :: i <= j < r.value ==> !MatchesAt(s, j)) &&
      (r.None? ==> forall j :: i <= j <= |s| ==> !MatchesAt(s, j))
    decreases |s| - i
  {
    if !MatchesAt(s, i) && i < |s| {
      FirstMatchSpec(s, i + 1);
    }
  }

  /** re.search(pattern, filename). */
  function Search(s: string): Option<Match> {
    match FirstMatch(s, 0)
    case None => None
    case Some(i) => MatchAt(s, i)
  }

  /** What re.search finds is a match of the pattern, at a position before
      which there is none, and its text occurs there. */
  lemma SearchSound(s: string)
    requires Search(s).Some?
    ensures var m := Search(s).value;
      exists i :: 0 <= i <= |s| && IsMatch(s, i, m.p, m.q, m.f, m.dot) && OccursAt(s, Text(m), i) &&
                  forall j :: 0 <= j < i ==> MatchAt(s, j).None?
  {
    FirstMatchSpec(s, 0);
    var i := FirstMatch(s, 0).value;
    assert Search(s) == MatchAt(s, i);
    MatchAtSound(s, i);
    var m := Search(s).value;
    assert IsMatch(s, i, m.p, m.q, m.f, m.dot) && OccursAt(s, Text(m), i);
    forall j | 0 <= j < i
      ensures MatchAt(s, j).None?
    {
      MatchesAtIsMatchAt(s, j);
    }
  }

  /** re.search finds a match wherever the pattern occurs, at that position
      or before it. */
  lemma SearchComplete(s: string, i: nat, g1: Digits, g2: Digits, g3: Digits, c: char)
    requires IsMatch(s, i, g1, g2, g3, c)
    ensures Search(s).Some?
    ensures FirstMatch(s, 0).Some? && FirstMatch(s, 0).value <= i
  {
    MatchAtComplete(s, i, g1, g2, g3, c);
    MatchesAtIsMatchAt(s, i);
    assert i <= |s|;
    FirstMatchSpec(s, 0);
    var r := FirstMatch(s, 0).value;
    MatchesAtIsMatchAt(s, r);
    assert Search(s) == MatchAt(s, r);
  }

  // ---------------------------------------------------------------------------
  // File names
  // ---------------------------------------------------------------------------

  /** How many leading characters str.lstrip(chars) removes. */
  function LStripCount(s: string, chars: string): (k: nat)
    ensures k <= |s|
  {
    if s != [] && s[0] in chars then 1 + LStripCount(s[1..], chars) else 0
  }

  /** The count covers characters of the set only, and stops at the first
      character outside it or at the end. */
  lemma {:induction false} LStripCountSpec(s: string, chars: string)
    ensures var k := LStripCount(s, chars);
      (forall j :: 0 <= j < k ==> s[j] in chars) && (k == |s| || s[k] !in chars)
  {
    if s != [] && s[0] in chars {
      LStripCountSpec(s[1..], chars);
      assert forall j :: 1 <= j < |s| ==> s[j] == s[1..][j - 1];
    }
  }

  /** str.lstrip(chars): removes every leading character that is in chars,
      whatever their order. */
  function LStrip(s: string, chars: string): string {
    s[LStripCount(s, chars)..]
  }

  /** The characters the default volumetric name strips. */
  const AxialChars: string := "axial_strain_"

  /** The volumetric file that goes with an axial one when none is named. */
  function DefaultVolumetricFile(axialFile: string): string {
    "volumetric_strain_" + LStrip(axialFile, AxialChars)
  }

  /** The strip count is the first position whose character is not stripped. */
  lemma {:induction false} LStripCountIs(s: string, chars: string, k: nat)
    requires k <= |s| && (forall j :: 0 <= j < k ==> s[j] in chars) && (k == |s| || s[k] !in chars)
    ensures LStripCount(s, chars) == k
  {
    if k > 0 {
      assert forall j :: 0 <= j < k - 1 ==> s[1..][j] == s[j + 1];
      LStripCountIs(s[1..], chars, k - 1);
    }
  }

  /** A leading part made of stripped characters is stripped whole, and the
      strip goes on into what follows. */
  lemma {:induction false} LStripThrough(p: string, tail: string, chars: string)
    requires forall j :: 0 <= j < |p| ==> p[j] in chars
    ensures LStripCount(p + tail, chars) == |p| + LStripCount(tail, chars)
  {
    if p == [] {
      assert p + tail == tail;
    } else {
      assert (p + tail)[0] == p[0] && p[0] in chars;
      assert (p + tail)[1..] == p[1..] + tail;
      assert forall j :: 0 <= j < |p| - 1 ==> p[1..][j] == p[j + 1];
      LStripThrough(p[1..], tail, chars);
      assert LStripCount(p + tail, chars) == 1 + LStripCount(p[1..] + tail, chars);
    }
  }

  /** For a matched file name the character strip removes exactly the prefix
      'axial_strain_', since 'p' is not among the stripped characters. */
  lemma DefaultVolumetricOfMatch(g1: string, g2: string, g3: string, c: char)
    ensures DefaultVolumetricFile(MatchText(g1, g2, g3, c)) == "volumetric_strain_" + MatchText(g1, g2, g3, c)[13..]
  {
    var t := MatchText(g1, g2, g3, c);
    var rest := t[13..];
    assert t == AxialChars + rest;
    assert rest[0] == 'p' && 'p' !in AxialChars;
    LStripThrough(AxialChars, rest, AxialChars);
  }

  /** lstrip is not a prefix strip: it goes on eating characters of the set
      after the prefix. */
  lemma LStripIsNotPrefixStrip()
    ensures DefaultVolumetricFile(AxialChars + "tail.dat") == "volumetric_strain_" + ".dat"
  {
    var tail := "tail.dat";
    assert tail[0] in AxialChars && tail[1] in AxialChars && tail[2] in AxialChars && tail[3] in AxialChars;
    assert tail[4] !in AxialChars;
    LStripCountIs(tail, AxialChars, 4);
    LStripThrough(AxialChars, tail, AxialChars);
    assert (AxialChars + tail)[|AxialChars| + 4..] == tail[4..] == ".dat";
  }

  // ---------------------------------------------------------------------------
  // Experiments
  // ---------------------------------------------------------------------------

  /** The test conditions of an experiment. */
  datatype Conditions = Conditions(p: real, q: real, f: real)

  /** One resampled point of the curves: cycle count, axial and volumetric
      strain. */
  datatype CurvePoint = CurvePoint(cycles: real, axial: real, volumetric: real)

  /** Loading and resampling the axial and the volumetric file. */
  type Resampler = (string, string) -> seq<CurvePoint>

  datatype Experiment = Experiment(conditions: Conditions, axialFile: string, volumetricFile: string,
                                   points: seq<CurvePoint>)

  /** Experiment(p, q, f, filename_axial, filename_volumetric). */
  function NewExperiment(c: Conditions, axialFile: string, volumetricFile: Option<string>, resample: Resampler)
    : (e: Experiment)
    ensures e.conditions == c && e.axialFile == axialFile
    ensures volumetricFile.Some? ==> e.volumetricFile == volumetricFile.value
    ensures volumetricFile.None? ==> e.volumetricFile == DefaultVolumetricFile(axialFile)
    ensures e.points == resample(axialFile, e.volumetricFile)
  {
    var v := if volumetricFile.Some? then volumetricFile.value else DefaultVolumetricFile(axialFile);
    Experiment(c, axialFile, v, resample(axialFile, v))
  }

  /** deviatoric_axial_strain: axial less a third of volumetric, point by
      point. */
  function DeviatoricAxialStrain(e: Experiment): (r: seq<real>)
    ensures |r| == |e.points|
    ensures forall i :: 0 <= i < |r| ==> r[i] + e.points[i].volumetric / 3.0 == e.points[i].axial
  {
    seq(|e.points|, i requires 0 <= i < |e.points| => e.points[i].axial - e.points[i].volumetric / 3.0)
  }

  /** The experiment a matched file name stands for: the axial file is the
      matched text, not the whole name. */
  function FromMatch(m: Match, resample: Resampler): Experiment {
    NewExperiment(Conditions(Float(m.p), Float(m.q), Float(m.f)), Text(m), None, resample)
  }

  /** What one file name contributes: the experiment of its match, if the
      pattern is found in it. */
  function Candidate(filename: string, resample: Resampler): (r: Option<Experiment>)
    ensures r.Some? <==> Search(filename).Some?
    ensures r.Some? ==> r.value == FromMatch(Search(filename).value, resample)
  {
    match Search(filename)
    case None => None
    case Some(m) => Some(FromMatch(m, resample))
  }

  /** The contribution of every file name, in order. */
  function Candidates(filenames: seq<string>, resample: Resampler): (r: seq<Option<Experiment>>)
    ensures |r| == |filenames| && forall i :: 0 <= i < |r| ==> r[i] == Candidate(filenames[i], resample)
  {
    seq(|filenames|, i requires 0 <= i < |filenames| => Candidate(filenames[i], resample))
  }

  /** The values present in a sequence of options, in their order. */
  function Present<T>(s: seq<Option<T>>): seq<T> {
    if s == [] then []
    else Present(s[..|s| - 1]) + (if s[|s| - 1].Some? then [s[|s| - 1].value] else [])
  }

  /** Every value present comes from some position. */
  lemma {:induction false} PresentSound<T>(s: seq<Option<T>>, x: T)
    requires x in Present(s)
    ensures exists i :: 0 <= i < |s| && s[i] == Some(x)
  {
    var n := |s| - 1;
    var init := s[..n];
    if x in Present(init) {
      PresentSound(init, x);
      var i :| 0 <= i < |init| && init[i] == Some(x);
      assert s[i] == init[i];
    } else {
      assert s[n] == Some(x);
    }
  }

  /** Every value at some position is present. */
  lemma {:induction false} PresentComplete<T>(s: seq<Option<T>>, i: nat, x: T)
    requires i < |s| && s[i] == Some(x)
    ensures x in Present(s)
  {
    var n := |s| - 1;
    if i < n {
      assert s[..n][i] == s[i];
      PresentComplete(s[..n], i, x);
    }
  }

  /** One more position adds its value, if any, at the end. */
  lemma PresentStep<T>(s: seq<Option<T>>, i: nat)
    requires i < |s|
    ensures Present(s[..i + 1]) == Present(s[..i]) + (if s[i].Some? then [s[i].value] else [])
  {
    assert s[..i + 1][..i] == s[..i];
  }

  /** Order is kept: the values of a concatenation are those of its parts,
      one after the other. */
  lemma {:induction false} PresentConcat<T>(a: seq<Option<T>>, b: seq<Option<T>>)
    ensures Present(a + b) == Present(a) + Present(b)
    decreases |b|
  {
    if b == [] {
      assert a + b == a;
    } else {
      var init, last := b[..|b| - 1], b[|b| - 1];
      assert (a + b)[..|a + b| - 1] == a + init;
      assert (a + b)[|a + b| - 1] == last;
      PresentConcat(a, init);
    }
  }

  /** The experiments that read appends for the file names, in order. */
  function ReadAll(filenames: seq<string>, resample: Resampler): seq<Experiment> {
    Present(Candidates(filenames, resample))
  }

  /** The names up to and including one more: its match, if any, adds its
      experiment at the end. */
  lemma ReadStep(filenames: seq<string>, resample: Resampler, i: nat, m: Option<Match>)
    requires i < |filenames| && m == Search(filenames[i])
    ensures var c := Candidates(filenames, resample);
            Present(c[..i + 1]) == Present(c[..i]) + (if m.Some? then [FromMatch(m.value, resample)] else [])
  {
    var c := Candidates(filenames, resample);
    assert c[i] == Candidate(filenames[i], resample);
    PresentStep(c, i);
  }

  /** Every experiment read comes from a file name that matches, and carries
      that match's conditions and text. */
  lemma ReadAllSound(filenames: seq<string>, resample: Resampler, e: Experiment)
    requires e in ReadAll(filenames, resample)
    ensures exists i :: 0 <= i < |filenames| && Search(filenames[i]).Some? &&
                        e == FromMatch(Search(filenames[i]).value, resample)
  {
    var c := Candidates(filenames, resample);
    PresentSound(c, e);
    var i :| 0 <= i < |c| && c[i] == Some(e);
    assert Search(filenames[i]).Some? && e == FromMatch(Search(filenames[i]).value, resample);
  }

  /** Every file name that matches gives an experiment that is read. */
  lemma ReadAllComplete(filenames: seq<string>, resample: Resampler, i: nat)
    requires i < |filenames| && Search(filenames[i]).Some?
    ensures FromMatch(Search(filenames[i]).value, resample) in ReadAll(filenames, resample)
  {
    var c := Candidates(filenames, resample);
    PresentComplete(c, i, c[i].value);
  }

  /** Reading two lists of names one after the other reads their
      concatenation. */
  lemma ReadAllConcat(a: seq<string>, b: seq<string>, resample: Resampler)
    ensures ReadAll(a + b, resample) == ReadAll(a, resample) + ReadAll(b, resample)
  {
    var c, ca, cb := Candidates(a + b, resample), Candidates(a, resample), Candidates(b, resample);
    forall i | 0 <= i < |c|
      ensures c[i] == (ca + cb)[i]
    {
      if i < |a| {
        assert (a + b)[i] == a[i];
      } else {
        assert (a + b)[i] == b[i - |a|];
      }
    }
    assert c == ca + cb;
    PresentConcat(ca, cb);
  }

  // ---------------------------------------------------------------------------
  // Filters
  // ---------------------------------------------------------------------------

  /** A get_data argument: None, a number, or a list of numbers. */
  datatype Filter = AnyValue | Number(x: real) | Values(xs: seq<real>)

  /** A number is wrapped into a one-element list; None stays None. */
  function Wrapped(f: Filter): (r: Option<seq<real>>)
    ensures f.AnyValue? <==> r.None?
    ensures f.Number? ==> r == Some([f.x])
    ensures f.Values? ==> r == Some(f.xs)
  {
    match f
    case AnyValue => None
    case Number(x) => Some([x])
    case Values(xs) => Some(xs)
  }

  /** `f is None or value in f`, after the wrapping. */
  predicate Admits(f: Filter, value: real) {
    match Wrapped(f)
    case None => true
    case Some(xs) => value in xs
  }

  /** A number filter admits exactly that number. */
  lemma NumberAdmitsItself(x: real, value: real)
    ensures Admits(Number(x), value) <==> value == x
  {
  }

  predicate Keeps(c: Conditions, p: Filter, q: Filter, f: Filter) {
    Admits(p, c.p) && Admits(q, c.q) && Admits(f, c.f)
  }

  /** The elements keep admits, in their order. */
  function Filtered<T>(data: seq<T>, keep: T -> bool): seq<T> {
    if data == [] then []
    else Filtered(data[..|data| - 1], keep) + (if keep(data[|data| - 1]) then [data[|data| - 1]] else [])
  }

  /** An element is kept iff it is in the data and admitted. */
  lemma {:induction false} FilteredMembership<T>(data: seq<T>, keep: T -> bool, x: T)
    ensures x in Filtered(data, keep) <==> x in data && keep(x)
  {
    if data != [] {
      var init := data[..|data| - 1];
      FilteredMembership(init, keep, x);
      assert data == init + [data[|data| - 1]];
    }
  }

  /** One more element is appended if it is admitted. */
  lemma FilteredStep<T>(data: seq<T>, i: nat, keep: T -> bool)
    requires i < |data|
    ensures Filtered(data[..i + 1], keep) == Filtered(data[..i], keep) + (if keep(data[i]) then [data[i]] else [])
  {
    assert data[..i + 1][..i] == data[..i];
  }

  /** Order is kept: filtering a concatenation concatenates the results. */
  lemma {:induction false} FilteredConcat<T>(a: seq<T>, b: seq<T>, keep: T -> bool)
    ensures Filtered(a + b, keep) == Filtered(a, keep) + Filtered(b, keep)
    decreases |b|
  {
    if b == [] {
      assert a + b == a;
    } else {
      var init := b[..|b| - 1];
      assert (a + b)[..|a + b| - 1] == a + init;
      assert (a + b)[|a + b| - 1] == b[|b| - 1];
      FilteredConcat(a, init, keep);
    }
  }

  /** What admits everything keeps everything. */
  lemma {:induction false} FilteredEverything<T>(data: seq<T>, keep: T -> bool)
    requires forall i :: 0 <= i < |data| ==> keep(data[i])
    ensures Filtered(data, keep) == data
  {
    if data != [] {
      FilteredEverything(data[..|data| - 1], keep);
    }
  }

  /** The filters of get_data as a test on experiments. */
  function Keeper(p: Filter, q: Filter, f: Filter): Experiment -> bool {
    (e: Experiment) => Keeps(e.conditions, p, q, f)
  }

  /** The experiments every filter admits, in their order. */
  function Select(data: seq<Experiment>, p: Filter, q: Filter, f: Filter): seq<Experiment> {
    Filtered(data, Keeper(p, q, f))
  }

  /** An experiment is selected iff it is in the data and the filters admit
      its conditions. */
  lemma SelectMembership(data: seq<Experiment>, p: Filter, q: Filter, f: Filter, e: Experiment)
    ensures e in Select(data, p, q, f) <==> e in data && Keeps(e.conditions, p, q, f)
  {
    FilteredMembership(data, Keeper(p, q, f), e);
  }

  /** Selection keeps the order: selecting from a concatenation concatenates
      the selections. */
  lemma SelectConcat(a: seq<Experiment>, b: seq<Experiment>, p: Filter, q: Filter, f: Filter)
    ensures Select(a + b, p, q, f) == Select(a, p, q, f) + Select(b, p, q, f)
  {
    FilteredConcat(a, b, Keeper(p, q, f));
  }

  /** Without filters everything is selected. */
  lemma SelectWithoutFilters(data: seq<Experiment>)
    ensures Select(data, AnyValue, AnyValue, AnyValue) == data
  {
    FilteredEverything(data, Keeper(AnyValue, AnyValue, AnyValue));
  }

  /** What get_data returns: self.data itself, or a new list. */
  datatype Selection<T> = TheDataList | NewList(items: seq<T>)

  /** ExperimentalResults: the list of experiments read so far. */
  class ExperimentalResults {
    var data: seq<Experiment>

    constructor()
      ensures data == []
    {
      data := [];
    }

    /** read: every file name that matches the pattern appends its
        experiment, in the order of the names. */
    method Read(filenames: seq<string>, resample: Resampler)
      modifies this
      ensures data == old(data) + ReadAll(filenames, resample)
    {
      var i := 0;
      while i < |filenames|
        invariant i <= |filenames|
        invariant data == old(data) + Present(Candidates(filenames, resample)[..i])
      {
        ReadFile(filenames, resample, i);
        i := i + 1;
      }
      assert Candidates(filenames, resample)[..i] == Candidates(filenames, resample);
    }

    /** One pass of the loop of read: the experiment of file name i is
        appended iff the pattern is found in it. */
    method ReadFile(filenames: seq<string>, resample: Resampler, i: nat)
      requires i < |filenames|
      modifies this
      ensures data == old(data) + (if Search(filenames[i]).Some? then [FromMatch(Search(filenames[i]).value, resample)] else [])
      ensures Present(Candidates(filenames, resample)[..i + 1]) ==
              Present(Candidates(filenames, resample)[..i]) + (data[|old(data)|..])
    {
      var m := Search(filenames[i]);
      ReadStep(filenames, resample, i, m);
      if m.Some? {
        data := data + [FromMatch(m.value, resample)];
      }
    }

    /** get_data: with no filter at all the list itself; otherwise a new list
        of the experiments all filters admit, in order. */
    method GetData(p: Filter, q: Filter, f: Filter) returns (r: Selection<Experiment>)
      ensures r.TheDataList? <==> p.AnyValue? && q.AnyValue? && f.AnyValue?
      ensures r.NewList? ==> r.items == Select(data, p, q, f)
    {
      if p.AnyValue? && q.AnyValue? && f.AnyValue? {
        return TheDataList;
      }
      var subSet: seq<Experiment> := [];
      for i := 0 to |data|
        invariant subSet == Select(data[..i], p, q, f)
      {
        var dataset := data[i];
        FilteredStep(data, i, Keeper(p, q, f));
        if Admits(p, dataset.conditions.p) && Admits(q, dataset.conditions.q) && Admits(f, dataset.conditions.f) {
          subSet := subSet + [dataset];
        }
      }
      assert data[..|data|] == data;
      return NewList(subSet);
    }
  }
}
