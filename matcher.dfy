/**
 * The header patterns of utils/scout.js are regular expressions built from
 * literal text and two whitespace gaps, `[ \t\n]*` (Any) and `[ \t\n]+`
 * (Many). This module models them as token sequences and gives
 *  - Derives: what a regular expression of that shape matches, with every
 *    way of splitting the blanks between the gaps, and
 *  - MatchAt/Exec: a greedy matcher and the leftmost search of `RegExp.exec`,
 * and proves that the two agree whenever every gap is followed by a literal
 * that starts with a non-blank character.
 */
module Matcher {
  import opened Estree

  datatype Token = Lit(text: string) | Any | Many

  type Pattern = seq<Token>

  /** A match found by `exec`: `index` and the end of `match[0]`. */
  datatype Match = Match(index: nat, finish: nat)

  predicate IsGap(tok: Token) {
    tok.Any? || tok.Many?
  }

  /** Every gap is followed by a literal starting with a non-blank character. */
  predicate WellSeparated(p: Pattern) {
    forall k {:trigger IsGap(p[k])} :: 0 <= k < |p| && IsGap(p[k]) ==>
      k + 1 < |p| && p[k + 1].Lit? && |p[k + 1].text| > 0 && !IsBlank(p[k + 1].text[0])
  }

  /** Every character of t[i..k] is blank. */
  predicate BlankRun(t: string, i: nat, k: nat)
    requires i <= k <= |t|
  {
    forall m :: i <= m < k ==> IsBlank(t[m])
  }

  /** The token matches exactly t[i..k]. */
  ghost predicate TokenDerives(tok: Token, t: string, i: nat, k: nat) {
    i <= k <= |t| &&
    match tok
    case Lit(s) => t[i..k] == s
    case Any => BlankRun(t, i, k)
    case Many => i < k && BlankRun(t, i, k)
  }

  /** The pattern p matches exactly t[i..j], for some choice of blank runs. */
  ghost predicate Derives(p: Pattern, t: string, i: nat, j: nat)
    decreases |p|
  {
    i <= j <= |t| &&
    if p == [] then i == j
    else exists k :: i <= k <= j && TokenDerives(p[0], t, i, k) && Derives(p[1..], t, k, j)
  }

  /** The end of the blank run that starts at i. */
  function SkipBlanks(t: string, i: nat): (k: nat)
    requires i <= |t|
    ensures i <= k <= |t| && BlankRun(t, i, k)
    ensures k == |t| || !IsBlank(t[k])
    decreases |t| - i
  {
    if i < |t| && IsBlank(t[i]) then SkipBlanks(t, i + 1) else i
  }

  /** Greedy matching of one token from position i: where its match ends, if it matches. */
  function Step(tok: Token, t: string, i: nat): (r: Option<nat>)
    requires i <= |t|
    ensures r.Some? ==> i <= r.value <= |t|
  {
    match tok
    case Lit(s) => if i + |s| <= |t| && t[i..i + |s|] == s then Some(i + |s|) else None
    case Any => Some(SkipBlanks(t, i))
    case Many =>
      var k := SkipBlanks(t, i);
      if i < k then Some(k) else None
  }

  /** Greedy matching of p from position i: the end of the match, if any. */
  function MatchAt(p: Pattern, t: string, i: nat): (r: Option<nat>)
    requires i <= |t|
    ensures r.Some? ==> i <= r.value <= |t|
    decreases |p|
  {
    if p == [] then Some(i)
    else
      match Step(p[0], t, i)
      case None => None
      case Some(k) => MatchAt(p[1..], t, k)
  }

  /** The first position from `from` on where p matches. */
  function SearchFrom(p: Pattern, t: string, from: nat): (r: Option<Match>)
    requires from <= |t|
    ensures r.Some? ==> from <= r.value.index <= r.value.finish <= |t|
    decreases |t| - from
  {
    match MatchAt(p, t, from)
    case Some(j) => Some(Match(from, j))
    case None => if from == |t| then None else SearchFrom(p, t, from + 1)
  }

  /** `new RegExp(p).exec(t)`: the leftmost match. */
  function Exec(p: Pattern, t: string): (r: Option<Match>)
    ensures r.Some? ==> r.value.index <= r.value.finish <= |t|
  {
    SearchFrom(p, t, 0)
  }

  /** The text of the match, `match[0]`. */
  function Matched(t: string, m: Match): string
    requires m.index <= m.finish <= |t|
  {
    t[m.index..m.finish]
  }

  lemma WellSeparatedTail(p: Pattern)
    requires WellSeparated(p) && p != []
    ensures WellSeparated(p[1..])
  {
    forall k | 0 <= k < |p[1..]| && IsGap(p[1..][k])
      ensures k + 1 < |p[1..]| && p[1..][k + 1].Lit? && |p[1..][k + 1].text| > 0
      ensures !IsBlank(p[1..][k + 1].text[0])
    {
      assert p[1..][k] == p[k + 1];
    }
  }

  /** A greedy step only reports a match of the token. */
  lemma StepSound(tok: Token, t: string, i: nat)
    requires i <= |t| && Step(tok, t, i).Some?
    ensures TokenDerives(tok, t, i, Step(tok, t, i).value)
  {
  }

  /** The greedy matcher only reports matches of the pattern. */
  lemma {:induction false} MatchAtSound(p: Pattern, t: string, i: nat)
    requires i <= |t| && MatchAt(p, t, i).Some?
    ensures Derives(p, t, i, MatchAt(p, t, i).value)
    decreases |p|
  {
    if p != [] {
      var k := Step(p[0], t, i).value;
      StepSound(p[0], t, i);
      MatchAtSound(p[1..], t, k);
      assert TokenDerives(p[0], t, i, k) && Derives(p[1..], t, k, MatchAt(p, t, i).value);
    }
  }

  /** The blank run before a non-blank character ends where SkipBlanks stops. */
  lemma SkipBlanksStopsAt(t: string, i: nat, k: nat)
    requires i <= k < |t| && BlankRun(t, i, k) && !IsBlank(t[k])
    ensures SkipBlanks(t, i) == k
    decreases k - i
  {
    if i < k {
      SkipBlanksStopsAt(t, i + 1, k);
    }
  }

  /** A derivation starts with the text of its first literal. */
  lemma DerivesLiteralHead(p: Pattern, t: string, k: nat, j: nat)
    requires p != [] && p[0].Lit? && Derives(p, t, k, j)
    ensures k + |p[0].text| <= |t| && t[k..k + |p[0].text|] == p[0].text
  {
    var m :| k <= m <= j && TokenDerives(p[0], t, k, m) && Derives(p[1..], t, m, j);
    assert |t[k..m]| == m - k;
  }

  /**
   * For a well-separated pattern the greedy step takes exactly the part of
   * a match that belongs to the head token.
   */
  lemma StepComplete(p: Pattern, t: string, i: nat, k: nat, j: nat)
    requires WellSeparated(p) && p != []
    requires TokenDerives(p[0], t, i, k) && Derives(p[1..], t, k, j)
    ensures Step(p[0], t, i) == Some(k)
  {
    if p[0].Lit? {
      assert |t[i..k]| == k - i;
    } else {
      GapThenLiteral(p, t, i, k, j);
    }
  }

  /**
   * For a well-separated pattern the greedy matcher finds every match:
   * a match at i is unique and it is the one MatchAt reports.
   */
  lemma {:induction false} MatchAtComplete(p: Pattern, t: string, i: nat, j: nat)
    requires WellSeparated(p) && Derives(p, t, i, j)
    ensures MatchAt(p, t, i) == Some(j)
    decreases |p|
  {
    if p != [] {
      WellSeparatedTail(p);
      var k :| i <= k <= j && TokenDerives(p[0], t, i, k) && Derives(p[1..], t, k, j);
      StepComplete(p, t, i, k, j);
      MatchAtComplete(p[1..], t, k, j);
    }
  }

  /** After a gap the derivation resumes exactly where the blanks end. */
  lemma GapThenLiteral(p: Pattern, t: string, i: nat, k: nat, j: nat)
    requires WellSeparated(p) && p != [] && IsGap(p[0])
    requires i <= k <= |t| && BlankRun(t, i, k) && Derives(p[1..], t, k, j)
    ensures SkipBlanks(t, i) == k
  {
    var s := p[1].text;
    assert p[1..][0] == p[1];
    DerivesLiteralHead(p[1..], t, k, j);
    assert t[k] == t[k..k + |s|][0] == s[0];
    SkipBlanksStopsAt(t, i, k);
  }

  /** For a well-separated pattern, what matches at a position is determined. */
  lemma DerivesUnique(p: Pattern, t: string, i: nat, j1: nat, j2: nat)
    requires WellSeparated(p) && Derives(p, t, i, j1) && Derives(p, t, i, j2)
    ensures j1 == j2
  {
    MatchAtComplete(p, t, i, j1);
    MatchAtComplete(p, t, i, j2);
  }

  /**
   * `exec` semantics: the reported match is a match of the pattern, and no
   * match starts further left; when nothing is reported, nothing matches.
   */
  lemma {:induction false} SearchFromLeftmost(p: Pattern, t: string, from: nat)
    requires WellSeparated(p) && from <= |t|
    ensures SearchFrom(p, t, from).Some? ==>
      var m := SearchFrom(p, t, from).value;
      Derives(p, t, m.index, m.finish) &&
      forall i: nat, j: nat :: from <= i < m.index ==> !Derives(p, t, i, j)
    ensures SearchFrom(p, t, from).None? ==> forall i: nat, j: nat :: from <= i ==> !Derives(p, t, i, j)
    decreases |t| - from
  {
    if MatchAt(p, t, from).Some? {
      MatchAtSound(p, t, from);
      assert SearchFrom(p, t, from) == Some(Match(from, MatchAt(p, t, from).value));
    } else {
      forall j: nat | Derives(p, t, from, j)
        ensures false
      {
        MatchAtComplete(p, t, from, j);
      }
      if from < |t| {
        SearchFromLeftmost(p, t, from + 1);
        assert SearchFrom(p, t, from) == SearchFrom(p, t, from + 1);
      }
    }
  }

  lemma ExecLeftmost(p: Pattern, t: string)
    requires WellSeparated(p)
    ensures Exec(p, t).Some? ==>
      var m := Exec(p, t).value;
      Derives(p, t, m.index, m.finish) && forall i: nat, j: nat :: i < m.index ==> !Derives(p, t, i, j)
    ensures Exec(p, t).None? ==> forall i: nat, j: nat :: !Derives(p, t, i, j)
  {
    SearchFromLeftmost(p, t, 0);
  }

  /** The text a pattern stands for with every gap written as its shortest blank run. */
  function Render(p: Pattern): string {
    if p == [] then "" else Shortest(p[0]) + Render(p[1..])
  }

  lemma RenderCons(tok: Token, p: Pattern)
    ensures Render([tok] + p) == Shortest(tok) + Render(p)
  {
    assert ([tok] + p)[1..] == p;
  }

  /** The shortest text one token matches. */
  function Shortest(tok: Token): string {
    match tok
    case Lit(s) => s
    case Any => ""
    case Many => " "
  }

  /** A pattern matches its own rendering wherever that rendering occurs. */
  lemma {:induction false} RenderDerives(p: Pattern, t: string, i: nat)
    requires i + |Render(p)| <= |t| && t[i..i + |Render(p)|] == Render(p)
    ensures Derives(p, t, i, i + |Render(p)|)
    decreases |p|
  {
    if p != [] {
      var k := i + |Shortest(p[0])|;
      RenderHead(p);
      SliceHead(t, i, Render(p), Shortest(p[0]), Render(p[1..]));
      SliceTail(t, i, Render(p), Shortest(p[0]), Render(p[1..]));
      TokenDerivesShortest(p[0], t, i);
      RenderDerives(p[1..], t, k);
      assert TokenDerives(p[0], t, i, k) && Derives(p[1..], t, k, i + |Render(p)|);
    }
  }

  /**
   * A well-separated pattern is matched greedily at its own rendering
   * wherever that rendering occurs, and the match covers exactly the
   * rendering.
   */
  lemma RenderMatches(p: Pattern, t: string, i: nat)
    requires WellSeparated(p)
    requires i + |Render(p)| <= |t| && t[i..i + |Render(p)|] == Render(p)
    ensures MatchAt(p, t, i) == Some(i + |Render(p)|)
  {
    RenderDerives(p, t, i);
    MatchAtComplete(p, t, i, i + |Render(p)|);
  }

  /**
   * Searching for a well-separated pattern finds its rendering: the leftmost
   * match starts at or before any place the rendering occurs, and where it
   * starts there it covers exactly the rendering.
   */
  lemma FindsRendering(p: Pattern, t: string, i: nat)
    requires WellSeparated(p)
    requires i + |Render(p)| <= |t| && t[i..i + |Render(p)|] == Render(p)
    ensures Exec(p, t).Some? && Exec(p, t).value.index <= i
    ensures Exec(p, t).value.index == i ==> Exec(p, t).value.finish == i + |Render(p)|
  {
    RenderDerives(p, t, i);
    LeftmostBefore(p, t, i, i + |Render(p)|);
  }

  /**
   * Wherever the pattern matches, the search finds a match that starts no
   * later, and one that starts at the same place ends at the same place.
   */
  lemma LeftmostBefore(p: Pattern, t: string, i: nat, j: nat)
    requires WellSeparated(p) && Derives(p, t, i, j)
    ensures Exec(p, t).Some? && Exec(p, t).value.index <= i
    ensures Exec(p, t).value.index == i ==> Exec(p, t).value.finish == j
  {
    ExecLeftmost(p, t);
    var m := Exec(p, t).value;
    if m.index == i {
      DerivesUnique(p, t, i, m.finish, j);
    }
  }

  /**
   * For a pattern that opens with a non-empty literal: the search fails
   * exactly when the pattern matches nowhere, and a match it finds is not
   * empty and starts with the literal's first character.
   */
  lemma ExecOpensWithLiteral(p: Pattern, t: string)
    requires WellSeparated(p) && p != [] && p[0].Lit? && |p[0].text| > 0
    ensures Exec(p, t).None? <==> forall i: nat, j: nat :: !Derives(p, t, i, j)
    ensures Exec(p, t).Some? ==>
      Exec(p, t).value.index < Exec(p, t).value.finish && t[Exec(p, t).value.index] == p[0].text[0]
  {
    ExecLeftmost(p, t);
    if Exec(p, t).Some? {
      var m := Exec(p, t).value;
      assert Derives(p, t, m.index, m.finish);
      DerivesLiteralHead(p, t, m.index, m.finish);
      assert t[m.index..m.index + |p[0].text|][0] == t[m.index];
    }
  }

  /** Where `a + b` occurs at i, `a` occurs at i. */
  lemma SliceHead(t: string, i: nat, s: string, a: string, b: string)
    requires s == a + b && i + |s| <= |t| && t[i..i + |s|] == s
    ensures t[i..i + |a|] == a
  {
    assert t[i..i + |a|] == s[..|a|];
  }

  /** Where `a + b` occurs at i, `b` occurs right after `a`. */
  lemma SliceTail(t: string, i: nat, s: string, a: string, b: string)
    requires s == a + b && i + |s| <= |t| && t[i..i + |s|] == s
    ensures t[i + |a|..i + |a| + |b|] == b
  {
    assert t[i + |a|..i + |a| + |b|] == s[|a|..];
  }

  /** A rendering is the head token's shortest text followed by the rest of the rendering. */
  lemma RenderHead(p: Pattern)
    requires p != []
    ensures Render(p) == Shortest(p[0]) + Render(p[1..])
  {
  }

  /** A token matches its shortest text. */
  lemma TokenDerivesShortest(tok: Token, t: string, i: nat)
    requires i + |Shortest(tok)| <= |t| && t[i..i + |Shortest(tok)|] == Shortest(tok)
    ensures TokenDerives(tok, t, i, i + |Shortest(tok)|)
  {
    if tok.Many? {
      assert t[i] == t[i..i + 1][0] == ' ';
    }
  }
}
