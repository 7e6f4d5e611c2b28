/**
 * `extractClass` of utils/scout.js: find the first class header for a name,
 * then count braces character by character from there until the count
 * comes back to zero after the first opening brace. The scan is a plain
 * character scan: braces inside strings, comments or templates count too.
 */
module ClassIsolator {
  import opened Estree
  import opened Matcher

  /** `"class[ \t\n]+" + name + "[ \t\n]*{"`. */
  function ClassPattern(name: Ident): (p: Pattern)
    ensures WellSeparated(p)
  {
    [Lit("class"), Many, Lit(name), Any, Lit("{")]
  }

  /** `{start, text}` as `extractClass` returns it. */
  datatype ClassText = ClassText(start: nat, text: string)

  /** The number of occurrences of c in s. */
  function Count(c: char, s: string): nat {
    if s == [] then 0 else Count(c, s[..|s| - 1]) + (if s[|s| - 1] == c then 1 else 0)
  }

  /** The brace count after scanning t[start..k]. */
  function Depth(t: string, start: nat, k: nat): int
    requires start <= k <= |t|
  {
    Count('{', t[start..k]) - Count('}', t[start..k])
  }

  /** Whether an opening brace has been seen in t[start..k]. */
  predicate Entered(t: string, start: nat, k: nat)
    requires start <= k <= |t|
  {
    '{' in t[start..k]
  }

  /** The scan stops once it has read t[start..k]. */
  predicate ClosesAt(t: string, start: nat, k: nat)
    requires start <= k <= |t|
  {
    Entered(t, start, k) && Depth(t, start, k) == 0
  }

  /** The first k past i at which the scan from start stops, or -1. */
  function FirstClose(t: string, start: nat, i: nat): int
    requires start <= i <= |t|
    decreases |t| - i
  {
    if i == |t| then -1
    else if ClosesAt(t, start, i + 1) then i + 1
    else FirstClose(t, start, i + 1)
  }

  /**
   * `t.substring(a, b)`: both ends clamped to [0, |t|], and swapped when
   * the first is the larger.
   */
  function Substring(t: string, a: int, b: int): string {
    var lo := if a < 0 then 0 else if a > |t| then |t| else a;
    var hi := if b < 0 then 0 else if b > |t| then |t| else b;
    if lo <= hi then t[lo..hi] else t[hi..lo]
  }

  /**
   * `substring` is never longer than the text; ends inside the text give
   * the slice between them in either order, and a negative end gives the
   * text before the other end.
   */
  lemma SubstringSlices(t: string, a: int, b: int)
    ensures |Substring(t, a, b)| <= |t|
    ensures 0 <= a <= b <= |t| ==> Substring(t, a, b) == t[a..b]
    ensures 0 <= b <= a <= |t| ==> Substring(t, a, b) == t[b..a]
    ensures b < 0 && 0 <= a <= |t| ==> Substring(t, a, b) == t[..a]
  {
  }

  /** What `extractClass(name, t)` returns; None where it throws. */
  function ClassSpan(name: Ident, t: string): Option<ClassText> {
    match Exec(ClassPattern(name), t)
    case None => None
    case Some(m) => Some(ClassText(m.index, Substring(t, m.index, FirstClose(t, m.index, m.index))))
  }

  /** One more character read: the counts and the entered flag advance by it. */
  lemma ScanStep(t: string, start: nat, i: nat)
    requires start <= i < |t|
    ensures Depth(t, start, i + 1) ==
      Depth(t, start, i) + (if t[i] == '{' then 1 else 0) - (if t[i] == '}' then 1 else 0)
    ensures Entered(t, start, i + 1) <==> Entered(t, start, i) || t[i] == '{'
  {
    assert t[start..i + 1][..i - start] == t[start..i];
    assert t[start..i + 1] == t[start..i] + [t[i]];
  }

  /** `extractClass(classname, text)`; None where the header is missing and the source throws. */
  method ExtractClass(name: Ident, text: string) returns (r: Option<ClassText>)
    ensures r == ClassSpan(name, text)
  {
    var found := Exec(ClassPattern(name), text);
    if found.None? {
      return None;
    }
    var start := found.value.index;
    var braces := 0;
    var entered := false;
    var finish := -1;
    for i := start to |text|
      invariant braces == Depth(text, start, i)
      invariant entered == Entered(text, start, i)
      invariant FirstClose(text, start, start) == FirstClose(text, start, i)
    {
      ScanStep(text, start, i);
      if text[i] == '{' {
        braces := braces + 1;
        if !entered {
          entered := true;
        }
      }
      if text[i] == '}' {
        braces := braces - 1;
      }
      if entered && braces == 0 {
        finish := i + 1;
        break;
      }
    }
    return Some(ClassText(start, Substring(text, start, finish)));
  }

  /** FirstClose finds the first stopping point, and -1 exactly when there is none. */
  lemma {:induction false} FirstCloseLeast(t: string, start: nat, i: nat)
    requires start <= i <= |t|
    ensures FirstClose(t, start, i) == -1 <==> forall k :: i < k <= |t| ==> !ClosesAt(t, start, k)
    ensures FirstClose(t, start, i) != -1 ==>
      var f := FirstClose(t, start, i);
      i < f <= |t| && ClosesAt(t, start, f) && forall k :: i < k < f ==> !ClosesAt(t, start, k)
    decreases |t| - i
  {
    if i < |t| && !ClosesAt(t, start, i + 1) {
      FirstCloseLeast(t, start, i + 1);
    }
  }

  /** Does the scan from start stop somewhere? */
  predicate Balances(t: string, start: nat)
    requires start <= |t|
  {
    exists k :: start < k <= |t| && ClosesAt(t, start, k)
  }

  /**
   * When a balancing brace exists, the class text starts at the first class
   * header, runs to the first point where the braces balance after the
   * first opening brace, holds as many opening as closing braces, and no
   * shorter prefix past the first opening brace is balanced.
   */
  lemma ClassSpanBalanced(name: Ident, t: string)
    requires ClassSpan(name, t).Some? && Balances(t, ClassSpan(name, t).value.start)
    ensures
      var ct := ClassSpan(name, t).value;
      && Derives(ClassPattern(name), t, ct.start, Exec(ClassPattern(name), t).value.finish)
      && (forall i: nat, j: nat :: i < ct.start ==> !Derives(ClassPattern(name), t, i, j))
      && ct.start + |ct.text| <= |t| && ct.text == t[ct.start..ct.start + |ct.text|]
      && '{' in ct.text && Count('{', ct.text) == Count('}', ct.text)
      && forall k :: 0 < k < |ct.text| && '{' in ct.text[..k] ==>
           Count('{', ct.text[..k]) != Count('}', ct.text[..k])
  {
    ExecLeftmost(ClassPattern(name), t);
    BalancedScan(t, ClassSpan(name, t).value.start);
  }

  /** The text a scan that stops cuts out: balanced, and no shorter entered prefix is. */
  lemma BalancedScan(t: string, start: nat)
    requires start <= |t| && Balances(t, start)
    ensures
      var s := Substring(t, start, FirstClose(t, start, start));
      && start + |s| <= |t| && s == t[start..start + |s|]
      && '{' in s && Count('{', s) == Count('}', s)
      && forall k :: 0 < k < |s| && '{' in s[..k] ==> Count('{', s[..k]) != Count('}', s[..k])
  {
    FirstCloseLeast(t, start, start);
    var f := FirstClose(t, start, start);
    var s := Substring(t, start, f);
    assert s == t[start..f];
    forall k | 0 < k < |s| && '{' in s[..k]
      ensures Count('{', s[..k]) != Count('}', s[..k])
    {
      assert s[..k] == t[start..start + k];
      assert !ClosesAt(t, start, start + k);
    }
  }

  /**
   * When no balancing brace exists, `finish` stays -1 and
   * `substring(start, -1)` returns the text BEFORE the class header.
   */
  lemma ClassSpanUnbalanced(name: Ident, t: string)
    requires ClassSpan(name, t).Some? && !Balances(t, ClassSpan(name, t).value.start)
    ensures ClassSpan(name, t).value.text == t[..ClassSpan(name, t).value.start]
  {
    var start := ClassSpan(name, t).value.start;
    FirstCloseLeast(t, start, start);
  }

  /** A class header for the name occurs somewhere in the text. */
  ghost predicate HeaderOccurs(name: Ident, t: string) {
    exists i: nat, j: nat :: Derives(ClassPattern(name), t, i, j)
  }

  /** The header is missing exactly when no class header for the name occurs anywhere. */
  lemma ClassSpanMissing(name: Ident, t: string)
    ensures ClassSpan(name, t).None? <==> !HeaderOccurs(name, t)
  {
    ExecLeftmost(ClassPattern(name), t);
    if Exec(ClassPattern(name), t).Some? {
      var m := Exec(ClassPattern(name), t).value;
      assert Derives(ClassPattern(name), t, m.index, m.finish);
    }
  }
}
