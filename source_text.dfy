/**
 * The text side of utils/scout.js: the normalised text the scout searches,
 * its split into lines, and the conversion of a character offset into a
 * 1-based line and a 0-based indentation (`indexToLine`).
 */
module SourceText {

  /** `s.replace(/\r/g, "")`. */
  function DropReturns(s: string): (r: string)
    ensures '\r' !in r
    ensures forall c :: c in r <==> c in s && c != '\r'
  {
    if s == [] then []
    else (if s[0] == '\r' then [] else [s[0]]) + DropReturns(s[1..])
  }

  /** `s.replace(/\t/g, "    ")`. */
  function ExpandTabs(s: string): (r: string)
    ensures '\t' !in r
    ensures forall c :: c != ' ' ==> (c in r <==> c in s && c != '\t')
  {
    if s == [] then []
    else (if s[0] == '\t' then "    " else [s[0]]) + ExpandTabs(s[1..])
  }

  /** The text every search runs on: carriage returns dropped, tabs as four spaces. */
  function Normalize(s: string): (r: string)
    ensures '\r' !in r && '\t' !in r
  {
    ExpandTabs(DropReturns(s))
  }

  lemma {:induction false} DropReturnsKeeps(s: string)
    requires '\r' !in s
    ensures DropReturns(s) == s
  {
    if s != [] {
      DropReturnsKeeps(s[1..]);
    }
  }

  lemma {:induction false} ExpandTabsKeeps(s: string)
    requires '\t' !in s
    ensures ExpandTabs(s) == s
  {
    if s != [] {
      ExpandTabsKeeps(s[1..]);
    }
  }

  /** Normalising twice changes nothing more. */
  lemma NormalizeIdempotent(s: string)
    ensures Normalize(Normalize(s)) == Normalize(s)
  {
    var n := Normalize(s);
    DropReturnsKeeps(n);
    ExpandTabsKeeps(n);
  }

  /** `s.split("\n")`. */
  function SplitLines(s: string): (lines: seq<string>)
    ensures |lines| >= 1
    ensures forall k :: 0 <= k < |lines| ==> '\n' !in lines[k]
  {
    if s == [] then [""]
    else
      var rest := SplitLines(s[1..]);
      if s[0] == '\n' then [""] + rest
      else [[s[0]] + rest[0]] + rest[1..]
  }

  /** `lines.join("\n")`. */
  function Join(lines: seq<string>): string
    requires |lines| >= 1
  {
    if |lines| == 1 then lines[0] else lines[0] + "\n" + Join(lines[1..])
  }

  /** Splitting at line feeds loses nothing: joining the lines gives the text back. */
  lemma {:induction false} SplitJoin(s: string)
    ensures Join(SplitLines(s)) == s
  {
    if s != [] {
      var rest := SplitLines(s[1..]);
      SplitJoin(s[1..]);
      if s[0] == '\n' {
        assert Join([""] + rest) == "" + "\n" + Join(rest);
      } else {
        var lines := [[s[0]] + rest[0]] + rest[1..];
        if |rest| == 1 {
          assert Join(lines) == [s[0]] + rest[0];
        } else {
          assert lines[1..] == rest[1..];
          assert Join(lines) == [s[0]] + rest[0] + "\n" + Join(rest[1..]);
          assert Join(rest) == rest[0] + "\n" + Join(rest[1..]);
        }
      }
      assert s == [s[0]] + s[1..];
    }
  }

  /** The offset at which line i (0-based) starts: the sum of `len + 1` over the lines before it. */
  function LineStart(lines: seq<string>, i: nat): nat
    requires i <= |lines|
  {
    if i == 0 then 0 else LineStart(lines, i - 1) + |lines[i - 1]| + 1
  }

  /** The offset just past the last line's terminator. */
  function Total(lines: seq<string>): nat {
    LineStart(lines, |lines|)
  }

  lemma {:induction false} LineStartTail(lines: seq<string>, i: nat)
    requires 1 <= i <= |lines|
    ensures LineStart(lines, i) == |lines[0]| + 1 + LineStart(lines[1..], i - 1)
  {
    if i > 1 {
      LineStartTail(lines, i - 1);
    }
  }

  lemma {:induction false} LineStartMonotone(lines: seq<string>, a: nat, b: nat)
    requires a <= b <= |lines|
    ensures LineStart(lines, a) <= LineStart(lines, b)
    decreases b - a
  {
    if a < b {
      LineStartMonotone(lines, a, b - 1);
    }
  }

  /** Every line is one character longer in the sum than its text: the line feed. */
  lemma {:induction false} TotalIsLength(s: string)
    ensures Total(SplitLines(s)) == |s| + 1
  {
    if s != [] {
      var rest := SplitLines(s[1..]);
      var lines := SplitLines(s);
      TotalIsLength(s[1..]);
      TotalCons(lines);
      TotalCons(rest);
      if s[0] != '\n' {
        assert lines[1..] == rest[1..];
      } else {
        assert lines[1..] == rest;
      }
    } else {
      assert LineStart([""], 1) == LineStart([""], 0) + 1;
    }
  }

  lemma TotalCons(lines: seq<string>)
    requires |lines| >= 1
    ensures Total(lines) == |lines[0]| + 1 + Total(lines[1..])
  {
    LineStartTail(lines, |lines|);
  }

  datatype Location = Location(line: int, indent: int)

  const NotFound := Location(-1, -1)

  /**
   * The promise of `indexToLine`: a negative offset or one past the last
   * line is not found; any other offset lies on line `line` (1-based), at
   * column `indent` (0-based, at most the line's length, which stands for
   * its line feed).
   */
  predicate LocatedAt(index: int, lines: seq<string>, loc: Location) {
    if index < 0 || index >= Total(lines) then loc == NotFound
    else
      1 <= loc.line <= |lines| && 0 <= loc.indent <= |lines[loc.line - 1]| &&
      LineStart(lines, loc.line - 1) + loc.indent == index
  }

  /** At most one location satisfies that promise. */
  lemma LocatedAtUnique(index: int, lines: seq<string>, a: Location, b: Location)
    requires LocatedAt(index, lines, a) && LocatedAt(index, lines, b)
    ensures a == b
  {
    if 0 <= index < Total(lines) {
      if a.line < b.line {
        LineStartMonotone(lines, a.line, b.line - 1);
      } else if b.line < a.line {
        LineStartMonotone(lines, b.line, a.line - 1);
      }
    }
  }

  /** The location of an offset, line by line from the first: the reference definition. */
  function Position(index: int, lines: seq<string>): Location
    decreases |lines|
  {
    if index < 0 || lines == [] then NotFound
    else if index < |lines[0]| + 1 then Location(1, index)
    else
      var rest := Position(index - (|lines[0]| + 1), lines[1..]);
      if rest == NotFound then NotFound else Location(rest.line + 1, rest.indent)
  }

  lemma {:induction false} PositionLocates(index: int, lines: seq<string>)
    ensures LocatedAt(index, lines, Position(index, lines))
    decreases |lines|
  {
    if index >= 0 && lines != [] {
      LineStartTail(lines, |lines|);
      if index >= |lines[0]| + 1 {
        var sub := index - (|lines[0]| + 1);
        PositionLocates(sub, lines[1..]);
        var rest := Position(sub, lines[1..]);
        if rest != NotFound {
          LineStartTail(lines, rest.line);
          assert lines[rest.line] == lines[1..][rest.line - 1];
        }
      }
    }
  }

  /** `indexToLine(index, lines)`. */
  method IndexToLine(index: int, lines: seq<string>) returns (loc: Location)
    ensures LocatedAt(index, lines, loc)
    ensures loc == Position(index, lines)
  {
    PositionLocates(index, lines);
    if index < 0 {
      return NotFound;
    }
    var count := 0;
    var indent := 0;
    var i := 0;
    while i < |lines|
      invariant 0 <= i <= |lines|
      invariant count == LineStart(lines, i)
      invariant index >= count
    {
      indent := count;
      count := count + |lines[i]| + 1;
      if index < count {
        loc := Location(i + 1, index - indent);
        LineStartMonotone(lines, i + 1, |lines|);
        LocatedAtUnique(index, lines, loc, Position(index, lines));
        return;
      }
      i := i + 1;
    }
    return NotFound;
  }

  lemma PositionGrowFirst(o: int, x: char, rest: seq<string>)
    requires o >= 1 && rest != []
    ensures Position(o, [[x] + rest[0]] + rest[1..]) ==
      var p := Position(o - 1, rest);
      if p.line == 1 then Location(1, p.indent + 1) else p
  {
    var lines := [[x] + rest[0]] + rest[1..];
    assert lines[1..] == rest[1..];
    if o >= |rest[0]| + 2 {
      PositionLocates(o - 1 - (|rest[0]| + 1), rest[1..]);
    }
  }

  /**
   * Location loc of the lines holds the character c: at column `indent` of
   * its line, or at the line's end when c is the line feed.
   */
  predicate PointsAt(lines: seq<string>, loc: Location, c: char) {
    1 <= loc.line <= |lines| && 0 <= loc.indent <= |lines[loc.line - 1]| &&
    (loc.indent < |lines[loc.line - 1]| ==> lines[loc.line - 1][loc.indent] == c) &&
    (loc.indent == |lines[loc.line - 1]| ==> c == '\n')
  }

  /** The location of an offset of the text points back at the character at that offset. */
  lemma {:induction false} PositionPointsAtChar(s: string, o: nat)
    requires o < |s|
    ensures PointsAt(SplitLines(s), Position(o, SplitLines(s)), s[o])
  {
    var rest := SplitLines(s[1..]);
    if o > 0 {
      PositionPointsAtChar(s[1..], o - 1);
      if s[0] == '\n' {
        PointsAtBelowEmpty(rest, o, s[o]);
      } else {
        PositionGrowFirst(o, s[0], rest);
        PointsAtGrow(s[0], rest, Position(o - 1, rest), s[o]);
      }
    }
  }

  lemma PointsAtBelowEmpty(rest: seq<string>, o: nat, c: char)
    requires o >= 1 && PointsAt(rest, Position(o - 1, rest), c)
    ensures PointsAt([""] + rest, Position(o, [""] + rest), c)
  {
    var lines := [""] + rest;
    assert lines[1..] == rest;
    var p := Position(o - 1, rest);
    assert Position(o, lines) == Location(p.line + 1, p.indent);
    assert lines[p.line] == rest[p.line - 1];
  }

  lemma PointsAtGrow(x: char, rest: seq<string>, loc: Location, c: char)
    requires rest != [] && PointsAt(rest, loc, c)
    ensures PointsAt([[x] + rest[0]] + rest[1..], if loc.line == 1 then Location(1, loc.indent + 1) else loc, c)
  {
    var lines := [[x] + rest[0]] + rest[1..];
    if loc.line == 1 {
      if loc.indent < |rest[0]| {
        assert lines[0][loc.indent + 1] == rest[0][loc.indent];
      }
    } else {
      assert lines[loc.line - 1] == rest[loc.line - 1];
    }
  }

  /**
   * Location loc is on one of the lines, inside it, at offset `at` of the
   * joined text, and the line holds c there.
   */
  predicate HoldsAt(lines: seq<string>, loc: Location, at: int, c: char) {
    && 1 <= loc.line <= |lines| && 0 <= loc.indent < |lines[loc.line - 1]|
    && LineStart(lines, loc.line - 1) + loc.indent == at
    && lines[loc.line - 1][loc.indent] == c
  }

  /**
   * An offset that holds a character other than a newline is found on one
   * of the lines, at that line's start plus the column, and the line holds
   * the character there.
   */
  lemma PositionOfChar(s: string, o: nat)
    requires o < |s| && s[o] != '\n'
    ensures HoldsAt(SplitLines(s), Position(o, SplitLines(s)), o, s[o])
  {
    TotalIsLength(s);
    PositionLocates(o, SplitLines(s));
    PositionPointsAtChar(s, o);
  }
}
