/**
 * `buildRegExp` of utils/scout.js: the header pattern that finds a
 * documentable node in the text. A pattern is a token sequence of
 * literals and the gaps `[ \t\n]*` (Any) and `[ \t\n]+` (Many).
 */
module Headers {
  import opened Estree
  import opened Matcher
  import ClassIsolator

  /** Parameter k of a list: `any name any`, then a comma unless it is the last. */
  function ParamItem(names: seq<Ident>, k: nat): Pattern
    requires k < |names|
  {
    [Any, Lit(names[k]), Any] + (if k != |names| - 1 then [Lit(",")] else [])
  }

  /** The first i parameters of a list. */
  function ParamPrefix(names: seq<Ident>, i: nat): Pattern
    requires i <= |names|
  {
    if i == 0 then [] else ParamPrefix(names, i - 1) + ParamItem(names, i - 1)
  }

  /** The parameter section between the parentheses. */
  function ParamSection(names: seq<Ident>): Pattern {
    ParamPrefix(names, |names|)
  }

  /** `"async" + many` when the function is async. */
  function AsyncPrefix(isAsync: bool): Pattern {
    if isAsync then [Lit("async"), Many] else []
  }

  /** `"static" + many` for a static method. */
  function StaticPrefix(isStatic: bool): Pattern {
    if isStatic then [Lit("static"), Many] else []
  }

  /** `"get" + many` for a getter, `"set" + many` for a setter. */
  function KindPrefix(kind: MethodKind): Pattern {
    if kind == Get then [Lit("get"), Many] else if kind == Set then [Lit("set"), Many] else []
  }

  /** The modifiers of a method: `static`, then `get` or `set`, each followed by Many. */
  function MethodPrefix(kind: MethodKind, isStatic: bool): Pattern {
    StaticPrefix(isStatic) + KindPrefix(kind)
  }

  /** The parameters a method's header lists: one for a setter, none for a getter. */
  function MethodParams(kind: MethodKind, params: seq<Node>): Pattern
    requires kind == Set ==> |params| >= 1
  {
    if kind == Set then [Any, Lit(NameText(params[0])), Any]
    else if kind == Get then []
    else ParamSection(ParamTexts(params))
  }

  /** `[async many] function (any * any | many) name any ( params ) any {`. */
  function FunctionHeader(id: Node, params: seq<Node>, isAsync: bool, isGenerator: bool): Pattern {
    AsyncPrefix(isAsync) + [Lit("function")] +
    (if isGenerator then [Any, Lit("*"), Any] else [Many]) +
    [Lit(NameText(id)), Any, Lit("(")] + ParamSection(ParamTexts(params)) + [Lit(")"), Any, Lit("{")]
  }

  /** `name any = any [async many] function [any *] any ( params ) any {`. */
  function FunctionValueHeader(id: Node, params: seq<Node>, isAsync: bool, isGenerator: bool): Pattern {
    [Lit(NameText(id)), Any, Lit("="), Any] + AsyncPrefix(isAsync) + [Lit("function")] +
    (if isGenerator then [Any, Lit("*")] else []) +
    [Any, Lit("(")] + ParamSection(ParamTexts(params)) + [Lit(")"), Any, Lit("{")]
  }

  /** `name any = any [async many] ( params ) any =>`. */
  function ArrowHeader(id: Node, params: seq<Node>, isAsync: bool): Pattern {
    [Lit(NameText(id)), Any, Lit("="), Any] + AsyncPrefix(isAsync) +
    [Lit("(")] + ParamSection(ParamTexts(params)) + [Lit(")"), Any, Lit("=>")]
  }

  /** `class many name any {`. */
  function ClassHeader(id: Node): Pattern {
    [Lit("class"), Many, Lit(NameText(id)), Any, Lit("{")]
  }

  /** `name any ( params ) any {`: a method's header after its modifiers. */
  function MethodRest(key: Node, params: seq<Node>, kind: MethodKind): Pattern
    requires kind == Set ==> |params| >= 1
  {
    [Lit(NameText(key)), Any, Lit("(")] + MethodParams(kind, params) + [Lit(")"), Any, Lit("{")]
  }

  /** `[static many] [get many | set many] name any ( params ) any {`. */
  function MethodHeader(key: Node, params: seq<Node>, kind: MethodKind, isStatic: bool): Pattern
    requires kind == Set ==> |params| >= 1
  {
    MethodPrefix(kind, isStatic) + MethodRest(key, params, kind)
  }

  /** The header pattern of a documentable node. */
  function HeaderPattern(n: Node): Pattern
    requires Documentable(n)
  {
    match n
    case FunctionDeclaration(id, params, _, isAsync, isGenerator) =>
      FunctionHeader(id, params, isAsync, isGenerator)
    case VariableDeclarator(id, init) =>
      if init.FunctionExpression? then FunctionValueHeader(id, init.params, init.isAsync, init.isGenerator)
      else ArrowHeader(id, init.params, init.isAsync)
    case ClassDeclaration(id, _) => ClassHeader(id)
    case MethodDefinition(key, value, kind, isStatic) => MethodHeader(key, value.params, kind, isStatic)
  }

  /** Appends the parameter section for params to r, one parameter at a time. */
  method AppendParams(r: Pattern, params: seq<Node>) returns (p: Pattern)
    ensures p == r + ParamSection(ParamTexts(params))
  {
    p := r;
    for i := 0 to |params|
      invariant p == r + ParamPrefix(ParamTexts(params), i)
    {
      p := p + [Any, Lit(NameText(params[i])), Any];
      if i != |params| - 1 {
        p := p + [Lit(",")];
      }
    }
  }

  /** The FunctionDeclaration branch of `buildRegExp`. */
  method BuildFunctionHeader(id: Node, params: seq<Node>, isAsync: bool, isGenerator: bool) returns (p: Pattern)
    ensures p == FunctionHeader(id, params, isAsync, isGenerator)
  {
    p := [];
    if isAsync {
      p := [Lit("async"), Many];
    }
    p := p + [Lit("function")];
    if isGenerator {
      p := p + [Any, Lit("*"), Any];
    } else {
      p := p + [Many];
    }
    p := p + [Lit(NameText(id)), Any, Lit("(")];
    p := AppendParams(p, params);
    p := p + [Lit(")"), Any, Lit("{")];
  }

  /** The branch of `buildRegExp` for a variable holding a function expression. */
  method BuildFunctionValueHeader(id: Node, params: seq<Node>, isAsync: bool, isGenerator: bool) returns (p: Pattern)
    ensures p == FunctionValueHeader(id, params, isAsync, isGenerator)
  {
    p := [Lit(NameText(id)), Any, Lit("="), Any];
    if isAsync {
      p := p + [Lit("async"), Many];
    }
    p := p + [Lit("function")];
    if isGenerator {
      p := p + [Any, Lit("*")];
    }
    ghost var head := p;
    assert head == [Lit(NameText(id)), Any, Lit("="), Any] + AsyncPrefix(isAsync) + [Lit("function")] +
      (if isGenerator then [Any, Lit("*")] else []);
    p := p + [Any];
    p := p + [Lit("(")];
    assert p == head + [Any, Lit("(")];
    p := AppendParams(p, params);
    p := p + [Lit(")"), Any, Lit("{")];
  }

  /** The branch of `buildRegExp` for a variable holding an arrow function. */
  method BuildArrowHeader(id: Node, params: seq<Node>, isAsync: bool) returns (p: Pattern)
    ensures p == ArrowHeader(id, params, isAsync)
  {
    p := [Lit(NameText(id)), Any, Lit("="), Any];
    if isAsync {
      p := p + [Lit("async"), Many];
    }
    p := p + [Lit("(")];
    p := AppendParams(p, params);
    p := p + [Lit(")"), Any, Lit("=>")];
  }

  /** The MethodDefinition branch of `buildRegExp`. */
  method BuildMethodHeader(key: Node, params: seq<Node>, kind: MethodKind, isStatic: bool) returns (p: Pattern)
    requires kind == Set ==> |params| >= 1
    ensures p == MethodHeader(key, params, kind, isStatic)
  {
    p := [];
    if isStatic {
      p := p + [Lit("static"), Many];
    }
    if kind == Get {
      p := p + [Lit("get"), Many];
    }
    if kind == Set {
      p := p + [Lit("set"), Many];
    }
    ghost var prefix := p;
    assert prefix == MethodPrefix(kind, isStatic);
    p := p + [Lit(NameText(key)), Any, Lit("(")];
    ghost var named := p;
    if kind == Set {
      p := p + [Any, Lit(NameText(params[0])), Any];
    }
    if kind == Method || kind == Constructor {
      p := AppendParams(p, params);
    }
    assert p == named + MethodParams(kind, params);
    p := p + [Lit(")"), Any, Lit("{")];
    CloseAfterParams(prefix, [Lit(NameText(key)), Any, Lit("(")], MethodParams(kind, params), [Lit(")"), Any, Lit("{")]);
  }

  /** Concatenation regrouped so the closing tokens follow the parameter section. */
  lemma CloseAfterParams(a: Pattern, b: Pattern, c: Pattern, d: Pattern)
    ensures a + b + c + d == a + (b + c + d)
  {
  }

  /** `buildRegExp(node)`. */
  method BuildPattern(n: Node) returns (p: Pattern)
    requires Documentable(n)
    ensures p == HeaderPattern(n)
  {
    if n.FunctionDeclaration? {
      p := BuildFunctionHeader(n.id, n.params, n.isAsync, n.isGenerator);
    } else if n.VariableDeclarator? && n.init.FunctionExpression? {
      p := BuildFunctionValueHeader(n.id, n.init.params, n.init.isAsync, n.init.isGenerator);
    } else if n.VariableDeclarator? && n.init.ArrowFunctionExpression? {
      p := BuildArrowHeader(n.id, n.init.params, n.init.isAsync);
    } else if n.ClassDeclaration? {
      p := [Lit("class"), Many, Lit(NameText(n.id)), Any, Lit("{")];
    } else {
      p := BuildMethodHeader(n.key, n.value.params, n.methodKind, n.isStatic);
    }
  }

  /** The token at position j of a parameter section: `any name any ,` repeated. */
  function ParamToken(names: seq<Ident>, j: nat): Token
    requires j / 4 < |names|
  {
    if j % 4 == 1 then Lit(names[j / 4]) else if j % 4 == 3 then Lit(",") else Any
  }

  /**
   * The first i parameters take four tokens each, the last one three: its
   * name is at 4k+1 between two gaps, and a comma at 4k+3 separates it
   * from the next.
   */
  lemma {:induction false} ParamPrefixShape(names: seq<Ident>, i: nat)
    requires i <= |names|
    ensures |ParamPrefix(names, i)| == if i == 0 then 0 else if i < |names| then 4 * i else 4 * i - 1
    ensures forall j :: 0 <= j < |ParamPrefix(names, i)| ==>
      j / 4 < |names| && ParamPrefix(names, i)[j] == ParamToken(names, j)
  {
    if i > 0 {
      ParamPrefixShape(names, i - 1);
      var before := ParamPrefix(names, i - 1);
      var item := ParamItem(names, i - 1);
      assert |before| == 4 * (i - 1);
      forall j | 0 <= j < |before + item|
        ensures j / 4 < |names| && (before + item)[j] == ParamToken(names, j)
      {
        if j >= |before| {
          var m := j - 4 * (i - 1);
          assert j / 4 == i - 1 && j % 4 == m;
        }
      }
    }
  }

  /**
   * The parameter section lists the names in declaration order, each
   * between two gaps, with a comma between neighbours and none after the
   * last: `params.length - 1` commas in all.
   */
  lemma ParamSectionShape(names: seq<Ident>)
    ensures |ParamSection(names)| == if names == [] then 0 else 4 * |names| - 1
    ensures forall j :: 0 <= j < |ParamSection(names)| ==>
      j / 4 < |names| && ParamSection(names)[j] == ParamToken(names, j)
  {
    ParamPrefixShape(names, |names|);
  }

  /** A literal a gap can precede: it starts with a non-blank character. */
  predicate GoodLit(tok: Token) {
    tok.Lit? && |tok.text| > 0 && !IsBlank(tok.text[0])
  }

  /** The gap at k, if it is one, precedes a good literal. */
  predicate GapOk(p: Pattern, k: nat)
    requires k + 1 < |p|
  {
    IsGap(p[k]) ==> GoodLit(p[k + 1])
  }

  /** Every gap inside p, except possibly a trailing one, precedes a good literal. */
  predicate Covered(p: Pattern) {
    forall k: nat :: k + 1 < |p| ==> GapOk(p, k)
  }

  predicate EndsInGap(p: Pattern) {
    p != [] && IsGap(p[|p| - 1])
  }

  lemma CoveredConcat(a: Pattern, b: Pattern)
    requires Covered(a) && Covered(b)
    requires EndsInGap(a) ==> b != [] && GoodLit(b[0])
    ensures Covered(a + b)
    ensures EndsInGap(a + b) == if b == [] then EndsInGap(a) else EndsInGap(b)
  {
    var ab := a + b;
    forall k: nat | k + 1 < |ab|
      ensures GapOk(ab, k)
    {
      if k + 1 < |a| {
        assert GapOk(a, k);
        assert ab[k] == a[k] && ab[k + 1] == a[k + 1];
      } else if k + 1 == |a| {
        assert ab[k] == a[k] && ab[k + 1] == b[0];
      } else {
        assert GapOk(b, k - |a|);
        assert ab[k] == b[k - |a|] && ab[k + 1] == b[k + 1 - |a|];
      }
    }
    if b != [] {
      assert ab[|ab| - 1] == b[|b| - 1];
    }
  }

  lemma CoveredWellSeparated(p: Pattern)
    requires Covered(p) && !EndsInGap(p)
    ensures WellSeparated(p)
  {
    forall k | 0 <= k < |p| && IsGap(p[k])
      ensures k + 1 < |p| && GoodLit(p[k + 1])
    {
      assert k + 1 < |p|;
      assert GapOk(p, k);
    }
  }

  /** Every parameter section is covered and ends in a gap unless it is empty. */
  lemma {:induction false} ParamPrefixCovered(names: seq<Ident>, i: nat)
    requires i <= |names|
    ensures Covered(ParamPrefix(names, i))
    ensures EndsInGap(ParamPrefix(names, i)) <==> i == |names| && i > 0
  {
    if i > 0 {
      ParamPrefixCovered(names, i - 1);
      var item := ParamItem(names, i - 1);
      assert item[0] == Any && item[1] == Lit(names[i - 1]) && item[2] == Any;
      assert Covered(item);
      CoveredConcat(ParamPrefix(names, i - 1), item);
    }
  }

  /** A pattern, its parameter section spliced between `(` and `)`. */
  lemma Parenthesised(head: Pattern, names: seq<Ident>, tail: Pattern)
    requires Covered(head) && head != [] && head[|head| - 1] == Lit("(")
    requires Covered(tail) && !EndsInGap(tail) && tail != [] && tail[0] == Lit(")")
    ensures Covered(head + ParamSection(names) + tail) && !EndsInGap(head + ParamSection(names) + tail)
    ensures WellSeparated(head + ParamSection(names) + tail)
    ensures (head + ParamSection(names) + tail)[0] == head[0]
  {
    ParamPrefixCovered(names, |names|);
    CoveredConcat(head, ParamSection(names));
    CoveredConcat(head + ParamSection(names), tail);
    CoveredWellSeparated(head + ParamSection(names) + tail);
  }

  lemma FunctionHeaderWellSeparated(id: Node, params: seq<Node>, isAsync: bool, isGenerator: bool)
    ensures WellSeparated(FunctionHeader(id, params, isAsync, isGenerator))
  {
    var gen: Pattern := if isGenerator then [Any, Lit("*"), Any] else [Many];
    var named := [Lit(NameText(id)), Any, Lit("(")];
    CoveredConcat(AsyncPrefix(isAsync), [Lit("function")]);
    CoveredConcat(AsyncPrefix(isAsync) + [Lit("function")], gen);
    CoveredConcat(AsyncPrefix(isAsync) + [Lit("function")] + gen, named);
    Parenthesised(AsyncPrefix(isAsync) + [Lit("function")] + gen + named, ParamTexts(params), [Lit(")"), Any, Lit("{")]);
  }

  lemma FunctionValueHeaderWellSeparated(id: Node, params: seq<Node>, isAsync: bool, isGenerator: bool)
    ensures WellSeparated(FunctionValueHeader(id, params, isAsync, isGenerator))
  {
    var lhs := [Lit(NameText(id)), Any, Lit("="), Any];
    var gen: Pattern := if isGenerator then [Any, Lit("*")] else [];
    CoveredConcat(AsyncPrefix(isAsync), [Lit("function")]);
    CoveredConcat(lhs, AsyncPrefix(isAsync) + [Lit("function")]);
    assert lhs + AsyncPrefix(isAsync) + [Lit("function")] == lhs + (AsyncPrefix(isAsync) + [Lit("function")]);
    var h1 := lhs + AsyncPrefix(isAsync) + [Lit("function")];
    CoveredConcat(h1, gen);
    CoveredConcat(h1 + gen, [Any, Lit("(")]);
    Parenthesised(h1 + gen + [Any, Lit("(")], ParamTexts(params), [Lit(")"), Any, Lit("{")]);
  }

  lemma ArrowHeaderWellSeparated(id: Node, params: seq<Node>, isAsync: bool)
    ensures WellSeparated(ArrowHeader(id, params, isAsync))
  {
    var lhs := [Lit(NameText(id)), Any, Lit("="), Any];
    CoveredConcat(AsyncPrefix(isAsync), [Lit("(")]);
    CoveredConcat(lhs, AsyncPrefix(isAsync) + [Lit("(")]);
    assert lhs + AsyncPrefix(isAsync) + [Lit("(")] == lhs + (AsyncPrefix(isAsync) + [Lit("(")]);
    Parenthesised(lhs + AsyncPrefix(isAsync) + [Lit("(")], ParamTexts(params), [Lit(")"), Any, Lit("=>")]);
  }

  lemma MethodRestCovered(key: Node, params: seq<Node>, kind: MethodKind)
    requires kind == Set ==> |params| >= 1
    ensures Covered(MethodRest(key, params, kind)) && !EndsInGap(MethodRest(key, params, kind))
    ensures MethodRest(key, params, kind)[0] == Lit(NameText(key))
  {
    var named := [Lit(NameText(key)), Any, Lit("(")];
    var tail := [Lit(")"), Any, Lit("{")];
    if kind == Set || kind == Get {
      var mid := MethodParams(kind, params);
      assert Covered(mid);
      CoveredConcat(named, mid);
      CoveredConcat(named + mid, tail);
    } else {
      Parenthesised(named, ParamTexts(params), tail);
    }
  }

  /** Keyword prefixes, each a keyword and a Many gap, in front of a covered pattern. */
  lemma KeywordsWellSeparated(s: Pattern, k: Pattern, rest: Pattern)
    requires s == [] || (|s| == 2 && GoodLit(s[0]) && s[1] == Many)
    requires k == [] || (|k| == 2 && GoodLit(k[0]) && k[1] == Many)
    requires Covered(rest) && !EndsInGap(rest) && rest != [] && GoodLit(rest[0])
    ensures WellSeparated(s + k + rest)
  {
    CoveredConcat(k, rest);
    assert (k + rest)[0] == if k != [] then k[0] else rest[0];
    CoveredConcat(s, k + rest);
    assert s + k + rest == s + (k + rest);
    CoveredWellSeparated(s + k + rest);
  }

  lemma MethodHeaderWellSeparated(key: Node, params: seq<Node>, kind: MethodKind, isStatic: bool)
    requires kind == Set ==> |params| >= 1
    ensures WellSeparated(MethodHeader(key, params, kind, isStatic))
  {
    MethodRestCovered(key, params, kind);
    KeywordsWellSeparated(StaticPrefix(isStatic), KindPrefix(kind), MethodRest(key, params, kind));
  }

  /**
   * Every header pattern is well separated, so matching it at a fixed
   * position has a single outcome and the greedy matcher finds it.
   */
  lemma HeaderWellSeparated(n: Node)
    requires Documentable(n)
    ensures WellSeparated(HeaderPattern(n))
  {
    match n
    case FunctionDeclaration(id, params, _, isAsync, isGenerator) =>
      FunctionHeaderWellSeparated(id, params, isAsync, isGenerator);
    case VariableDeclarator(id, init) =>
      if init.FunctionExpression? {
        FunctionValueHeaderWellSeparated(id, init.params, init.isAsync, init.isGenerator);
      } else {
        ArrowHeaderWellSeparated(id, init.params, init.isAsync);
      }
    case ClassDeclaration(id, _) =>
    case MethodDefinition(key, value, kind, isStatic) =>
      MethodHeaderWellSeparated(key, value.params, kind, isStatic);
  }

  /** The class header pattern is the one `extractClass` searches for. */
  lemma ClassHeaderIsClassPattern(n: Node)
    requires n.ClassDeclaration? && Documentable(n)
    ensures HeaderPattern(n) == ClassIsolator.ClassPattern(n.id.name)
    ensures HeaderPattern(n) == [Lit("class"), Many, Lit(n.id.name), Any, Lit("{")]
  {
  }

  /** `async` puts `async` and a Many gap in front of the rest of a function declaration's header. */
  lemma AsyncAddsPrefix(id: Node, params: seq<Node>, isGenerator: bool)
    ensures FunctionHeader(id, params, true, isGenerator) ==
      [Lit("async"), Many] + FunctionHeader(id, params, false, isGenerator)
  {
  }

  /** For a variable holding a function, `async` and a Many gap go right after `name any = any`. */
  lemma AsyncValueAddsPrefix(id: Node, params: seq<Node>, isGenerator: bool)
    ensures var plain := FunctionValueHeader(id, params, false, isGenerator);
      FunctionValueHeader(id, params, true, isGenerator) == plain[..4] + [Lit("async"), Many] + plain[4..]
  {
    var lhs := [Lit(NameText(id)), Any, Lit("="), Any];
    var gen: Pattern := if isGenerator then [Any, Lit("*")] else [];
    var ps := ParamSection(ParamTexts(params));
    var close := [Lit(")"), Any, Lit("{")];
    var tail := [Lit("function")] + gen + [Any, Lit("(")] + ps + close;
    assert FunctionValueHeader(id, params, false, isGenerator) == lhs + [] + [Lit("function")] + gen + [Any, Lit("(")] + ps + close;
    assert FunctionValueHeader(id, params, true, isGenerator) == lhs + [Lit("async"), Many] + [Lit("function")] + gen + [Any, Lit("(")] + ps + close;
    Reassoc(lhs, [], [Lit("function")], gen, [Any, Lit("(")], ps, close);
    Reassoc(lhs, [Lit("async"), Many], [Lit("function")], gen, [Any, Lit("(")], ps, close);
    InsertAfter(lhs, tail);
  }

  /** For an arrow function, `async` and a Many gap go right after `name any = any`. */
  lemma AsyncArrowAddsPrefix(id: Node, params: seq<Node>)
    ensures var plain := ArrowHeader(id, params, false);
      ArrowHeader(id, params, true) == plain[..4] + [Lit("async"), Many] + plain[4..]
  {
    var lhs := [Lit(NameText(id)), Any, Lit("="), Any];
    var tail := [Lit("(")] + ParamSection(ParamTexts(params)) + [Lit(")"), Any, Lit("=>")];
    assert ArrowHeader(id, params, false) == lhs + tail;
    InsertAfter(lhs, tail);
    assert ArrowHeader(id, params, true) == lhs + [Lit("async"), Many] + tail;
  }

  /** Concatenation regrouped after an optional prefix b. */
  lemma Reassoc(a: Pattern, b: Pattern, c: Pattern, d: Pattern, e: Pattern, f: Pattern, g: Pattern)
    ensures a + b + c + d + e + f + g == a + b + (c + d + e + f + g)
  {
  }

  /** The two halves of a concatenation are recovered by slicing. */
  lemma InsertAfter(lhs: Pattern, tail: Pattern)
    ensures (lhs + tail)[..|lhs|] == lhs && (lhs + tail)[|lhs|..] == tail
  {
  }

  /** `static` puts `static` and a Many gap in front of the rest of a method's header. */
  lemma StaticAddsPrefix(key: Node, params: seq<Node>, kind: MethodKind)
    requires kind == Set ==> |params| >= 1
    ensures MethodHeader(key, params, kind, true) == [Lit("static"), Many] + MethodHeader(key, params, kind, false)
  {
    var rest := MethodRest(key, params, kind);
    assert MethodPrefix(kind, false) == KindPrefix(kind);
    assert MethodHeader(key, params, kind, true) == [Lit("static"), Many] + (KindPrefix(kind) + rest);
  }

  /** A getter's header lists no parameters, whatever the function has. */
  lemma GetterHeader(key: Node, params: seq<Node>)
    ensures MethodHeader(key, params, Get, false) ==
      [Lit("get"), Many, Lit(NameText(key)), Any, Lit("("), Lit(")"), Any, Lit("{")]
  {
  }

  /** A setter's header lists its first parameter and nothing after it. */
  lemma SetterHeader(key: Node, params: seq<Node>)
    requires |params| >= 1
    ensures MethodHeader(key, params, Set, false) ==
      [Lit("set"), Many, Lit(NameText(key)), Any, Lit("("), Any, Lit(NameText(params[0])), Any, Lit(")"), Any, Lit("{")]
    ensures forall extra: seq<Node> :: MethodHeader(key, params[..1] + extra, Set, false) == MethodHeader(key, params, Set, false)
  {
    forall extra: seq<Node>
      ensures MethodHeader(key, params[..1] + extra, Set, false) == MethodHeader(key, params, Set, false)
    {
      assert (params[..1] + extra)[0] == params[0];
    }
  }

  /** Plain methods and constructors list every parameter in order. */
  lemma MethodListsParams(key: Node, params: seq<Node>, kind: MethodKind)
    requires kind == Method || kind == Constructor
    ensures MethodHeader(key, params, kind, false) ==
      [Lit(NameText(key)), Any, Lit("(")] + ParamSection(ParamTexts(params)) + [Lit(")"), Any, Lit("{")]
  {
    assert MethodPrefix(kind, false) == [];
    assert MethodParams(kind, params) == ParamSection(ParamTexts(params));
  }
  /**
   * A header pattern finds its own rendering, the text with every gap written
   * as its shortest blank run: the leftmost match starts at or before any
   * place the rendering occurs, and where it starts there it covers exactly
   * the rendering.
   */
  lemma HeaderFindsRendering(n: Node, t: string, i: nat)
    requires Documentable(n)
    requires i + |Render(HeaderPattern(n))| <= |t| && t[i..i + |Render(HeaderPattern(n))|] == Render(HeaderPattern(n))
    ensures Exec(HeaderPattern(n), t).Some? && Exec(HeaderPattern(n), t).value.index <= i
    ensures Exec(HeaderPattern(n), t).value.index == i ==>
      Exec(HeaderPattern(n), t).value.finish == i + |Render(HeaderPattern(n))|
  {
    HeaderWellSeparated(n);
    FindsRendering(HeaderPattern(n), t, i);
  }

  /**
   * Patterns have no word boundaries: the header of an arrow function
   * `name = () => ...` is found one character in, after any other character,
   * so also inside a longer name that ends with `name`.
   */
  lemma MatchesInsideLongerName(name: Ident, c: char, rest: string)
    requires c != name[0]
    ensures
      var n := VariableDeclarator(Identifier(name), ArrowFunctionExpression([], Literal, false));
      Exec(HeaderPattern(n), [c] + name + "=()=>" + rest) == Some(Match(1, 1 + |name| + 5))
  {
    var n := VariableDeclarator(Identifier(name), ArrowFunctionExpression([], Literal, false));
    var t := [c] + name + "=()=>" + rest;
    EmptyArrowRendering(name);
    SliceAfterFirst(c, name + "=()=>", rest);
    assert t == [c] + (name + "=()=>") + rest;
    HeaderFindsRendering(n, t, 1);
    HeaderWellSeparated(n);
    ExecOpensWithLiteral(HeaderPattern(n), t);
    assert t[0] == c;
  }

  lemma EmptyArrowRendering(name: Ident)
    ensures
      var p := HeaderPattern(VariableDeclarator(Identifier(name), ArrowFunctionExpression([], Literal, false)));
      p[0] == Lit(name) && Render(p) == name + "=()=>"
  {
    var p := HeaderPattern(VariableDeclarator(Identifier(name), ArrowFunctionExpression([], Literal, false)));
    assert ParamSection(ParamTexts([])) == [];
    assert p == [Lit(name), Any, Lit("="), Any, Lit("("), Lit(")"), Any, Lit("=>")];
    assert p[1..] == [Any, Lit("="), Any, Lit("("), Lit(")"), Any, Lit("=>")];
    var q0: Pattern := [Lit("=>")];
    var q1 := [Any] + q0;
    var q2 := [Lit(")")] + q1;
    var q3 := [Lit("(")] + q2;
    var q4 := [Any] + q3;
    var q5 := [Lit("=")] + q4;
    var q6 := [Any] + q5;
    RenderCons(Lit("=>"), []);
    assert [Lit("=>")] + [] == q0;
    RenderCons(Any, q0);
    RenderCons(Lit(")"), q1);
    RenderCons(Lit("("), q2);
    RenderCons(Any, q3);
    RenderCons(Lit("="), q4);
    RenderCons(Any, q5);
    assert Render(q6) == "=()=>";
    assert p[1..] == q6;
  }

  lemma SliceAfterFirst(c: char, u: string, rest: string)
    ensures ([c] + u + rest)[1..1 + |u|] == u
  {
    var t := [c] + u + rest;
    forall i | 0 <= i < |u|
      ensures t[1..1 + |u|][i] == u[i]
    {
      assert t[1 + i] == u[i];
    }
  }

  /**
   * The word a header opens with: `async` or `function` for a function
   * declaration, the name for a variable, `class`, and for a method
   * `static`, `get`, `set` or its name.
   */
  function OpeningWord(n: Node): (w: string)
    requires Documentable(n)
    ensures |w| > 0 && !IsBlank(w[0])
  {
    if n.FunctionDeclaration? then (if n.isAsync then "async" else "function")
    else if n.VariableDeclarator? then NameText(n.id)
    else if n.ClassDeclaration? then "class"
    else if n.isStatic then "static"
    else if n.methodKind == Get then "get"
    else if n.methodKind == Set then "set"
    else NameText(n.key)
  }

  /** Every header pattern opens with its opening word as a literal. */
  lemma HeaderStartsWithWord(n: Node)
    requires Documentable(n)
    ensures var p := HeaderPattern(n);
      p != [] && p[0] == Lit(OpeningWord(n))
  {
    var p := HeaderPattern(n);
    if n.MethodDefinition? {
      var rest := MethodRest(n.key, n.value.params, n.methodKind);
      assert rest[0] == Lit(NameText(n.key));
      assert p == StaticPrefix(n.isStatic) + KindPrefix(n.methodKind) + rest;
    }
  }
}
