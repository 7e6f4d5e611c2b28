/**
 * `metainfo` and `scout` of utils/scout.js: for each found entity, search
 * its header pattern in the normalised text (a method's in its class's
 * text, extracted once per class name and cached), turn the match offset
 * into a line and an indentation, and record what the documentation
 * writer needs. Entities whose header is not found are dropped.
 */
module Assembler {
  import opened Estree
  import opened Matcher
  import opened SourceText
  import opened ClassIsolator
  import opened Headers
  import opened Discoverer

  /** One record of the result: classes carry no class name and no parameters. */
  datatype Meta =
    | ClassMeta(line: int, indent: int, header: string)
    | FunctionMeta(nodeType: string, line: int, indent: int, header: string,
                   cls: Option<Ident>, params: seq<Option<Ident>>)

  /** `new RegExp(...).exec(text).index` on a null match: a class header that is not in the text. */
  datatype Failure = ClassHeaderMissing(className: Ident)

  datatype Result<T> = Ok(value: T) | Err(failure: Failure)

  /** The cache key and the class name spliced into the class pattern: `null` stringifies as "null". */
  function ClassKey(cls: Option<Ident>): (k: Ident)
    ensures cls.Some? ==> k == cls.value
    ensures cls.None? ==> k == "null"
  {
    if cls.Some? then cls.value else "null"
  }

  /** The record pushed for an entity found at loc, whose header matched as `header`. */
  function Describe(e: Entity, loc: Location, header: string): (m: Meta)
    requires Collected(e)
    ensures m.line == loc.line && m.indent == loc.indent
    ensures m.ClassMeta? <==> e.content.ClassDeclaration?
    ensures m.FunctionMeta? ==> m.cls == e.cls
    ensures |header| <= |m.header| && m.header[|m.header| - |header|..] == header
    ensures m.header != header ==> e.content.VariableDeclarator?
  {
    var n := e.content;
    if n.ClassDeclaration? then ClassMeta(loc.line, loc.indent, header)
    else if n.MethodDefinition? then
      FunctionMeta("MethodDefinition", loc.line, loc.indent, header, e.cls, ParamNames(n.value.params))
    else if n.FunctionDeclaration? then
      FunctionMeta("FunctionDeclaration", loc.line, loc.indent, header, e.cls, ParamNames(n.params))
    else
      FunctionMeta("VariableDeclarator", loc.line, loc.indent, e.declKind.value + " " + header,
                   e.cls, ParamNames(n.init.params))
  }

  /**
   * The record for a search result in `haystack`, which starts at offset
   * `offset` of the text; nothing when there is no match or the location
   * is not found.
   */
  function Place(e: Entity, found: Option<Match>, haystack: string, offset: nat, lines: seq<string>): (r: Option<Meta>)
    requires Collected(e)
    requires found.Some? ==> found.value.index <= found.value.finish <= |haystack|
    ensures r.Some? <==> found.Some? && offset + found.value.index < Total(lines)
    ensures r.Some? ==> LocatedAt(offset + found.value.index, lines, Location(r.value.line, r.value.indent))
  {
    match found
    case None => None
    case Some(m) =>
      PositionLocates(m.index + offset, lines);
      var loc := Position(m.index + offset, lines);
      if loc.line == -1 || loc.indent == -1 then None
      else Some(Describe(e, loc, Matched(haystack, m)))
  }

  /** What one entity contributes: a method is searched in its class's text. */
  function Entry(e: Entity, text: string, lines: seq<string>): (r: Result<Option<Meta>>)
    requires Collected(e)
    ensures r.Err? <==> e.content.MethodDefinition? && ClassSpan(ClassKey(e.cls), text).None?
    ensures r.Err? ==> r.failure == ClassHeaderMissing(ClassKey(e.cls))
  {
    if e.content.MethodDefinition? then
      match ClassSpan(ClassKey(e.cls), text)
      case None => Err(ClassHeaderMissing(ClassKey(e.cls)))
      case Some(ct) => Ok(Place(e, Exec(HeaderPattern(e.content), ct.text), ct.text, ct.start, lines))
    else
      Ok(Place(e, Exec(HeaderPattern(e.content), text), text, 0, lines))
  }

  predicate AllCollected(es: seq<Entity>) {
    forall i :: 0 <= i < |es| ==> Collected(es[i])
  }

  /** The entries of a list of entities, one per entity. */
  function Entries(es: seq<Entity>, text: string, lines: seq<string>): (rs: seq<Result<Option<Meta>>>)
    requires AllCollected(es)
    ensures |rs| == |es| && forall i :: 0 <= i < |es| ==> rs[i] == Entry(es[i], text, lines)
  {
    seq(|es|, i requires 0 <= i < |es| && AllCollected(es) => Entry(es[i], text, lines))
  }

  /** The records of a list of entries, in order; the first failure ends it. */
  function Gather(rs: seq<Result<Option<Meta>>>): Result<seq<Meta>> {
    if rs == [] then Ok([])
    else
      match Gather(rs[..|rs| - 1])
      case Err(f) => Err(f)
      case Ok(ms) =>
        match rs[|rs| - 1]
        case Err(f) => Err(f)
        case Ok(o) => Ok(ms + (if o.Some? then [o.value] else []))
  }

  /** `metainfo(docnodes, basetext)` as a value. */
  function MetaOf(es: seq<Entity>, basetext: string): Result<seq<Meta>>
    requires AllCollected(es)
  {
    var text := Normalize(basetext);
    Gather(Entries(es, text, SplitLines(text)))
  }

  /** Once a prefix fails, the whole list fails with the same failure. */
  lemma {:induction false} GatherErrSticks(rs: seq<Result<Option<Meta>>>, k: nat)
    requires k <= |rs| && Gather(rs[..k]).Err?
    ensures Gather(rs) == Gather(rs[..k])
  {
    if k < |rs| {
      var init := rs[..|rs| - 1];
      assert init[..k] == rs[..k];
      GatherErrSticks(init, k);
    } else {
      assert rs[..k] == rs;
    }
  }

  /** One more entry: its record appended, or its failure. */
  lemma GatherStep(rs: seq<Result<Option<Meta>>>, i: nat, ms: seq<Meta>)
    requires i < |rs| && Gather(rs[..i]) == Ok(ms)
    ensures rs[i].Err? ==> Gather(rs[..i + 1]) == Err(rs[i].failure)
    ensures rs[i].Ok? ==>
      Gather(rs[..i + 1]) == Ok(ms + (if rs[i].value.Some? then [rs[i].value.value] else []))
  {
    assert rs[..i + 1][..i] == rs[..i];
  }

  /**
   * The search of one entity's header in `haystack`, which starts at
   * offset `offset` of the text, and the record pushed when the location
   * is found (`lineloc` and `indent` both other than -1).
   */
  method Record(node: Entity, haystack: string, offset: nat, lines: seq<string>) returns (o: Option<Meta>)
    requires Collected(node)
    ensures o == Place(node, Exec(HeaderPattern(node.content), haystack), haystack, offset, lines)
  {
    var pattern := BuildPattern(node.content);
    var reg := Exec(pattern, haystack);
    var lineloc := -1;
    var indent := 0;
    if reg.Some? {
      var loc := IndexToLine(reg.value.index + offset, lines);
      lineloc, indent := loc.line, loc.indent;
    }
    if lineloc == -1 || indent == -1 {
      return None;
    }
    assert Location(lineloc, indent) == Position(reg.value.index + offset, lines);
    return Some(Describe(node, Location(lineloc, indent), Matched(haystack, reg.value)));
  }

  /** The cache of class texts: every entry is what `extractClass` returns for its key. */
  predicate CacheSound(classtext: map<Ident, ClassText>, text: string) {
    forall k :: k in classtext ==> ClassSpan(k, text) == Some(classtext[k])
  }

  /**
   * The body of `metainfo`'s loop for one entity: a method's class text
   * comes from the cache, or from `extractClass` when its key is new
   * (`added` is then that key).
   */
  method Search(node: Entity, text: string, lines: seq<string>, classtext: map<Ident, ClassText>)
    returns (o: Result<Option<Meta>>, cache: map<Ident, ClassText>, ghost added: seq<Ident>)
    requires Collected(node) && CacheSound(classtext, text)
    ensures o == Entry(node, text, lines)
    ensures CacheSound(cache, text)
    ensures forall k :: k in cache <==> k in classtext || k in added
    ensures forall k :: k in added ==> k !in classtext
    ensures |added| <= 1
  {
    cache, added := classtext, [];
    if node.content.MethodDefinition? {
      var key := ClassKey(node.cls);
      if key !in cache {
        var ct := ExtractClass(key, text);
        if ct.None? {
          return Err(ClassHeaderMissing(key)), cache, added;
        }
        cache := cache[key := ct.value];
        added := [key];
      }
      var found := Record(node, cache[key].text, cache[key].start, lines);
      o := Ok(found);
    } else {
      var found := Record(node, text, 0, lines);
      o := Ok(found);
    }
  }

  predicate Distinct(xs: seq<Ident>) {
    forall a, b :: 0 <= a < b < |xs| ==> xs[a] != xs[b]
  }

  lemma AppendFresh(xs: seq<Ident>, ys: seq<Ident>)
    requires Distinct(xs) && |ys| <= 1 && forall k :: k in ys ==> k !in xs
    ensures Distinct(xs + ys)
  {
    if |ys| == 1 {
      forall a | 0 <= a < |xs|
        ensures xs[a] != ys[0]
      {
        assert xs[a] in xs;
      }
    }
  }

  /**
   * `metainfo(docnodes, basetext)`. `extracted` lists the class names whose
   * text was cached: every one has a header. A name without one is passed
   * to `extractClass` once too, and that ends the run with its failure.
   */
  method Metainfo(docnodes: seq<Entity>, basetext: string) returns (r: Result<seq<Meta>>, ghost extracted: seq<Ident>)
    requires AllCollected(docnodes)
    ensures r == MetaOf(docnodes, basetext)
    ensures Distinct(extracted)
    ensures forall k :: k in extracted ==> ClassSpan(k, Normalize(basetext)).Some?
  {
    var meta: seq<Meta> := [];
    var text := Normalize(basetext);
    var lines := SplitLines(text);
    var classtext: map<Ident, ClassText> := map[];
    extracted := [];
    ghost var rs := Entries(docnodes, text, lines);
    for i := 0 to |docnodes|
      invariant Gather(rs[..i]) == Ok(meta)
      invariant CacheSound(classtext, text)
      invariant forall k :: k in extracted <==> k in classtext
      invariant Distinct(extracted)
    {
      var o, cache, added := Search(docnodes[i], text, lines, classtext);
      assert o == rs[i];
      GatherStep(rs, i, meta);
      if o.Err? {
        r := Err(o.failure);
        GatherErrSticks(rs, i + 1);
        return;
      }
      AppendFresh(extracted, added);
      classtext := cache;
      extracted := extracted + added;
      ghost var next := meta + (if o.value.Some? then [o.value.value] else []);
      if o.value.Some? {
        meta := meta + [o.value.value];
      }
      assert meta == next;
    }
    assert rs[..|docnodes|] == rs;
    r := Ok(meta);
  }

  /** `scout(filecontents)` on the tree the parser produced for it. */
  method Scout(root: Node, filecontents: string) returns (r: Result<seq<Meta>>)
    requires Walkable(root)
    ensures AllCollected(Discover(root, None))
    ensures r == MetaOf(Discover(root, None), filecontents)
  {
    WalkableTraversable(root);
    DiscoveredCollected(root, None);
    var nodes := Documentables(root);
    ghost var calls;
    r, calls := Metainfo(nodes, filecontents);
  }

  /** The result succeeds exactly when every entry does, and otherwise fails with the first failure. */
  lemma {:induction false} GatherOutcome(rs: seq<Result<Option<Meta>>>)
    ensures Gather(rs).Ok? <==> forall i :: 0 <= i < |rs| ==> rs[i].Ok?
    ensures Gather(rs).Err? ==>
      exists i :: 0 <= i < |rs| && rs[i] == Err(Gather(rs).failure) && forall j :: 0 <= j < i ==> rs[j].Ok?
  {
    if rs != [] {
      var init := rs[..|rs| - 1];
      GatherOutcome(init);
      assert forall j :: 0 <= j < |init| ==> init[j] == rs[j];
    }
  }

  /** The positions of the entries that contribute a record, in order. */
  function Kept(rs: seq<Result<Option<Meta>>>): (ks: seq<nat>)
    ensures forall k :: 0 <= k < |ks| ==> ks[k] < |rs|
  {
    if rs == [] then []
    else
      var last := rs[|rs| - 1];
      Kept(rs[..|rs| - 1]) + (if last.Ok? && last.value.Some? then [|rs| - 1] else [])
  }

  /**
   * The records are those of the kept entries, in the entries' order: an
   * entry is dropped exactly when it records nothing.
   */
  lemma GatherKeepsOrder(rs: seq<Result<Option<Meta>>>)
    requires Gather(rs).Ok?
    ensures var ms := Gather(rs).value;
      var ks := Kept(rs);
      && |ms| == |ks|
      && (forall k :: 0 <= k < |ks| ==> rs[ks[k]] == Ok(Some(ms[k])))
      && (forall a, b :: 0 <= a < b < |ks| ==> ks[a] < ks[b])
      && (forall i :: 0 <= i < |rs| ==> (i in ks <==> rs[i].Ok? && rs[i].value.Some?))
  {
    GatherKept(rs);
    KeptIncreasing(rs);
    KeptExactly(rs);
  }

  lemma {:induction false} GatherKept(rs: seq<Result<Option<Meta>>>)
    requires Gather(rs).Ok?
    ensures |Gather(rs).value| == |Kept(rs)|
    ensures forall k :: 0 <= k < |Kept(rs)| ==> rs[Kept(rs)[k]] == Ok(Some(Gather(rs).value[k]))
  {
    if rs != [] {
      var init := rs[..|rs| - 1];
      GatherKept(init);
      assert forall j :: 0 <= j < |init| ==> init[j] == rs[j];
    }
  }

  lemma {:induction false} KeptIncreasing(rs: seq<Result<Option<Meta>>>)
    ensures forall a, b :: 0 <= a < b < |Kept(rs)| ==> Kept(rs)[a] < Kept(rs)[b]
  {
    if rs != [] {
      KeptIncreasing(rs[..|rs| - 1]);
    }
  }

  lemma {:induction false} KeptExactly(rs: seq<Result<Option<Meta>>>)
    ensures forall i :: 0 <= i < |rs| ==> (i in Kept(rs) <==> rs[i].Ok? && rs[i].value.Some?)
  {
    if rs != [] {
      var init := rs[..|rs| - 1];
      KeptExactly(init);
      forall i | 0 <= i < |init|
        ensures i in Kept(rs) <==> i in Kept(init)
      {
      }
    }
  }

  /** An entry fails exactly for a method whose class header occurs nowhere in the text. */
  lemma EntryFailsOnlyWithoutClassHeader(e: Entity, text: string, lines: seq<string>)
    requires Collected(e)
    ensures Entry(e, text, lines).Err? <==> e.content.MethodDefinition? && !HeaderOccurs(ClassKey(e.cls), text)
    ensures Entry(e, text, lines).Err? ==> Entry(e, text, lines).failure == ClassHeaderMissing(ClassKey(e.cls))
  {
    ClassSpanMissing(ClassKey(e.cls), text);
  }

  /**
   * The record sits at 1-based line `m.line` and column `m.indent` of the
   * lines, which is offset `at` of the text and holds the character c.
   */
  predicate RecordedAt(m: Meta, lines: seq<string>, at: int, c: char) {
    HoldsAt(lines, Location(m.line, m.indent), at, c)
  }

  /**
   * A match whose first character c sits at an offset inside the text is
   * always recorded, at the line and column of that offset, which hold c;
   * no match, no record.
   */
  lemma PlaceFound(e: Entity, found: Option<Match>, c: char, haystack: string, offset: nat, text: string)
    requires Collected(e) && c != '\n'
    requires found.Some? ==>
      && found.value.index < found.value.finish <= |haystack|
      && offset + found.value.index < |text|
      && text[offset + found.value.index] == c
    ensures var lines := SplitLines(text);
      var r := Place(e, found, haystack, offset, lines);
      && (r.None? <==> found.None?)
      && (r.Some? ==> RecordedAt(r.value, lines, offset + found.value.index, c))
  {
    if found.Some? {
      var lines := SplitLines(text);
      var o := offset + found.value.index;
      var loc := Position(o, lines);
      var m := Describe(e, loc, Matched(haystack, found.value));
      PositionOfChar(text, o);
      PlaceUnfold(e, found.value, haystack, offset, lines);
      DescribeAt(e, loc, Matched(haystack, found.value), lines, o, c);
      assert Place(e, found, haystack, offset, lines) == Some(m) && RecordedAt(m, lines, o, c);
    }
  }

  /** The record for an entity found at a location of the lines sits there. */
  lemma DescribeAt(e: Entity, loc: Location, header: string, lines: seq<string>, at: int, c: char)
    requires Collected(e)
    requires HoldsAt(lines, loc, at, c)
    ensures RecordedAt(Describe(e, loc, header), lines, at, c)
  {
  }

  /** A match whose location is found is recorded there. */
  lemma PlaceUnfold(e: Entity, m: Match, haystack: string, offset: nat, lines: seq<string>)
    requires Collected(e) && m.index <= m.finish <= |haystack|
    requires Position(m.index + offset, lines).line != -1 && Position(m.index + offset, lines).indent != -1
    ensures Place(e, Some(m), haystack, offset, lines) ==
      Some(Describe(e, Position(m.index + offset, lines), Matched(haystack, m)))
  {
  }

  /**
   * A function, variable or class is dropped exactly when its header
   * occurs nowhere in the text; otherwise its record sits at the offset of
   * the first occurrence, whose character is the first character of the
   * header's opening word.
   */
  lemma TopLevelEntry(e: Entity, text: string)
    requires Collected(e) && !e.content.MethodDefinition?
    ensures var lines := SplitLines(text);
      var p := HeaderPattern(e.content);
      var r := Entry(e, text, lines);
      && r.Ok?
      && (r.value.None? <==> forall i: nat, j: nat :: !Derives(p, text, i, j))
      && (r.value.Some? ==>
            Exec(p, text).Some? && RecordedAt(r.value.value, lines, Exec(p, text).value.index, OpeningWord(e.content)[0]))
  {
    HeaderWellSeparated(e.content);
    HeaderStartsWithWord(e.content);
    assert text[0..|text|] == text;
    SearchPlaced(e, HeaderPattern(e.content), text, 0, text);
    TopLevelSearch(e, text, SplitLines(text));
  }

  /** A function, variable or class is searched in the whole text. */
  lemma TopLevelSearch(e: Entity, text: string, lines: seq<string>)
    requires Collected(e) && !e.content.MethodDefinition?
    ensures Entry(e, text, lines) == Ok(Place(e, Exec(HeaderPattern(e.content), text), text, 0, lines))
  {
  }

  /**
   * A method whose class text balances is dropped exactly when its header
   * occurs nowhere in the class text; otherwise its record sits at the
   * class's start plus the offset of the first occurrence in the class
   * text, whose character is the first character of the header's opening
   * word.
   */
  lemma MethodEntry(e: Entity, text: string)
    requires Collected(e) && e.content.MethodDefinition?
    requires ClassSpan(ClassKey(e.cls), text).Some?
    requires Balances(text, ClassSpan(ClassKey(e.cls), text).value.start)
    ensures var lines := SplitLines(text);
      var ct := ClassSpan(ClassKey(e.cls), text).value;
      var p := HeaderPattern(e.content);
      var r := Entry(e, text, lines);
      && r.Ok?
      && (r.value.None? <==> forall i: nat, j: nat :: !Derives(p, ct.text, i, j))
      && (r.value.Some? ==>
            && Exec(p, ct.text).Some?
            && RecordedAt(r.value.value, lines, ct.start + Exec(p, ct.text).value.index, OpeningWord(e.content)[0]))
  {
    var key := ClassKey(e.cls);
    var ct := ClassSpan(key, text).value;
    MethodSearch(e, text, SplitLines(text));
    BalancedSlice(key, text);
    HeaderWellSeparated(e.content);
    HeaderStartsWithWord(e.content);
    SearchPlaced(e, HeaderPattern(e.content), ct.text, ct.start, text);
  }

  /**
   * Searching a pattern that opens with a word in a slice of the text that
   * starts at `ct.start`: no record exactly when the pattern matches nowhere
   * in the slice, otherwise a record at the slice's start plus the match's
   * offset, where the word's first character sits.
   */
  lemma SearchPlaced(e: Entity, p: Pattern, haystack: string, offset: nat, text: string)
    requires Collected(e)
    requires WellSeparated(p) && p != [] && p[0].Lit? && |p[0].text| > 0 && p[0].text[0] != '\n'
    requires offset + |haystack| <= |text| && haystack == text[offset..offset + |haystack|]
    ensures var lines := SplitLines(text);
      var r := Place(e, Exec(p, haystack), haystack, offset, lines);
      && (r.None? <==> forall i: nat, j: nat :: !Derives(p, haystack, i, j))
      && (r.Some? ==>
            Exec(p, haystack).Some? && RecordedAt(r.value, lines, offset + Exec(p, haystack).value.index, p[0].text[0]))
  {
    ExecOpensWithLiteral(p, haystack);
    SearchInSlice(e, Exec(p, haystack), p[0].text[0], haystack, offset, text);
  }

  /** A search result in a slice of the text placed at the slice's start. */
  lemma SearchInSlice(e: Entity, found: Option<Match>, c: char, haystack: string, offset: nat, text: string)
    requires Collected(e) && c != '\n'
    requires offset + |haystack| <= |text| && haystack == text[offset..offset + |haystack|]
    requires found.Some? ==>
      found.value.index < found.value.finish <= |haystack| && haystack[found.value.index] == c
    ensures var lines := SplitLines(text);
      var r := Place(e, found, haystack, offset, lines);
      && (r.None? <==> found.None?)
      && (r.Some? ==> RecordedAt(r.value, lines, offset + found.value.index, c))
  {
    if found.Some? {
      assert haystack[found.value.index] == text[offset + found.value.index];
    }
    PlaceFound(e, found, c, haystack, offset, text);
  }


  /** A method is searched in its class's text, which starts at the class's start. */
  lemma MethodSearch(e: Entity, text: string, lines: seq<string>)
    requires Collected(e) && e.content.MethodDefinition? && ClassSpan(ClassKey(e.cls), text).Some?
    ensures var ct := ClassSpan(ClassKey(e.cls), text).value;
      Entry(e, text, lines) == Ok(Place(e, Exec(HeaderPattern(e.content), ct.text), ct.text, ct.start, lines))
  {
  }

  /** A balanced class text is the slice of the text from the class's start. */
  lemma BalancedSlice(name: Ident, text: string)
    requires ClassSpan(name, text).Some? && Balances(text, ClassSpan(name, text).value.start)
    ensures var ct := ClassSpan(name, text).value;
      ct.start + |ct.text| <= |text| && ct.text == text[ct.start..ct.start + |ct.text|]
  {
    ClassSpanBalanced(name, text);
  }

  /**
   * When a class's braces never balance, its methods are searched in the
   * text BEFORE the class header, and a match there is placed as though it
   * were inside the class.
   */
  lemma MethodEntryUnbalanced(e: Entity, text: string)
    requires Collected(e) && e.content.MethodDefinition?
    requires ClassSpan(ClassKey(e.cls), text).Some?
    requires !Balances(text, ClassSpan(ClassKey(e.cls), text).value.start)
    ensures var start := ClassSpan(ClassKey(e.cls), text).value.start;
      var before := text[..start];
      Entry(e, text, SplitLines(text)) ==
        Ok(Place(e, Exec(HeaderPattern(e.content), before), before, start, SplitLines(text)))
  {
    ClassSpanUnbalanced(ClassKey(e.cls), text);
  }

  /** What makes the entry of the i-th entity fail. */
  lemma EntryFailure(es: seq<Entity>, i: nat, text: string, lines: seq<string>)
    requires AllCollected(es) && i < |es|
    ensures var r := Entries(es, text, lines)[i];
      && (r.Err? <==> es[i].content.MethodDefinition? && !HeaderOccurs(ClassKey(es[i].cls), text))
      && (r.Err? ==> r.failure == ClassHeaderMissing(ClassKey(es[i].cls)))
  {
    assert Entries(es, text, lines)[i] == Entry(es[i], text, lines);
    EntryFailsOnlyWithoutClassHeader(es[i], text, lines);
  }

  /**
   * `metainfo` fails exactly when some method's class has no header in the
   * normalised text, and then with the first such method's class name.
   */
  lemma MetaOfOutcome(es: seq<Entity>, basetext: string)
    requires AllCollected(es)
    ensures MetaOf(es, basetext).Ok? <==>
      forall i :: 0 <= i < |es| && es[i].content.MethodDefinition? ==>
        HeaderOccurs(ClassKey(es[i].cls), Normalize(basetext))
    ensures MetaOf(es, basetext).Err? ==>
      exists i :: 0 <= i < |es| && es[i].content.MethodDefinition? &&
        !HeaderOccurs(ClassKey(es[i].cls), Normalize(basetext)) &&
        MetaOf(es, basetext).failure == ClassHeaderMissing(ClassKey(es[i].cls)) &&
        forall j :: 0 <= j < i && es[j].content.MethodDefinition? ==>
          HeaderOccurs(ClassKey(es[j].cls), Normalize(basetext))
  {
    var text := Normalize(basetext);
    var lines := SplitLines(text);
    var rs := Entries(es, text, lines);
    GatherOutcome(rs);
    forall i | 0 <= i < |es|
      ensures (rs[i].Err? <==> es[i].content.MethodDefinition? && !HeaderOccurs(ClassKey(es[i].cls), text))
      ensures rs[i].Err? ==> rs[i].failure == ClassHeaderMissing(ClassKey(es[i].cls))
    {
      EntryFailure(es, i, text, lines);
    }
  }
}
