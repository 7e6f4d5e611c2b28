/**
 * `documentables` of utils/scout.js: a walk over an explicit stack that
 * expands only the Program and class declarations, and collects function
 * declarations, class declarations, the methods of class bodies and the
 * variable declarators that hold a function or arrow function.
 */
module Discoverer {
  import opened Estree
  import Visitor

  /** `{class, content, kind}`: `kind` is set for variable declarators only. */
  datatype Entity = Entity(cls: Option<Ident>, content: Node, declKind: Option<string>)

  /** A stack entry `{class, content}`. */
  datatype Frame = Frame(cls: Option<Ident>, content: Node)

  /**
   * What the walk dereferences without a check: every popped node is an
   * object, a class declaration it expands has a name, and the entries of
   * declaration lists and class bodies are objects.
   */
  predicate Traversable(n: Node) {
    match n
    case JsNull => false
    case Program(body) => forall i :: 0 <= i < |body| ==> Traversable(body[i])
    case ClassDeclaration(id, cb) => id.Identifier? && Traversable(cb)
    case VariableDeclaration(_, decls) => forall i :: 0 <= i < |decls| ==> decls[i] != JsNull
    case ClassBody(members) => forall i :: 0 <= i < |members| ==> members[i] != JsNull
    case _ => true
  }

  /** The declarators of a list that hold a function or arrow function, with the declaration's kind. */
  function Declarators(cls: Option<Ident>, kind: string, decls: seq<Node>): seq<Entity> {
    if decls == [] then []
    else
      var d := decls[|decls| - 1];
      Declarators(cls, kind, decls[..|decls| - 1]) +
      (if d.VariableDeclarator? && IsFunctionValue(d.init) then [Entity(cls, d, Some(kind))] else [])
  }

  /** The method definitions of a class body. */
  function Methods(cls: Option<Ident>, members: seq<Node>): seq<Entity> {
    if members == [] then []
    else
      var m := members[|members| - 1];
      Methods(cls, members[..|members| - 1]) +
      (if m.MethodDefinition? then [Entity(cls, m, None)] else [])
  }

  /** What a popped frame contributes itself. */
  function Own(cls: Option<Ident>, n: Node): seq<Entity> {
    match n
    case ClassDeclaration(_, _) => [Entity(None, n, None)]
    case FunctionDeclaration(_, _, _, _, _) => [Entity(cls, n, None)]
    case VariableDeclaration(kind, decls) => Declarators(cls, kind, decls)
    case ClassBody(members) => Methods(cls, members)
    case _ => []
  }

  /** The entities found below a frame, in source order: the reference definition. */
  function Discover(n: Node, cls: Option<Ident>): seq<Entity>
    decreases n, 1
  {
    match n
    case Program(body) => DiscoverAll(body, None)
    case ClassDeclaration(id, cb) => Own(cls, n) + Discover(cb, Name(id))
    case _ => Own(cls, n)
  }

  function DiscoverAll(ns: seq<Node>, cls: Option<Ident>): seq<Entity>
    decreases ns, 0
  {
    if ns == [] then [] else Discover(ns[0], cls) + DiscoverAll(ns[1..], cls)
  }

  /** `nodes.map((n) => {class: cls, content: n})`. */
  function Tag(cls: Option<Ident>, ns: seq<Node>): (fs: seq<Frame>)
    ensures |fs| == |ns| && forall i :: 0 <= i < |ns| ==> fs[i] == Frame(cls, ns[i])
  {
    seq(|ns|, i requires 0 <= i < |ns| => Frame(cls, ns[i]))
  }

  /** `frames.reverse()`. */
  function Reverse(fs: seq<Frame>): (r: seq<Frame>)
    ensures |r| == |fs| && forall i :: 0 <= i < |fs| ==> r[i] == fs[|fs| - 1 - i]
  {
    seq(|fs|, i requires 0 <= i < |fs| => fs[|fs| - 1 - i])
  }

  /** The entities still to be found from a stack whose top is its last entry. */
  function Pending(stack: seq<Frame>): seq<Entity> {
    if stack == [] then []
    else
      var top := stack[|stack| - 1];
      Discover(top.content, top.cls) + Pending(stack[..|stack| - 1])
  }

  /** The entities found below a list of frames, first frame first. */
  function InOrder(fs: seq<Frame>): seq<Entity> {
    if fs == [] then [] else Discover(fs[0].content, fs[0].cls) + InOrder(fs[1..])
  }

  /** The number of nodes the walk still pops below a node. */
  function Size(n: Node): nat
    decreases n, 1
  {
    match n
    case Program(body) => 1 + SizeAll(body)
    case ClassDeclaration(_, cb) => 1 + Size(cb)
    case _ => 1
  }

  function SizeAll(ns: seq<Node>): nat
    decreases ns, 0
  {
    if ns == [] then 0 else Size(ns[0]) + SizeAll(ns[1..])
  }

  function StackSize(stack: seq<Frame>): nat {
    if stack == [] then 0 else Size(stack[|stack| - 1].content) + StackSize(stack[..|stack| - 1])
  }

  function FramesSize(fs: seq<Frame>): nat {
    if fs == [] then 0 else Size(fs[0].content) + FramesSize(fs[1..])
  }

  /** Pushing frames in reverse makes them pop in order. */
  lemma {:induction false} PushReversed(s: seq<Frame>, fs: seq<Frame>)
    ensures Pending(s + Reverse(fs)) == InOrder(fs) + Pending(s)
  {
    if fs == [] {
      assert s + Reverse(fs) == s;
    } else {
      var shorter := s + Reverse(fs[1..]);
      var head := Discover(fs[0].content, fs[0].cls);
      PushReversed(s, fs[1..]);
      ReverseStep(s, fs);
      PushOne(shorter, fs[0]);
      calc {
        Pending(s + Reverse(fs));
        head + Pending(shorter);
        head + (InOrder(fs[1..]) + Pending(s));
        (head + InOrder(fs[1..])) + Pending(s);
        InOrder(fs) + Pending(s);
      }
    }
  }

  /** The frames pushed add their sizes to what the walk still pops. */
  lemma {:induction false} PushReversedSize(s: seq<Frame>, fs: seq<Frame>)
    ensures StackSize(s + Reverse(fs)) == FramesSize(fs) + StackSize(s)
  {
    if fs == [] {
      assert s + Reverse(fs) == s;
    } else {
      var shorter := s + Reverse(fs[1..]);
      PushReversedSize(s, fs[1..]);
      ReverseStep(s, fs);
      PushOneSize(shorter, fs[0]);
    }
  }

  /** Reversing a non-empty list puts its head last. */
  lemma ReverseStep(s: seq<Frame>, fs: seq<Frame>)
    requires fs != []
    ensures s + Reverse(fs) == (s + Reverse(fs[1..])) + [fs[0]]
  {
    assert Reverse(fs) == Reverse(fs[1..]) + [fs[0]];
  }

  /** Pushing one frame puts it first in line. */
  lemma PushOne(t: seq<Frame>, f: Frame)
    ensures Pending(t + [f]) == Discover(f.content, f.cls) + Pending(t)
  {
    assert (t + [f])[..|t|] == t;
  }

  lemma PushOneSize(t: seq<Frame>, f: Frame)
    ensures StackSize(t + [f]) == Size(f.content) + StackSize(t)
  {
    assert (t + [f])[..|t|] == t;
  }

  lemma {:induction false} TagInOrder(cls: Option<Ident>, ns: seq<Node>)
    ensures InOrder(Tag(cls, ns)) == DiscoverAll(ns, cls)
    ensures FramesSize(Tag(cls, ns)) == SizeAll(ns)
  {
    if ns != [] {
      TagInOrder(cls, ns[1..]);
      assert Tag(cls, ns)[1..] == Tag(cls, ns[1..]);
    }
  }

  /** The declarator loop of `documentables`. */
  method CollectDeclarators(cls: Option<Ident>, kind: string, decls: seq<Node>) returns (es: seq<Entity>)
    ensures es == Declarators(cls, kind, decls)
  {
    es := [];
    for i := 0 to |decls|
      invariant es == Declarators(cls, kind, decls[..i])
    {
      var node := decls[i];
      assert decls[..i + 1][..i] == decls[..i];
      if node.VariableDeclarator? && node.init != JsNull &&
         (node.init.FunctionExpression? || node.init.ArrowFunctionExpression?) {
        es := es + [Entity(cls, node, Some(kind))];
      }
    }
    assert decls[..|decls|] == decls;
  }

  /** The class-body loop of `documentables`. */
  method CollectMethods(cls: Option<Ident>, members: seq<Node>) returns (es: seq<Entity>)
    ensures es == Methods(cls, members)
  {
    es := [];
    for i := 0 to |members|
      invariant es == Methods(cls, members[..i])
    {
      var node := members[i];
      assert members[..i + 1][..i] == members[..i];
      if node.MethodDefinition? {
        es := es + [Entity(cls, node, None)];
      }
    }
    assert members[..|members|] == members;
  }

  /**
   * The body of the walk for one popped frame: what it collects itself and
   * the frames it pushes, children first-to-last (they are pushed reversed).
   */
  method Visit(next: Frame) returns (es: seq<Entity>, kids: seq<Frame>)
    requires Traversable(next.content)
    ensures Discover(next.content, next.cls) == es + InOrder(kids)
    ensures FramesSize(kids) < Size(next.content)
    ensures forall i :: 0 <= i < |kids| ==> Traversable(kids[i].content)
  {
    var tree := next.content;
    es, kids := [], [];
    if tree.Program? {
      kids := Tag(None, Visitor.GetChildren(tree));
      ProgramFrames(tree, next.cls);
    } else if tree.ClassDeclaration? {
      var name := tree.id.name;
      kids := Tag(Some(name), Visitor.GetChildren(tree));
      es := [Entity(None, tree, None)];
      ClassFrames(tree, next.cls);
    } else {
      LeafFrame(tree, next.cls);
      if tree.FunctionDeclaration? {
        es := [Entity(next.cls, tree, None)];
      } else if tree.VariableDeclaration? {
        es := CollectDeclarators(next.cls, tree.declKind, tree.declarations);
      } else if tree.ClassBody? {
        es := CollectMethods(next.cls, tree.body);
      }
    }
  }

  /** Any other node pushes nothing and finds only what it holds itself. */
  lemma LeafFrame(tree: Node, cls: Option<Ident>)
    requires !tree.Program? && !tree.ClassDeclaration?
    ensures Size(tree) == 1
    ensures tree.FunctionDeclaration? ==> Discover(tree, cls) == [Entity(cls, tree, None)]
    ensures tree.VariableDeclaration? ==> Discover(tree, cls) == Declarators(cls, tree.declKind, tree.declarations)
    ensures tree.ClassBody? ==> Discover(tree, cls) == Methods(cls, tree.body)
    ensures !tree.FunctionDeclaration? && !tree.VariableDeclaration? && !tree.ClassBody? ==> Discover(tree, cls) == []
  {
    assert Discover(tree, cls) == Own(cls, tree);
    OwnCases(tree, cls);
  }

  lemma OwnCases(tree: Node, cls: Option<Ident>)
    ensures tree.FunctionDeclaration? ==> Own(cls, tree) == [Entity(cls, tree, None)]
    ensures tree.VariableDeclaration? ==> Own(cls, tree) == Declarators(cls, tree.declKind, tree.declarations)
    ensures tree.ClassBody? ==> Own(cls, tree) == Methods(cls, tree.body)
    ensures !tree.FunctionDeclaration? && !tree.VariableDeclaration? && !tree.ClassBody? && !tree.ClassDeclaration? ==>
      Own(cls, tree) == []
  {
  }

  /** A program pushes its statements, untagged, and finds what they hold. */
  lemma ProgramFrames(tree: Node, cls: Option<Ident>)
    requires tree.Program? && Traversable(tree)
    ensures var kids := Tag(None, Visitor.GetChildren(tree));
      && Discover(tree, cls) == InOrder(kids)
      && FramesSize(kids) < Size(tree)
      && forall i :: 0 <= i < |kids| ==> Traversable(kids[i].content)
  {
    Visitor.ClassAndProgramChildren(tree);
    TagInOrder(None, tree.body);
  }

  /** A class declaration pushes its body, tagged with its name, and finds itself first. */
  lemma ClassFrames(tree: Node, cls: Option<Ident>)
    requires tree.ClassDeclaration? && Traversable(tree)
    ensures var kids := Tag(Some(tree.id.name), Visitor.GetChildren(tree));
      && Discover(tree, cls) == [Entity(None, tree, None)] + InOrder(kids)
      && FramesSize(kids) < Size(tree)
      && forall i :: 0 <= i < |kids| ==> Traversable(kids[i].content)
  {
    Visitor.ClassAndProgramChildren(tree);
    TagInOrder(Some(tree.id.name), [tree.classBody]);
  }

  /** `documentables(basenode)`. */
  method Documentables(root: Node) returns (found: seq<Entity>)
    requires Traversable(root)
    ensures found == Discover(root, None)
  {
    var stack := [Frame(None, root)];
    found := [];
    assert stack[..0] == [];
    while |stack| > 0
      invariant forall i :: 0 <= i < |stack| ==> Traversable(stack[i].content)
      invariant found + Pending(stack) == Discover(root, None)
      decreases StackSize(stack)
    {
      var next := stack[|stack| - 1];
      ghost var popped := stack;
      stack := stack[..|stack| - 1];
      var es, kids := Visit(next);
      ghost var rest := stack;
      assert Pending(popped) == Discover(next.content, next.cls) + Pending(rest);
      assert StackSize(popped) == Size(next.content) + StackSize(rest);
      PushReversed(rest, kids);
      PushReversedSize(rest, kids);
      PushTraversable(rest, kids);
      FoundThenPending(found, es, InOrder(kids), Pending(rest));
      stack := stack + Reverse(kids);
      found := found + es;
    }
  }

  /** Concatenation regrouped: what was found, then what is still pending. */
  lemma FoundThenPending(a: seq<Entity>, b: seq<Entity>, c: seq<Entity>, d: seq<Entity>)
    ensures a + ((b + c) + d) == (a + b) + (c + d)
  {
  }

  /** Frames pushed onto a stack of traversable frames keep it traversable. */
  lemma PushTraversable(rest: seq<Frame>, kids: seq<Frame>)
    requires forall i :: 0 <= i < |rest| ==> Traversable(rest[i].content)
    requires forall i :: 0 <= i < |kids| ==> Traversable(kids[i].content)
    ensures var s := rest + Reverse(kids);
      forall i :: 0 <= i < |s| ==> Traversable(s[i].content)
  {
    var s := rest + Reverse(kids);
    forall i | 0 <= i < |s|
      ensures Traversable(s[i].content)
    {
      if i >= |rest| {
        assert s[i] == kids[|kids| - 1 - (i - |rest|)];
      } else {
        assert s[i] == rest[i];
      }
    }
  }

  /** The parser's guarantees are enough for the walk. */
  lemma {:induction false} WalkableTraversable(n: Node)
    requires Walkable(n)
    ensures Traversable(n)
  {
    match n
    case Program(body) =>
      forall i | 0 <= i < |body|
        ensures Traversable(body[i])
      {
        WalkableTraversable(body[i]);
      }
    case ClassDeclaration(_, cb) =>
      WalkableTraversable(cb);
    case _ =>
  }

  /** Exactly the declarators that hold a function value are collected, each with the declaration's kind. */
  lemma DeclaratorsMembers(cls: Option<Ident>, kind: string, decls: seq<Node>, e: Entity)
    ensures e in Declarators(cls, kind, decls) <==>
      exists i :: 0 <= i < |decls| && decls[i].VariableDeclarator? && IsFunctionValue(decls[i].init) &&
        e == Entity(cls, decls[i], Some(kind))
  {
    if e in Declarators(cls, kind, decls) {
      DeclaratorsSound(cls, kind, decls, e);
    }
    if exists i :: (0 <= i < |decls| && decls[i].VariableDeclarator? && IsFunctionValue(decls[i].init) &&
      e == Entity(cls, decls[i], Some(kind))) {
      var i :| 0 <= i < |decls| && decls[i].VariableDeclarator? && IsFunctionValue(decls[i].init) &&
        e == Entity(cls, decls[i], Some(kind));
      DeclaratorsComplete(cls, kind, decls, i);
    }
  }

  lemma {:induction false} DeclaratorsSound(cls: Option<Ident>, kind: string, decls: seq<Node>, e: Entity)
    requires e in Declarators(cls, kind, decls)
    ensures exists i :: (0 <= i < |decls| && decls[i].VariableDeclarator? && IsFunctionValue(decls[i].init) &&
      e == Entity(cls, decls[i], Some(kind)))
  {
    var init := decls[..|decls| - 1];
    if e in Declarators(cls, kind, init) {
      DeclaratorsSound(cls, kind, init, e);
      var i :| 0 <= i < |init| && init[i].VariableDeclarator? && IsFunctionValue(init[i].init) &&
        e == Entity(cls, init[i], Some(kind));
      assert decls[i] == init[i];
    } else {
      assert decls[|decls| - 1] == e.content;
    }
  }

  lemma {:induction false} DeclaratorsComplete(cls: Option<Ident>, kind: string, decls: seq<Node>, i: nat)
    requires i < |decls| && decls[i].VariableDeclarator? && IsFunctionValue(decls[i].init)
    ensures Entity(cls, decls[i], Some(kind)) in Declarators(cls, kind, decls)
  {
    var init := decls[..|decls| - 1];
    if i < |init| {
      DeclaratorsComplete(cls, kind, init, i);
      assert init[i] == decls[i];
    }
  }

  /** Exactly the method definitions of a class body are collected, each under the given class. */
  lemma MethodsMembers(cls: Option<Ident>, members: seq<Node>, e: Entity)
    ensures e in Methods(cls, members) <==>
      exists i :: 0 <= i < |members| && members[i].MethodDefinition? && e == Entity(cls, members[i], None)
  {
    if e in Methods(cls, members) {
      MethodsSound(cls, members, e);
    }
    if exists i :: 0 <= i < |members| && members[i].MethodDefinition? && e == Entity(cls, members[i], None) {
      var i :| 0 <= i < |members| && members[i].MethodDefinition? && e == Entity(cls, members[i], None);
      MethodsComplete(cls, members, i);
    }
  }

  lemma {:induction false} MethodsSound(cls: Option<Ident>, members: seq<Node>, e: Entity)
    requires e in Methods(cls, members)
    ensures exists i :: 0 <= i < |members| && members[i].MethodDefinition? && e == Entity(cls, members[i], None)
  {
    var init := members[..|members| - 1];
    if e in Methods(cls, init) {
      MethodsSound(cls, init, e);
      var i :| 0 <= i < |init| && init[i].MethodDefinition? && e == Entity(cls, init[i], None);
      assert members[i] == init[i];
    } else {
      assert members[|members| - 1] == e.content;
    }
  }

  lemma {:induction false} MethodsComplete(cls: Option<Ident>, members: seq<Node>, i: nat)
    requires i < |members| && members[i].MethodDefinition?
    ensures Entity(cls, members[i], None) in Methods(cls, members)
  {
    var init := members[..|members| - 1];
    if i < |init| {
      MethodsComplete(cls, init, i);
      assert init[i] == members[i];
    }
  }

  /**
   * What the header builder may rely on of a found entity: its node is
   * documentable, the kind is set exactly for variable declarators, and a
   * class declaration is never attributed to an enclosing class.
   */
  predicate Collected(e: Entity) {
    && Documentable(e.content)
    && (e.declKind.Some? <==> e.content.VariableDeclarator?)
    && (e.content.ClassDeclaration? ==> e.cls.None?)
  }

  /** Every entity found below a parser-shaped node is collected in that sense. */
  lemma {:induction false} DiscoveredCollected(n: Node, cls: Option<Ident>)
    requires Walkable(n)
    ensures forall e :: e in Discover(n, cls) ==> Collected(e)
    decreases n, 1
  {
    if n.Program? {
      DiscoveredAllCollected(n.body, None);
    } else if n.ClassDeclaration? {
      DiscoveredCollected(n.classBody, Name(n.id));
    } else if n.VariableDeclaration? {
      forall e | e in Discover(n, cls)
        ensures Collected(e)
      {
        DeclaratorsMembers(cls, n.declKind, n.declarations, e);
      }
    } else if n.ClassBody? {
      forall e | e in Discover(n, cls)
        ensures Collected(e)
      {
        MethodsMembers(cls, n.body, e);
      }
    } else if !n.FunctionDeclaration? {
      assert Discover(n, cls) == [];
    }
  }

  lemma {:induction false} DiscoveredAllCollected(ns: seq<Node>, cls: Option<Ident>)
    requires forall i :: 0 <= i < |ns| ==> Walkable(ns[i])
    ensures forall e :: e in DiscoverAll(ns, cls) ==> Collected(e)
    decreases ns, 0
  {
    if ns != [] {
      DiscoveredCollected(ns[0], cls);
      DiscoveredAllCollected(ns[1..], cls);
    }
  }

  /**
   * A class declaration is found first, and right after it the methods of
   * its body, in member order, each under the class's name.
   */
  lemma ClassThenMethods(n: Node, cls: Option<Ident>)
    requires n.ClassDeclaration? && n.id.Identifier? && n.classBody.ClassBody?
    ensures Discover(n, cls) == [Entity(None, n, None)] + Methods(Some(n.id.name), n.classBody.body)
    ensures forall e :: e in Discover(n, cls)[1..] ==>
      e.content.MethodDefinition? && e.cls == Some(n.id.name) && e.content in n.classBody.body
  {
    var name := n.id.name;
    var methods := Methods(Some(name), n.classBody.body);
    assert Discover(n, cls) == [Entity(None, n, None)] + methods;
    assert Discover(n, cls)[1..] == methods;
    forall e | e in methods
      ensures e.content.MethodDefinition? && e.cls == Some(name) && e.content in n.classBody.body
    {
      MethodsMembers(Some(name), n.classBody.body, e);
      var i :| 0 <= i < |n.classBody.body| && n.classBody.body[i].MethodDefinition? &&
        e == Entity(Some(name), n.classBody.body[i], None);
    }
  }

  /**
   * Outside class bodies nothing is attributed to a class: below a node
   * walked without a class, only method definitions carry one.
   */
  lemma {:induction false} OnlyMethodsHaveAClass(n: Node)
    requires Walkable(n) && !n.ClassBody?
    ensures forall e :: e in Discover(n, None) && e.cls.Some? ==> e.content.MethodDefinition?
    decreases n, 1
  {
    if n.Program? {
      OnlyMethodsHaveAClassAll(n.body);
    } else if n.ClassDeclaration? {
      MethodsAreMethods(Name(n.id), n.classBody.body);
    } else {
      LeafFrame(n, None);
      if n.VariableDeclaration? {
        DeclaratorsKeepClass(None, n.declKind, n.declarations);
      }
    }
  }

  lemma {:induction false} MethodsAreMethods(cls: Option<Ident>, members: seq<Node>)
    ensures forall e :: e in Methods(cls, members) ==> e.content.MethodDefinition?
  {
    if members != [] {
      MethodsAreMethods(cls, members[..|members| - 1]);
    }
  }

  lemma {:induction false} DeclaratorsKeepClass(cls: Option<Ident>, kind: string, decls: seq<Node>)
    ensures forall e :: e in Declarators(cls, kind, decls) ==> e.cls == cls
  {
    if decls != [] {
      DeclaratorsKeepClass(cls, kind, decls[..|decls| - 1]);
    }
  }

  lemma {:induction false} OnlyMethodsHaveAClassAll(ns: seq<Node>)
    requires forall i :: 0 <= i < |ns| ==> Walkable(ns[i]) && !ns[i].ClassBody?
    ensures forall e :: e in DiscoverAll(ns, None) && e.cls.Some? ==> e.content.MethodDefinition?
    decreases ns, 0
  {
    if ns != [] {
      OnlyMethodsHaveAClass(ns[0]);
      OnlyMethodsHaveAClassAll(ns[1..]);
    }
  }
}
