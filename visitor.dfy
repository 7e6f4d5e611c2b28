/**
 * The child enumerator of utils/visitor.js: one total case split on the
 * node kind, returning the child slots of a node in a fixed order. The table
 * is its own specification; the lemmas below state, family by family, the
 * facts a walker relies on: which kinds are listed, how sentinels arise and
 * end, and the order in which children come.
 */
module Visitor {
  import opened Estree

  /**
   * The `type` property of a node; None where it is missing or falsy, so
   * `!node.type` holds exactly for None.
   */
  function TypeName(n: Node): (r: Option<string>)
    ensures r.Some? ==> r.value != ""
    ensures r.None? <==> n.JsNull? || n.Untyped? || n == OtherKind("")
  {
    if n.JsNull? || n.Untyped? || n == OtherKind("") then None
    else if n.OtherKind? then Some(n.typeName)
    else Some(KindName(n))
  }

  /** The `type` of a node of one of the datatype's own kinds. */
  function KindName(n: Node): string
    requires !n.JsNull? && !n.Untyped? && !n.OtherKind?
  {
    match n
    case UnknownNode(_) => "Unknown"
    case InvalidNode(_) => "Invalid"
    case NullNode => "Null"
    case Program(_) => "Program"
    case VariableDeclaration(_, _) => "VariableDeclaration"
    case VariableDeclarator(_, _) => "VariableDeclarator"
    case Identifier(_) => "Identifier"
    case Literal => "Literal"
    case ExpressionStatement(_) => "ExpressionStatement"
    case CallExpression(_, _) => "CallExpression"
    case MemberExpression(_, _) => "MemberExpression"
    case IfStatement(_, _, _) => "IfStatement"
    case BinaryExpression(_, _) => "BinaryExpression"
    case SpreadElement(_) => "SpreadElement"
    case EmptyStatement => "EmptyStatement"
    case BlockStatement(_) => "BlockStatement"
    case WhileStatement(_, _) => "WhileStatement"
    case ContinueStatement(_) => "ContinueStatement"
    case BreakStatement(_) => "BreakStatement"
    case ForStatement(_, _, _, _) => "ForStatement"
    case UpdateExpression(_) => "UpdateExpression"
    case LabeledStatement(_, _) => "LabeledStatement"
    case AssignmentExpression(_, _) => "AssignmentExpression"
    case ConditionalExpression(_, _, _) => "ConditionalExpression"
    case ThisExpression => "ThisExpression"
    case FunctionDeclaration(_, _, _, _, _) => "FunctionDeclaration"
    case WithStatement(_, _) => "WithStatement"
    case SequenceExpression(_) => "SequenceExpression"
    case FunctionExpression(_, _, _, _, _) => "FunctionExpression"
    case ArrowFunctionExpression(_, _, _) => "ArrowFunctionExpression"
    case ReturnStatement(_) => "ReturnStatement"
    case SwitchStatement(_, _) => "SwitchStatement"
    case SwitchCase(_, _) => "SwitchCase"
    case ThrowStatement(_) => "ThrowStatement"
    case TryStatement(_, _, _) => "TryStatement"
    case CatchClause(_, _) => "CatchClause"
    case DoWhileStatement(_, _) => "DoWhileStatement"
    case ForInStatement(_, _, _) => "ForInStatement"
    case ForOfStatement(_, _, _) => "ForOfStatement"
    case DebuggerStatement => "DebuggerStatement"
    case ArrayExpression(_) => "ArrayExpression"
    case NewExpression(_, _) => "NewExpression"
    case ObjectExpression(_) => "ObjectExpression"
    case Property(_, _) => "Property"
    case UnaryExpression(_) => "UnaryExpression"
    case LogicalExpression(_, _) => "LogicalExpression"
    case YieldExpression(_) => "YieldExpression"
    case ArrayPattern(_) => "ArrayPattern"
    case ObjectPattern(_) => "ObjectPattern"
    case RestElement(_) => "RestElement"
    case AssignmentPattern(_, _) => "AssignmentPattern"
    case TemplateLiteral(_, _) => "TemplateLiteral"
    case TemplateElement => "TemplateElement"
    case ClassDeclaration(_, _) => "ClassDeclaration"
    case ClassBody(_) => "ClassBody"
    case MethodDefinition(_, _, _, _) => "MethodDefinition"
  }

  /** The kinds that have substructure in the visitor's table. */
  const BranchKinds: set<string> := {
    "Program", "VariableDeclaration", "VariableDeclarator", "ExpressionStatement",
    "CallExpression", "MemberExpression", "IfStatement", "BinaryExpression",
    "SpreadElement", "BlockStatement", "WhileStatement", "ContinueStatement",
    "BreakStatement", "ForStatement", "UpdateExpression", "LabeledStatement",
    "AssignmentExpression", "ConditionalExpression", "FunctionDeclaration",
    "WithStatement", "SequenceExpression", "FunctionExpression",
    "ArrowFunctionExpression", "ReturnStatement", "SwitchStatement", "SwitchCase",
    "ThrowStatement", "TryStatement", "CatchClause", "DoWhileStatement",
    "ForInStatement", "ForOfStatement", "ArrayExpression", "NewExpression",
    "ObjectExpression", "Property", "UnaryExpression", "LogicalExpression",
    "YieldExpression", "ArrayPattern", "ObjectPattern", "RestElement",
    "AssignmentPattern", "TemplateLiteral", "ClassDeclaration", "ClassBody",
    "MethodDefinition"
  }

  /** The leaf kinds of the table, sentinels included. */
  const LeafKinds: set<string> := {
    "Identifier", "Literal", "EmptyStatement", "ThisExpression", "DebuggerStatement",
    "TemplateElement", "Unknown", "Invalid", "Null"
  }

  /** Every kind the table names. */
  const TableKinds: set<string> := BranchKinds + LeafKinds

  /**
   * The children of a node. JavaScript's `[a].concat(b)` spreads `b` when it
   * is an array and appends it as one element otherwise; the statement and
   * body slots concatenated below are single nodes. Every child of a node
   * of the datatype's own kinds is one of its subterms, so a walk over the
   * children stops; any other value yields a single sentinel.
   */
  function GetChildren(n: Node): (r: seq<Node>)
    ensures n.JsNull? || n.Untyped? || n.OtherKind? ==>
      |r| == 1 && (r[0].NullNode? || r[0].InvalidNode? || r[0].UnknownNode?)
    ensures !n.JsNull? && !n.Untyped? && !n.OtherKind? ==> forall c :: c in r ==> c < n
  {
    match n
    case JsNull => [NullNode]
    case Untyped => [InvalidNode(n)]
    case Program(body) => body
    case VariableDeclaration(_, declarations) => declarations
    case VariableDeclarator(id, init) => [id, init]
    case Identifier(_) => []
    case Literal => []
    case ExpressionStatement(expression) => [expression]
    case CallExpression(callee, arguments) => [callee] + arguments
    case MemberExpression(obj, property) => [obj, property]
    case IfStatement(test, consequent, alternate) => [test, consequent, alternate]
    case BinaryExpression(left, right) => [left, right]
    case SpreadElement(argument) => [argument]
    case BlockStatement(body) => body
    case WhileStatement(test, body) => [test, body]
    case ContinueStatement(target) => [target]
    case BreakStatement(target) => [target]
    case ForStatement(init, test, update, body) => [init, test, update, body]
    case UpdateExpression(argument) => [argument]
    case LabeledStatement(target, body) => [target, body]
    case AssignmentExpression(left, right) => [left, right]
    case ConditionalExpression(test, consequent, alternate) => [test, consequent, alternate]
    case FunctionDeclaration(id, params, body, _, _) => [id] + params + [body]
    case WithStatement(obj, body) => [obj, body]
    case SequenceExpression(expressions) => expressions
    case FunctionExpression(id, params, body, _, _) => [id] + params + [body]
    case ArrowFunctionExpression(params, body, _) => params + [body]
    case ReturnStatement(argument) => [argument]
    case SwitchStatement(discriminant, cases) => [discriminant] + cases
    case SwitchCase(test, consequent) => [test] + consequent
    case ThrowStatement(argument) => [argument]
    case TryStatement(block, handler, finalizer) => [block, handler, finalizer]
    case CatchClause(param, body) => [param, body]
    case DoWhileStatement(test, body) => [test, body]
    case ForInStatement(left, right, body) => [left, right, body]
    case ForOfStatement(left, right, body) => [left, right, body]
    case ArrayExpression(elements) => elements
    case NewExpression(callee, arguments) => [callee] + arguments
    case ObjectExpression(properties) => properties
    case Property(key, value) => [key, value]
    case UnaryExpression(argument) => [argument]
    case LogicalExpression(left, right) => [left, right]
    case YieldExpression(argument) => [argument]
    case ArrayPattern(elements) => elements
    case ObjectPattern(properties) => properties
    case RestElement(argument) => [argument]
    case AssignmentPattern(left, right) => [left, right]
    case TemplateLiteral(expressions, quasis) => expressions + quasis
    case ClassDeclaration(_, body) => [body]
    case ClassBody(body) => body
    case MethodDefinition(_, value, _, _) => [value]
    case EmptyStatement => []
    case ThisExpression => []
    case DebuggerStatement => []
    case TemplateElement => []
    case UnknownNode(_) => []
    case InvalidNode(_) => []
    case NullNode => []
    case OtherKind(t) => if t == "" then [InvalidNode(n)] else [UnknownNode(n)]
  }

  /** `getChildren(null)` is the single Null sentinel. */
  lemma NullGivesNullSentinel()
    ensures GetChildren(JsNull) == [NullNode]
    ensures TypeName(GetChildren(JsNull)[0]) == Some("Null")
  {
  }

  /**
   * A value whose type is missing or falsy gives exactly one Invalid
   * sentinel wrapping it.
   */
  lemma UntypedGivesInvalid(n: Node)
    requires TypeName(n) == None && n != JsNull
    ensures n.Untyped? || n == OtherKind("")
    ensures GetChildren(n) == [InvalidNode(n)]
    ensures TypeName(GetChildren(n)[0]) == Some("Invalid")
  {
  }

  /** Every kind of the datatype other than the catch-all is listed in the table. */
  lemma TypedKindsAreListed(n: Node)
    requires !n.OtherKind? && TypeName(n).Some?
    ensures TypeName(n).value in TableKinds
  {
  }

  /**
   * A node whose kind the table does not name gets exactly one Unknown
   * sentinel wrapping it.
   */
  lemma UnlistedGivesUnknown(n: Node)
    requires TypeName(n).Some? && TypeName(n).value !in TableKinds
    ensures n.OtherKind?
    ensures GetChildren(n) == [UnknownNode(n)]
    ensures TypeName(GetChildren(n)[0]) == Some("Unknown")
  {
    if !n.OtherKind? {
      TypedKindsAreListed(n);
    }
  }

  /**
   * Leaf kinds and the sentinel kinds have no children, so expanding a
   * sentinel a second time stops.
   */
  lemma LeavesHaveNoChildren(n: Node)
    requires n.Identifier? || n.Literal? || n.EmptyStatement? || n.ThisExpression? ||
             n.DebuggerStatement? || n.TemplateElement? ||
             n.UnknownNode? || n.InvalidNode? || n.NullNode?
    ensures TypeName(n).Some? && TypeName(n).value in LeafKinds
    ensures GetChildren(n) == []
  {
  }

  lemma SentinelExpandsOnce(n: Node)
    requires n.JsNull? || n.Untyped? || n.OtherKind?
    ensures |GetChildren(n)| == 1
    ensures GetChildren(GetChildren(n)[0]) == []
  {
  }

  /** If and conditional expressions: test, consequent, alternate, with a null alternate kept in place. */
  lemma ThreeWayChildren(n: Node)
    requires n.IfStatement? || n.ConditionalExpression?
    ensures GetChildren(n) == [n.test, n.consequent, n.alternate]
    ensures n.alternate == JsNull ==> |GetChildren(n)| == 3 && GetChildren(n)[2] == JsNull
  {
  }

  /** Class declarations, method definitions, class bodies and programs. */
  lemma ClassAndProgramChildren(n: Node)
    ensures n.ClassDeclaration? ==> GetChildren(n) == [n.classBody]
    ensures n.MethodDefinition? ==> GetChildren(n) == [n.value]
    ensures n.ClassBody? || n.Program? ==> GetChildren(n) == n.body
  {
  }

  /** Calls and `new`: the callee, then the arguments in order. */
  lemma CalleeThenArguments(n: Node)
    requires n.CallExpression? || n.NewExpression?
    ensures |GetChildren(n)| == 1 + |n.arguments|
    ensures GetChildren(n)[0] == n.callee
    ensures forall i :: 0 <= i < |n.arguments| ==> GetChildren(n)[i + 1] == n.arguments[i]
  {
    assert GetChildren(n) == [n.callee] + n.arguments;
  }

  /** Function declarations and expressions: the id, the params in order, the body. */
  lemma IdParamsBody(n: Node)
    requires n.FunctionDeclaration? || n.FunctionExpression?
    ensures |GetChildren(n)| == |n.params| + 2
    ensures GetChildren(n)[0] == n.id
    ensures forall i :: 0 <= i < |n.params| ==> GetChildren(n)[i + 1] == n.params[i]
    ensures GetChildren(n)[|n.params| + 1] == n.fnBody
  {
    assert GetChildren(n) == [n.id] + n.params + [n.fnBody];
  }
}
