/**
 * The ESTree node shapes that the Acorn parser emits, as far as the
 * scribe-js scout and visitor read them. The parser itself is not part of
 * this model: a syntax tree is an input value of type Node.
 */
module Estree {

  datatype Option<+T> = None | Some(value: T)

  /** Blank characters as the scout's patterns see them: `[ \t\n]`. */
  predicate IsBlank(c: char) {
    c == ' ' || c == '\t' || c == '\n'
  }

  /**
   * An identifier name as the parser produces it: never empty and never
   * starting with a blank character.
   */
  type Ident = s: string | |s| > 0 && !IsBlank(s[0]) witness "x"

  /** The `kind` of a MethodDefinition. */
  datatype MethodKind = Method | Constructor | Get | Set

  /**
   * One syntax-tree node. Besides the kinds of the visitor's table there are
   *  - JsNull: the JavaScript value `null` where a child slot is empty,
   *  - Untyped: an object without a `type` property,
   *  - OtherKind: an object with any other `type` string (the empty string
   *    is falsy in JavaScript, so `OtherKind("")` counts as untyped),
   *  - UnknownNode, InvalidNode, NullNode: the visitor's sentinel nodes.
   * Field names follow ESTree, renamed where Dafny needs distinct names
   * (`object` is a keyword; a field name must keep one type).
   */
  datatype Node =
    | JsNull
    | Untyped
    | OtherKind(typeName: string)
    | UnknownNode(wrapped: Node)
    | InvalidNode(wrapped: Node)
    | NullNode
    | Program(body: seq<Node>)
    | VariableDeclaration(declKind: string, declarations: seq<Node>)
    | VariableDeclarator(id: Node, init: Node)
    | Identifier(name: Ident)
    | Literal
    | ExpressionStatement(expression: Node)
    | CallExpression(callee: Node, arguments: seq<Node>)
    | MemberExpression(obj: Node, property: Node)
    | IfStatement(test: Node, consequent: Node, alternate: Node)
    | BinaryExpression(left: Node, right: Node)
    | SpreadElement(argument: Node)
    | EmptyStatement
    | BlockStatement(body: seq<Node>)
    | WhileStatement(test: Node, loopBody: Node)
    | ContinueStatement(target: Node)
    | BreakStatement(target: Node)
    | ForStatement(forInit: Node, test: Node, update: Node, loopBody: Node)
    | UpdateExpression(argument: Node)
    | LabeledStatement(target: Node, labeled: Node)
    | AssignmentExpression(left: Node, right: Node)
    | ConditionalExpression(test: Node, consequent: Node, alternate: Node)
    | ThisExpression
    | FunctionDeclaration(id: Node, params: seq<Node>, fnBody: Node, isAsync: bool, isGenerator: bool)
    | WithStatement(obj: Node, loopBody: Node)
    | SequenceExpression(expressions: seq<Node>)
    | FunctionExpression(id: Node, params: seq<Node>, fnBody: Node, isAsync: bool, isGenerator: bool)
    | ArrowFunctionExpression(params: seq<Node>, fnBody: Node, isAsync: bool)
    | ReturnStatement(argument: Node)
    | SwitchStatement(discriminant: Node, cases: seq<Node>)
    | SwitchCase(test: Node, caseBody: seq<Node>)
    | ThrowStatement(argument: Node)
    | TryStatement(block: Node, handler: Node, finalizer: Node)
    | CatchClause(param: Node, fnBody: Node)
    | DoWhileStatement(test: Node, loopBody: Node)
    | ForInStatement(left: Node, right: Node, loopBody: Node)
    | ForOfStatement(left: Node, right: Node, loopBody: Node)
    | DebuggerStatement
    | ArrayExpression(elements: seq<Node>)
    | NewExpression(callee: Node, arguments: seq<Node>)
    | ObjectExpression(properties: seq<Node>)
    | Property(key: Node, value: Node)
    | UnaryExpression(argument: Node)
    | LogicalExpression(left: Node, right: Node)
    | YieldExpression(argument: Node)
    | ArrayPattern(elements: seq<Node>)
    | ObjectPattern(properties: seq<Node>)
    | RestElement(argument: Node)
    | AssignmentPattern(left: Node, right: Node)
    | TemplateLiteral(expressions: seq<Node>, quasis: seq<Node>)
    | TemplateElement
    | ClassDeclaration(id: Node, classBody: Node)
    | ClassBody(body: seq<Node>)
    | MethodDefinition(key: Node, value: Node, methodKind: MethodKind, isStatic: bool)

  /** `n.name` in JavaScript: a name for an Identifier, `undefined` otherwise. */
  function Name(n: Node): Option<Ident> {
    if n.Identifier? then Some(n.name) else None
  }

  /** What `n.name` turns into when concatenated into a string. */
  function NameText(n: Node): (s: Ident)
    ensures n.Identifier? ==> s == n.name
    ensures !n.Identifier? ==> s == "undefined"
  {
    if n.Identifier? then n.name else "undefined"
  }

  /** `params.map((p) => p.name)`. */
  function ParamNames(params: seq<Node>): (r: seq<Option<Ident>>)
    ensures |r| == |params|
    ensures forall i :: 0 <= i < |params| ==> r[i] == Name(params[i])
  {
    if params == [] then [] else [Name(params[0])] + ParamNames(params[1..])
  }

  /** The names spliced into a pattern for a parameter list. */
  function ParamTexts(params: seq<Node>): (r: seq<Ident>)
    ensures |r| == |params|
    ensures forall i :: 0 <= i < |params| ==> r[i] == NameText(params[i])
  {
    if params == [] then [] else [NameText(params[0])] + ParamTexts(params[1..])
  }

  /** A variable initialiser the scout documents. */
  predicate IsFunctionValue(n: Node) {
    n.FunctionExpression? || n.ArrowFunctionExpression?
  }

  /**
   * The shape a documentable node must have for the header builder:
   * what the parser guarantees of the fields that the builder reads.
   */
  predicate Documentable(n: Node) {
    match n
    case FunctionDeclaration(id, _, _, _, _) => id != JsNull
    case VariableDeclarator(id, init) => id != JsNull && IsFunctionValue(init)
    case ClassDeclaration(id, _) => id.Identifier?
    case MethodDefinition(key, value, kind, _) =>
      key != JsNull && value.FunctionExpression? && (kind == Set ==> |value.params| >= 1)
    case _ => false
  }

  /**
   * What the parser guarantees of every node that the discoverer pops from
   * its stack and dereferences: no `null` where a property is read, class
   * declarations named by an identifier, well-shaped members.
   */
  predicate Walkable(n: Node) {
    match n
    case JsNull => false
    case Program(body) => forall i :: 0 <= i < |body| ==> Walkable(body[i]) && !body[i].ClassBody?
    case ClassDeclaration(id, cb) => id.Identifier? && cb.ClassBody? && Walkable(cb)
    case ClassBody(members) =>
      forall i :: 0 <= i < |members| ==>
        members[i] != JsNull && (members[i].MethodDefinition? ==> Documentable(members[i]))
    case VariableDeclaration(_, decls) =>
      forall i :: 0 <= i < |decls| ==>
        decls[i] != JsNull && (decls[i].VariableDeclarator? ==> decls[i].id != JsNull)
    case FunctionDeclaration(id, _, _, _, _) => id != JsNull
    case _ => true
  }
}
