/**
 * The ExpressionEvaluator: an AST walker that reduces a parsed rule to a value
 * against a read-only, host-supplied context.
 *
 * Thrown strings become `Err` results that propagate up the walk; the entry
 * point `Evaluate` is the only place where they are caught and turned into
 * `Undef`.
 */
module Interpreter {
  import opened Wrappers

  /** JS values the evaluator can meet. Host callables are nullary and
      deterministic, so a callable is represented by the value it returns. */
  datatype Value =
    | Undef
    | Null
    | B(b: bool)
    | I(i: int)
    | S(s: string)
    | Obj(fields: map<string, Value>)
    | Fn(ret: Value)

  /** The host's data: top-level names to values. */
  type Context = map<string, Value>

  /** AST nodes as the parser produces them. `Unsupported` stands for any other
      node type (its `type` string is `kind`; its `body` is empty when it has
      none). A `kind` naming one of the supported types ("Program",
      "BlockStatement", "ExpressionStatement", "BinaryExpression",
      "IfStatement", "CallExpression", "MemberExpression", "Identifier",
      "Literal") stands for no real node: those types have their own
      constructors. */
  datatype Node =
    | Program(body: seq<Node>)
    | BlockStatement(body: seq<Node>)
    | ExpressionStatement(expression: Node)
    | BinaryExpression(operator: string, left: Node, right: Node)
    | IfStatement(test: Node, consequent: Node, alternate: Option<Node>)
    | CallExpression(callee: Node, arguments: seq<Node>)
    | MemberExpression(obj: Node, property: Node)
    | Identifier(name: string)
    | Literal(value: Value)
    | Unsupported(kind: string, body: seq<Node>)

  /** The four things the walk can throw. */
  datatype EvalError =
    | UnsupportedNode(kind: string)
    | UnsupportedOp(op: string)
    | FunctionNotFound
    | PropertyNotFound(key: Value)

  datatype Result<+T> = Ok(value: T) | Err(error: EvalError)
  {
    predicate IsFailure() { Err? }

    function PropagateFailure<U>(): Result<U>
      requires Err?
    {
      Err(error)
    }

    function Extract(): T
      requires Ok?
    {
      value
    }
  }

  /** The binary operators `binaryExpr` knows. */
  const Operators: set<string> := {"==", "!=", "<", "<=", ">", ">=", "&&", "||"}

  /** JS truthiness (`!!v`): undefined, null, false, 0 and "" are falsy. */
  predicate Truthy(v: Value)
  {
    match v
    case Undef => false
    case Null => false
    case B(b) => b
    case I(n) => n != 0
    case S(s) => s != ""
    case Obj(_) => true
    case Fn(_) => true
  }

  /** JS `lhs && rhs`: yields one of the two operand values, not a boolean. */
  function And(lhs: Value, rhs: Value): (r: Value)
    ensures r == lhs || r == rhs
    ensures Truthy(r) <==> Truthy(lhs) && Truthy(rhs)
    ensures !Truthy(lhs) ==> r == lhs
    ensures Truthy(lhs) ==> r == rhs
  {
    if Truthy(lhs) then rhs else lhs
  }

  /** JS `lhs || rhs`: yields one of the two operand values, not a boolean. */
  function Or(lhs: Value, rhs: Value): (r: Value)
    ensures r == lhs || r == rhs
    ensures Truthy(r) <==> Truthy(lhs) || Truthy(rhs)
    ensures Truthy(lhs) ==> r == lhs
    ensures !Truthy(lhs) ==> r == rhs
  {
    if Truthy(lhs) then lhs else rhs
  }

  /** JS `<` on two strings: the first differing character decides, and a
      proper prefix is smaller. */
  predicate StrLess(x: string, y: string)
  {
    if y == [] then false
    else if x == [] then true
    else if x[0] != y[0] then x[0] < y[0]
    else StrLess(x[1..], y[1..])
  }

  /** `_.has(obj, property)`: own key of an object. */
  predicate Has(obj: Value, property: Value)
  {
    obj.Obj? && property.S? && property.s in obj.fields
  }

  /** `_.last`: the final value, undefined when there is none. */
  function Last(vs: seq<Value>): Value
  {
    if vs == [] then Undef else vs[|vs| - 1]
  }

  /** The shape guard of `evaluate`: a non-Program node carrying a non-empty
      `body` is not evaluated. Besides Program, only BlockStatement and node
      types outside the supported set carry a `body`. */
  predicate SkippedByGuard(tree: Node)
  {
    (tree.BlockStatement? || tree.Unsupported?) && |tree.body| > 0
  }

  /**
   * One evaluator instance: the context it was built with, and the JS
   * engine's abstract relational comparison for operand pairs that are not
   * both integers or both strings (`None` is JS's "undefined" outcome, as
   * with NaN). The latter is left to the host: the model does not define
   * JS's mixed-type coercions.
   */
  datatype Evaluator = Evaluator(context: Context, hostOrder: (Value, Value) -> Option<bool>)
  {
    /** Entry point: never fails; skips sub-trees, turns every error into undefined. */
    function Evaluate(tree: Node): Value
    {
      if SkippedByGuard(tree) then Undef
      else
        match EvalExpr(tree)
        case Ok(v) => v
        case Err(_) => Undef
    }

    /** Dispatch on the node type. */
    function EvalExpr(expr: Node): Result<Value>
      decreases expr, 2
    {
      match expr
      case Program(body) => EvalBody(body)
      case BlockStatement(body) => EvalBody(body)
      case BinaryExpression(_, _, _) => BinaryExpr(expr)
      case IfStatement(_, _, _) => IfExpr(expr)
      case CallExpression(_, _) => CallExpr(expr)
      case ExpressionStatement(inner) => EvalExpr(inner)
      case MemberExpression(_, _) => MemberExpr(expr)
      case Identifier(name) => Ok(S(name))
      case Literal(v) => Ok(v)
      case Unsupported(kind, _) => Err(UnsupportedNode(kind))
    }

    /** `_.last(_.map(body, evalExpr))`. */
    function EvalBody(body: seq<Node>): Result<Value>
      decreases body, 1
    {
      var vs :- EvalEach(body);
      Ok(Last(vs))
    }

    /** `_.map(nodes, evalExpr)`: in order, the first error aborts the rest. */
    function EvalEach(nodes: seq<Node>): Result<seq<Value>>
      decreases nodes, 0
    {
      if nodes == [] then Ok([])
      else
        var v :- EvalExpr(nodes[0]);
        var vs :- EvalEach(nodes[1..]);
        Ok([v] + vs)
    }

    /** Both operands are evaluated, left first, before the operator is looked at. */
    function BinaryExpr(expr: Node): Result<Value>
      requires expr.BinaryExpression?
      decreases expr, 1
    {
      var lhs :- EvalExpr(expr.left);
      var rhs :- EvalExpr(expr.right);
      ApplyOp(expr.operator, lhs, rhs)
    }

    /** The JS abstract relational comparison `a < b`: `None` is "undefined". */
    function Relational(a: Value, b: Value): Option<bool>
    {
      match (a, b)
      case (I(x), I(y)) => Some(x < y)
      case (S(x), S(y)) => Some(StrLess(x, y))
      case _ => hostOrder(a, b)
    }

    /** The switch on the operator of `binaryExpr`. */
    function ApplyOp(op: string, lhs: Value, rhs: Value): (r: Result<Value>)
      ensures r.Ok? <==> op in Operators
      ensures r.Err? ==> r.error == UnsupportedOp(op)
      ensures op in Operators - {"&&", "||"} ==> r.value.B?
      ensures op == "==" ==> (r.value.b <==> lhs == rhs)
      ensures op == "!=" ==> (r.value.b <==> lhs != rhs)
      ensures op in {"&&", "||"} ==> r.value == lhs || r.value == rhs
    {
      match op
      case "==" => Ok(B(lhs == rhs))
      case "!=" => Ok(B(lhs != rhs))
      case "<" => Ok(B(Relational(lhs, rhs) == Some(true)))
      case "<=" => Ok(B(Relational(rhs, lhs) == Some(false)))
      case ">" => Ok(B(Relational(rhs, lhs) == Some(true)))
      case ">=" => Ok(B(Relational(lhs, rhs) == Some(false)))
      case "&&" => Ok(And(lhs, rhs))
      case "||" => Ok(Or(lhs, rhs))
      case _ => Err(UnsupportedOp(op))
    }

    /** Value-producing conditional; undefined when the test is falsy and there is no alternate. */
    function IfExpr(expr: Node): Result<Value>
      requires expr.IfStatement?
      decreases expr, 1
    {
      var cond :- EvalExpr(expr.test);
      if Truthy(cond) then EvalExpr(expr.consequent)
      else if expr.alternate.Some? then EvalExpr(expr.alternate.value)
      else Ok(Undef)
    }

    /** Nullary call of the resolved callee; `arguments` are never looked at. */
    function CallExpr(expr: Node): Result<Value>
      requires expr.CallExpression?
      decreases expr, 1
    {
      var func :- EvalExpr(expr.callee);
      var resolved := GetGlobalIfString(func);
      if resolved.Fn? then Ok(resolved.ret) else Err(FunctionNotFound)
    }

    /** Dotted access: the object is resolved against the context if it is a
        string, the property is used as evaluated. */
    function MemberExpr(expr: Node): Result<Value>
      requires expr.MemberExpression?
      decreases expr, 1
    {
      var base :- EvalExpr(expr.obj);
      var property :- EvalExpr(expr.property);
      var target := GetGlobalIfString(base);
      if Has(target, property) then Ok(target.fields[property.s])
      else Err(PropertyNotFound(property))
    }

    /** Lazy identifier binding: a string is a top-level name, anything else is
        already a value. */
    function GetGlobalIfString(identifier: Value): (r: Value)
      ensures !identifier.S? ==> r == identifier
      ensures identifier.S? && identifier.s in context ==> r == context[identifier.s]
      ensures identifier.S? && identifier.s !in context ==> r == Undef
    {
      if identifier.S? then
        if identifier.s in context then context[identifier.s] else Undef
      else identifier
    }
  }
}
