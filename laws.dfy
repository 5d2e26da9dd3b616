/**
 * What the ExpressionEvaluator promises, proved about the model in
 * `Interpreter`: per-node laws of the dispatcher, the operator laws, the
 * conditional, lazy identifier resolution along dotted paths, and the
 * error boundary of the entry point.
 */
module InterpreterLaws {
  import opened Wrappers
  import opened Interpreter

  // ---------------------------------------------------------------------
  // String ordering

  /** Exactly one of `x < y`, `x == y`, `y < x` holds for two strings. */
  lemma {:induction false} StrLessTrichotomy(x: string, y: string)
    ensures StrLess(x, y) || x == y || StrLess(y, x)
    ensures !(StrLess(x, y) && StrLess(y, x))
    ensures x == y ==> !StrLess(x, y)
  {
    if x != [] && y != [] && x[0] == y[0] {
      StrLessTrichotomy(x[1..], y[1..]);
      if x[1..] == y[1..] {
        assert x == [x[0]] + x[1..] && y == [y[0]] + y[1..];
      }
    }
  }

  /** String `<` is transitive. */
  lemma {:induction false} StrLessTransitive(x: string, y: string, z: string)
    requires StrLess(x, y) && StrLess(y, z)
    ensures StrLess(x, z)
  {
    if x != [] && x[0] == y[0] && y[0] == z[0] {
      StrLessTransitive(x[1..], y[1..], z[1..]);
    }
  }

  // ---------------------------------------------------------------------
  // Operators

  /** `==` is strict equality of the two evaluated operands and `!=` its negation. */
  lemma EqualityLaw(ev: Evaluator, left: Node, right: Node)
    requires ev.EvalExpr(left).Ok? && ev.EvalExpr(right).Ok?
    ensures var a, b := ev.EvalExpr(left).value, ev.EvalExpr(right).value;
      && ev.EvalExpr(BinaryExpression("==", left, right)) == Ok(B(a == b))
      && ev.EvalExpr(BinaryExpression("!=", left, right)) == Ok(B(a != b))
  {
  }

  /** `&&` yields the left operand when it is falsy, else the right one; `||`
      yields the left operand when it is truthy, else the right one. */
  lemma LogicalLaw(ev: Evaluator, left: Node, right: Node)
    requires ev.EvalExpr(left).Ok? && ev.EvalExpr(right).Ok?
    ensures var a, b := ev.EvalExpr(left).value, ev.EvalExpr(right).value;
      && ev.EvalExpr(BinaryExpression("&&", left, right)) == Ok(if Truthy(a) then b else a)
      && ev.EvalExpr(BinaryExpression("||", left, right)) == Ok(if Truthy(a) then a else b)
  {
  }

  /** Both operands are always evaluated, left first, whatever the operator
      and whatever the left value: no short-circuit evaluation. An unknown
      operator is only reported once both operands evaluated. */
  lemma BinaryErrors(ev: Evaluator, op: string, left: Node, right: Node)
    ensures var e := BinaryExpression(op, left, right);
      && (ev.EvalExpr(left).Err? ==> ev.EvalExpr(e) == ev.EvalExpr(left))
      && (ev.EvalExpr(left).Ok? && ev.EvalExpr(right).Err? ==> ev.EvalExpr(e) == ev.EvalExpr(right))
      && (ev.EvalExpr(left).Ok? && ev.EvalExpr(right).Ok? && op !in Operators ==>
            ev.EvalExpr(e) == Err(UnsupportedOp(op)))
  {
  }

  /** Two integers or two strings are totally ordered: `<` is the numeric or
      lexicographic order, `>=` its negation, `<=` is `<` or equal, `>` is
      neither `<` nor equal. */
  lemma OrderingLaws(ev: Evaluator, a: Value, b: Value)
    requires (a.I? && b.I?) || (a.S? && b.S?)
    ensures var lt := ev.ApplyOp("<", a, b).value.b;
      && (a.I? ==> (lt <==> a.i < b.i))
      && (a.S? ==> (lt <==> StrLess(a.s, b.s)))
      && ev.ApplyOp(">=", a, b) == Ok(B(!lt))
      && ev.ApplyOp("<=", a, b) == Ok(B(lt || a == b))
      && ev.ApplyOp(">", a, b) == Ok(B(!lt && a != b))
  {
    if a.S? {
      StrLessTrichotomy(a.s, b.s);
    }
  }

  /** Operands the host cannot compare (JS's NaN outcome) make every
      relational operator false, `>=` included. */
  lemma IncomparableOperands(ev: Evaluator, a: Value, b: Value)
    requires !((a.I? && b.I?) || (a.S? && b.S?))
    requires ev.hostOrder(a, b).None? && ev.hostOrder(b, a).None?
    ensures ev.ApplyOp("<", a, b) == Ok(B(false))
    ensures ev.ApplyOp("<=", a, b) == Ok(B(false))
    ensures ev.ApplyOp(">", a, b) == Ok(B(false))
    ensures ev.ApplyOp(">=", a, b) == Ok(B(false))
  {
  }

  // ---------------------------------------------------------------------
  // Leaves and statements

  /** A Literal evaluates to exactly its stored value. */
  lemma LiteralValue(ev: Evaluator, v: Value)
    ensures ev.EvalExpr(Literal(v)) == Ok(v)
  {
  }

  /** An Identifier evaluates to its own name, whatever the context holds. */
  lemma IdentifierIsItsName(ev: Evaluator, name: string)
    ensures ev.EvalExpr(Identifier(name)) == Ok(S(name))
  {
  }

  /** An ExpressionStatement passes its inner result through. */
  lemma ExpressionStatementPassesThrough(ev: Evaluator, e: Node)
    ensures ev.EvalExpr(ExpressionStatement(e)) == ev.EvalExpr(e)
  {
  }

  /** A node type outside the supported set fails with UnsupportedNode naming
      its type, whatever it contains. */
  lemma UnsupportedNodeFails(ev: Evaluator, kind: string, body: seq<Node>)
    ensures ev.EvalExpr(Unsupported(kind, body)) == Err(UnsupportedNode(kind))
  {
  }

  /** An unsupported node inside a Program, reached after statements that
      evaluate, makes the whole rule evaluate to undefined, whatever follows. */
  lemma UnsupportedNodeInProgram(ev: Evaluator, before: seq<Node>, kind: string, body: seq<Node>, after: seq<Node>)
    requires forall i | 0 <= i < |before| :: ev.EvalExpr(before[i]).Ok?
    ensures ev.EvalExpr(Program(before + [Unsupported(kind, body)] + after)) == Err(UnsupportedNode(kind))
    ensures ev.Evaluate(Program(before + [Unsupported(kind, body)] + after)) == Undef
  {
    var all := before + [Unsupported(kind, body)] + after;
    assert all[|before|] == Unsupported(kind, body);
    assert forall i | 0 <= i < |before| :: all[i] == before[i];
    BlockFirstError(ev, all, |before|);
  }

  /** When every element evaluates, `_.map` yields their values, in order. */
  lemma {:induction false} EvalEachOk(ev: Evaluator, nodes: seq<Node>)
    requires forall i | 0 <= i < |nodes| :: ev.EvalExpr(nodes[i]).Ok?
    ensures ev.EvalEach(nodes).Ok?
    ensures |ev.EvalEach(nodes).value| == |nodes|
    ensures forall i | 0 <= i < |nodes| :: ev.EvalEach(nodes).value[i] == ev.EvalExpr(nodes[i]).value
  {
    if nodes != [] {
      EvalEachOk(ev, nodes[1..]);
    }
  }

  /** The first element that fails decides the error; later ones are not reached. */
  lemma {:induction false} EvalEachFirstError(ev: Evaluator, nodes: seq<Node>, k: nat)
    requires k < |nodes| && ev.EvalExpr(nodes[k]).Err?
    requires forall i | 0 <= i < k :: ev.EvalExpr(nodes[i]).Ok?
    ensures ev.EvalEach(nodes) == Err(ev.EvalExpr(nodes[k]).error)
  {
    if k > 0 {
      EvalEachFirstError(ev, nodes[1..], k - 1);
    }
  }

  /** Program and BlockStatement yield the value of their last element, or
      undefined when the body is empty. */
  lemma BlockValue(ev: Evaluator, body: seq<Node>)
    requires forall i | 0 <= i < |body| :: ev.EvalExpr(body[i]).Ok?
    ensures var last := if body == [] then Undef else ev.EvalExpr(body[|body| - 1]).value;
      && ev.EvalExpr(Program(body)) == Ok(last)
      && ev.EvalExpr(BlockStatement(body)) == Ok(last)
  {
    EvalEachOk(ev, body);
  }

  /** Program and BlockStatement fail with the error of their first failing element. */
  lemma BlockFirstError(ev: Evaluator, body: seq<Node>, k: nat)
    requires k < |body| && ev.EvalExpr(body[k]).Err?
    requires forall i | 0 <= i < k :: ev.EvalExpr(body[i]).Ok?
    ensures ev.EvalExpr(Program(body)) == Err(ev.EvalExpr(body[k]).error)
    ensures ev.EvalExpr(BlockStatement(body)) == Err(ev.EvalExpr(body[k]).error)
  {
    EvalEachFirstError(ev, body, k);
  }

  /** An IfStatement yields the consequent's value on a truthy test, the
      alternate's on a falsy one, and undefined when there is no alternate. */
  lemma IfLaw(ev: Evaluator, test: Node, consequent: Node, alternate: Option<Node>)
    ensures var t := ev.EvalExpr(test);
      var r := ev.EvalExpr(IfStatement(test, consequent, alternate));
      && (t.Err? ==> r == t)
      && (t.Ok? && Truthy(t.value) ==> r == ev.EvalExpr(consequent))
      && (t.Ok? && !Truthy(t.value) && alternate.Some? ==> r == ev.EvalExpr(alternate.value))
      && (t.Ok? && !Truthy(t.value) && alternate.None? ==> r == Ok(Undef))
  {
  }

  // ---------------------------------------------------------------------
  // Calls and member access

  /** A call resolves its evaluated callee and returns the callable's value,
      or fails with FunctionNotFound. */
  lemma CallLaw(ev: Evaluator, callee: Node, arguments: seq<Node>)
    ensures var c := ev.EvalExpr(callee);
      var r := ev.EvalExpr(CallExpression(callee, arguments));
      && (c.Err? ==> r == c)
      && (c.Ok? && ev.GetGlobalIfString(c.value).Fn? ==> r == Ok(ev.GetGlobalIfString(c.value).ret))
      && (c.Ok? && !ev.GetGlobalIfString(c.value).Fn? ==> r == Err(FunctionNotFound))
  {
  }

  /** The `arguments` of a call are never evaluated: even failing ones do not
      change its result. */
  lemma CallIgnoresArguments(ev: Evaluator, callee: Node, args1: seq<Node>, args2: seq<Node>)
    ensures ev.EvalExpr(CallExpression(callee, args1)) == ev.EvalExpr(CallExpression(callee, args2))
  {
  }

  /** Member access resolves only the object, then looks the property up as
      an own key; a missing key fails with PropertyNotFound naming it. */
  lemma MemberLaw(ev: Evaluator, obj: Node, property: Node)
    ensures var o, p := ev.EvalExpr(obj), ev.EvalExpr(property);
      var r := ev.EvalExpr(MemberExpression(obj, property));
      && (o.Err? ==> r == o)
      && (o.Ok? && p.Err? ==> r == p)
      && (o.Ok? && p.Ok? ==>
            var target := ev.GetGlobalIfString(o.value);
            && (target.Obj? && p.value.S? && p.value.s in target.fields ==> r == Ok(target.fields[p.value.s]))
            && (!(target.Obj? && p.value.S? && p.value.s in target.fields) ==> r == Err(PropertyNotFound(p.value))))
  {
  }

  /** Only a string consults the context: any other value resolves to itself
      under every context, a string resolves to the context's entry for that
      name (undefined when there is none), and so alike under two contexts
      that agree on that name. */
  lemma OnlyStringsConsultContext(c1: Context, c2: Context, hostOrder: (Value, Value) -> Option<bool>, v: Value)
    ensures !v.S? ==> Evaluator(c1, hostOrder).GetGlobalIfString(v) == v == Evaluator(c2, hostOrder).GetGlobalIfString(v)
    ensures v.S? && v.s in c1 ==> Evaluator(c1, hostOrder).GetGlobalIfString(v) == c1[v.s]
    ensures v.S? && v.s !in c1 ==> Evaluator(c1, hostOrder).GetGlobalIfString(v) == Undef
    ensures v.S? && (v.s in c1 <==> v.s in c2) && (v.s in c1 ==> c1[v.s] == c2[v.s]) ==>
      Evaluator(c1, hostOrder).GetGlobalIfString(v) == Evaluator(c2, hostOrder).GetGlobalIfString(v)
  {
  }

  // ---------------------------------------------------------------------
  // Dotted paths

  /** `names[0].names[1]...` as the parser builds it: member expressions
      nested to the left, over identifiers. */
  function Path(names: seq<string>): Node
    requires |names| >= 1
  {
    if |names| == 1 then Identifier(names[0])
    else MemberExpression(Path(names[..|names| - 1]), Identifier(names[|names| - 1]))
  }

  /** What a dotted path is meant to denote: the first name is looked up in
      the context once, each further name is an own key of the value reached
      so far; `None` when a key is missing. */
  function PathValue(ctx: Context, names: seq<string>): Option<Value>
    requires |names| >= 1
  {
    if |names| == 1 then Some(if names[0] in ctx then ctx[names[0]] else Undef)
    else
      var parent := PathValue(ctx, names[..|names| - 1]);
      var key := names[|names| - 1];
      if parent.Some? && parent.value.Obj? && key in parent.value.fields then Some(parent.value.fields[key])
      else None
  }

  /** No value reached strictly inside the path is a string, so the lazy
      resolution is never applied to an intermediate result. */
  predicate NoStringStep(ctx: Context, names: seq<string>)
    requires |names| >= 1
  {
    forall j | 2 <= j < |names| :: !(PathValue(ctx, names[..j]).Some? && PathValue(ctx, names[..j]).value.S?)
  }

  /** A dotted path of two or more names evaluates to the value it denotes,
      and fails with PropertyNotFound when a key on it is missing. */
  lemma {:induction false} PathLaw(ev: Evaluator, names: seq<string>)
    requires |names| >= 2 && NoStringStep(ev.context, names)
    ensures PathValue(ev.context, names).Some? ==> ev.EvalExpr(Path(names)) == Ok(PathValue(ev.context, names).value)
    ensures PathValue(ev.context, names).None? ==>
      ev.EvalExpr(Path(names)).Err? && ev.EvalExpr(Path(names)).error.PropertyNotFound?
    decreases |names|
  {
    var prefix := names[..|names| - 1];
    if |prefix| >= 2 {
      forall j | 2 <= j < |prefix|
        ensures !(PathValue(ev.context, prefix[..j]).Some? && PathValue(ev.context, prefix[..j]).value.S?)
      {
        assert prefix[..j] == names[..j];
      }
      PathLaw(ev, prefix);
      assert names[..|prefix|] == prefix;
    }
    var key := names[|names| - 1];
    assert Path(names) == MemberExpression(Path(prefix), Identifier(key));
    assert ev.EvalExpr(Path(prefix)).Ok? ==>
      ev.GetGlobalIfString(ev.EvalExpr(Path(prefix)).value) == PathValue(ev.context, prefix).value;
    MemberLaw(ev, Path(prefix), Identifier(key));
  }

  /** Calling a bare name or a dotted path invokes the callable it denotes. */
  lemma PathCallLaw(ev: Evaluator, names: seq<string>, arguments: seq<Node>)
    requires |names| >= 1 && NoStringStep(ev.context, names)
    ensures var r := ev.EvalExpr(CallExpression(Path(names), arguments));
      var v := PathValue(ev.context, names);
      && (v.Some? && v.value.Fn? ==> r == Ok(v.value.ret))
      && (v.Some? && !v.value.Fn? && !v.value.S? ==> r == Err(FunctionNotFound))
      && (v.None? ==> r.Err? && r.error.PropertyNotFound?)
  {
    if |names| >= 2 {
      PathLaw(ev, names);
    }
    CallLaw(ev, Path(names), arguments);
  }

  /** What a dotted path yields under lazy resolution, step by step: the
      first name stands for itself, and before each further key is looked up
      the value reached so far is resolved, so a string step is read as a
      top-level name again. `None` when a key is missing. */
  function PathResult(ev: Evaluator, names: seq<string>): Option<Value>
    requires |names| >= 1
  {
    if |names| == 1 then Some(S(names[0]))
    else
      match PathResult(ev, names[..|names| - 1])
      case None => None
      case Some(v) =>
        var target := ev.GetGlobalIfString(v);
        var key := names[|names| - 1];
        if target.Obj? && key in target.fields then Some(target.fields[key]) else None
  }

  /** Every dotted path, string steps included, evaluates to its step-by-step
      result, and fails with PropertyNotFound when a step finds no key. */
  lemma {:induction false} PathEvaluation(ev: Evaluator, names: seq<string>)
    requires |names| >= 1
    ensures PathResult(ev, names).Some? ==> ev.EvalExpr(Path(names)) == Ok(PathResult(ev, names).value)
    ensures PathResult(ev, names).None? ==>
      ev.EvalExpr(Path(names)).Err? && ev.EvalExpr(Path(names)).error.PropertyNotFound?
    decreases |names|
  {
    if |names| >= 2 {
      var prefix := names[..|names| - 1];
      var key := names[|names| - 1];
      PathEvaluation(ev, prefix);
      assert Path(names) == MemberExpression(Path(prefix), Identifier(key));
      MemberLaw(ev, Path(prefix), Identifier(key));
    }
  }

  /** Without string steps the step-by-step result is the path's intended
      meaning: lazy resolution then agrees with looking the first name up
      once and following own keys. */
  lemma {:induction false} PathResultWithoutStringSteps(ev: Evaluator, names: seq<string>)
    requires |names| >= 2 && NoStringStep(ev.context, names)
    ensures PathResult(ev, names) == PathValue(ev.context, names)
    decreases |names|
  {
    var prefix := names[..|names| - 1];
    if |prefix| >= 2 {
      forall j | 2 <= j < |prefix|
        ensures !(PathValue(ev.context, prefix[..j]).Some? && PathValue(ev.context, prefix[..j]).value.S?)
      {
        assert prefix[..j] == names[..j];
      }
      PathResultWithoutStringSteps(ev, prefix);
      assert names[..|prefix|] == prefix;
    } else {
      assert prefix == [names[0]];
    }
  }

  /** An intermediate member result that is a string is read as a top-level
      name again (interpreter.js:131). Here `a.b.c` has no meaning as a path,
      yet it evaluates through the context entry named by `a.b`. */
  lemma StringStepIsResolvedAgain(hostOrder: (Value, Value) -> Option<bool>)
    ensures var ctx := map["a" := Obj(map["b" := S("x")]), "x" := Obj(map["c" := I(5)])];
      && PathValue(ctx, ["a", "b", "c"]) == None
      && Evaluator(ctx, hostOrder).EvalExpr(Path(["a", "b", "c"])) == Ok(I(5))
  {
    var ctx := map["a" := Obj(map["b" := S("x")]), "x" := Obj(map["c" := I(5)])];
    assert ["a", "b", "c"][..2] == ["a", "b"];
    assert ["a", "b"][..1] == ["a"];
  }

  // ---------------------------------------------------------------------
  // Entry point

  /** `evaluate` never fails: it skips non-Program nodes with a non-empty
      body, turns every error into undefined, and otherwise returns the
      value of the walk. A Program root is never skipped. */
  lemma EvaluateLaw(ev: Evaluator, tree: Node)
    ensures SkippedByGuard(tree) ==> ev.Evaluate(tree) == Undef
    ensures !SkippedByGuard(tree) && ev.EvalExpr(tree).Err? ==> ev.Evaluate(tree) == Undef
    ensures !SkippedByGuard(tree) && ev.EvalExpr(tree).Ok? ==> ev.Evaluate(tree) == ev.EvalExpr(tree).value
    ensures tree.Program? ==> !SkippedByGuard(tree)
  {
  }
}
