/**
 * The scenarios of the evaluator's unit tests, written as ASTs (the parser is
 * not part of the model). Each holds for every host ordering.
 */
module UnitExamples {
  import opened Wrappers
  import opened Interpreter
  import opened InterpreterLaws

  /** A one-expression rule as the parser delivers it. */
  function Rule(e: Node): Node
  {
    Program([ExpressionStatement(e)])
  }

  function Bin(op: string, left: Node, right: Node): Node
  {
    BinaryExpression(op, left, right)
  }

  function Call(names: seq<string>): Node
    requires |names| >= 1
  {
    CallExpression(Path(names), [])
  }

  /** A one-expression rule yields its expression's value, or undefined on error. */
  lemma RuleValue(ev: Evaluator, e: Node)
    ensures ev.EvalExpr(e).Ok? ==> ev.Evaluate(Rule(e)) == ev.EvalExpr(e).value
    ensures ev.EvalExpr(e).Err? ==> ev.Evaluate(Rule(e)) == Undef
  {
    if ev.EvalExpr(e).Ok? {
      BlockValue(ev, [ExpressionStatement(e)]);
    } else {
      BlockFirstError(ev, [ExpressionStatement(e)], 0);
    }
  }

  /** Boolean logic: a literal, strict equality and inequality. */
  lemma EqualityOperators(hostOrder: (Value, Value) -> Option<bool>)
    ensures var ev := Evaluator(map[], hostOrder);
      && ev.Evaluate(Rule(Literal(B(true)))) == B(true)
      && ev.Evaluate(Rule(Bin("==", Literal(I(1)), Literal(I(1))))) == B(true)
      && ev.Evaluate(Rule(Bin("!=", Literal(I(1)), Literal(I(2))))) == B(true)
      && ev.Evaluate(Rule(Bin("==", Literal(I(1)), Literal(I(2))))) == B(false)
      && ev.Evaluate(Rule(Bin("==", Literal(S("a")), Literal(S("a"))))) == B(true)
  {
    var ev := Evaluator(map[], hostOrder);
    var one, two, a := Literal(I(1)), Literal(I(2)), Literal(S("a"));
    EqualityLaw(ev, one, one);
    EqualityLaw(ev, one, two);
    EqualityLaw(ev, a, a);
    RuleValue(ev, Literal(B(true)));
    RuleValue(ev, Bin("==", one, one));
    RuleValue(ev, Bin("!=", one, two));
    RuleValue(ev, Bin("==", one, two));
    RuleValue(ev, Bin("==", a, a));
  }

  /** Boolean logic: `&&` over comparisons; a string is never strictly equal to a number. */
  lemma ConjunctionOfComparisons(hostOrder: (Value, Value) -> Option<bool>)
    ensures Evaluator(map[], hostOrder).Evaluate(Rule(
              Bin("&&", Bin("!=", Literal(S("1")), Literal(S("a"))), Bin("!=", Literal(S("3")), Literal(I(3)))))) == B(true)
    ensures Evaluator(map[], hostOrder).Evaluate(Rule(
              Bin("&&", Bin("==", Literal(S("1")), Literal(S("a"))), Bin("!=", Literal(I(3)), Literal(I(3)))))) == B(false)
  {
    var ev := Evaluator(map[], hostOrder);
    var left1, right1 := Bin("!=", Literal(S("1")), Literal(S("a"))), Bin("!=", Literal(S("3")), Literal(I(3)));
    EqualityLaw(ev, Literal(S("1")), Literal(S("a")));
    EqualityLaw(ev, Literal(S("3")), Literal(I(3)));
    LogicalLaw(ev, left1, right1);
    RuleValue(ev, Bin("&&", left1, right1));
    var left2, right2 := Bin("==", Literal(S("1")), Literal(S("a"))), Bin("!=", Literal(I(3)), Literal(I(3)));
    EqualityLaw(ev, Literal(I(3)), Literal(I(3)));
    LogicalLaw(ev, left2, right2);
    RuleValue(ev, Bin("&&", left2, right2));
  }

  /** Boolean logic: a chain of `&&` is left-associated and true when every link is. */
  lemma ConjunctionChain(hostOrder: (Value, Value) -> Option<bool>)
    ensures Evaluator(map[], hostOrder).Evaluate(Rule(
              Bin("&&", Bin("&&", Literal(B(true)), Bin("==", Literal(I(1)), Literal(I(1)))),
                        Bin("==", Literal(S("a")), Literal(S("a")))))) == B(true)
  {
    var ev := Evaluator(map[], hostOrder);
    var one, a := Literal(I(1)), Literal(S("a"));
    var inner := Bin("&&", Literal(B(true)), Bin("==", one, one));
    EqualityLaw(ev, one, one);
    EqualityLaw(ev, a, a);
    LogicalLaw(ev, Literal(B(true)), Bin("==", one, one));
    LogicalLaw(ev, inner, Bin("==", a, a));
    RuleValue(ev, Bin("&&", inner, Bin("==", a, a)));
  }

  /** Boolean logic: `&&` yields the called function's own value, so `0` comes
      back as `0` (the test compares it loosely with `false`). */
  lemma ConjunctionWithCall(hostOrder: (Value, Value) -> Option<bool>)
    ensures Evaluator(map["foo" := Fn(B(true))], hostOrder)
              .Evaluate(Rule(Bin("&&", Literal(B(true)), Call(["foo"])))) == B(true)
    ensures var r := Evaluator(map["foo" := Fn(I(0))], hostOrder)
              .Evaluate(Rule(Bin("&&", Literal(B(true)), Call(["foo"]))));
      r == I(0) && !Truthy(r)
  {
    var yes, zero := Evaluator(map["foo" := Fn(B(true))], hostOrder), Evaluator(map["foo" := Fn(I(0))], hostOrder);
    assert yes.EvalExpr(Call(["foo"])) == Ok(B(true));
    RuleValue(yes, Bin("&&", Literal(B(true)), Call(["foo"])));
    assert zero.EvalExpr(Call(["foo"])) == Ok(I(0));
    RuleValue(zero, Bin("&&", Literal(B(true)), Call(["foo"])));
  }

  /** Member expressions: present paths yield their value, a missing key yields undefined. */
  lemma MemberExpressions(hostOrder: (Value, Value) -> Option<bool>)
    ensures Evaluator(map["foo" := Obj(map["bar" := I(7)])], hostOrder)
              .Evaluate(Rule(Path(["foo", "bar"]))) == I(7)
    ensures Evaluator(map["foo" := Obj(map["bar" := Obj(map["baz" := I(7)])])], hostOrder)
              .Evaluate(Rule(Path(["foo", "bar", "baz"]))) == I(7)
    ensures Evaluator(map["foo" := Obj(map["bar" := I(7)])], hostOrder)
              .Evaluate(Rule(Path(["foo", "bar", "baz"]))) == Undef
  {
    assert ["foo", "bar", "baz"][..2] == ["foo", "bar"];
    assert ["foo", "bar"][..1] == ["foo"];
  }

  /** If statements: a true test yields the block's value, a false one without
      an alternate yields undefined. */
  lemma IfStatements(hostOrder: (Value, Value) -> Option<bool>)
    ensures var ev := Evaluator(map["foo" := Obj(map["bar" := I(7)])], hostOrder);
      var block := BlockStatement([ExpressionStatement(Path(["foo", "bar"]))]);
      && ev.Evaluate(Program([IfStatement(Literal(B(true)), block, None)])) == I(7)
      && ev.Evaluate(Program([IfStatement(Literal(B(false)), block, None)])) == Undef
  {
    var ev := Evaluator(map["foo" := Obj(map["bar" := I(7)])], hostOrder);
    var block := BlockStatement([ExpressionStatement(Path(["foo", "bar"]))]);
    assert ["foo", "bar"][..1] == ["foo"];
    assert ev.EvalExpr(Path(["foo", "bar"])) == Ok(I(7));
    BlockValue(ev, [ExpressionStatement(Path(["foo", "bar"]))]);
    BlockValue(ev, [IfStatement(Literal(B(true)), block, None)]);
    assert ev.EvalExpr(IfStatement(Literal(B(false)), block, None)) == Ok(Undef);
    BlockValue(ev, [IfStatement(Literal(B(false)), block, None)]);
  }

  /** Calls of a top-level function and of a function reached by a dotted path. */
  lemma FunctionCalls(hostOrder: (Value, Value) -> Option<bool>)
    ensures Evaluator(map["foo" := Fn(I(7))], hostOrder).Evaluate(Rule(Call(["foo"]))) == I(7)
    ensures Evaluator(map["foo" := Obj(map["bar" := Fn(I(7))])], hostOrder)
              .Evaluate(Rule(Call(["foo", "bar"]))) == I(7)
  {
    assert ["foo", "bar"][..1] == ["foo"];
  }

  /** A bare BlockStatement handed to the entry point is not evaluated. */
  lemma SubtreeIsSkipped(hostOrder: (Value, Value) -> Option<bool>)
    ensures Evaluator(map[], hostOrder).Evaluate(BlockStatement([ExpressionStatement(Literal(I(1)))])) == Undef
    ensures Evaluator(map[], hostOrder).Evaluate(Program([ExpressionStatement(Literal(I(1)))])) == I(1)
  {
  }
}
