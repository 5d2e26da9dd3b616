# ExpressionEvaluator of peaches/rules, in Dafny

This project models the rule evaluator of `interpreter.js`. It takes a parsed
rule (an AST) and a host-supplied, read-only context of names, nested objects
and zero-argument functions, and reduces the rule to a value. Every failure
inside the walk ends as `undefined` at the entry point.

Files:

- `wrappers.dfy`: `Option`, used for the optional `alternate` of an if-statement and for the host ordering.
- `interpreter.dfy`, module `Interpreter`: values, AST nodes, errors and the evaluator.
- `laws.dfy`, module `InterpreterLaws`: what the evaluator promises, proved for all inputs.
- `unit_examples.dfy`, module `UnitExamples`: the scenarios of `unit.js`, written as ASTs and proved.

How the JavaScript maps onto the model:

- `new ExpressionEvaluator(_, context)` becomes the datatype value `Evaluator(context, hostOrder)`.
  The prototype methods become its member functions: `evaluate` → `Evaluate`, `evalExpr` → `EvalExpr`,
  `binaryExpr` → `BinaryExpr` and `ApplyOp`, `ifExpr` → `IfExpr`, `callExpr` → `CallExpr`,
  `memberExpr` → `MemberExpr`, `getGlobalIfString` → `GetGlobalIfString`.
- The lodash helpers are written out directly.
  `_.map` over a body becomes `EvalEach`, and `_.last` becomes `Last`.
  `_.has` becomes `Has`, an own-key test on an object.
  `_.isString` and `_.isFunction` become the constructor tests `S?` and `Fn?`.
- Each `throw` becomes an `Err` of type `EvalError`: `UnsupportedNode`, `UnsupportedOp`, `FunctionNotFound` or `PropertyNotFound(key)`.
  The error propagates up the walk. Only `Evaluate` turns it into `Undef`.
- A host callable is a deterministic nullary function, so it is modelled as `Fn(ret)`, the value it returns.
- The context is an immutable `map`. The evaluator therefore cannot change it.
  Evaluation is a function, so repeated `Evaluate` calls on the same tree give the same value.
- `<`, `<=`, `>` and `>=` are defined through JavaScript's abstract relational comparison, as the ECMAScript language specification defines them.
  The comparison is numeric for two integers and lexicographic (`StrLess`) for two strings.
  Any other pair is decided by the evaluator's `hostOrder` parameter, which stands for the engine's type coercions. `None` there means "undefined", JavaScript's NaN outcome.
- An AST node type outside the supported set is `Unsupported(kind, body)`.
  It carries a body so that the entry point's shape guard can be stated for it.

Two behaviours of the code worth knowing:

- Member lookup uses lodash `_.has`, which finds own keys only, so `Has` tests own keys.
- `getGlobalIfString` resolves a string-valued intermediate member result against the context again.
  The model does the same. `PathEvaluation` states it for every path, and `StringStepIsResolvedAgain` shows one instance.

## Model

| member | source | states |
|---|---|---|
| Interpreter.Evaluator.ApplyOp | interpreter.js:46-56 | an operator outside the eight listed ones (equality, inequality, the four comparisons, logical and, logical or) fails with UnsupportedOp naming it, and every listed one succeeds; the four comparisons and `==`/`!=` yield booleans; `==` is true iff the operands are strictly equal and `!=` iff they differ; logical and/or yield one of the two operand values |
| Interpreter.And | interpreter.js:53 | `a && b` is the left operand when that is falsy and the right one otherwise, and is truthy iff both operands are |
| Interpreter.Or | interpreter.js:54 | the logical or of `a` and `b` is the left operand when that is truthy and the right one otherwise, and is truthy iff either operand is |
| InterpreterLaws.StrLessTrichotomy | interpreter.js:49-52 | string `<` is a strict total order: exactly one of `x < y`, `x == y`, `y < x` holds |
| InterpreterLaws.StrLessTransitive | interpreter.js:49-52 | string `<` is transitive |
| InterpreterLaws.OrderingLaws | interpreter.js:49-52 | for two integers `<` is numeric order, for two strings lexicographic order; `>=` is the negation of `<`, `<=` is `<` or equal, `>` is neither |
| InterpreterLaws.IncomparableOperands | interpreter.js:49-52 | when the host cannot compare the operands (the NaN outcome), all four relational operators yield false |
| InterpreterLaws.EqualityLaw | interpreter.js:47-48 | `==` of two evaluated operands is true iff they are strictly equal; `!=` is its negation |
| InterpreterLaws.LogicalLaw | interpreter.js:43-57 | `&&` yields the left value if falsy, else the right; logical or yields the left value if truthy, else the right |
| InterpreterLaws.BinaryErrors | interpreter.js:43-57 | both operands are evaluated, left first, for every operator: a failing right operand fails `false && x` too; an unknown operator is reported only after both operands evaluated |
| InterpreterLaws.LiteralValue | interpreter.js:37 | a Literal evaluates to exactly its stored value |
| InterpreterLaws.IdentifierIsItsName | interpreter.js:36 | an Identifier evaluates to its own name, for every context |
| InterpreterLaws.ExpressionStatementPassesThrough | interpreter.js:33 | an ExpressionStatement yields its inner expression's result unchanged |
| InterpreterLaws.UnsupportedNodeFails | interpreter.js:39 | a node type outside the supported set fails with UnsupportedNode carrying its type |
| InterpreterLaws.UnsupportedNodeInProgram | interpreter.js:14-39 | a Program holding an unsupported node after statements that evaluate fails with UnsupportedNode, and `evaluate` gives undefined for it |
| InterpreterLaws.EvalEachOk | interpreter.js:28 | when every body element evaluates, the mapped values are theirs, one per element, in order |
| InterpreterLaws.EvalEachFirstError | interpreter.js:28 | the first failing body element's error is the result; later elements do not matter |
| InterpreterLaws.BlockValue | interpreter.js:26-28 | Program and BlockStatement yield the value of their last element, and undefined for an empty body |
| InterpreterLaws.BlockFirstError | interpreter.js:26-28 | Program and BlockStatement fail with the error of their first failing element |
| InterpreterLaws.IfLaw | interpreter.js:87-97 | a failing test fails the statement; a truthy test yields the consequent's result; a falsy test yields the alternate's result, or undefined without an alternate |
| InterpreterLaws.CallLaw | interpreter.js:109-118 | the callee is evaluated and resolved; a callable yields its return value, anything else fails with FunctionNotFound |
| InterpreterLaws.CallIgnoresArguments | interpreter.js:109-118 | the call's result does not depend on its arguments, which are never evaluated |
| InterpreterLaws.OnlyStringsConsultContext | interpreter.js:140-142 | only a string consults the context: any other value resolves to itself under every context; a present name resolves to its context entry and an absent one to undefined, so a string resolves alike under contexts that agree on that name |
| InterpreterLaws.MemberLaw | interpreter.js:123-138 | object then property are evaluated; only the object is resolved against the context; a present own key yields its value, otherwise PropertyNotFound names the property |
| InterpreterLaws.PathEvaluation | interpreter.js:123-142 | every dotted path, string steps included, evaluates to its step-by-step result under lazy resolution (a string reached on the way is read as a top-level name again), and fails with PropertyNotFound when a step finds no key |
| InterpreterLaws.PathResultWithoutStringSteps | interpreter.js:127-131 | when no intermediate value is a string, lazy resolution agrees with looking the first name up once and following own keys |
| InterpreterLaws.PathLaw | interpreter.js:123-138 | a dotted path `a.b.c` without string intermediates evaluates to the value it denotes (`context[a][b][c]`), and fails with PropertyNotFound when a key on it is missing |
| InterpreterLaws.PathCallLaw | interpreter.js:109-118 | for a name or a path without string intermediates, `a()`, `a.b()` and `a.b.c()` call the function the path denotes; a non-callable, non-string target fails with FunctionNotFound; a missing key fails with PropertyNotFound |
| InterpreterLaws.StringStepIsResolvedAgain | interpreter.js:127-131 | an intermediate member result that is a string is read as a top-level name again: with `{a: {b: "x"}, x: {c: 5}}`, `a.b.c` denotes nothing as a path yet evaluates to 5 through the context entry `x` |
| InterpreterLaws.EvaluateLaw | interpreter.js:9-20 | a non-Program root with a non-empty body yields undefined unevaluated; an error anywhere yields undefined; otherwise the walk's value is returned; a Program root is never skipped |
| UnitExamples.EqualityOperators | unit.js:8-23 | `true`, `1 == 1`, `1 != 2`, `"a" == "a"` give true and `1 == 2` gives false |
| UnitExamples.ConjunctionOfComparisons | unit.js:25-29 | `"1" != "a" && "3" != 3` gives true; `"1" == "a" && 3 != 3` gives false |
| UnitExamples.ConjunctionChain | unit.js:31-32 | `true && 1 == 1 && "a" == "a"` gives true |
| UnitExamples.ConjunctionWithCall | unit.js:34-40 | `true && foo()` gives foo's own value: true, or 0, which is falsy |
| UnitExamples.MemberExpressions | unit.js:45-56 | `foo.bar` gives 7 for `{foo: {bar: 7}}`, `foo.bar.baz` gives 7 for `{foo: {bar: {baz: 7}}}` and undefined for `{foo: {bar: 7}}` |
| UnitExamples.IfStatements | unit.js:61-67 | `if true then foo.bar end` gives 7 and `if false then foo.bar end` gives undefined |
| UnitExamples.FunctionCalls | unit.js:72-79 | `foo()` and `foo.bar()` give 7 when the context holds a function returning 7 there |
| UnitExamples.SubtreeIsSkipped | interpreter.js:10-12 | a bare BlockStatement given to the entry point gives undefined, while the same statement inside a Program gives its value |

## Left out

- The parser (`./grammar`) is not part of this model: its output, the AST, is the input here. The ASTs in `UnitExamples` are written by hand in the shape the parser emits.
- `console.log` of the caught error, and the text of every error message (`JSON.stringify` of the object, the callee's name), are diagnostics. Only the error kind and the missing property are modelled.
- The lodash library as such: its helpers are modelled by what they do here.
- Interpreter.Evaluator.ApplyOp: `==` and `!=` compare objects and callables by content, not by reference identity as JavaScript's `===` does.
- Interpreter.Evaluator.ApplyOp: numbers are integers only, with no floating point, NaN or `-0`. Relational comparison of a pair that is not two integers or two strings is delegated to `hostOrder`, because the engine's coercions (`"3" < 5`, `true < 2`, objects turned into strings) are not modelled.
- Interpreter.StrLess: strings are compared by Unicode code point. JavaScript compares UTF-16 code units; the two orders differ only between characters above U+FFFF and characters U+E000 to U+FFFF.
- Interpreter.Has: only objects have keys, and only a string property is looked up. Lodash `_.has` also sees own properties of strings and functions (`length`, `name`), array indices, numeric keys, and dotted strings as deep paths. The parser gives a member expression an Identifier as property, so the property is always a plain name.
- Interpreter.Evaluator.GetGlobalIfString: names inherited by the context object from its prototype (`toString` and the like) are not found; the context is a plain map.
- Host callables with side effects, with arguments or depending on `this` are out of scope: a callable is its fixed return value.
- Arrays in the context are not modelled.
- A `body` field that is not a sequence of nodes is not modelled.
