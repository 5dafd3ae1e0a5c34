# Microgrid formula engine — a Dafny model

The formula engine turns arithmetic formulas over numbered data points
("components", written `#0`, `#1`, …) into an expression tree. It then
evaluates that tree many times, once per snapshot of component values. A
snapshot maps each id to a present value (`Some`) or an absent one (`None`).
Absent values propagate through negation and the four binary operators.
`COALESCE`, `MIN` and `MAX` have their own rules for absent values. The only
evaluation error is an id that is not a key of the snapshot at all. An id
mapped to `None` is not an error.

The model has one module per source file it covers, plus `Wrappers` for the
standard-library types:

- `Wrappers` (`wrappers.dfy`): `Option`, `Result` (with `:-` standing for
  Rust's `?`) and `Find`, the model of `Iterator::find`.
- `Errors` (`errors.dfy`): `FormulaError`, a message wrapper, and the
  "Placeholder out of bounds" error.
- `Numbers` (`numbers.dfy`): the numeric type. The engine is generic over
  `NumberLike<T> + PartialOrd`. The model is generic over `T` and takes a
  record `Number<T>` of its operations: `neg`, `add`, `sub`, `mul`, `div`
  and `cmp`. `cmp` stands for `partial_cmp` and returns `None` for
  incomparable values. `IntNumber` instantiates the record with the
  integers, for the tests that need concrete ordering.
- `Expression` (`expression.dfy`): the tree `Expr<T>`, `Op.Apply`,
  `Function.Apply`, `Expr.Calculate`, `Expr.Components`, and the theorems
  about them.
- `Engine` (`formula_engine.dfy`): `FormulaEngine`, a value holding the tree
  and its cached component set. `TryNew` builds it; `Valid` is the invariant
  that the cached set equals the tree's component set.
- `Tests` (`tests.dfy`): the test suite's own null-aware helpers (`max`,
  `min`, `coalesce`, `OptionW` `+`/`-`). The model proves them equal to the
  engine's operators. The unit tests and the two microgrid fuzz formulas
  become lemmas over the trees the parser builds for those formulas. The
  fuzz lemmas hold for every map containing the formula's ids, every numeric
  type and every value of the literal `0.0`.

Naming: Rust's `Expr::Op { lhs, op, rhs }` is `BinaryOp(lhs, op, rhs)`, and
`Expr::Function { function, args }` is `Call(func, args)`. This avoids a
clash with the datatypes `Op` and `Function`. Component ids are `nat`.
`Values<T>` is the snapshot map `map<nat, Option<T>>`.

The source evaluates function arguments with `map(..).collect::<Result<..>>()`.
This stops at the first argument that fails, and `CalculateArgs` does the
same. Evaluating every argument would report the same error, since there is
only one.

## Model

| member | source | states |
|---|---|---|
| Wrappers.Find | src/expression.rs:173-177 | `find` returns `None` iff no element satisfies the predicate; otherwise the element at the first index that does |
| Expression.Op.Apply | src/expression.rs:149-159 | the result is present iff both operands are present, and it is then `+`, `-`, `*` or `/` of the two values |
| Expression.Function.Apply | src/expression.rs:171-198 | COALESCE, MIN and MAX are absent iff every argument is absent, and otherwise return one of the arguments; COALESCE returns the first present argument |
| Expression.Step | src/expression.rs:179-196 | one MIN/MAX fold step: an absent value never beats a present one; the accumulator is kept only when `cmp` is strictly `Less` (MIN) or `Greater` (MAX); ties and incomparable values take the incoming value |
| Expression.Fold | src/expression.rs:179-196 | the fold is absent iff the seed and every value are absent, and otherwise returns the seed or one of the values |
| Expression.Expr.Calculate | src/expression.rs:104-120 | every evaluation error is "Placeholder out of bounds" |
| Expression.Expr.CalculateArgs | src/expression.rs:109-114 | argument evaluation fails iff some argument fails; on success it returns each argument's value in order |
| Expression.Expr.Components | src/expression.rs:122-137 | the ids of the tree's `Component` nodes; `ComponentsExact` proves it equal to the independent `Occurs` |
| Expression.Expr.ArgsComponents | src/expression.rs:131-134 | the union of the arguments' component sets; `ArgsComponentsExact` proves it holds exactly the ids occurring in some argument |
| Expression.ValueRule | src/expression.rs:106 | a literal evaluates to itself under every map and references no id |
| Expression.UnaryMinusRule | src/expression.rs:107 | negation maps `None` to `None` and `Some(v)` to `Some(-v)`, and passes an error through unchanged |
| Expression.BinaryOpRule | src/expression.rs:108 | a binary node passes on an error of the left operand, then of the right, else applies `Op.Apply` |
| Expression.ComponentRule | src/expression.rs:115-118 | an id that is not a key gives the out-of-bounds error; a key gives its value, `None` included; the node's component set is `{i}` |
| Expression.ComponentsExact | src/expression.rs:122-137 | `Components()` is exactly the set of ids of `Component` nodes anywhere in the tree |
| Expression.ArgsComponentsExact | src/expression.rs:131-134 | the union over the arguments holds exactly the ids occurring in some argument |
| Expression.CalculateFailsIffMissing | src/expression.rs:104-137 | evaluation fails exactly when some id of `Components()` is not a key of the map |
| Expression.ArgsFailIffMissing | src/expression.rs:109-134 | argument evaluation fails exactly when some id of the arguments is not a key |
| Expression.CalculateLocal | src/expression.rs:104-137 | two maps that agree on the tree's component ids give the same result |
| Expression.ArgsLocal | src/expression.rs:109-134 | the same for argument lists |
| Expression.AtLeastTransitive | src/expression.rs:171 | under a total order, "at most" (or "at least") is transitive |
| Expression.StepExtremal | src/expression.rs:179-196 | under a total order a MIN (MAX) step is at most (at least) both operands |
| Expression.FoldExtremal | src/expression.rs:179-196 | under a total order the MIN (MAX) fold is at most (at least) the seed and every present value |
| Expression.MinIsLowerBound | src/expression.rs:179-187 | under a total order a present MIN is at most every present argument |
| Expression.MaxIsUpperBound | src/expression.rs:188-196 | under a total order a present MAX is at least every present argument |
| Numbers.IntNumberTotal | src/expression.rs:103 | the integer instance's comparison is a total order |
| Engine.FormulaEngine.Valid | src/formula_engine.rs:27-29 | the invariant `try_new` sets up: the cached set equals the stored tree's component set; `TryNew` establishes it and `Components`/`Calculate` rely on it |
| Engine.FormulaEngine.Components | src/formula_engine.rs:32-35 | for a valid engine the cached set is the tree's component set, i.e. exactly the ids occurring in the tree |
| Engine.FormulaEngine.Calculate | src/formula_engine.rs:37-40 | for a valid engine, calculation fails exactly when a cached id is not a key; the only error is out-of-bounds |
| Engine.CalculateReadsOnlyComponents | src/formula_engine.rs:37-40 | only the entries of the cached ids influence the result |
| Engine.TryNew | src/formula_engine.rs:24-30 | fails iff the parser fails, passing its error through unchanged; on success stores the parsed tree with its component set, so the engine is valid |
| Tests.RefMax | src/tests.rs:13-29 | the reference `max` is absent iff both are absent, and otherwise returns one of them |
| Tests.RefMin | src/tests.rs:31-47 | the reference `min` is absent iff both are absent, and otherwise returns one of them |
| Tests.RefCoalesce | src/tests.rs:49-53 | the reference `coalesce` is absent iff every element is absent |
| Tests.RefAdd | src/tests.rs:68-77 | `OptionW` addition is present iff both sides are |
| Tests.RefSub | src/tests.rs:79-88 | `OptionW` subtraction is present iff both sides are |
| Tests.RefMaxAgrees | src/tests.rs:13-29 | the engine's two-argument MAX equals the reference `max`, the tie-break towards the second argument included |
| Tests.RefMinAgrees | src/tests.rs:31-47 | the engine's two-argument MIN equals the reference `min` |
| Tests.RefCoalesceAgrees | src/tests.rs:49-53 | the engine's COALESCE equals the reference `coalesce` on every list |
| Tests.RefAddAgrees | src/tests.rs:68-77 | `Op.Apply(Add)` equals `OptionW` addition |
| Tests.RefSubAgrees | src/tests.rs:79-88 | `Op.Apply(Sub)` equals `OptionW` subtraction |
| Tests.Build | src/formula_engine.rs:24-30 | the engine built from a tree is valid and stores that tree |
| Tests.CallOfValues | src/expression.rs:109-114 | a call whose arguments evaluate without error yields the function applied to their values |
| Tests.ParseAddition | src/tests.rs:90-94 | `1 + 1` evaluates to `1 + 1` under the empty map |
| Tests.ParseMultiplication | src/tests.rs:96-100 | `0.9 * 1.1` evaluates to the product of the two literals |
| Tests.ParseSubtraction | src/tests.rs:102-106 | `1 - 1` evaluates to `1 - 1` |
| Tests.ParseDivision | src/tests.rs:108-112 | `1 / 1` evaluates to `1 / 1` |
| Tests.Combination | src/tests.rs:124-128 | `1 + 1 * 2` evaluates to `1 + (1 * 2)` |
| Tests.CombinationMulAdd | src/tests.rs:130-134 | `2 * 1 + 2` evaluates to `(2 * 1) + 2` |
| Tests.NegativeValue | src/tests.rs:136-140 | `-1` evaluates to the negated literal |
| Tests.Placeholder | src/tests.rs:142-151 | `#0` under `{0: Some(1)}` is `Some(1)` |
| Tests.NegativePlaceholder | src/tests.rs:153-162 | `-#0` under `{0: Some(1)}` is `Some(-1)` |
| Tests.InvalidPlaceholder | src/tests.rs:164-168 | `#1` under `{0: Some(1)}` is an error |
| Tests.PlaceholderAddition | src/tests.rs:170-179 | `#0 + #1` under `{0: Some(1), 1: Some(2)}` is `Some(1 + 2)` |
| Tests.CalculatingWithNones | src/tests.rs:181-188 | `#0 + #1` under `{0: Some(1), 1: None}` is `None` |
| Tests.FunctionCoalesce | src/tests.rs:190-199 | `COALESCE(#0, #1, #2)` under `{0: None, 1: Some(a), 2: Some(b)}` is `Some(a)` |
| Tests.FunctionMin | src/tests.rs:201-210 | `MIN(#0, #1, #2)` under `{0: 3, 1: 1, 2: 2}` is `Some(1)` |
| Tests.FunctionMinNone | src/tests.rs:212-221 | `MIN(#0, #1, #2)` under `{0: None, 1: 1, 2: 2}` is `Some(1)` |
| Tests.FunctionMax | src/tests.rs:223-232 | `MAX(#0, #1, #2)` under `{0: 3, 1: 1, 2: 2}` is `Some(3)` |
| Tests.FunctionMaxNone | src/tests.rs:234-243 | `MAX(#0, #1, #2)` under `{0: None, 1: None, 2: Some(2)}` is `Some(2)` |
| Tests.ComponentsGetterOp | src/tests.rs:245-249 | the engine for `#0 + #1` has components `{0, 1}` |
| Tests.ComponentsGetterNeg | src/tests.rs:251-255 | the engine for `#0 + (-#1)` has components `{0, 1}` |
| Tests.ComponentsGetterFunction | src/tests.rs:257-261 | the engine for `-MAX(#0, #1)` has components `{0, 1}` |
| Tests.ComponentsGetterFunctionFunction | src/tests.rs:263-267 | the engine for `MAX(#0, COALESCE(#1, #2))` has components `{0, 1, 2}` |
| Tests.Coalesce2 | src/tests.rs:49-53 | a two-argument COALESCE node evaluates to the reference `coalesce` of its arguments' values |
| Tests.Coalesce3 | src/tests.rs:49-53 | the same for three arguments |
| Tests.Min2 | src/tests.rs:31-47 | a two-argument MIN node evaluates to the reference `min` of its arguments' values |
| Tests.Max2 | src/tests.rs:13-29 | a two-argument MAX node evaluates to the reference `max` of its arguments' values |
| Tests.Sum | src/tests.rs:68-77 | an addition node evaluates to the `OptionW` sum of its operands' values |
| Tests.Difference | src/tests.rs:79-88 | a subtraction node evaluates to the `OptionW` difference of its operands' values |
| Tests.Leaves | src/expression.rs:106-118 | `ValueRule` for a literal and `ComponentRule` for every key of the map, gathered for the microgrid proofs |
| Tests.Formula1Head | src/tests.rs:271 | the tree of the first `MIN` term of the first microgrid formula, with `0.0` as the parameter `zero` |
| Tests.Formula1 | src/tests.rs:270-274 | the left-associated tree of the whole first microgrid formula |
| Tests.Reference1Head | src/tests.rs:279-292 | the test's reference expression for the first term, over the map's entries for ids 2, 3 and 4 |
| Tests.Reference1 | src/tests.rs:279-306 | the test's whole reference expression for the first formula |
| Tests.MicrogridFormula1Head | src/tests.rs:270-292 | the first `MIN` term of the first microgrid formula equals its reference expression |
| Tests.MicrogridFormula1 | src/tests.rs:269-326 | for every map with keys 2..7, the first microgrid formula evaluates without error to the nested reference expression |
| Tests.Formula2Head | src/tests.rs:330-331 | the tree of the first `MAX` term of the second microgrid formula, with `#1 - C1 - C2` left-associated |
| Tests.Formula2 | src/tests.rs:329-333 | the left-associated tree of the whole second microgrid formula |
| Tests.Reference2Head | src/tests.rs:338-355 | the test's reference expression for the first term, over the map's entries for ids 1, 2, 3, 5, 6 and 7 |
| Tests.Reference2 | src/tests.rs:338-371 | the test's whole reference expression for the second formula |
| Tests.MicrogridFormula2Head | src/tests.rs:329-355 | the first `MAX` term of the second microgrid formula equals its reference expression |
| Tests.MicrogridFormula2 | src/tests.rs:328-391 | for every map with keys 1, 2, 3, 5, 6 and 7 (so every map the driver builds over 1..7), the second microgrid formula evaluates without error to the nested reference expression |

## Left out

- Formula parsing: the grammar, the pest-driven `TryFrom<Pairs<Rule>>` tree builder and the precedence table (src/expression.rs:32-101, src/parser.rs:11-22). `grammar.pest` and `parser::parse` are not part of this model. `TryNew` takes the parser as a parameter. Test trees are built by hand with the precedence the table gives: `*` and `/` bind tighter than `+` and `-`, both left-associative, and unary minus binds tightest.
- The whitespace test (src/tests.rs:114-122) is about parsing only; all its formulas give the tree of `ParseAddition`.
- The tree builder turns a bad literal, a bad id or a failed sub-expression into `Value(None)` instead of an error (src/expression.rs:42, 44, 50, 56). Parsing is not modelled.
- Floating point: exact `f32` results (for example `0.9 * 1.1`), NaN and rounding. The numeric operations are parameters, so every generic lemma holds for any numeric type. Incomparable values appear only as `cmp` returning `None`. Division by zero belongs to the numeric type; `IntNumber` returns 0 for it, and no test divides by zero.
- The reference `OptionW` `+` and `-` are defined for `f32` only; `RefAdd` and `RefSub` are generic over the numeric type.
- The fuzz drivers' random loops (src/tests.rs:311-326, 376-391): replaced by lemmas quantified over every map holding the formula's ids.
- The error type's conversions from pest and `ParseFloatError` errors (src/error.rs): only the message wrapper is modelled.
- `FormulaEngine.Calculate` being read-only and deterministic is not a separate lemma. The engine is an immutable value and `Calculate` a function of the engine and the map, so two calls with the same map agree and one call cannot affect another.
- The Python binding (src/python.rs, the Python package and its test), `lazy_static` initialisation, and the `usize`/`u64` id types: ids are `nat`.
