/** The test suite's hand-written null-aware helpers, the unit tests on
    formulas, and the two microgrid fuzz formulas, restated as lemmas over
    the trees the parser builds for those formulas. */
module Tests {
  import opened Wrappers
  import opened Numbers
  import opened Errors
  import opened Expression
  import opened Engine

  // ---------------------------------------------------------------------
  // Reference helpers (`OptionW` arithmetic and the `min`/`max`/`coalesce`
  // functions of the test suite)

  /** `max(a, b)`: the larger present value, `b` unless `a > b`. */
  function RefMax<T>(num: Number<T>, a: Option<T>, b: Option<T>): (r: Option<T>)
    ensures r.None? <==> a.None? && b.None?
    ensures r.Some? ==> r == a || r == b
  {
    match (a, b)
    case (Some(x), Some(y)) => if num.Gt(x, y) then Some(x) else Some(y)
    case (Some(x), None) => Some(x)
    case (None, Some(y)) => Some(y)
    case (None, None) => None
  }

  /** `min(a, b)`: the smaller present value, `b` unless `a < b`. */
  function RefMin<T>(num: Number<T>, a: Option<T>, b: Option<T>): (r: Option<T>)
    ensures r.None? <==> a.None? && b.None?
    ensures r.Some? ==> r == a || r == b
  {
    match (a, b)
    case (Some(x), Some(y)) => if num.Lt(x, y) then Some(x) else Some(y)
    case (Some(x), None) => Some(x)
    case (None, Some(y)) => Some(y)
    case (None, None) => None
  }

  /** `coalesce(list)`: `find(is_some).unwrap_or(OptionW(None))`. */
  function RefCoalesce<T>(list: seq<Option<T>>): (r: Option<T>)
    ensures r.None? <==> forall i :: 0 <= i < |list| ==> list[i].None?
  {
    match Find(list, (x: Option<T>) => x.Some?)
    case Some(x) => x
    case None => None
  }

  /** `OptionW + OptionW`: present only when both sides are. */
  function RefAdd<T>(num: Number<T>, a: Option<T>, b: Option<T>): (r: Option<T>)
    ensures r.Some? <==> a.Some? && b.Some?
  {
    match (a, b)
    case (Some(x), Some(y)) => Some(num.add(x, y))
    case _ => None
  }

  /** `OptionW - OptionW`: present only when both sides are. */
  function RefSub<T>(num: Number<T>, a: Option<T>, b: Option<T>): (r: Option<T>)
    ensures r.Some? <==> a.Some? && b.Some?
  {
    match (a, b)
    case (Some(x), Some(y)) => Some(num.sub(x, y))
    case _ => None
  }

  /** The engine's `MAX` of two arguments is the reference `max`, including
      taking the second argument on a tie or an incomparable pair. */
  lemma RefMaxAgrees<T>(num: Number<T>, a: Option<T>, b: Option<T>)
    ensures Max.Apply(num, [a, b]) == RefMax(num, a, b)
  {
    var s := Step(num, Greater, None, a);
    assert [a, b][1..] == [b] && [b][1..] == [];
    assert Fold(num, Greater, s, [b]) == Step(num, Greater, s, b);
  }

  /** The engine's `MIN` of two arguments is the reference `min`. */
  lemma RefMinAgrees<T>(num: Number<T>, a: Option<T>, b: Option<T>)
    ensures Min.Apply(num, [a, b]) == RefMin(num, a, b)
  {
    var s := Step(num, Less, None, a);
    assert [a, b][1..] == [b] && [b][1..] == [];
    assert Fold(num, Less, s, [b]) == Step(num, Less, s, b);
  }

  /** The engine's `COALESCE` is the reference `coalesce` on every list. */
  lemma RefCoalesceAgrees<T>(num: Number<T>, list: seq<Option<T>>)
    ensures Coalesce.Apply(num, list) == RefCoalesce(list)
  {
  }

  /** `Op::apply(Add)` is `OptionW` addition. */
  lemma RefAddAgrees<T>(num: Number<T>, a: Option<T>, b: Option<T>)
    ensures Add.Apply(num, a, b) == RefAdd(num, a, b)
  {
  }

  /** `Op::apply(Sub)` is `OptionW` subtraction. */
  lemma RefSubAgrees<T>(num: Number<T>, a: Option<T>, b: Option<T>)
    ensures Sub.Apply(num, a, b) == RefSub(num, a, b)
  {
  }

  // ---------------------------------------------------------------------
  // Building engines from hand-built trees

  /** The engine `try_new(formula)` returns when the parser turns `formula`
      into `tree`. */
  function Build<T>(formula: string, tree: Expr<T>): (engine: FormulaEngine<T>)
    ensures engine.Valid() && engine.expr == tree
  {
    TryNew(formula, (s: string) => Ok(tree)).value
  }

  /** A call node evaluates to the function applied to its arguments' values
      once every argument evaluates without error. */
  lemma CallOfValues<T>(f: Function, args: seq<Expr<T>>, vs: seq<Option<T>>, num: Number<T>, values: Values<T>)
    requires |vs| == |args|
    requires forall k :: 0 <= k < |args| ==> args[k].Calculate(num, values) == Ok(vs[k])
    ensures Call(f, args).Calculate(num, values) == Ok(f.Apply(num, vs))
  {
    var r := Expr.CalculateArgs(args, num, values);
    assert r.Ok?;
    assert r.value == vs;
  }

  // ---------------------------------------------------------------------
  // Unit tests

  lemma ParseAddition<T>(num: Number<T>, one: T)
    ensures Build("1 + 1", BinaryOp(Value(Some(one)), Add, Value(Some(one)))).Calculate(num, map[])
            == Ok(Some(num.add(one, one)))
  {
    assert Value(Some(one)).Calculate(num, map[]) == Ok(Some(one));
  }

  lemma ParseMultiplication<T>(num: Number<T>, a: T, b: T)
    ensures Build("0.9 * 1.1", BinaryOp(Value(Some(a)), Mul, Value(Some(b)))).Calculate(num, map[])
            == Ok(Some(num.mul(a, b)))
  {
    assert Value(Some(a)).Calculate(num, map[]) == Ok(Some(a));
    assert Value(Some(b)).Calculate(num, map[]) == Ok(Some(b));
  }

  lemma ParseSubtraction<T>(num: Number<T>, one: T)
    ensures Build("1 - 1", BinaryOp(Value(Some(one)), Sub, Value(Some(one)))).Calculate(num, map[])
            == Ok(Some(num.sub(one, one)))
  {
    assert Value(Some(one)).Calculate(num, map[]) == Ok(Some(one));
  }

  lemma ParseDivision<T>(num: Number<T>, one: T)
    ensures Build("1 / 1", BinaryOp(Value(Some(one)), Div, Value(Some(one)))).Calculate(num, map[])
            == Ok(Some(num.div(one, one)))
  {
    assert Value(Some(one)).Calculate(num, map[]) == Ok(Some(one));
  }

  /** `1 + 1 * 2`: multiplication binds tighter. */
  lemma Combination<T>(num: Number<T>, one: T, two: T)
    ensures Build("1 + 1 * 2", BinaryOp(Value(Some(one)), Add, BinaryOp(Value(Some(one)), Mul, Value(Some(two)))))
              .Calculate(num, map[])
            == Ok(Some(num.add(one, num.mul(one, two))))
  {
    var product := BinaryOp(Value(Some(one)), Mul, Value(Some(two)));
    assert Value(Some(one)).Calculate(num, map[]) == Ok(Some(one));
    assert Value(Some(two)).Calculate(num, map[]) == Ok(Some(two));
    assert product.Calculate(num, map[]) == Ok(Some(num.mul(one, two)));
  }

  lemma CombinationMulAdd<T>(num: Number<T>, one: T, two: T)
    ensures Build("2 * 1 + 2", BinaryOp(BinaryOp(Value(Some(two)), Mul, Value(Some(one))), Add, Value(Some(two))))
              .Calculate(num, map[])
            == Ok(Some(num.add(num.mul(two, one), two)))
  {
    var product := BinaryOp(Value(Some(two)), Mul, Value(Some(one)));
    assert Value(Some(one)).Calculate(num, map[]) == Ok(Some(one));
    assert Value(Some(two)).Calculate(num, map[]) == Ok(Some(two));
    assert product.Calculate(num, map[]) == Ok(Some(num.mul(two, one)));
  }

  lemma NegativeValue<T>(num: Number<T>, one: T)
    ensures Build("-1", UnaryMinus(Value(Some(one)))).Calculate(num, map[]) == Ok(Some(num.neg(one)))
  {
    assert Value(Some(one)).Calculate(num, map[]) == Ok(Some(one));
  }

  lemma Placeholder<T>(num: Number<T>, one: T)
    ensures Build("#0", Component(0)).Calculate(num, map[0 := Some(one)]) == Ok(Some(one))
  {
  }

  lemma NegativePlaceholder<T>(num: Number<T>, one: T)
    ensures Build("-#0", UnaryMinus(Component(0))).Calculate(num, map[0 := Some(one)])
            == Ok(Some(num.neg(one)))
  {
  }

  /** An id that is not a key is an error, not an absent value. */
  lemma InvalidPlaceholder<T>(num: Number<T>, one: T)
    ensures Build("#1", Component(1)).Calculate(num, map[0 := Some(one)]).Err?
  {
  }

  lemma PlaceholderAddition<T>(num: Number<T>, one: T, two: T)
    ensures Build("#0 + #1", BinaryOp(Component(0), Add, Component(1)))
              .Calculate(num, map[0 := Some(one), 1 := Some(two)])
            == Ok(Some(num.add(one, two)))
  {
  }

  /** An id mapped to `None` makes the sum absent. */
  lemma CalculatingWithNones<T>(num: Number<T>, one: T)
    ensures Build("#0 + #1", BinaryOp(Component(0), Add, Component(1)))
              .Calculate(num, map[0 := Some(one), 1 := None])
            == Ok(None)
  {
  }

  /** `COALESCE(#0, #1, #2)` over `{0: None, 1: Some(a), 2: Some(b)}` is `Some(a)`. */
  lemma FunctionCoalesce<T>(num: Number<T>, a: T, b: T)
    ensures Build("COALESCE(#0, #1,#2)", Call(Coalesce, [Component(0), Component(1), Component(2)]))
              .Calculate(num, map[0 := None, 1 := Some(a), 2 := Some(b)])
            == Ok(Some(a))
  {
    var values := map[0 := None, 1 := Some(a), 2 := Some(b)];
    CallOfValues(Coalesce, [Component(0), Component(1), Component(2)], [None, Some(a), Some(b)], num, values);
  }

  lemma FunctionMin()
    ensures Build("MIN(#0, #1,#2)", Call(Min, [Component(0), Component(1), Component(2)]))
              .Calculate(IntNumber, map[0 := Some(3), 1 := Some(1), 2 := Some(2)])
            == Ok(Some(1))
  {
    var values := map[0 := Some(3), 1 := Some(1), 2 := Some(2)];
    CallOfValues(Min, [Component(0), Component(1), Component(2)], [Some(3), Some(1), Some(2)], IntNumber, values);
  }

  /** An absent argument never wins `MIN`. */
  lemma FunctionMinNone()
    ensures Build("MIN(#0, #1,#2)", Call(Min, [Component(0), Component(1), Component(2)]))
              .Calculate(IntNumber, map[0 := None, 1 := Some(1), 2 := Some(2)])
            == Ok(Some(1))
  {
    var values := map[0 := None, 1 := Some(1), 2 := Some(2)];
    CallOfValues(Min, [Component(0), Component(1), Component(2)], [None, Some(1), Some(2)], IntNumber, values);
  }

  lemma FunctionMax()
    ensures Build("MAX(#0, #1,#2)", Call(Max, [Component(0), Component(1), Component(2)]))
              .Calculate(IntNumber, map[0 := Some(3), 1 := Some(1), 2 := Some(2)])
            == Ok(Some(3))
  {
    var values := map[0 := Some(3), 1 := Some(1), 2 := Some(2)];
    CallOfValues(Max, [Component(0), Component(1), Component(2)], [Some(3), Some(1), Some(2)], IntNumber, values);
  }

  /** `MAX` with a single present argument returns it, whatever the type. */
  lemma FunctionMaxNone<T>(num: Number<T>, two: T)
    ensures Build("MAX(#0, #1,#2)", Call(Max, [Component(0), Component(1), Component(2)]))
              .Calculate(num, map[0 := None, 1 := None, 2 := Some(two)])
            == Ok(Some(two))
  {
    var values := map[0 := None, 1 := None, 2 := Some(two)];
    CallOfValues(Max, [Component(0), Component(1), Component(2)], [None, None, Some(two)], num, values);
  }

  lemma ComponentsGetterOp<T>()
    ensures Build<T>("#0 + #1", BinaryOp(Component(0), Add, Component(1))).Components() == {0, 1}
  {
  }

  lemma ComponentsGetterNeg<T>()
    ensures Build<T>("#0 + (-#1)", BinaryOp(Component(0), Add, UnaryMinus(Component(1))))
              .Components() == {0, 1}
  {
  }

  lemma ComponentsGetterFunction<T>()
    ensures Build<T>("-MAX(#0, #1)", UnaryMinus(Call(Max, [Component(0), Component(1)]))).Components() == {0, 1}
  {
  }

  /** Nested calls contribute their ids once each. */
  lemma ComponentsGetterFunctionFunction<T>()
    ensures Build<T>("MAX(#0, COALESCE(#1, #2))",
                     Call(Max, [Component(0), Call(Coalesce, [Component(1), Component(2)])])).Components()
            == {0, 1, 2}
  {
  }

  // ---------------------------------------------------------------------
  // The microgrid fuzz formulas: for every map holding the formula's ids,
  // the engine agrees with the nested reference expression

  /** The helpers below evaluate one node from its children's results,
      applying the function through the matching reference helper. */
  lemma Coalesce2<T>(a: Expr<T>, b: Expr<T>, va: Option<T>, vb: Option<T>, num: Number<T>, values: Values<T>)
    requires a.Calculate(num, values) == Ok(va) && b.Calculate(num, values) == Ok(vb)
    ensures Call(Coalesce, [a, b]).Calculate(num, values) == Ok(RefCoalesce([va, vb]))
  {
    CallOfValues(Coalesce, [a, b], [va, vb], num, values);
    RefCoalesceAgrees(num, [va, vb]);
  }

  lemma Coalesce3<T>(a: Expr<T>, b: Expr<T>, c: Expr<T>, va: Option<T>, vb: Option<T>, vc: Option<T>,
                     num: Number<T>, values: Values<T>)
    requires a.Calculate(num, values) == Ok(va) && b.Calculate(num, values) == Ok(vb)
    requires c.Calculate(num, values) == Ok(vc)
    ensures Call(Coalesce, [a, b, c]).Calculate(num, values) == Ok(RefCoalesce([va, vb, vc]))
  {
    CallOfValues(Coalesce, [a, b, c], [va, vb, vc], num, values);
    RefCoalesceAgrees(num, [va, vb, vc]);
  }

  lemma Min2<T>(a: Expr<T>, b: Expr<T>, va: Option<T>, vb: Option<T>, num: Number<T>, values: Values<T>)
    requires a.Calculate(num, values) == Ok(va) && b.Calculate(num, values) == Ok(vb)
    ensures Call(Min, [a, b]).Calculate(num, values) == Ok(RefMin(num, va, vb))
  {
    CallOfValues(Min, [a, b], [va, vb], num, values);
    RefMinAgrees(num, va, vb);
  }

  lemma Max2<T>(a: Expr<T>, b: Expr<T>, va: Option<T>, vb: Option<T>, num: Number<T>, values: Values<T>)
    requires a.Calculate(num, values) == Ok(va) && b.Calculate(num, values) == Ok(vb)
    ensures Call(Max, [a, b]).Calculate(num, values) == Ok(RefMax(num, va, vb))
  {
    CallOfValues(Max, [a, b], [va, vb], num, values);
    RefMaxAgrees(num, va, vb);
  }

  lemma Sum<T>(a: Expr<T>, b: Expr<T>, va: Option<T>, vb: Option<T>, num: Number<T>, values: Values<T>)
    requires a.Calculate(num, values) == Ok(va) && b.Calculate(num, values) == Ok(vb)
    ensures BinaryOp(a, Add, b).Calculate(num, values) == Ok(RefAdd(num, va, vb))
  {
  }

  lemma Difference<T>(a: Expr<T>, b: Expr<T>, va: Option<T>, vb: Option<T>, num: Number<T>, values: Values<T>)
    requires a.Calculate(num, values) == Ok(va) && b.Calculate(num, values) == Ok(vb)
    ensures BinaryOp(a, Sub, b).Calculate(num, values) == Ok(RefSub(num, va, vb))
  {
  }

  /** `ValueRule` for the literal `zero` and `ComponentRule` for every key, at once. */
  lemma Leaves<T>(zero: T, num: Number<T>, values: Values<T>)
    ensures Value(Some(zero)).Calculate(num, values) == Ok(Some(zero))
    ensures forall k :: k in values ==> Component(k).Calculate(num, values) == Ok(values[k])
  {
    ValueRule(Some(zero), num, values);
    forall k | k in values
      ensures Component(k).Calculate(num, values) == Ok(values[k])
    {
      ComponentRule(k, num, values);
    }
  }

  const Formula1Text := "MIN(0.0, COALESCE(#4 + #3, #2, COALESCE(#4, 0.0) + COALESCE(#3, 0.0))) + "
                        + "MIN(0.0, COALESCE(#6, #5, 0.0)) + MIN(0.0, COALESCE(#7, 0.0))"

  /** The first term of `Formula1Text`. */
  function Formula1Head<T>(zero: T): Expr<T> {
    var z := Value(Some(zero));
    Call(Min, [z, Call(Coalesce, [
      BinaryOp(Component(4), Add, Component(3)),
      Component(2),
      BinaryOp(Call(Coalesce, [Component(4), z]), Add, Call(Coalesce, [Component(3), z]))])])
  }

  /** The tree of `Formula1Text`, with `zero` the parsed `0.0`. */
  function Formula1<T>(zero: T): Expr<T> {
    var z := Value(Some(zero));
    BinaryOp(
      BinaryOp(
        Formula1Head(zero),
        Add,
        Call(Min, [z, Call(Coalesce, [Component(6), Component(5), z])])),
      Add,
      Call(Min, [z, Call(Coalesce, [Component(7), z])]))
  }

  function Reference1Head<T>(num: Number<T>, zero: T, values: Values<T>): Option<T>
    requires {2, 3, 4} <= values.Keys
  {
    var z := Some(zero);
    RefMin(num, z, RefCoalesce([
      RefAdd(num, values[4], values[3]),
      values[2],
      RefAdd(num, RefCoalesce([values[4], z]), RefCoalesce([values[3], z]))]))
  }

  /** The reference expression of the first fuzz test. */
  function Reference1<T>(num: Number<T>, zero: T, values: Values<T>): Option<T>
    requires {2, 3, 4, 5, 6, 7} <= values.Keys
  {
    var z := Some(zero);
    RefAdd(num,
      RefAdd(num,
        Reference1Head(num, zero, values),
        RefMin(num, z, RefCoalesce([values[6], values[5], z]))),
      RefMin(num, z, RefCoalesce([values[7], z])))
  }

  lemma MicrogridFormula1Head<T>(num: Number<T>, zero: T, values: Values<T>)
    requires {2, 3, 4} <= values.Keys
    ensures Formula1Head(zero).Calculate(num, values) == Ok(Reference1Head(num, zero, values))
  {
    var z, vz := Value(Some(zero)), Some(zero);
    var c2, c3, c4 := Component(2), Component(3), Component(4);
    Leaves(zero, num, values);
    Sum(c4, c3, values[4], values[3], num, values);
    Coalesce2(c4, z, values[4], vz, num, values);
    Coalesce2(c3, z, values[3], vz, num, values);
    Sum(Call(Coalesce, [c4, z]), Call(Coalesce, [c3, z]),
        RefCoalesce([values[4], vz]), RefCoalesce([values[3], vz]), num, values);
    var vBoth := RefAdd(num, RefCoalesce([values[4], vz]), RefCoalesce([values[3], vz]));
    Coalesce3(BinaryOp(c4, Add, c3), c2, BinaryOp(Call(Coalesce, [c4, z]), Add, Call(Coalesce, [c3, z])),
              RefAdd(num, values[4], values[3]), values[2], vBoth, num, values);
    Min2(z, Call(Coalesce, [BinaryOp(c4, Add, c3), c2, BinaryOp(Call(Coalesce, [c4, z]), Add, Call(Coalesce, [c3, z]))]),
         vz, RefCoalesce([RefAdd(num, values[4], values[3]), values[2], vBoth]), num, values);
  }

  /** Fuzz test 1: for every map with the keys 2..7, present or absent. */
  lemma MicrogridFormula1<T>(num: Number<T>, zero: T, values: Values<T>)
    requires {2, 3, 4, 5, 6, 7} <= values.Keys
    ensures Build(Formula1Text, Formula1(zero)).Calculate(num, values) == Ok(Reference1(num, zero, values))
  {
    var z, vz := Value(Some(zero)), Some(zero);
    var c5, c6, c7 := Component(5), Component(6), Component(7);
    Leaves(zero, num, values);
    MicrogridFormula1Head(num, zero, values);
    Coalesce3(c6, c5, z, values[6], values[5], vz, num, values);
    Min2(z, Call(Coalesce, [c6, c5, z]), vz, RefCoalesce([values[6], values[5], vz]), num, values);
    Coalesce2(c7, z, values[7], vz, num, values);
    Min2(z, Call(Coalesce, [c7, z]), vz, RefCoalesce([values[7], vz]), num, values);
    Sum(Formula1Head(zero), Call(Min, [z, Call(Coalesce, [c6, c5, z])]),
        Reference1Head(num, zero, values), RefMin(num, vz, RefCoalesce([values[6], values[5], vz])), num, values);
  }

  const Formula2Text := "MAX(0.0, #1 - COALESCE(#2, #3, 0.0) - "
                        + "COALESCE(#5, COALESCE(#7, 0.0) + COALESCE(#6, 0.0))) + "
                        + "COALESCE(MAX(0.0, #2 - #3), 0.0) + COALESCE(MAX(0.0, #5 - #6 - #7), 0.0)"

  /** The first term of `Formula2Text`. */
  function Formula2Head<T>(zero: T): Expr<T> {
    var z := Value(Some(zero));
    Call(Max, [z, BinaryOp(
      BinaryOp(Component(1), Sub, Call(Coalesce, [Component(2), Component(3), z])),
      Sub,
      Call(Coalesce, [Component(5),
                      BinaryOp(Call(Coalesce, [Component(7), z]), Add, Call(Coalesce, [Component(6), z]))]))])
  }

  /** The tree of `Formula2Text`, with `zero` the parsed `0.0`. */
  function Formula2<T>(zero: T): Expr<T> {
    var z := Value(Some(zero));
    BinaryOp(
      BinaryOp(
        Formula2Head(zero),
        Add,
        Call(Coalesce, [Call(Max, [z, BinaryOp(Component(2), Sub, Component(3))]), z])),
      Add,
      Call(Coalesce, [Call(Max, [z, BinaryOp(BinaryOp(Component(5), Sub, Component(6)), Sub, Component(7))]), z]))
  }

  function Reference2Head<T>(num: Number<T>, zero: T, values: Values<T>): Option<T>
    requires {1, 2, 3, 5, 6, 7} <= values.Keys
  {
    var z := Some(zero);
    RefMax(num, z,
      RefSub(num,
        RefSub(num, values[1], RefCoalesce([values[2], values[3], z])),
        RefCoalesce([values[5], RefAdd(num, RefCoalesce([values[7], z]), RefCoalesce([values[6], z]))])))
  }

  /** The reference expression of the second fuzz test. */
  function Reference2<T>(num: Number<T>, zero: T, values: Values<T>): Option<T>
    requires {1, 2, 3, 5, 6, 7} <= values.Keys
  {
    var z := Some(zero);
    RefAdd(num,
      RefAdd(num,
        Reference2Head(num, zero, values),
        RefCoalesce([RefMax(num, z, RefSub(num, values[2], values[3])), z])),
      RefCoalesce([RefMax(num, z, RefSub(num, RefSub(num, values[5], values[6]), values[7])), z]))
  }

  lemma MicrogridFormula2Head<T>(num: Number<T>, zero: T, values: Values<T>)
    requires {1, 2, 3, 5, 6, 7} <= values.Keys
    ensures Formula2Head(zero).Calculate(num, values) == Ok(Reference2Head(num, zero, values))
  {
    var z, vz := Value(Some(zero)), Some(zero);
    var c1, c2, c3, c5, c6, c7 := Component(1), Component(2), Component(3), Component(5), Component(6), Component(7);
    Leaves(zero, num, values);
    // #1 - COALESCE(#2, #3, 0.0)
    Coalesce3(c2, c3, z, values[2], values[3], vz, num, values);
    var vCoalesce23 := RefCoalesce([values[2], values[3], vz]);
    Difference(c1, Call(Coalesce, [c2, c3, z]), values[1], vCoalesce23, num, values);
    // COALESCE(#5, COALESCE(#7, 0.0) + COALESCE(#6, 0.0))
    Coalesce2(c7, z, values[7], vz, num, values);
    Coalesce2(c6, z, values[6], vz, num, values);
    var sum76 := BinaryOp(Call(Coalesce, [c7, z]), Add, Call(Coalesce, [c6, z]));
    var vSum76 := RefAdd(num, RefCoalesce([values[7], vz]), RefCoalesce([values[6], vz]));
    Sum(Call(Coalesce, [c7, z]), Call(Coalesce, [c6, z]),
        RefCoalesce([values[7], vz]), RefCoalesce([values[6], vz]), num, values);
    Coalesce2(c5, sum76, values[5], vSum76, num, values);
    // the difference and the MAX
    var diff := BinaryOp(c1, Sub, Call(Coalesce, [c2, c3, z]));
    var vDiff := RefSub(num, values[1], vCoalesce23);
    Difference(diff, Call(Coalesce, [c5, sum76]), vDiff, RefCoalesce([values[5], vSum76]), num, values);
    Max2(z, BinaryOp(diff, Sub, Call(Coalesce, [c5, sum76])),
         vz, RefSub(num, vDiff, RefCoalesce([values[5], vSum76])), num, values);
  }

  /** Fuzz test 2: for every map with the keys 1, 2, 3, 5, 6 and 7 (the driver
      fills 1..7; the formula does not read 4), present or absent. */
  lemma MicrogridFormula2<T>(num: Number<T>, zero: T, values: Values<T>)
    requires {1, 2, 3, 5, 6, 7} <= values.Keys
    ensures Build(Formula2Text, Formula2(zero)).Calculate(num, values) == Ok(Reference2(num, zero, values))
  {
    var z, vz := Value(Some(zero)), Some(zero);
    var c2, c3, c5, c6, c7 := Component(2), Component(3), Component(5), Component(6), Component(7);
    Leaves(zero, num, values);
    MicrogridFormula2Head(num, zero, values);
    // COALESCE(MAX(0.0, #2 - #3), 0.0)
    Difference(c2, c3, values[2], values[3], num, values);
    var vMax23 := RefMax(num, vz, RefSub(num, values[2], values[3]));
    Max2(z, BinaryOp(c2, Sub, c3), vz, RefSub(num, values[2], values[3]), num, values);
    Coalesce2(Call(Max, [z, BinaryOp(c2, Sub, c3)]), z, vMax23, vz, num, values);
    // COALESCE(MAX(0.0, #5 - #6 - #7), 0.0)
    Difference(c5, c6, values[5], values[6], num, values);
    Difference(BinaryOp(c5, Sub, c6), c7, RefSub(num, values[5], values[6]), values[7], num, values);
    var vDiff := RefSub(num, RefSub(num, values[5], values[6]), values[7]);
    var diff := BinaryOp(BinaryOp(c5, Sub, c6), Sub, c7);
    Max2(z, diff, vz, vDiff, num, values);
    Coalesce2(Call(Max, [z, diff]), z, RefMax(num, vz, vDiff), vz, num, values);
    Sum(Formula2Head(zero), Call(Coalesce, [Call(Max, [z, BinaryOp(c2, Sub, c3)]), z]),
        Reference2Head(num, zero, values), RefCoalesce([vMax23, vz]), num, values);
  }
}
