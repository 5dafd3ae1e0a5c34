/** The expression tree of a formula and its evaluation against a map of
    component values, with absent values (`None`) propagated through every
    operator. */
module Expression {
  import opened Wrappers
  import opened Numbers
  import opened Errors

  /** A snapshot of component values: id to a present or absent value. An id
      that is not a key at all is different from an id mapped to `None`. */
  type Values<T> = map<nat, Option<T>>

  /** The four binary operators. */
  datatype Op = Add | Sub | Mul | Div {

    /** `Op::apply`: the operator on two optional operands; absent if either
        operand is absent. */
    function Apply<T>(num: Number<T>, lhs: Option<T>, rhs: Option<T>): (r: Option<T>)
      ensures r.Some? <==> lhs.Some? && rhs.Some?
      ensures r.Some? && this == Add ==> r.value == num.add(lhs.value, rhs.value)
      ensures r.Some? && this == Sub ==> r.value == num.sub(lhs.value, rhs.value)
      ensures r.Some? && this == Mul ==> r.value == num.mul(lhs.value, rhs.value)
      ensures r.Some? && this == Div ==> r.value == num.div(lhs.value, rhs.value)
    {
      if lhs.Some? && rhs.Some? then
        Some(match this
          case Add => num.add(lhs.value, rhs.value)
          case Sub => num.sub(lhs.value, rhs.value)
          case Mul => num.mul(lhs.value, rhs.value)
          case Div => num.div(lhs.value, rhs.value))
      else
        None
    }
  }

  /** The three built-in functions. */
  datatype Function = Coalesce | Min | Max {

    /** `Function::apply` on the already evaluated arguments. All three return
        `None` exactly when every argument is `None`, and otherwise one of the
        present arguments; `Coalesce` returns the first present one. */
    function Apply<T>(num: Number<T>, values: seq<Option<T>>): (r: Option<T>)
      ensures r.None? <==> forall i :: 0 <= i < |values| ==> values[i].None?
      ensures r.Some? ==> r in values
      ensures this == Coalesce && r.Some? ==>
                exists i :: 0 <= i < |values| && values[i] == r &&
                            forall j :: 0 <= j < i ==> values[j].None?
    {
      match this
      case Coalesce =>
        // `find(Option::is_some).unwrap_or_default()`
        (match Find(values, (x: Option<T>) => x.Some?)
         case Some(x) => x
         case None => None)
      case Min => Fold(num, Less, None, values)
      case Max => Fold(num, Greater, None, values)
    }
  }

  /** One step of the `Min` (`keep == Less`) or `Max` (`keep == Greater`)
      fold: an absent value never beats a present one, and the accumulator is
      kept only when it compares strictly `keep` to the incoming value; ties
      and incomparable values take the incoming value. */
  function Step<T>(num: Number<T>, keep: Ordering, acc: Option<T>, x: Option<T>): (r: Option<T>)
    ensures acc.None? ==> r == x
    ensures x.None? ==> r == acc
    ensures acc.Some? && x.Some? && num.cmp(acc.value, x.value) == Some(keep) ==> r == acc
    ensures acc.Some? && x.Some? && num.cmp(acc.value, x.value) != Some(keep) ==> r == x
  {
    match (acc, x)
    case (Some(a), Some(b)) => if num.cmp(a, b) == Some(keep) then Some(a) else Some(b)
    case (Some(a), None) => Some(a)
    case (None, Some(b)) => Some(b)
    case (None, None) => None
  }

  /** `values.iter().copied().fold(acc, step)` for `Min` and `Max`. */
  function Fold<T>(num: Number<T>, keep: Ordering, acc: Option<T>, xs: seq<Option<T>>): (r: Option<T>)
    ensures r.None? <==> acc.None? && forall i :: 0 <= i < |xs| ==> xs[i].None?
    ensures r.Some? ==> r == acc || r in xs
    decreases |xs|
  {
    if |xs| == 0 then acc
    else
      var r := Fold(num, keep, Step(num, keep, acc, xs[0]), xs[1..]);
      assert r in xs[1..] ==> r in xs;
      assert (forall i :: 0 <= i < |xs[1..]| ==> xs[1..][i].None?) ==>
             (forall i :: 1 <= i < |xs| ==> xs[i].None?);
      r
  }

  datatype Expr<T> =
    | Value(value: Option<T>)
    | UnaryMinus(inner: Expr<T>)
    | BinaryOp(lhs: Expr<T>, op: Op, rhs: Expr<T>)
    | Call(func: Function, args: seq<Expr<T>>)
    | Component(id: nat)
  {
    /** `Expr::calculate`: a tree walk that fails only on a component id
        missing from `values`, with the first such failure in evaluation
        order. */
    function Calculate(num: Number<T>, values: Values<T>): (r: Result<Option<T>, FormulaError>)
      ensures r.Err? ==> r.error == PlaceholderOutOfBounds
      decreases this, 1
    {
      match this
      case Value(v) => Ok(v)
      case UnaryMinus(inner) =>
        var v :- inner.Calculate(num, values);
        Ok(if v.Some? then Some(num.neg(v.value)) else None)
      case BinaryOp(lhs, op, rhs) =>
        var l :- lhs.Calculate(num, values);
        var rv :- rhs.Calculate(num, values);
        Ok(op.Apply(num, l, rv))
      case Call(f, args) =>
        var vs :- CalculateArgs(args, num, values);
        Ok(f.Apply(num, vs))
      case Component(i) =>
        if i in values then Ok(values[i]) else Err(PlaceholderOutOfBounds)
    }

    /** `args.iter().map(calculate).collect::<Result<Vec<_>, _>>()`: every
        argument's value in order, or the error of the first argument that
        fails. */
    static function CalculateArgs(args: seq<Expr<T>>, num: Number<T>, values: Values<T>)
      : (r: Result<seq<Option<T>>, FormulaError>)
      ensures r.Err? ==> r.error == PlaceholderOutOfBounds
      ensures r.Err? <==> exists k :: 0 <= k < |args| && args[k].Calculate(num, values).Err?
      ensures r.Ok? ==> |r.value| == |args| &&
                        forall k :: 0 <= k < |args| ==> args[k].Calculate(num, values) == Ok(r.value[k])
      decreases args, 0
    {
      if |args| == 0 then Ok([])
      else
        var v :- args[0].Calculate(num, values);
        var vs :- CalculateArgs(args[1..], num, values);
        assert forall k :: 1 <= k < |args| ==> args[k] == args[1..][k - 1];
        Ok([v] + vs)
    }

    /** `Expr::components`: the ids of the `Component` nodes of the tree. */
    function Components(): set<nat>
      decreases this, 1
    {
      match this
      case Value(_) => {}
      case UnaryMinus(inner) => inner.Components()
      case BinaryOp(lhs, _, rhs) => lhs.Components() + rhs.Components()
      case Call(_, args) => ArgsComponents(args)
      case Component(i) => {i}
    }

    /** The union of the arguments' component sets. */
    static function ArgsComponents(args: seq<Expr<T>>): set<nat>
      decreases args, 0
    {
      if |args| == 0 then {} else args[0].Components() + ArgsComponents(args[1..])
    }

    /** Reference definition: `Component(i)` is a node somewhere in the tree. */
    ghost predicate Occurs(i: nat)
      decreases this
    {
      match this
      case Value(_) => false
      case UnaryMinus(inner) => inner.Occurs(i)
      case BinaryOp(lhs, _, rhs) => lhs.Occurs(i) || rhs.Occurs(i)
      case Call(_, args) => exists k :: 0 <= k < |args| && args[k].Occurs(i)
      case Component(j) => i == j
    }
  }

  /** `values1` and `values2` agree on the ids in `ids`: the same keys, and
      the same value for each key. */
  ghost predicate AgreeOn<T>(values1: Values<T>, values2: Values<T>, ids: set<nat>) {
    forall i :: i in ids ==> (i in values1 <==> i in values2) &&
                             (i in values1 ==> values1[i] == values2[i])
  }

  // ---------------------------------------------------------------------
  // Evaluation rules, one per kind of node

  /** A literal evaluates to itself under every map and references no id. */
  lemma ValueRule<T>(v: Option<T>, num: Number<T>, values: Values<T>)
    ensures Value(v).Calculate(num, values) == Ok(v)
    ensures Value(v).Components() == {}
  {
  }

  /** Negation maps an absent value to absent, a present one to its negation,
      and passes an error through unchanged. */
  lemma UnaryMinusRule<T>(inner: Expr<T>, num: Number<T>, values: Values<T>)
    ensures var r := UnaryMinus(inner).Calculate(num, values);
            match inner.Calculate(num, values)
            case Err(e) => r == Err(e)
            case Ok(None) => r == Ok(None)
            case Ok(Some(v)) => r == Ok(Some(num.neg(v)))
  {
  }

  /** Both operands are evaluated, the left one first; an error of either is
      passed through, and otherwise `Op::apply` combines the two values. */
  lemma BinaryOpRule<T>(lhs: Expr<T>, op: Op, rhs: Expr<T>, num: Number<T>, values: Values<T>)
    ensures var r := BinaryOp(lhs, op, rhs).Calculate(num, values);
            var l := lhs.Calculate(num, values);
            var rv := rhs.Calculate(num, values);
            && (l.Err? ==> r == l)
            && (l.Ok? && rv.Err? ==> r == rv)
            && (l.Ok? && rv.Ok? ==> r == Ok(op.Apply(num, l.value, rv.value)))
  {
  }

  /** A component id that is not a key is an error; a key mapped to `None`
      is an absent value, not an error. */
  lemma ComponentRule<T>(i: nat, num: Number<T>, values: Values<T>)
    ensures i !in values ==> Component(i).Calculate(num, values) == Err(PlaceholderOutOfBounds)
    ensures i in values ==> Component(i).Calculate(num, values) == Ok(values[i])
    ensures Expr<T>.Component(i).Components() == {i}
  {
  }

  // ---------------------------------------------------------------------
  // Components

  /** `Components()` is exactly the set of ids of `Component` nodes occurring
      anywhere in the tree. */
  lemma {:induction false} ComponentsExact<T>(e: Expr<T>, i: nat)
    ensures i in e.Components() <==> e.Occurs(i)
    decreases e, 1
  {
    match e
    case Value(_) =>
    case UnaryMinus(inner) => ComponentsExact(inner, i);
    case BinaryOp(lhs, _, rhs) => ComponentsExact(lhs, i); ComponentsExact(rhs, i);
    case Call(_, args) => ArgsComponentsExact(args, i);
    case Component(_) =>
  }

  lemma {:induction false} ArgsComponentsExact<T>(args: seq<Expr<T>>, i: nat)
    ensures i in Expr.ArgsComponents(args) <==> exists k :: 0 <= k < |args| && args[k].Occurs(i)
    decreases args, 0
  {
    if |args| > 0 {
      ComponentsExact(args[0], i);
      ArgsComponentsExact(args[1..], i);
      if exists k :: 0 <= k < |args| && args[k].Occurs(i) {
        var k :| 0 <= k < |args| && args[k].Occurs(i);
        if k > 0 {
          assert args[1..][k - 1] == args[k];
        }
      }
    }
  }

  // ---------------------------------------------------------------------
  // Errors

  /** Evaluation fails exactly when some id the tree references is not a key
      of the values map. */
  lemma {:induction false} CalculateFailsIffMissing<T>(e: Expr<T>, num: Number<T>, values: Values<T>)
    ensures e.Calculate(num, values).Err? <==> exists i :: i in e.Components() && i !in values
    decreases e, 1
  {
    match e
    case Value(_) =>
    case UnaryMinus(inner) => CalculateFailsIffMissing(inner, num, values);
    case BinaryOp(lhs, _, rhs) =>
      CalculateFailsIffMissing(lhs, num, values);
      CalculateFailsIffMissing(rhs, num, values);
    case Call(_, args) => ArgsFailIffMissing(args, num, values);
    case Component(_) =>
  }

  lemma {:induction false} ArgsFailIffMissing<T>(args: seq<Expr<T>>, num: Number<T>, values: Values<T>)
    ensures Expr.CalculateArgs(args, num, values).Err? <==>
            exists i :: i in Expr.ArgsComponents(args) && i !in values
    decreases args, 0
  {
    if |args| > 0 {
      CalculateFailsIffMissing(args[0], num, values);
      ArgsFailIffMissing(args[1..], num, values);
    }
  }

  /** The result depends only on the entries of the ids the tree references:
      two maps that agree on `Components()` give the same result. */
  lemma {:induction false} CalculateLocal<T>(e: Expr<T>, num: Number<T>, values1: Values<T>, values2: Values<T>)
    requires AgreeOn(values1, values2, e.Components())
    ensures e.Calculate(num, values1) == e.Calculate(num, values2)
    decreases e, 1
  {
    match e
    case Value(_) =>
    case UnaryMinus(inner) => CalculateLocal(inner, num, values1, values2);
    case BinaryOp(lhs, _, rhs) =>
      CalculateLocal(lhs, num, values1, values2);
      CalculateLocal(rhs, num, values1, values2);
    case Call(_, args) => ArgsLocal(args, num, values1, values2);
    case Component(_) =>
  }

  lemma {:induction false} ArgsLocal<T>(args: seq<Expr<T>>, num: Number<T>, values1: Values<T>, values2: Values<T>)
    requires AgreeOn(values1, values2, Expr.ArgsComponents(args))
    ensures Expr.CalculateArgs(args, num, values1) == Expr.CalculateArgs(args, num, values2)
    decreases args, 0
  {
    if |args| > 0 {
      CalculateLocal(args[0], num, values1, values2);
      ArgsLocal(args[1..], num, values1, values2);
    }
  }

  // ---------------------------------------------------------------------
  // Min and Max under a total order

  lemma AtLeastTransitive<T(!new)>(num: Number<T>, keep: Ordering, a: T, b: T, c: T)
    requires TotalOrder(num) && keep != Equal
    requires num.AtLeast(keep, a, b) && num.AtLeast(keep, b, c)
    ensures num.AtLeast(keep, a, c)
  {
    if keep == Greater {
      assert num.AtLeast(Less, c, b) && num.AtLeast(Less, b, a);
    }
  }

  /** A step's result is `keep`-ward of both its operands. */
  lemma StepExtremal<T(!new)>(num: Number<T>, keep: Ordering, acc: Option<T>, x: Option<T>)
    requires TotalOrder(num) && keep != Equal
    ensures var s := Step(num, keep, acc, x);
            && (acc.Some? ==> s.Some? && num.AtLeast(keep, s.value, acc.value))
            && (x.Some? ==> s.Some? && num.AtLeast(keep, s.value, x.value))
  {
    if acc.Some? && x.Some? && num.cmp(acc.value, x.value) != Some(keep) {
      var a, b := acc.value, x.value;
      assert num.cmp(a, b).Some?;
      match num.cmp(a, b).value
      case Equal => assert num.cmp(b, a) == Some(Equal);
      case Less => assert keep == Greater && num.cmp(b, a) == Some(Greater);
      case Greater => assert keep == Less && num.cmp(b, a) == Some(Less);
    }
  }

  /** The fold's result is `keep`-ward of the initial accumulator and of
      every present value. */
  lemma {:induction false} FoldExtremal<T(!new)>(num: Number<T>, keep: Ordering, acc: Option<T>, xs: seq<Option<T>>)
    requires TotalOrder(num) && keep != Equal
    ensures var r := Fold(num, keep, acc, xs);
            r.Some? ==>
              && (acc.Some? ==> num.AtLeast(keep, r.value, acc.value))
              && forall i :: 0 <= i < |xs| && xs[i].Some? ==> num.AtLeast(keep, r.value, xs[i].value)
    decreases |xs|
  {
    if |xs| > 0 {
      var s := Step(num, keep, acc, xs[0]);
      StepExtremal(num, keep, acc, xs[0]);
      FoldExtremal(num, keep, s, xs[1..]);
      var r := Fold(num, keep, acc, xs);
      if r.Some? {
        if acc.Some? {
          AtLeastTransitive(num, keep, r.value, s.value, acc.value);
        }
        forall i | 0 <= i < |xs| && xs[i].Some?
          ensures num.AtLeast(keep, r.value, xs[i].value)
        {
          if i == 0 {
            AtLeastTransitive(num, keep, r.value, s.value, xs[0].value);
          } else {
            assert xs[1..][i - 1] == xs[i];
          }
        }
      }
    }
  }

  /** Under a total order `MIN` is at most every present argument. */
  lemma MinIsLowerBound<T(!new)>(num: Number<T>, values: seq<Option<T>>)
    requires TotalOrder(num)
    ensures var r := Min.Apply(num, values);
            r.Some? ==> forall i :: 0 <= i < |values| && values[i].Some? ==>
                                    num.AtLeast(Less, r.value, values[i].value)
  {
    FoldExtremal(num, Less, None, values);
  }

  /** Under a total order `MAX` is at least every present argument. */
  lemma MaxIsUpperBound<T(!new)>(num: Number<T>, values: seq<Option<T>>)
    requires TotalOrder(num)
    ensures var r := Max.Apply(num, values);
            r.Some? ==> forall i :: 0 <= i < |values| && values[i].Some? ==>
                                    num.AtLeast(Greater, r.value, values[i].value)
  {
    FoldExtremal(num, Greater, None, values);
  }
}
