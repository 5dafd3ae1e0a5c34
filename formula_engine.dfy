/** The engine façade: a parsed tree together with its component ids,
    computed once when the engine is built. */
module Engine {
  import opened Wrappers
  import opened Numbers
  import opened Errors
  import opened Expression

  /** `FormulaEngine<T>`. Both fields are set once by `TryNew` and never
      changed; `Valid` is the invariant `TryNew` establishes. */
  datatype FormulaEngine<T> = FormulaEngine(expr: Expr<T>, components: set<nat>) {

    /** The cached set is the component set of the stored tree. */
    predicate Valid() {
      components == expr.Components()
    }

    /** `components()`: the cached set, which for an engine built by `TryNew`
        holds exactly the ids occurring in the tree. */
    function Components(): (s: set<nat>)
      ensures Valid() ==> s == expr.Components()
      ensures Valid() ==> forall i :: i in s <==> expr.Occurs(i)
    {
      forall i ensures i in expr.Components() <==> expr.Occurs(i) {
        ComponentsExact(expr, i);
      }
      components
    }

    /** `calculate(values)`: delegates to the stored tree, so it fails exactly
        when some cached id is not a key of `values`. */
    function Calculate(num: Number<T>, values: Values<T>): (r: Result<Option<T>, FormulaError>)
      ensures r.Err? ==> r.error == PlaceholderOutOfBounds
      ensures Valid() ==> (r.Err? <==> exists i :: i in components && i !in values)
    {
      CalculateFailsIffMissing(expr, num, values);
      expr.Calculate(num, values)
    }
  }

  /** Only the entries of the cached ids matter: two snapshots that agree on
      `Components()` give the same result. */
  lemma CalculateReadsOnlyComponents<T>(engine: FormulaEngine<T>, num: Number<T>, values1: Values<T>, values2: Values<T>)
    requires engine.Valid()
    requires AgreeOn(values1, values2, engine.Components())
    ensures engine.Calculate(num, values1) == engine.Calculate(num, values2)
  {
    CalculateLocal(engine.expr, num, values1, values2);
  }

  /** `FormulaEngine::try_new(s)`: the parser is a parameter; its error is
      passed through unchanged, and on success the tree is stored with its
      component set. */
  function TryNew<T>(s: string, parse: string -> Result<Expr<T>, FormulaError>)
    : (r: Result<FormulaEngine<T>, FormulaError>)
    ensures r.Err? <==> parse(s).Err?
    ensures r.Err? ==> r.error == parse(s).error
    ensures r.Ok? ==> r.value.Valid() && r.value.expr == parse(s).value
  {
    var expr :- parse(s);
    Ok(FormulaEngine(expr, expr.Components()))
  }
}
