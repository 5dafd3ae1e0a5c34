/** The numeric type the engine is generic over (`NumberLike<T> + PartialOrd`):
    negation, the four arithmetic operators and a partial comparison. */
module Numbers {
  import opened Wrappers

  /** `std::cmp::Ordering` */
  datatype Ordering = Less | Equal | Greater

  /** The operations of the numeric type, passed explicitly. `cmp` is
      `partial_cmp`: `None` when the two values are incomparable (NaN). */
  datatype Number<!T> = Number(
    neg: T -> T,
    add: (T, T) -> T,
    sub: (T, T) -> T,
    mul: (T, T) -> T,
    div: (T, T) -> T,
    cmp: (T, T) -> Option<Ordering>)
  {
    /** Rust's `a < b` on a `PartialOrd` type. */
    predicate Lt(a: T, b: T) {
      cmp(a, b) == Some(Less)
    }

    /** Rust's `a > b` on a `PartialOrd` type. */
    predicate Gt(a: T, b: T) {
      cmp(a, b) == Some(Greater)
    }

    /** `a` is `keep`-ward of `b` or equal to it: `a <= b` for
        `keep == Less`, `a >= b` for `keep == Greater`. */
    predicate AtLeast(keep: Ordering, a: T, b: T) {
      cmp(a, b) == Some(keep) || cmp(a, b) == Some(Equal)
    }
  }

  /** `num.cmp` is a total order (no NaN-like incomparable values). */
  ghost predicate TotalOrder<T(!new)>(num: Number<T>) {
    && (forall a, b :: num.cmp(a, b).Some?)
    && (forall a :: num.cmp(a, a) == Some(Equal))
    && (forall a, b :: num.cmp(a, b) == Some(Less) <==> num.cmp(b, a) == Some(Greater))
    && (forall a, b :: num.cmp(a, b) == Some(Equal) ==> num.cmp(b, a) == Some(Equal))
    && (forall a, b, c :: num.AtLeast(Less, a, b) && num.AtLeast(Less, b, c) ==> num.AtLeast(Less, a, c))
  }

  /** Integer division rounding toward zero, as Rust's `/` on integers. A zero
      divisor yields 0 here; division by zero is not part of the model. */
  function TruncDiv(a: int, b: int): (q: int)
  {
    if b == 0 then 0
    else
      var q := (if a < 0 then -a else a) / (if b < 0 then -b else b);
      if (a < 0) == (b < 0) then q else -q
  }

  /** The mathematical integers, used to instantiate the concrete tests. */
  const IntNumber: Number<int> := Number(
    x => -x,
    (a, b) => a + b,
    (a, b) => a - b,
    (a, b) => a * b,
    TruncDiv,
    (a, b) => if a < b then Some(Less) else if a > b then Some(Greater) else Some(Equal))

  lemma IntNumberTotal()
    ensures TotalOrder(IntNumber)
  {
  }
}
