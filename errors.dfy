/** The engine's error type: a message wrapper. */
module Errors {

  datatype FormulaError = FormulaError(message: string)

  /** The only error raised while evaluating a tree: a component id that is
      not a key of the values map. */
  const PlaceholderOutOfBounds := FormulaError("Placeholder out of bounds")
}
