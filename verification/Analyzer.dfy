/** What analyzers return, from data/analyzer.h. */
module Analyzer {
  datatype Action = NoAction | Hold | Buy | Sell

  datatype Decision = Decision(act: Action, confidence: real)

  const NO_ACTION := Decision(NoAction, 0.0)
}
