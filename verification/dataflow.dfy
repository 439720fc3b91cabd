/**
 * The dataflow analyses and their converged results, as far as the results visitor
 * and the borrow-check facade consume them. A concrete analysis (borrows, maybe
 * uninitialized places, ever initialized places) is foreign code here: it is a
 * domain size and four transfer hooks, each an arbitrary function of the state,
 * the statement or terminator, and its location.
 */
module Dataflow {
  import opened BitSets
  import opened Mir

  datatype Analysis = Analysis(
    /** `bits_per_block`: the size of the analysis's fact domain for a body. */
    bitsPerBlock: Body -> nat,
    applyBeforeStatementEffect: (BitSet, Statement, Location) -> BitSet,
    applyStatementEffect: (BitSet, Statement, Location) -> BitSet,
    applyBeforeTerminatorEffect: (BitSet, Terminator, Location) -> BitSet,
    applyTerminatorEffect: (BitSet, Terminator, Location) -> BitSet)

  /**
   * `Results<A>`: an analysis together with the converged entry set of every block,
   * as the fixed-point solver left them (`entrySets[b]` for block `b`).
   */
  datatype Results = Results(analysis: Analysis, entrySets: seq<BitSet>)
}
