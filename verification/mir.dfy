/**
 * The parts of a MIR body that the results visitor walks: basic blocks made of an
 * ordered list of statements and exactly one terminator, and the locations that
 * name a point in a block. Statements and terminators are opaque here; only their
 * identity and position matter to the traversal.
 */
module Mir {

  /** A MIR statement, known only by an identifier. */
  datatype Statement = Statement(id: nat)

  /** A MIR terminator, known only by an identifier. */
  datatype Terminator = Terminator(id: nat)

  datatype BasicBlockData = BasicBlockData(statements: seq<Statement>, terminator: Terminator)

  /** A procedure body; basic block `b` is `blocks[b]`. */
  datatype Body = Body(blocks: seq<BasicBlockData>)

  type BasicBlock = nat

  /**
   * A point in a body: a statement index inside a block. The terminator of a block
   * with `n` statements sits at statement index `n`.
   */
  datatype Location = Location(block: BasicBlock, statementIndex: nat)

  /** `Body::terminator_loc`: the location just after the block's last statement. */
  function TerminatorLoc(body: Body, block: BasicBlock): Location
    requires block < |body.blocks|
  {
    Location(block, |body.blocks[block].statements|)
  }
}
