/**
 * `visit_results` and the two traits around it. `ResultsVisitable` is whatever can
 * rebuild a flow state block by block (one analysis's results, or a bundle of them);
 * a `ResultsVisitor` observes that state at the four points of every statement and
 * terminator. Both traits become records of functions; in-place mutation becomes a
 * state threaded through the calls.
 *
 * A visitor only ever receives the flow state by shared reference, so what it can
 * learn is exactly the sequence of (hook, location, state) observations. `Trace`
 * records that sequence, and `VisitorSeesTrace` shows that running any visitor is a
 * fold over it; the properties of the traversal are then stated on the trace.
 */
module Visitor {
  import opened Mir

  /** The trait `ResultsVisitable`, with flow state `S`. */
  datatype ResultsVisitable<!S> = ResultsVisitable(
    /**
     * The blocks `0 .. blockCount - 1` have a stored entry state; resetting to any
     * other block is an out-of-bounds index in the source and is never requested.
     */
    blockCount: nat,
    newFlowState: Body -> S,
    resetToBlockStart: (S, BasicBlock) -> S,
    reconstructBeforeStatementEffect: (S, Statement, Location) -> S,
    reconstructStatementEffect: (S, Statement, Location) -> S,
    reconstructBeforeTerminatorEffect: (S, Terminator, Location) -> S,
    reconstructTerminatorEffect: (S, Terminator, Location) -> S)

  /**
   * The trait `ResultsVisitor`: four observation hooks over a visitor state `V`.
   * Each receives the flow state read-only.
   */
  datatype ResultsVisitor<!V, !S> = ResultsVisitor(
    visitStatement: (V, S, Statement, Location) -> V,
    visitStatementExit: (V, S, Statement, Location) -> V,
    visitTerminator: (V, S, Terminator, Location) -> V,
    visitTerminatorExit: (V, S, Terminator, Location) -> V)

  /** One call of a visitor hook, with the arguments it received. */
  datatype Observation<S> =
    | VisitStatement(statement: Statement, loc: Location, state: S)
    | VisitStatementExit(statement: Statement, loc: Location, state: S)
    | VisitTerminator(terminator: Terminator, loc: Location, state: S)
    | VisitTerminatorExit(terminator: Terminator, loc: Location, state: S)
  {
    /** The same call, seeing `t` instead of its state. */
    function WithState<T>(t: T): Observation<T> {
      match this
      case VisitStatement(st, l, _) => VisitStatement(st, l, t)
      case VisitStatementExit(st, l, _) => VisitStatementExit(st, l, t)
      case VisitTerminator(tm, l, _) => VisitTerminator(tm, l, t)
      case VisitTerminatorExit(tm, l, _) => VisitTerminatorExit(tm, l, t)
    }
  }

  /** Block `b` exists in the body and has a stored entry state. */
  predicate InRange<S>(v: ResultsVisitable<S>, body: Body, b: BasicBlock) {
    b < |body.blocks| && b < v.blockCount
  }

  /** Every requested block can be visited without an out-of-bounds index. */
  predicate CanVisit<S>(v: ResultsVisitable<S>, body: Body, blocks: seq<BasicBlock>) {
    forall k :: 0 <= k < |blocks| ==> InRange(v, body, blocks[k])
  }

  /**
   * The statement loop of `visit_results` from statement `i` on: before-effect,
   * `visit_statement`, effect, `visit_statement_exit`, for each statement in turn.
   * Returns the flow state and the visitor state at the end of the statements.
   */
  function VisitStatements<S, V>(v: ResultsVisitable<S>, vis: ResultsVisitor<V, S>, body: Body,
                                 block: BasicBlock, i: nat, state: S, acc: V): (S, V)
    requires block < |body.blocks|
    requires i <= |body.blocks[block].statements|
    decreases |body.blocks[block].statements| - i
  {
    var statements := body.blocks[block].statements;
    if i == |statements| then (state, acc)
    else
      var stmt := statements[i];
      var loc := Location(block, i);
      var before := v.reconstructBeforeStatementEffect(state, stmt, loc);
      var acc1 := vis.visitStatement(acc, before, stmt, loc);
      var after := v.reconstructStatementEffect(before, stmt, loc);
      var acc2 := vis.visitStatementExit(acc1, after, stmt, loc);
      VisitStatements(v, vis, body, block, i + 1, after, acc2)
  }

  /**
   * One iteration of the block loop of `visit_results`: reset the reused state to
   * the block's entry, run the statements, then the same four steps once for the
   * terminator at the terminator location.
   */
  function VisitBlock<S, V>(v: ResultsVisitable<S>, vis: ResultsVisitor<V, S>, body: Body,
                            block: BasicBlock, state: S, acc: V): (S, V)
    requires InRange(v, body, block)
  {
    var entry := v.resetToBlockStart(state, block);
    var r := VisitStatements(v, vis, body, block, 0, entry, acc);
    var loc := TerminatorLoc(body, block);
    var term := body.blocks[block].terminator;
    var before := v.reconstructBeforeTerminatorEffect(r.0, term, loc);
    var acc1 := vis.visitTerminator(r.1, before, term, loc);
    var after := v.reconstructTerminatorEffect(before, term, loc);
    (after, vis.visitTerminatorExit(acc1, after, term, loc))
  }

  /** The block loop of `visit_results`, over the caller's blocks in the caller's order. */
  function VisitBlocks<S, V>(v: ResultsVisitable<S>, vis: ResultsVisitor<V, S>, body: Body,
                             blocks: seq<BasicBlock>, state: S, acc: V): (S, V)
    requires CanVisit(v, body, blocks)
    decreases |blocks|
  {
    if |blocks| == 0 then (state, acc)
    else
      var r := VisitBlock(v, vis, body, blocks[0], state, acc);
      VisitBlocks(v, vis, body, blocks[1..], r.0, r.1)
  }

  /**
   * `visit_results`: one working state, created by `new_flow_state`, is reused for
   * every block. The result is the visitor's final state.
   */
  function VisitResults<S, V>(body: Body, blocks: seq<BasicBlock>, results: ResultsVisitable<S>,
                              vis: ResultsVisitor<V, S>, init: V): V
    requires CanVisit(results, body, blocks)
  {
    VisitBlocks(results, vis, body, blocks, results.newFlowState(body), init).1
  }

  /** The visitor that records every call it receives. */
  function Recorder<S>(): ResultsVisitor<seq<Observation<S>>, S> {
    ResultsVisitor(
      (t: seq<Observation<S>>, s: S, st: Statement, l: Location) => t + [VisitStatement(st, l, s)],
      (t: seq<Observation<S>>, s: S, st: Statement, l: Location) => t + [VisitStatementExit(st, l, s)],
      (t: seq<Observation<S>>, s: S, tm: Terminator, l: Location) => t + [VisitTerminator(tm, l, s)],
      (t: seq<Observation<S>>, s: S, tm: Terminator, l: Location) => t + [VisitTerminatorExit(tm, l, s)])
  }

  /** Every visitor call `visit_results` makes, in order. */
  function Trace<S>(v: ResultsVisitable<S>, body: Body, blocks: seq<BasicBlock>): seq<Observation<S>>
    requires CanVisit(v, body, blocks)
  {
    VisitResults(body, blocks, v, Recorder(), [])
  }

  /** Hands one recorded call to a visitor. */
  function Notify<S, V>(vis: ResultsVisitor<V, S>, acc: V, o: Observation<S>): V {
    match o
    case VisitStatement(st, l, s) => vis.visitStatement(acc, s, st, l)
    case VisitStatementExit(st, l, s) => vis.visitStatementExit(acc, s, st, l)
    case VisitTerminator(tm, l, s) => vis.visitTerminator(acc, s, tm, l)
    case VisitTerminatorExit(tm, l, s) => vis.visitTerminatorExit(acc, s, tm, l)
  }

  /** Hands a recorded trace to a visitor, call by call. */
  function Deliver<S, V>(vis: ResultsVisitor<V, S>, acc: V, trace: seq<Observation<S>>): V
    decreases |trace|
  {
    if |trace| == 0 then acc else Deliver(vis, Notify(vis, acc, trace[0]), trace[1..])
  }

  lemma {:induction false} DeliverConcat<S, V>(vis: ResultsVisitor<V, S>, acc: V,
                                               t1: seq<Observation<S>>, t2: seq<Observation<S>>)
    ensures Deliver(vis, acc, t1 + t2) == Deliver(vis, Deliver(vis, acc, t1), t2)
    decreases |t1|
  {
    if |t1| == 0 {
      assert t1 + t2 == t2;
    } else {
      assert (t1 + t2)[1..] == t1[1..] + t2;
      DeliverConcat(vis, Notify(vis, acc, t1[0]), t1[1..], t2);
    }
  }

  /** Delivering a trace to the recorder appends it: recording loses nothing. */
  lemma {:induction false} DeliverToRecorder<S>(acc: seq<Observation<S>>, trace: seq<Observation<S>>)
    ensures Deliver(Recorder(), acc, trace) == acc + trace
    decreases |trace|
  {
    if |trace| == 0 {
    } else {
      var o := trace[0];
      assert Notify(Recorder(), acc, o) == acc + [o] by {
        match o
        case VisitStatement(_, _, _) =>
        case VisitStatementExit(_, _, _) =>
        case VisitTerminator(_, _, _) =>
        case VisitTerminatorExit(_, _, _) =>
      }
      DeliverToRecorder(acc + [o], trace[1..]);
      assert acc + [o] + trace[1..] == acc + trace;
    }
  }

  /** Recording from an earlier history appends to that history. */
  lemma {:induction false} RecordStatements<S>(v: ResultsVisitable<S>, body: Body, block: BasicBlock,
                                               i: nat, state: S, acc: seq<Observation<S>>)
    requires block < |body.blocks|
    requires i <= |body.blocks[block].statements|
    ensures var r := VisitStatements(v, Recorder(), body, block, i, state, []);
            VisitStatements(v, Recorder(), body, block, i, state, acc) == (r.0, acc + r.1)
    decreases |body.blocks[block].statements| - i
  {
    var statements := body.blocks[block].statements;
    if i < |statements| {
      var stmt := statements[i];
      var loc := Location(block, i);
      var before := v.reconstructBeforeStatementEffect(state, stmt, loc);
      var after := v.reconstructStatementEffect(before, stmt, loc);
      var obs := [VisitStatement(stmt, loc, before), VisitStatementExit(stmt, loc, after)];
      var rec := Recorder<S>();
      assert rec.visitStatementExit(rec.visitStatement(acc, before, stmt, loc), after, stmt, loc) == acc + obs;
      assert rec.visitStatementExit(rec.visitStatement([], before, stmt, loc), after, stmt, loc) == obs;
      assert VisitStatements(v, rec, body, block, i, state, acc)
          == VisitStatements(v, rec, body, block, i + 1, after, acc + obs);
      assert VisitStatements(v, rec, body, block, i, state, [])
          == VisitStatements(v, rec, body, block, i + 1, after, obs);
      RecordStatements(v, body, block, i + 1, after, acc + obs);
      RecordStatements(v, body, block, i + 1, after, obs);
      var rest := VisitStatements(v, rec, body, block, i + 1, after, []).1;
      assert acc + obs + rest == acc + (obs + rest);
    } else {
      assert acc + [] == acc;
    }
  }

  /** The statement loop hands any visitor exactly what the recorder records. */
  lemma {:induction false} StatementsDeliver<S, V>(v: ResultsVisitable<S>, vis: ResultsVisitor<V, S>,
                                                   body: Body, block: BasicBlock, i: nat, state: S, acc: V)
    requires block < |body.blocks|
    requires i <= |body.blocks[block].statements|
    ensures var r := VisitStatements(v, Recorder(), body, block, i, state, []);
            VisitStatements(v, vis, body, block, i, state, acc) == (r.0, Deliver(vis, acc, r.1))
    decreases |body.blocks[block].statements| - i
  {
    var statements := body.blocks[block].statements;
    if i < |statements| {
      var stmt := statements[i];
      var loc := Location(block, i);
      var before := v.reconstructBeforeStatementEffect(state, stmt, loc);
      var after := v.reconstructStatementEffect(before, stmt, loc);
      var obs := [VisitStatement(stmt, loc, before), VisitStatementExit(stmt, loc, after)];
      var acc2 := vis.visitStatementExit(vis.visitStatement(acc, before, stmt, loc), after, stmt, loc);
      StatementsDeliver(v, vis, body, block, i + 1, after, acc2);
      RecordStatements(v, body, block, i + 1, after, obs);
      assert [] + [obs[0]] + [obs[1]] == obs;
      var rest := VisitStatements(v, Recorder(), body, block, i + 1, after, []).1;
      DeliverConcat(vis, acc, obs, rest);
      assert obs[1..][1..] == [];
    }
  }

  /** One block hands any visitor exactly what the recorder records. */
  lemma BlockDeliver<S, V>(v: ResultsVisitable<S>, vis: ResultsVisitor<V, S>, body: Body,
                           block: BasicBlock, state: S, acc: V)
    requires InRange(v, body, block)
    ensures var r := VisitBlock(v, Recorder(), body, block, state, []);
            VisitBlock(v, vis, body, block, state, acc) == (r.0, Deliver(vis, acc, r.1))
  {
    var entry := v.resetToBlockStart(state, block);
    StatementsDeliver(v, vis, body, block, 0, entry, acc);
    var s := VisitStatements(v, Recorder(), body, block, 0, entry, []);
    var loc := TerminatorLoc(body, block);
    var term := body.blocks[block].terminator;
    var before := v.reconstructBeforeTerminatorEffect(s.0, term, loc);
    var after := v.reconstructTerminatorEffect(before, term, loc);
    var obs := [VisitTerminator(term, loc, before), VisitTerminatorExit(term, loc, after)];
    var rec := Recorder<S>();
    assert VisitBlock(v, rec, body, block, state, []).1
        == rec.visitTerminatorExit(rec.visitTerminator(s.1, before, term, loc), after, term, loc);
    assert rec.visitTerminatorExit(rec.visitTerminator(s.1, before, term, loc), after, term, loc) == s.1 + obs;
    DeliverConcat(vis, acc, s.1, obs);
    var d := Deliver(vis, acc, s.1);
    var d1 := vis.visitTerminator(d, before, term, loc);
    assert Deliver(vis, d, obs) == Deliver(vis, d1, obs[1..]);
    assert Deliver(vis, d1, obs[1..])
        == Deliver(vis, vis.visitTerminatorExit(d1, after, term, loc), obs[1..][1..]);
    assert obs[1..][1..] == [];
  }

  lemma {:induction false} RecordBlocks<S>(v: ResultsVisitable<S>, body: Body, blocks: seq<BasicBlock>,
                                           state: S, acc: seq<Observation<S>>)
    requires CanVisit(v, body, blocks)
    ensures var r := VisitBlocks(v, Recorder(), body, blocks, state, []);
            VisitBlocks(v, Recorder(), body, blocks, state, acc) == (r.0, acc + r.1)
    decreases |blocks|
  {
    if |blocks| > 0 {
      var b := VisitBlock(v, Recorder(), body, blocks[0], state, []);
      BlockDeliver(v, Recorder(), body, blocks[0], state, acc);
      DeliverToRecorder(acc, b.1);
      RecordBlocks(v, body, blocks[1..], b.0, acc + b.1);
      RecordBlocks(v, body, blocks[1..], b.0, b.1);
      var rest := VisitBlocks(v, Recorder(), body, blocks[1..], b.0, []).1;
      assert acc + b.1 + rest == acc + (b.1 + rest);
    } else {
      assert acc + [] == acc;
    }
  }

  lemma {:induction false} BlocksDeliver<S, V>(v: ResultsVisitable<S>, vis: ResultsVisitor<V, S>, body: Body,
                                               blocks: seq<BasicBlock>, state: S, acc: V)
    requires CanVisit(v, body, blocks)
    ensures var r := VisitBlocks(v, Recorder(), body, blocks, state, []);
            VisitBlocks(v, vis, body, blocks, state, acc) == (r.0, Deliver(vis, acc, r.1))
    decreases |blocks|
  {
    if |blocks| > 0 {
      var b := VisitBlock(v, Recorder(), body, blocks[0], state, []);
      BlockDeliver(v, vis, body, blocks[0], state, acc);
      BlocksDeliver(v, vis, body, blocks[1..], b.0, Deliver(vis, acc, b.1));
      RecordBlocks(v, body, blocks[1..], b.0, b.1);
      var rest := VisitBlocks(v, Recorder(), body, blocks[1..], b.0, []).1;
      DeliverConcat(vis, acc, b.1, rest);
    }
  }

  /**
   * Running any visitor over the results is the same as handing it the recorded
   * trace call by call: the trace is everything a visitor can observe.
   */
  lemma VisitorSeesTrace<S, V>(body: Body, blocks: seq<BasicBlock>, results: ResultsVisitable<S>,
                               vis: ResultsVisitor<V, S>, init: V)
    requires CanVisit(results, body, blocks)
    ensures VisitResults(body, blocks, results, vis, init) == Deliver(vis, init, Trace(results, body, blocks))
  {
    BlocksDeliver(results, vis, body, blocks, results.newFlowState(body), init);
  }
}
