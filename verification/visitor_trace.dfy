/**
 * What `visit_results` shows its visitor, stated on the recorded trace: the exact
 * sequence of calls per block, the state each call sees as a from-scratch replay
 * from the block's entry state, the order in which blocks are visited, and the
 * projection of a visit onto a component of the flow state.
 */
module TraceProperties {
  import opened Mir
  import opened Visitor

  /**
   * The state after the full effects (before-effect, then effect) of statements
   * `0 .. i - 1` of `block`, starting from `entry`: the reference the visitor's
   * incremental state is compared against.
   */
  function Replay<S>(v: ResultsVisitable<S>, body: Body, block: BasicBlock, entry: S, i: nat): S
    requires block < |body.blocks|
    requires i <= |body.blocks[block].statements|
  {
    if i == 0 then entry
    else
      var stmt := body.blocks[block].statements[i - 1];
      var loc := Location(block, i - 1);
      var prev := Replay(v, body, block, entry, i - 1);
      v.reconstructStatementEffect(v.reconstructBeforeStatementEffect(prev, stmt, loc), stmt, loc)
  }

  /** The `visit_statement` call expected at statement `i` of `block`. */
  function ExpectedStatementEntry<S>(v: ResultsVisitable<S>, body: Body, block: BasicBlock, entry: S, i: nat): Observation<S>
    requires block < |body.blocks|
    requires i < |body.blocks[block].statements|
  {
    var stmt := body.blocks[block].statements[i];
    var loc := Location(block, i);
    VisitStatement(stmt, loc, v.reconstructBeforeStatementEffect(Replay(v, body, block, entry, i), stmt, loc))
  }

  /** The `visit_statement_exit` call expected at statement `i` of `block`. */
  function ExpectedStatementExit<S>(v: ResultsVisitable<S>, body: Body, block: BasicBlock, entry: S, i: nat): Observation<S>
    requires block < |body.blocks|
    requires i < |body.blocks[block].statements|
  {
    VisitStatementExit(body.blocks[block].statements[i], Location(block, i), Replay(v, body, block, entry, i + 1))
  }

  /** The `visit_terminator` call expected for `block`. */
  function ExpectedTerminatorEntry<S>(v: ResultsVisitable<S>, body: Body, block: BasicBlock, entry: S): Observation<S>
    requires block < |body.blocks|
  {
    var term := body.blocks[block].terminator;
    var loc := TerminatorLoc(body, block);
    var n := |body.blocks[block].statements|;
    VisitTerminator(term, loc, v.reconstructBeforeTerminatorEffect(Replay(v, body, block, entry, n), term, loc))
  }

  /** The `visit_terminator_exit` call expected for `block`. */
  function ExpectedTerminatorExit<S>(v: ResultsVisitable<S>, body: Body, block: BasicBlock, entry: S): Observation<S>
    requires block < |body.blocks|
  {
    var term := body.blocks[block].terminator;
    var loc := TerminatorLoc(body, block);
    VisitTerminatorExit(term, loc, v.reconstructTerminatorEffect(ExpectedTerminatorEntry(v, body, block, entry).state, term, loc))
  }

  /** The calls made while visiting one block, starting from working state `state`. */
  function BlockTrace<S>(v: ResultsVisitable<S>, body: Body, block: BasicBlock, state: S): seq<Observation<S>>
    requires InRange(v, body, block)
  {
    VisitBlock(v, Recorder(), body, block, state, []).1
  }

  /** The working state left behind by visiting one block. */
  function BlockExit<S>(v: ResultsVisitable<S>, body: Body, block: BasicBlock, state: S): S
    requires InRange(v, body, block)
  {
    VisitBlock(v, Recorder(), body, block, state, []).0
  }

  /** The calls made while visiting `blocks` in order, starting from working state `state`. */
  function BlocksTrace<S>(v: ResultsVisitable<S>, body: Body, blocks: seq<BasicBlock>, state: S): seq<Observation<S>>
    requires CanVisit(v, body, blocks)
  {
    VisitBlocks(v, Recorder(), body, blocks, state, []).1
  }

  lemma StatementsStep<S>(v: ResultsVisitable<S>, body: Body, block: BasicBlock, i: nat, state: S)
    requires block < |body.blocks|
    requires i < |body.blocks[block].statements|
    ensures var stmt := body.blocks[block].statements[i];
            var loc := Location(block, i);
            var before := v.reconstructBeforeStatementEffect(state, stmt, loc);
            var after := v.reconstructStatementEffect(before, stmt, loc);
            var rest := VisitStatements(v, Recorder(), body, block, i + 1, after, []);
            VisitStatements(v, Recorder(), body, block, i, state, [])
              == (rest.0, [VisitStatement(stmt, loc, before), VisitStatementExit(stmt, loc, after)] + rest.1)
  {
    var stmt := body.blocks[block].statements[i];
    var loc := Location(block, i);
    var before := v.reconstructBeforeStatementEffect(state, stmt, loc);
    var after := v.reconstructStatementEffect(before, stmt, loc);
    var obs := [VisitStatement(stmt, loc, before), VisitStatementExit(stmt, loc, after)];
    var rec := Recorder<S>();
    assert rec.visitStatementExit(rec.visitStatement([], before, stmt, loc), after, stmt, loc) == obs;
    RecordStatements(v, body, block, i + 1, after, obs);
  }

  lemma BlockSplit<S>(v: ResultsVisitable<S>, body: Body, block: BasicBlock, state: S)
    requires InRange(v, body, block)
    ensures var entry := v.resetToBlockStart(state, block);
            var stmts := VisitStatements(v, Recorder(), body, block, 0, entry, []);
            var term := body.blocks[block].terminator;
            var loc := TerminatorLoc(body, block);
            var before := v.reconstructBeforeTerminatorEffect(stmts.0, term, loc);
            var after := v.reconstructTerminatorEffect(before, term, loc);
            && BlockExit(v, body, block, state) == after
            && BlockTrace(v, body, block, state)
               == stmts.1 + [VisitTerminator(term, loc, before), VisitTerminatorExit(term, loc, after)]
  {
    var entry := v.resetToBlockStart(state, block);
    var stmts := VisitStatements(v, Recorder(), body, block, 0, entry, []);
    var term := body.blocks[block].terminator;
    var loc := TerminatorLoc(body, block);
    var before := v.reconstructBeforeTerminatorEffect(stmts.0, term, loc);
    var after := v.reconstructTerminatorEffect(before, term, loc);
    var rec := Recorder<S>();
    assert rec.visitTerminatorExit(rec.visitTerminator(stmts.1, before, term, loc), after, term, loc)
        == stmts.1 + [VisitTerminator(term, loc, before), VisitTerminatorExit(term, loc, after)];
  }

  lemma BlocksStep<S>(v: ResultsVisitable<S>, body: Body, blocks: seq<BasicBlock>, state: S)
    requires CanVisit(v, body, blocks)
    requires |blocks| > 0
    ensures BlocksTrace(v, body, blocks, state)
         == BlockTrace(v, body, blocks[0], state)
            + BlocksTrace(v, body, blocks[1..], BlockExit(v, body, blocks[0], state))
  {
    var b := VisitBlock(v, Recorder(), body, blocks[0], state, []);
    RecordBlocks(v, body, blocks[1..], b.0, b.1);
  }

  /** The statement loop, started in the replayed state, emits the expected calls. */
  lemma {:induction false} StatementsShape<S>(v: ResultsVisitable<S>, body: Body, block: BasicBlock, entry: S, i: nat)
    requires block < |body.blocks|
    requires i <= |body.blocks[block].statements|
    ensures var n := |body.blocks[block].statements|;
            var r := VisitStatements(v, Recorder(), body, block, i, Replay(v, body, block, entry, i), []);
            && r.0 == Replay(v, body, block, entry, n)
            && |r.1| == 2 * (n - i)
            && forall j :: i <= j < n ==>
                 && r.1[2 * (j - i)] == ExpectedStatementEntry(v, body, block, entry, j)
                 && r.1[2 * (j - i) + 1] == ExpectedStatementExit(v, body, block, entry, j)
    decreases |body.blocks[block].statements| - i
  {
    var n := |body.blocks[block].statements|;
    if i < n {
      var state := Replay(v, body, block, entry, i);
      StatementsStep(v, body, block, i, state);
      StatementsShape(v, body, block, entry, i + 1);
      var r := VisitStatements(v, Recorder(), body, block, i, state, []);
      var x := VisitStatements(v, Recorder(), body, block, i + 1, Replay(v, body, block, entry, i + 1), []);
      assert r.1 == [ExpectedStatementEntry(v, body, block, entry, i), ExpectedStatementExit(v, body, block, entry, i)] + x.1;
      forall j | i <= j < n
        ensures r.1[2 * (j - i)] == ExpectedStatementEntry(v, body, block, entry, j)
        ensures r.1[2 * (j - i) + 1] == ExpectedStatementExit(v, body, block, entry, j)
      {
        if j > i {
          assert r.1[2 * (j - i)] == x.1[2 * (j - (i + 1))];
          assert r.1[2 * (j - i) + 1] == x.1[2 * (j - (i + 1)) + 1];
        }
      }
    }
  }

  /**
   * Visiting one block with `n` statements makes exactly `2n + 2` calls: for each
   * statement in index order `visit_statement` then `visit_statement_exit`, and last
   * `visit_terminator` then `visit_terminator_exit` at the terminator location. The
   * state each call sees is the block's entry state (the reset of the working
   * state) replayed from scratch up to that point.
   */
  lemma BlockTraceShape<S>(v: ResultsVisitable<S>, body: Body, block: BasicBlock, state: S)
    requires InRange(v, body, block)
    ensures var tr := BlockTrace(v, body, block, state);
            var entry := v.resetToBlockStart(state, block);
            var n := |body.blocks[block].statements|;
            && |tr| == 2 * n + 2
            && (forall i :: 0 <= i < n ==>
                  && tr[2 * i] == ExpectedStatementEntry(v, body, block, entry, i)
                  && tr[2 * i + 1] == ExpectedStatementExit(v, body, block, entry, i))
            && tr[2 * n] == ExpectedTerminatorEntry(v, body, block, entry)
            && tr[2 * n + 1] == ExpectedTerminatorExit(v, body, block, entry)
            && BlockExit(v, body, block, state) == tr[2 * n + 1].state
  {
    var entry := v.resetToBlockStart(state, block);
    BlockSplit(v, body, block, state);
    StatementsShape(v, body, block, entry, 0);
  }

  /** The number of visitor calls for `blocks`: `2n + 2` per block of `n` statements. */
  function CallCount(body: Body, blocks: seq<BasicBlock>): nat
    requires forall k :: 0 <= k < |blocks| ==> blocks[k] < |body.blocks|
  {
    if |blocks| == 0 then 0
    else 2 * |body.blocks[blocks[0]].statements| + 2 + CallCount(body, blocks[1..])
  }

  /** The blocks whose `visit_terminator_exit` appears in a trace, in trace order. */
  function ExitedBlocks<S>(trace: seq<Observation<S>>): seq<BasicBlock> {
    if |trace| == 0 then []
    else (if trace[0].VisitTerminatorExit? then [trace[0].loc.block] else []) + ExitedBlocks(trace[1..])
  }

  lemma {:induction false} ExitedBlocksConcat<S>(a: seq<Observation<S>>, b: seq<Observation<S>>)
    ensures ExitedBlocks(a + b) == ExitedBlocks(a) + ExitedBlocks(b)
    decreases |a|
  {
    if |a| == 0 {
      assert a + b == b;
    } else {
      assert (a + b)[1..] == a[1..] + b;
      ExitedBlocksConcat(a[1..], b);
    }
  }

  lemma {:induction false} NoExitedBlocks<S>(trace: seq<Observation<S>>)
    requires forall k :: 0 <= k < |trace| ==> !trace[k].VisitTerminatorExit?
    ensures ExitedBlocks(trace) == []
    decreases |trace|
  {
    if |trace| > 0 {
      NoExitedBlocks(trace[1..]);
    }
  }

  /**
   * Every call of one block's visit is at a location of that block, and only its
   * last call is `visit_terminator_exit`.
   */
  lemma BlockTraceLocations<S>(v: ResultsVisitable<S>, body: Body, block: BasicBlock, state: S)
    requires InRange(v, body, block)
    ensures var tr := BlockTrace(v, body, block, state);
            && (forall k :: 0 <= k < |tr| ==> tr[k].loc.block == block)
            && ExitedBlocks(tr) == [block]
  {
    var tr := BlockTrace(v, body, block, state);
    var n := |body.blocks[block].statements|;
    BlockTraceShape(v, body, block, state);
    forall k | 0 <= k < 2 * n
      ensures tr[k].loc.block == block && !tr[k].VisitTerminatorExit?
    {
      var i := k / 2;
      assert i < n;
      if k % 2 == 0 {
        assert tr[k] == tr[2 * i] == ExpectedStatementEntry(v, body, block, v.resetToBlockStart(state, block), i);
      } else {
        assert tr[k] == tr[2 * i + 1] == ExpectedStatementExit(v, body, block, v.resetToBlockStart(state, block), i);
      }
    }
    NoExitedBlocks(tr[..2 * n]);
    assert tr == tr[..2 * n] + [tr[2 * n]] + [tr[2 * n + 1]];
    ExitedBlocksConcat(tr[..2 * n] + [tr[2 * n]], [tr[2 * n + 1]]);
    ExitedBlocksConcat(tr[..2 * n], [tr[2 * n]]);
  }

  lemma {:induction false} BlocksOrder<S>(v: ResultsVisitable<S>, body: Body, blocks: seq<BasicBlock>, state: S)
    requires CanVisit(v, body, blocks)
    ensures var tr := BlocksTrace(v, body, blocks, state);
            && |tr| == CallCount(body, blocks)
            && ExitedBlocks(tr) == blocks
            && forall k :: 0 <= k < |tr| ==> tr[k].loc.block in blocks
    decreases |blocks|
  {
    if |blocks| > 0 {
      var head: seq<Observation<S>> := BlockTrace(v, body, blocks[0], state);
      var next := BlockExit(v, body, blocks[0], state);
      var rest: seq<Observation<S>> := BlocksTrace(v, body, blocks[1..], next);
      BlocksStep(v, body, blocks, state);
      BlockTraceShape(v, body, blocks[0], state);
      BlockTraceLocations(v, body, blocks[0], state);
      BlocksOrder(v, body, blocks[1..], next);
      ExitedBlocksConcat(head, rest);
      assert [blocks[0]] + blocks[1..] == blocks;
      forall k | 0 <= k < |head + rest|
        ensures (head + rest)[k].loc.block in blocks
      {
        if k < |head| {
          assert (head + rest)[k] == head[k];
        } else {
          assert (head + rest)[k] == rest[k - |head|];
          assert rest[k - |head|].loc.block in blocks[1..];
        }
      }
    }
  }

  /**
   * `visit_results` makes `2n + 2` calls per visited block of `n` statements, visits
   * exactly the caller's blocks in the caller's order (one `visit_terminator_exit`
   * each, repeats included), and never makes a call at a block it was not given.
   */
  lemma VisitsBlocksInOrder<S>(v: ResultsVisitable<S>, body: Body, blocks: seq<BasicBlock>)
    requires CanVisit(v, body, blocks)
    ensures var tr := Trace(v, body, blocks);
            && |tr| == CallCount(body, blocks)
            && ExitedBlocks(tr) == blocks
            && forall k :: 0 <= k < |tr| ==> tr[k].loc.block in blocks
  {
    BlocksOrder(v, body, blocks, v.newFlowState(body));
  }

  /**
   * Resetting to a block's start forgets the working state: the result depends on
   * the block alone.
   */
  ghost predicate ResetForgets<S(!new)>(v: ResultsVisitable<S>) {
    forall s1: S, s2: S, b: BasicBlock :: b < v.blockCount ==>
      v.resetToBlockStart(s1, b) == v.resetToBlockStart(s2, b)
  }

  /** The state a block's visit starts from, when resetting forgets the working state. */
  function EntryState<S>(v: ResultsVisitable<S>, body: Body, block: BasicBlock): S {
    v.resetToBlockStart(v.newFlowState(body), block)
  }

  /** Each requested block's own trace, concatenated in the requested order. */
  function BlockTraces<S>(v: ResultsVisitable<S>, body: Body, blocks: seq<BasicBlock>): seq<Observation<S>>
    requires CanVisit(v, body, blocks)
  {
    if |blocks| == 0 then []
    else BlockTrace(v, body, blocks[0], v.newFlowState(body)) + BlockTraces(v, body, blocks[1..])
  }

  lemma BlockTraceForgets<S(!new)>(v: ResultsVisitable<S>, body: Body, block: BasicBlock, s1: S, s2: S)
    requires ResetForgets(v)
    requires InRange(v, body, block)
    ensures BlockTrace(v, body, block, s1) == BlockTrace(v, body, block, s2)
  {
    assert v.resetToBlockStart(s1, block) == v.resetToBlockStart(s2, block);
  }

  lemma {:induction false} BlocksTraceForgets<S(!new)>(v: ResultsVisitable<S>, body: Body, blocks: seq<BasicBlock>, state: S)
    requires ResetForgets(v)
    requires CanVisit(v, body, blocks)
    ensures BlocksTrace(v, body, blocks, state) == BlockTraces(v, body, blocks)
    decreases |blocks|
  {
    if |blocks| > 0 {
      BlocksStep(v, body, blocks, state);
      BlockTraceForgets(v, body, blocks[0], state, v.newFlowState(body));
      BlocksTraceForgets(v, body, blocks[1..], BlockExit(v, body, blocks[0], state));
    }
  }

  /**
   * When resetting forgets the working state, nothing carries over from one visited
   * block to the next: the whole trace is each block's own trace, in the requested
   * order, whatever blocks came before it.
   */
  lemma TraceIsConcatenation<S(!new)>(v: ResultsVisitable<S>, body: Body, blocks: seq<BasicBlock>)
    requires ResetForgets(v)
    requires CanVisit(v, body, blocks)
    ensures Trace(v, body, blocks) == BlockTraces(v, body, blocks)
  {
    BlocksTraceForgets(v, body, blocks, v.newFlowState(body));
  }

  /**
   * A call is what a from-scratch replay of its location predicts: the right
   * statement or terminator at a location of a visitable block, seeing the block's
   * entry state with exactly the effects before that point applied.
   */
  ghost predicate Consistent<S>(v: ResultsVisitable<S>, body: Body, o: Observation<S>) {
    var b := o.loc.block;
    var i := o.loc.statementIndex;
    && InRange(v, body, b)
    && var entry := EntryState(v, body, b);
       var n := |body.blocks[b].statements|;
       match o
       case VisitStatement(_, _, _) => i < n && o == ExpectedStatementEntry(v, body, b, entry, i)
       case VisitStatementExit(_, _, _) => i < n && o == ExpectedStatementExit(v, body, b, entry, i)
       case VisitTerminator(_, _, _) => o == ExpectedTerminatorEntry(v, body, b, entry)
       case VisitTerminatorExit(_, _, _) => o == ExpectedTerminatorExit(v, body, b, entry)
  }

  lemma BlockTraceConsistent<S(!new)>(v: ResultsVisitable<S>, body: Body, block: BasicBlock, state: S)
    requires ResetForgets(v)
    requires InRange(v, body, block)
    ensures var tr := BlockTrace(v, body, block, state);
            forall k :: 0 <= k < |tr| ==> Consistent(v, body, tr[k])
  {
    var tr := BlockTrace(v, body, block, state);
    var n := |body.blocks[block].statements|;
    var entry := EntryState(v, body, block);
    assert v.resetToBlockStart(state, block) == entry;
    BlockTraceShape(v, body, block, state);
    forall k | 0 <= k < |tr|
      ensures Consistent(v, body, tr[k])
    {
      var i := k / 2;
      if k < 2 * n && k % 2 == 0 {
        assert tr[k] == tr[2 * i] == ExpectedStatementEntry(v, body, block, entry, i);
      } else if k < 2 * n {
        assert tr[k] == tr[2 * i + 1] == ExpectedStatementExit(v, body, block, entry, i);
      } else if k == 2 * n {
        assert tr[k] == ExpectedTerminatorEntry(v, body, block, entry);
      } else {
        assert tr[k] == ExpectedTerminatorExit(v, body, block, entry);
      }
    }
  }

  lemma {:induction false} BlocksConsistent<S(!new)>(v: ResultsVisitable<S>, body: Body, blocks: seq<BasicBlock>, state: S)
    requires ResetForgets(v)
    requires CanVisit(v, body, blocks)
    ensures var tr := BlocksTrace(v, body, blocks, state);
            forall k :: 0 <= k < |tr| ==> Consistent(v, body, tr[k])
    decreases |blocks|
  {
    if |blocks| > 0 {
      var head: seq<Observation<S>> := BlockTrace(v, body, blocks[0], state);
      var next := BlockExit(v, body, blocks[0], state);
      var rest: seq<Observation<S>> := BlocksTrace(v, body, blocks[1..], next);
      BlocksStep(v, body, blocks, state);
      BlockTraceConsistent(v, body, blocks[0], state);
      BlocksConsistent(v, body, blocks[1..], next);
      forall k | 0 <= k < |head + rest|
        ensures Consistent(v, body, (head + rest)[k])
      {
        if k < |head| {
          assert (head + rest)[k] == head[k];
        } else {
          assert (head + rest)[k] == rest[k - |head|];
        }
      }
    }
  }

  /**
   * When resetting forgets the working state, every call `visit_results` makes sees
   * exactly the state a from-scratch replay of its location gives: the block's
   * entry state with the effects of the earlier statements of the block applied,
   * then the before-effect (for `visit_statement` and `visit_terminator`) or the
   * full effect (for the `_exit` hooks) of the current one.
   */
  lemma TraceConsistent<S(!new)>(v: ResultsVisitable<S>, body: Body, blocks: seq<BasicBlock>)
    requires ResetForgets(v)
    requires CanVisit(v, body, blocks)
    ensures var tr := Trace(v, body, blocks);
            forall k :: 0 <= k < |tr| ==> Consistent(v, body, tr[k])
  {
    assert Trace(v, body, blocks) == BlocksTrace(v, body, blocks, v.newFlowState(body));
    BlocksConsistent(v, body, blocks, v.newFlowState(body));
  }

  /** The trace as seen through `p`: each call with its state mapped by `p`. */
  function MapStates<S, T>(p: S -> T, trace: seq<Observation<S>>): seq<Observation<T>> {
    seq(|trace|, k requires 0 <= k < |trace| => trace[k].WithState(p(trace[k].state)))
  }

  lemma MapStatesConcat<S, T>(p: S -> T, a: seq<Observation<S>>, b: seq<Observation<S>>)
    ensures MapStates(p, a + b) == MapStates(p, a) + MapStates(p, b)
  {
    assert forall k :: 0 <= k < |a + b| ==> MapStates(p, a + b)[k] == (MapStates(p, a) + MapStates(p, b))[k] by {
      forall k | 0 <= k < |a + b|
        ensures MapStates(p, a + b)[k] == (MapStates(p, a) + MapStates(p, b))[k]
      {
        if k < |a| {
          assert (a + b)[k] == a[k];
        } else {
          assert (a + b)[k] == b[k - |a|];
        }
      }
    }
  }

  /**
   * `p` maps the flow states of `vs` onto those of `vt` and commutes with every
   * operation of the trait: `vt` behaves on `p(s)` exactly as `vs` does on `s`, seen
   * through `p`.
   */
  ghost predicate Simulates<S(!new), T>(p: S -> T, vs: ResultsVisitable<S>, vt: ResultsVisitable<T>) {
    && vs.blockCount <= vt.blockCount
    && (forall body: Body :: p(vs.newFlowState(body)) == vt.newFlowState(body))
    && (forall s: S, b: BasicBlock :: b < vs.blockCount ==>
          p(vs.resetToBlockStart(s, b)) == vt.resetToBlockStart(p(s), b))
    && (forall s: S, st: Statement, l: Location ::
          p(vs.reconstructBeforeStatementEffect(s, st, l)) == vt.reconstructBeforeStatementEffect(p(s), st, l))
    && (forall s: S, st: Statement, l: Location ::
          p(vs.reconstructStatementEffect(s, st, l)) == vt.reconstructStatementEffect(p(s), st, l))
    && (forall s: S, tm: Terminator, l: Location ::
          p(vs.reconstructBeforeTerminatorEffect(s, tm, l)) == vt.reconstructBeforeTerminatorEffect(p(s), tm, l))
    && (forall s: S, tm: Terminator, l: Location ::
          p(vs.reconstructTerminatorEffect(s, tm, l)) == vt.reconstructTerminatorEffect(p(s), tm, l))
  }

  lemma {:induction false} StatementsSimulate<S(!new), T>(p: S -> T, vs: ResultsVisitable<S>, vt: ResultsVisitable<T>,
                                                    body: Body, block: BasicBlock, i: nat, state: S)
    requires Simulates(p, vs, vt)
    requires block < |body.blocks|
    requires i <= |body.blocks[block].statements|
    ensures var rs := VisitStatements(vs, Recorder(), body, block, i, state, []);
            var rt := VisitStatements(vt, Recorder(), body, block, i, p(state), []);
            p(rs.0) == rt.0 && MapStates(p, rs.1) == rt.1
    decreases |body.blocks[block].statements| - i
  {
    if i < |body.blocks[block].statements| {
      var stmt := body.blocks[block].statements[i];
      var loc := Location(block, i);
      var before := vs.reconstructBeforeStatementEffect(state, stmt, loc);
      var after := vs.reconstructStatementEffect(before, stmt, loc);
      StatementsStep(vs, body, block, i, state);
      StatementsStep(vt, body, block, i, p(state));
      StatementsSimulate(p, vs, vt, body, block, i + 1, after);
      var obs := [VisitStatement(stmt, loc, before), VisitStatementExit(stmt, loc, after)];
      var rest := VisitStatements(vs, Recorder(), body, block, i + 1, after, []).1;
      MapStatesConcat(p, obs, rest);
      assert MapStates(p, obs) == [VisitStatement(stmt, loc, p(before)), VisitStatementExit(stmt, loc, p(after))];
    }
  }

  lemma BlockSimulate<S(!new), T>(p: S -> T, vs: ResultsVisitable<S>, vt: ResultsVisitable<T>,
                            body: Body, block: BasicBlock, state: S)
    requires Simulates(p, vs, vt)
    requires InRange(vs, body, block)
    ensures InRange(vt, body, block)
    ensures p(BlockExit(vs, body, block, state)) == BlockExit(vt, body, block, p(state))
    ensures MapStates(p, BlockTrace(vs, body, block, state)) == BlockTrace(vt, body, block, p(state))
  {
    var entry := vs.resetToBlockStart(state, block);
    BlockSplit(vs, body, block, state);
    BlockSplit(vt, body, block, p(state));
    StatementsSimulate(p, vs, vt, body, block, 0, entry);
    var stmts := VisitStatements(vs, Recorder(), body, block, 0, entry, []);
    var term := body.blocks[block].terminator;
    var loc := TerminatorLoc(body, block);
    var before := vs.reconstructBeforeTerminatorEffect(stmts.0, term, loc);
    var after := vs.reconstructTerminatorEffect(before, term, loc);
    var obs := [VisitTerminator(term, loc, before), VisitTerminatorExit(term, loc, after)];
    MapStatesConcat(p, stmts.1, obs);
    assert MapStates(p, obs) == [VisitTerminator(term, loc, p(before)), VisitTerminatorExit(term, loc, p(after))];
  }

  lemma {:induction false} BlocksSimulate<S(!new), T>(p: S -> T, vs: ResultsVisitable<S>, vt: ResultsVisitable<T>,
                                                body: Body, blocks: seq<BasicBlock>, state: S)
    requires Simulates(p, vs, vt)
    requires CanVisit(vs, body, blocks)
    ensures CanVisit(vt, body, blocks)
    ensures MapStates(p, BlocksTrace(vs, body, blocks, state)) == BlocksTrace(vt, body, blocks, p(state))
    decreases |blocks|
  {
    if |blocks| > 0 {
      BlockSimulate(p, vs, vt, body, blocks[0], state);
      var next := BlockExit(vs, body, blocks[0], state);
      BlocksSimulate(p, vs, vt, body, blocks[1..], next);
      BlocksStep(vs, body, blocks, state);
      BlocksStep(vt, body, blocks, p(state));
      MapStatesConcat(p, BlockTrace(vs, body, blocks[0], state), BlocksTrace(vs, body, blocks[1..], next));
    }
  }

  /**
   * If `p` commutes with every operation of the trait, the visit of `vs` seen
   * through `p` is exactly the visit of `vt`: the same calls at the same locations,
   * with the states mapped by `p`.
   */
  lemma TraceProjection<S(!new), T>(p: S -> T, vs: ResultsVisitable<S>, vt: ResultsVisitable<T>,
                              body: Body, blocks: seq<BasicBlock>)
    requires Simulates(p, vs, vt)
    requires CanVisit(vs, body, blocks)
    ensures CanVisit(vt, body, blocks)
    ensures MapStates(p, Trace(vs, body, blocks)) == Trace(vt, body, blocks)
  {
    BlocksSimulate(p, vs, vt, body, blocks, vs.newFlowState(body));
  }
}
