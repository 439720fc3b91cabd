/**
 * The two implementations of `ResultsVisitable`: one analysis's `Results`, whose
 * flow state is a bit set, and the `BorrowckAnalyses` bundle generated by the
 * `results_tuples!` macro, whose flow state holds one bit set per member analysis
 * (`borrows`, `uninits`, `ever_inits`) and whose operations run each member's
 * operation on that member's own field, in declaration order.
 */
module ResultsTuples {
  import opened BitSets
  import opened Mir
  import opened Dataflow
  import opened Visitor
  import opened TraceProperties

  /** `impl ResultsVisitable for Results<A>`. */
  function ForResults(r: Results): (v: ResultsVisitable<BitSet>)
    ensures v.blockCount == |r.entrySets|
    ensures forall body: Body :: v.newFlowState(body).DomainSize() == r.analysis.bitsPerBlock(body)
    ensures forall body: Body, i: nat :: !v.newFlowState(body).Contains(i)
    ensures forall s: BitSet, b: BasicBlock :: b < |r.entrySets| ==> v.resetToBlockStart(s, b) == r.entrySets[b]
    ensures v.reconstructBeforeStatementEffect == r.analysis.applyBeforeStatementEffect
    ensures v.reconstructStatementEffect == r.analysis.applyStatementEffect
    ensures v.reconstructBeforeTerminatorEffect == r.analysis.applyBeforeTerminatorEffect
    ensures v.reconstructTerminatorEffect == r.analysis.applyTerminatorEffect
  {
    ResultsVisitable(
      |r.entrySets|,
      (body: Body) => NewEmpty(r.analysis.bitsPerBlock(body)),
      // Blocks past the stored entry sets are never reset to (see `CanVisit`).
      (s: BitSet, b: BasicBlock) => if b < |r.entrySets| then Overwrite(s, r.entrySets[b]) else s,
      r.analysis.applyBeforeStatementEffect,
      r.analysis.applyStatementEffect,
      r.analysis.applyBeforeTerminatorEffect,
      r.analysis.applyTerminatorEffect)
  }

  /**
   * For a single analysis, every call `visit_results` makes sees the stored entry
   * set of its block with exactly the analysis's effects up to that point applied,
   * whatever blocks were visited before and in whatever order.
   */
  lemma ResultsTraceConsistent(r: Results, body: Body, blocks: seq<BasicBlock>)
    requires CanVisit(ForResults(r), body, blocks)
    ensures forall b: BasicBlock :: b < |r.entrySets| ==> EntryState(ForResults(r), body, b) == r.entrySets[b]
    ensures var tr := Trace(ForResults(r), body, blocks);
            forall k :: 0 <= k < |tr| ==> Consistent(ForResults(r), body, tr[k])
  {
    ResultsResetForgets(r);
    TraceConsistent(ForResults(r), body, blocks);
  }

  /** Resetting a single analysis's state to a block start depends on the block alone. */
  lemma ResultsResetForgets(r: Results)
    ensures ResetForgets(ForResults(r))
  {
  }

  /** The struct `results_tuples!` generates for `BorrowckAnalyses`. */
  datatype BorrowckAnalyses<B, U, E> = BorrowckAnalyses(borrows: B, uninits: U, everInits: E)

  /** `BorrowckResults`: the results of the three borrow-check analyses. */
  type BorrowckResults = BorrowckAnalyses<Results, Results, Results>

  type BorrowckFlowState = BorrowckAnalyses<BitSet, BitSet, BitSet>

  /** The fields of `BorrowckAnalyses`. */
  datatype Member = Borrows | Uninits | EverInits

  /** The order in which the macro's expansion runs the members' operations. */
  const DeclaredOrder: seq<Member> := [Borrows, Uninits, EverInits]

  predicate NoDuplicates(order: seq<Member>) {
    forall i, j :: 0 <= i < j < |order| ==> order[i] != order[j]
  }

  /**
   * One repetition of a macro-generated method body: each member in `order` runs
   * its own operation on its own field of the state.
   */
  function Dispatch<X>(order: seq<Member>, state: BorrowckAnalyses<X, X, X>,
                       onBorrows: X -> X, onUninits: X -> X, onEverInits: X -> X): BorrowckAnalyses<X, X, X>
    decreases |order|
  {
    if |order| == 0 then state
    else
      var next := match order[0]
        case Borrows => state.(borrows := onBorrows(state.borrows))
        case Uninits => state.(uninits := onUninits(state.uninits))
        case EverInits => state.(everInits := onEverInits(state.everInits));
      Dispatch(order[1..], next, onBorrows, onUninits, onEverInits)
  }

  /**
   * Dispatching over an order without repeats changes a field exactly when its
   * member is in the order, and then by that member's operation alone.
   */
  lemma {:induction false} DispatchFields<X>(order: seq<Member>, state: BorrowckAnalyses<X, X, X>,
                                             onBorrows: X -> X, onUninits: X -> X, onEverInits: X -> X)
    requires NoDuplicates(order)
    ensures var r := Dispatch(order, state, onBorrows, onUninits, onEverInits);
            && r.borrows == (if Borrows in order then onBorrows(state.borrows) else state.borrows)
            && r.uninits == (if Uninits in order then onUninits(state.uninits) else state.uninits)
            && r.everInits == (if EverInits in order then onEverInits(state.everInits) else state.everInits)
    decreases |order|
  {
    if |order| > 0 {
      var next := match order[0]
        case Borrows => state.(borrows := onBorrows(state.borrows))
        case Uninits => state.(uninits := onUninits(state.uninits))
        case EverInits => state.(everInits := onEverInits(state.everInits));
      DispatchFields(order[1..], next, onBorrows, onUninits, onEverInits);
      assert order[0] !in order[1..] by {
        forall j | 0 <= j < |order[1..]| ensures order[1..][j] != order[0] {
          assert order[1..][j] == order[j + 1];
        }
      }
      assert forall m :: m in order <==> m == order[0] || m in order[1..] by {
        assert order == [order[0]] + order[1..];
      }
    }
  }

  /**
   * The members' fields are disjoint, so the order of dispatch is unobservable: any
   * order that runs every member exactly once yields the componentwise result, the
   * same as the declared order.
   */
  lemma DispatchOrderIrrelevant<X>(order: seq<Member>, state: BorrowckAnalyses<X, X, X>,
                                   onBorrows: X -> X, onUninits: X -> X, onEverInits: X -> X)
    requires NoDuplicates(order)
    requires forall m: Member :: m in order
    ensures Dispatch(order, state, onBorrows, onUninits, onEverInits)
         == BorrowckAnalyses(onBorrows(state.borrows), onUninits(state.uninits), onEverInits(state.everInits))
    ensures Dispatch(order, state, onBorrows, onUninits, onEverInits)
         == Dispatch(DeclaredOrder, state, onBorrows, onUninits, onEverInits)
  {
    DispatchFields(order, state, onBorrows, onUninits, onEverInits);
    DispatchFields(DeclaredOrder, state, onBorrows, onUninits, onEverInits);
  }

  lemma DispatchDeclared<X>(state: BorrowckAnalyses<X, X, X>, onBorrows: X -> X, onUninits: X -> X, onEverInits: X -> X)
    ensures Dispatch(DeclaredOrder, state, onBorrows, onUninits, onEverInits)
         == BorrowckAnalyses(onBorrows(state.borrows), onUninits(state.uninits), onEverInits(state.everInits))
  {
    DispatchFields(DeclaredOrder, state, onBorrows, onUninits, onEverInits);
  }

  function Min3(a: nat, b: nat, c: nat): nat {
    if a <= b && a <= c then a else if b <= c then b else c
  }

  /** The `ResultsVisitable` implementation `results_tuples!` generates for `BorrowckResults`. */
  function ForBorrowckAnalyses(rs: BorrowckResults): (v: ResultsVisitable<BorrowckFlowState>)
    ensures v.blockCount <= |rs.borrows.entrySets|
    ensures v.blockCount <= |rs.uninits.entrySets|
    ensures v.blockCount <= |rs.everInits.entrySets|
    ensures v.blockCount == |rs.borrows.entrySets| || v.blockCount == |rs.uninits.entrySets|
            || v.blockCount == |rs.everInits.entrySets|
    ensures forall body: Body ::
              && v.newFlowState(body).borrows.DomainSize() == rs.borrows.analysis.bitsPerBlock(body)
              && v.newFlowState(body).uninits.DomainSize() == rs.uninits.analysis.bitsPerBlock(body)
              && v.newFlowState(body).everInits.DomainSize() == rs.everInits.analysis.bitsPerBlock(body)
    ensures forall body: Body, i: nat ::
              && !v.newFlowState(body).borrows.Contains(i)
              && !v.newFlowState(body).uninits.Contains(i)
              && !v.newFlowState(body).everInits.Contains(i)
    ensures forall s: BorrowckFlowState, b: BasicBlock :: b < v.blockCount ==>
              v.resetToBlockStart(s, b)
                == BorrowckAnalyses(rs.borrows.entrySets[b], rs.uninits.entrySets[b], rs.everInits.entrySets[b])
    ensures forall s: BorrowckFlowState, st: Statement, l: Location ::
              v.reconstructBeforeStatementEffect(s, st, l)
                == BorrowckAnalyses(rs.borrows.analysis.applyBeforeStatementEffect(s.borrows, st, l),
                                    rs.uninits.analysis.applyBeforeStatementEffect(s.uninits, st, l),
                                    rs.everInits.analysis.applyBeforeStatementEffect(s.everInits, st, l))
    ensures forall s: BorrowckFlowState, st: Statement, l: Location ::
              v.reconstructStatementEffect(s, st, l)
                == BorrowckAnalyses(rs.borrows.analysis.applyStatementEffect(s.borrows, st, l),
                                    rs.uninits.analysis.applyStatementEffect(s.uninits, st, l),
                                    rs.everInits.analysis.applyStatementEffect(s.everInits, st, l))
    ensures forall s: BorrowckFlowState, tm: Terminator, l: Location ::
              v.reconstructBeforeTerminatorEffect(s, tm, l)
                == BorrowckAnalyses(rs.borrows.analysis.applyBeforeTerminatorEffect(s.borrows, tm, l),
                                    rs.uninits.analysis.applyBeforeTerminatorEffect(s.uninits, tm, l),
                                    rs.everInits.analysis.applyBeforeTerminatorEffect(s.everInits, tm, l))
    ensures forall s: BorrowckFlowState, tm: Terminator, l: Location ::
              v.reconstructTerminatorEffect(s, tm, l)
                == BorrowckAnalyses(rs.borrows.analysis.applyTerminatorEffect(s.borrows, tm, l),
                                    rs.uninits.analysis.applyTerminatorEffect(s.uninits, tm, l),
                                    rs.everInits.analysis.applyTerminatorEffect(s.everInits, tm, l))
  {
    var count := Min3(|rs.borrows.entrySets|, |rs.uninits.entrySets|, |rs.everInits.entrySets|);
    var v := ResultsVisitable(
      count,
      (body: Body) => BorrowckAnalyses(NewEmpty(rs.borrows.analysis.bitsPerBlock(body)),
                                       NewEmpty(rs.uninits.analysis.bitsPerBlock(body)),
                                       NewEmpty(rs.everInits.analysis.bitsPerBlock(body))),
      // Blocks past the stored entry sets are never reset to (see `CanVisit`).
      (s: BorrowckFlowState, b: BasicBlock) =>
        if b < count then
          Dispatch(DeclaredOrder, s,
                   x => Overwrite(x, rs.borrows.entrySets[b]),
                   x => Overwrite(x, rs.uninits.entrySets[b]),
                   x => Overwrite(x, rs.everInits.entrySets[b]))
        else s,
      (s: BorrowckFlowState, st: Statement, l: Location) =>
        Dispatch(DeclaredOrder, s,
                 x => rs.borrows.analysis.applyBeforeStatementEffect(x, st, l),
                 x => rs.uninits.analysis.applyBeforeStatementEffect(x, st, l),
                 x => rs.everInits.analysis.applyBeforeStatementEffect(x, st, l)),
      (s: BorrowckFlowState, st: Statement, l: Location) =>
        Dispatch(DeclaredOrder, s,
                 x => rs.borrows.analysis.applyStatementEffect(x, st, l),
                 x => rs.uninits.analysis.applyStatementEffect(x, st, l),
                 x => rs.everInits.analysis.applyStatementEffect(x, st, l)),
      (s: BorrowckFlowState, tm: Terminator, l: Location) =>
        Dispatch(DeclaredOrder, s,
                 x => rs.borrows.analysis.applyBeforeTerminatorEffect(x, tm, l),
                 x => rs.uninits.analysis.applyBeforeTerminatorEffect(x, tm, l),
                 x => rs.everInits.analysis.applyBeforeTerminatorEffect(x, tm, l)),
      (s: BorrowckFlowState, tm: Terminator, l: Location) =>
        Dispatch(DeclaredOrder, s,
                 x => rs.borrows.analysis.applyTerminatorEffect(x, tm, l),
                 x => rs.uninits.analysis.applyTerminatorEffect(x, tm, l),
                 x => rs.everInits.analysis.applyTerminatorEffect(x, tm, l)));
    assert forall s: BorrowckFlowState, b: BasicBlock :: b < count ==>
             v.resetToBlockStart(s, b)
               == BorrowckAnalyses(rs.borrows.entrySets[b], rs.uninits.entrySets[b], rs.everInits.entrySets[b]) by {
      forall s: BorrowckFlowState, b: BasicBlock | b < count
        ensures v.resetToBlockStart(s, b)
                  == BorrowckAnalyses(rs.borrows.entrySets[b], rs.uninits.entrySets[b], rs.everInits.entrySets[b])
      {
        DispatchDeclared(s, x => Overwrite(x, rs.borrows.entrySets[b]),
                         x => Overwrite(x, rs.uninits.entrySets[b]),
                         x => Overwrite(x, rs.everInits.entrySets[b]));
      }
    }
    v
  }

  /** Resetting the bundle's state to a block start depends on the block alone. */
  lemma BundleResetForgets(rs: BorrowckResults)
    ensures ResetForgets(ForBorrowckAnalyses(rs))
  {
  }

  /** One member's field of a bundle. */
  function Select<X>(m: Member, s: BorrowckAnalyses<X, X, X>): X {
    match m
    case Borrows => s.borrows
    case Uninits => s.uninits
    case EverInits => s.everInits
  }

  /** The projection of a bundle flow state onto member `m`'s bit set. */
  function FieldOf(m: Member): BorrowckFlowState -> BitSet {
    s => Select(m, s)
  }

  /**
   * Projecting onto member `m` commutes with every operation of the bundle: the
   * bundle's operations, seen through one field, are that member's own operations.
   */
  lemma BundleSimulates(rs: BorrowckResults, m: Member)
    ensures Simulates(FieldOf(m), ForBorrowckAnalyses(rs), ForResults(Select(m, rs)))
  {
  }

  /**
   * Composition fidelity: visiting the bundle and looking only at member `m`'s
   * field gives exactly the visit of that member's results on their own, call for
   * call and state for state. No member's operations disturb another's field, and
   * each field is reset from its own member's entry sets.
   */
  lemma CompositionFidelity(rs: BorrowckResults, m: Member, body: Body, blocks: seq<BasicBlock>)
    requires CanVisit(ForBorrowckAnalyses(rs), body, blocks)
    ensures CanVisit(ForResults(Select(m, rs)), body, blocks)
    ensures MapStates(FieldOf(m), Trace(ForBorrowckAnalyses(rs), body, blocks)) == Trace(ForResults(Select(m, rs)), body, blocks)
  {
    BundleSimulates(rs, m);
    TraceProjection(FieldOf(m), ForBorrowckAnalyses(rs), ForResults(Select(m, rs)), body, blocks);
  }
}
