# Borrow-check dataflow visitor and `Flows`, modelled in Dafny

This project models two small pieces of the Rust compiler's MIR borrow checker.

- **`visit_results`** (`src/librustc_mir/dataflow/generic/visitor.rs`). It walks a
  caller-chosen list of basic blocks. For each block it resets a flow state to the
  block's stored entry set. It then replays, statement by statement and then for the
  terminator, the analysis's *before* effect, the `visit_*` hook, the primary effect
  and the `visit_*_exit` hook.
- **The code it walks over.**
  - The `ResultsVisitable` trait.
  - Its implementation for a single analysis's `Results`.
  - The struct-plus-implementation that the `results_tuples!` macro generates for
    `BorrowckAnalyses { borrows, uninits, ever_inits }`. There every operation runs
    each member's operation on that member's own bit set.
- **`Flows`** (`src/librustc_mir/borrow_check/flows.rs`). This is the facade the
  borrow checker queries.
  - `borrows_in_scope` answers from the Polonius output when there is one, and
    otherwise from the borrows cursor.
  - The `Display` rendering always prints the three local cursors as
    `borrows in effect: [..] uninits: [..] ever_init: [..]`.

## How it is modelled

- Traits become records of functions.
  - `ResultsVisitable<S>` holds `newFlowState`, `resetToBlockStart` and the four
    `reconstruct_*` operations.
  - It also holds `blockCount`, which has no counterpart in the trait. It says which
    blocks have a stored entry set, so that the source's out-of-range index panic can
    be required away. For one analysis it is the number of entry sets. For
    `BorrowckAnalyses` it is the smallest of the three members' counts.
  - `ResultsVisitor<V, S>` holds four hooks that take the visitor's own state `V`
    and a read-only flow state.
  - Mutation through `&mut` becomes a state threaded through pure functions.
- The visitor only sees the flow state by shared reference. Everything a visitor
  can learn is therefore the sequence of hook calls with their arguments.
  - `Visitor.Trace` records that sequence.
  - `Visitor.VisitorSeesTrace` shows that running *any* visitor is a fold over the
    trace.
  - The other traversal properties are stated once, on the trace.
- Fact sets are `BitSet = seq<bool>`. `Iter` lists the members in increasing order.
- MIR is reduced to the part `visit_results` reads. A body is a sequence of blocks,
  and each block is a sequence of statements plus a terminator. Statements and
  terminators are opaque identifiers, passed to the analysis's effect functions.
- A `ResultsCursor` inside `Flows` is taken as already positioned. It is its current
  state (`get()`) plus the text the owning analysis prints for each fact index.
- The Polonius output is a total function from location to a list of borrows.

`visit_results` applies the analysis's before-statement effect first and only then
calls `visit_statement` (visitor.rs:24-25). The same holds for terminators
(visitor.rs:34-35). So `visit_statement` and `visit_terminator` see the state with
the before-effect already applied.

## Model

| member | source | states |
|---|---|---|
| Visitor.VisitorSeesTrace | src/librustc_mir/dataflow/generic/visitor.rs:9-39 | Running `visit_results` with any visitor and any initial visitor state ends in the same visitor state as feeding that visitor, one call at a time, the recorded sequence of hook calls. A visitor can observe nothing beyond the hooks' arguments. |
| TraceProperties.BlockTraceShape | src/librustc_mir/dataflow/generic/visitor.rs:19-38 | One block with n statements produces exactly 2n+2 calls. Call 2i is `visit_statement` for statement i at location (block, i), seeing the entry set after the full effects of statements 0..i-1 and then the before-effect of statement i. Call 2i+1 is `visit_statement_exit` for statement i, seeing the full effects of statements 0..i. The last two calls are `visit_terminator` and `visit_terminator_exit` at the terminator location (block, n), with the terminator's before-effect and then its full effect. The state the block leaves behind is the one the last call saw. |
| TraceProperties.VisitsBlocksInOrder | src/librustc_mir/dataflow/generic/visitor.rs:17-39 | The number of calls is the sum of 2·(statements)+2 over the requested blocks, counted with repetition. The blocks whose terminators are exited are exactly the requested list, in the requested order, duplicates included. No call is made at a location outside the requested blocks. |
| TraceProperties.TraceIsConcatenation | src/librustc_mir/dataflow/generic/visitor.rs:15-19 | When resetting to a block start ignores the previous state, the calls made for the block list are the per-block calls, each made from a fresh reset, concatenated in list order. No state leaks from one visited block into the next. |
| TraceProperties.TraceConsistent | src/librustc_mir/dataflow/generic/visitor.rs:15-38 | Under the same condition, every call sees exactly the state obtained from its block's entry state by replaying, in program order, the effects that precede the call's point. This holds whatever blocks were visited before and in whatever order. |
| TraceProperties.TraceProjection | src/librustc_mir/dataflow/generic/visitor.rs:78-115 | Take a map from one visitable's flow state to another's that commutes with all six trait operations. Then the second visitable's call sequence is the first one's with every state mapped. Visiting a bundle therefore shows each member exactly what visiting that member alone would. |
| ResultsTuples.ForResults | src/librustc_mir/dataflow/generic/visitor.rs:117-166 | For one analysis's `Results`: the fresh state is an empty set whose capacity is the analysis's `bits_per_block`. Resetting to block b yields that block's stored entry set, whatever the previous state was. Only blocks with a stored entry set can be visited. The four reconstruct operations are the analysis's four effects. |
| ResultsTuples.ResultsTraceConsistent | src/librustc_mir/dataflow/generic/visitor.rs:117-129 | For one analysis, each block's entry state is its stored entry set. Every call of `visit_results` sees that entry set plus exactly the analysis's effects up to the call's point. |
| ResultsTuples.DispatchOrderIrrelevant | src/librustc_mir/dataflow/generic/visitor.rs:191-237 | Running each member's operation on its own field gives the same bundle in any dispatch order that names each member once. That result is the componentwise one, and it equals the result in the declared order borrows, uninits, ever_inits. |
| ResultsTuples.ForBorrowckAnalyses | src/librustc_mir/dataflow/generic/visitor.rs:179-238 | For `BorrowckAnalyses`, the fresh state holds three empty sets, each with its own analysis's capacity. Only blocks that every member has an entry set for can be visited. Resetting sets each field to that member's entry set. Each reconstruct operation updates each field with that member's effect alone, so no member's state influences another's. |
| ResultsTuples.CompositionFidelity | src/librustc_mir/dataflow/generic/visitor.rs:242-252 | For each member m of `BorrowckResults` (borrows, uninits, ever_inits), visit the bundle over any block list that it can visit. Then m alone can be visited over the same list, and m's field of every observed bundle state equals, call for call, what visiting m alone would show. |
| BitSets.NewEmpty | src/librustc_mir/dataflow/generic/visitor.rs:124 | `BitSet::new_empty(n)` has capacity n and no member. |
| BitSets.Overwrite | src/librustc_mir/dataflow/generic/visitor.rs:128 | After `overwrite`, the destination has exactly the members and the capacity of the set copied from. |
| BitSets.Iter | src/librustc_mir/borrow_check/flows.rs:48 | `BitSet::iter` yields each member exactly once, in strictly increasing order, and nothing else. |
| Flows.BorrowsInScope | src/librustc_mir/borrow_check/flows.rs:41-50 | With a Polonius output, the answer is that output's `errors_at(location)`, in its order. Without one, the answer is the members of the borrows cursor's current state, strictly increasing, containing i exactly when the state contains i. |
| Flows.BorrowsInScopeSources | src/librustc_mir/borrow_check/flows.rs:45-49 | The two sources are never mixed. With a Polonius output, the borrows cursor has no influence at all. Without one, the location has no influence, because the cursor is read where it stands. |
| Flows.PushGroup | src/librustc_mir/borrow_check/flows.rs:58-66 | The `saw_one` loop appends the cursor's member texts in index order, with `", "` before every member but the first. This is exactly the comma-joined list of those texts. |
| Flows.Fmt | src/librustc_mir/borrow_check/flows.rs:53-108 | The `Display` output is the three groups `borrows in effect: [..]`, `uninits: [..]`, `ever_init: [..]`, in that order and separated by one space. Each group lists its own local cursor's member texts. |
| Flows.RenderIgnoresPolonius | src/librustc_mir/borrow_check/flows.rs:53-108 | The rendering is the same whether or not a Polonius output is present, and whatever it says. |
| Flows.RenderShape | src/librustc_mir/borrow_check/flows.rs:57-105 | When no fact text contains a bracket or a comma, the rendering has exactly three `[` and three `]`. Its commas are exactly the separators between members: k−1 for a group of k members, none for an empty group. |
| Flows.RenderEndsWithBracket | src/librustc_mir/borrow_check/flows.rs:105 | The rendering ends with the last group's `]` and has no trailing space. |
| Strings.JoinSnoc | src/librustc_mir/borrow_check/flows.rs:59-65 | Appending one more item to a joined list adds `", "` and the item, except for the first item, which adds only the item. This is the `saw_one` step. |
| Strings.JoinLength | src/librustc_mir/borrow_check/flows.rs:58-66 | The joined text's length is the items' total length plus two characters per separator. |
| Strings.JoinCommas | src/librustc_mir/borrow_check/flows.rs:58-66 | Items free of commas, joined, contain exactly one comma per separator. |
| FlowsExamples.RenderExample | src/librustc_mir/borrow_check/flows.rs:53-108 | Two borrows `bw0`, `bw1`, one uninit `mp0` and no ever-init render as `borrows in effect: [bw0, bw1] uninits: [mp0] ever_init: []`. |
| FlowsExamples.PoloniusDiverges | src/librustc_mir/borrow_check/flows.rs:41-66 | With a Polonius output that reports no borrow at location 0, `borrows_in_scope` returns nothing there. The rendering still lists the borrow `bw0` that the local cursor holds. |

## Left out

- Lifetimes, `Rc`, `Either` and the `fmt::Formatter` plumbing are left out. `borrows_in_scope` returns the iterator's elements as a sequence, and `fmt` returns the built string.
- `ResultsCursor` seeking and the dataflow solver that computes the entry sets are out of scope. Cursors are taken as already positioned, and entry sets are given.
- Per-fact text (`BorrowData::to_string`, `MovePath::to_string`, the `Debug` format of an `Init`) is an arbitrary function from fact index to text. Those types are not part of this model.
- `results_tuples!` is modelled for the one instantiation the file makes, `BorrowckAnalyses` with three fields. The macro's generality over any number of fields is not modelled.
- The `#[derive(Debug)]` that the macro adds to the generated struct is not modelled.
- `Flows::new` only stores its four arguments, so it is the `Flows` constructor.
- The commented-out "borrows generated" group (flows.rs:69-81) is not emitted. `Flows.RenderShape` fixes the number of groups at three.
- The default no-op bodies of the `ResultsVisitor` hooks are not modelled as defaults. A visitor whose hooks return their visitor state unchanged is one instance of `ResultsVisitor`.
- An out-of-range block is an index panic in the source: `body[block]`, `entry_set_for_block`, `entry_sets[block]`. The model requires every requested block to exist in the body and to have an entry set in every member (`CanVisit`), rather than modelling the panic.
- BitSets.Overwrite: does not model the source's assertion that both sets have the same capacity, because the source of `BitSet::overwrite` is not part of this model. The result simply takes the source set's contents and capacity. One consequence: when a stored entry set's capacity differs from `bits_per_block`, the model resets to the entry set and carries on with the entry set's capacity, where the source panics.
- Flows.RenderShape: counts brackets and commas only under the assumption that no fact text contains `[`, `]` or `,`. The source places no such restriction on the text.
