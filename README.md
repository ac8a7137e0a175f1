# BitmapAnd executor node with ADAM's VA index-scan child

This project models PostgreSQL's BitmapAnd executor node as extended by ADAM
(`src/backend/executor/nodeBitmapAnd.c`). The node holds an array of child
plan states. Each execution does two things:

1. **Reordering pass.** It swaps every child that is a VA (vector
   approximation) index scan into the last slot.
2. **Intersection loop.** It runs the children in slot order and ANDs their
   TID bitmaps into an accumulator. It stops early once the accumulator is
   empty.

A VA child is treated specially:

- Before it runs, it gets the accumulator as its `biss_result`; if there is
  no accumulator yet, a fresh empty bitmap is created first.
- It also gets the plan's ADAM clause. When that clause is non-null, the
  clause's `check_tid` and `nn_limit` fields are set by the child's slot.
- When the clause is non-null, the child's output replaces the accumulator
  instead of being intersected into it ("no intersect", or substitution, mode).

The node also shuts its children down. On rescan it pushes its own
changed-parameter set, when non-empty, into each child, and rescans at once
only the children whose set is then empty; the others are rescanned by their
next execution.

Files and modules:

- `plan_state.dfy` (`PlanStates`) holds the entities:
  - a TID bitmap is a `set<int>`;
  - a child is a `PlanState` object whose kind (`Plain` or `VA`) and output
    are fixed, and whose `chgParam`, `bissResult` and `adamScanClause`
    fields are mutable;
  - the ADAM clause (built by the planner, outside this node) is an
    `AdamScanClause` object with mutable `checkTid` and `nnLimit`.
- `reordering.dfy` (`Reordering`) is the reordering pass as a function on
  the slot sequence, with its lemmas.
- `intersection.dfy` (`Intersection`) is the intersection loop as a
  function on the reordered slots, with its lemmas. `RunAnd` returns:
  - the outcome: the result bitmap, or one of the two `elog(ERROR)` exits;
  - the accumulator at the start of each iteration it ran.
- `node_bitmap_and.dfy` (`NodeBitmapAnd`) holds the class
  `BitmapAndState`:
  - its constructor is `ExecInitBitmapAnd`;
  - `MultiExec` is `MultiExecBitmapAnd`, made of `Reorder` and `Intersect`;
  - `End` is `ExecEndBitmapAnd`;
  - `ReScan` is `ExecReScanBitmapAnd`;
  - `MultiExec` is proved against the functions of `Reordering` and
    `Intersection`; `End` and `ReScan` are proved against `Where` and
    `Propagated`, which are defined in `node_bitmap_and.dfy` itself.

Calls into the generic executor are methods that only append the slot number
to a ghost trace (`executed`, `rescanned` or `ended`). A child's result is
the fixed `output` of its `PlanState`.

## Model

| member | source | states |
|---|---|---|
| PlanStates.PlanState.constructor | src/backend/executor/nodeBitmapAnd.c:86 | The initialized child has the plan's kind and output, an empty changed-parameter set, and no `biss_result` or clause attached. |
| NodeBitmapAnd.BitmapAndState.constructor | src/backend/executor/nodeBitmapAnd.c:43-91 | Requires that the backward and mark flags are absent. Afterwards `nplans` is the list length, slot i holds a fresh child initialized from the i-th plan, the slots are distinct, and no trace entry exists. |
| Reordering.ReorderFrom | src/backend/executor/nodeBitmapAnd.c:118-131 | The pass from slot i on, over the array as earlier iterations left it: a VA child at slot i other than the last is swapped with the last slot, then slot i+1 is examined. Its contract: the length is kept and the slots before i are untouched. |
| Reordering.Reordered | src/backend/executor/nodeBitmapAnd.c:118-131 | The whole pass from slot 0; it keeps the length. Its other properties are the `Reordered...` lemmas below. |
| Reordering.ReorderedPermutes | src/backend/executor/nodeBitmapAnd.c:118-131 | The pass keeps the length and yields a permutation (same multiset) of the children. |
| Reordering.ReorderedNoVA | src/backend/executor/nodeBitmapAnd.c:118-131 | Without a VA child, the array is left unchanged. |
| Reordering.ReorderedLastIsVA | src/backend/executor/nodeBitmapAnd.c:121-129 | If any child is a VA scan, the last slot holds a VA child afterwards. |
| Reordering.ReorderedSingleVA | src/backend/executor/nodeBitmapAnd.c:121-129 | With exactly one VA child, at slot p: if p is not last, the result is the input with slots p and nplans-1 exchanged; if it is last, nothing changes. |
| Reordering.ReorderedIdempotent | src/backend/executor/nodeBitmapAnd.c:118-131 | With at most one VA child, a second pass (the next execution) leaves the order alone. |
| NodeBitmapAnd.BitmapAndState.ExecProcNode | src/backend/executor/nodeBitmapAnd.c:186 | Stand-in for MultiExecProcNode: the result is the child's fixed output, and the slot is appended to the execution trace. |
| NodeBitmapAnd.BitmapAndState.ExecEndNode | src/backend/executor/nodeBitmapAnd.c:247 | Stand-in for ExecEndNode: the slot is appended to the shutdown trace. |
| NodeBitmapAnd.BitmapAndState.ExecReScan | src/backend/executor/nodeBitmapAnd.c:272 | Stand-in for ExecReScan: the slot is appended to the rescan trace. |
| NodeBitmapAnd.BitmapAndState.Reorder | src/backend/executor/nodeBitmapAnd.c:118-131 | The in-place swap loop leaves the array equal to `Reordered` of the old array, and a permutation of it. |
| Intersection.Prepared | src/backend/executor/nodeBitmapAnd.c:148-153 | The `biss_result` a child is given, the accumulator it runs against: a VA child always gets a bitmap, which is the accumulator if there is one and otherwise the newly created empty bitmap; any other child leaves the accumulator as it is. |
| Intersection.Substitutes | src/backend/executor/nodeBitmapAnd.c:158-181 | "No intersect" is on exactly for a VA child with a non-null clause (no contract; this predicate is the definition). |
| Intersection.Merge | src/backend/executor/nodeBitmapAnd.c:191-197 | The new accumulator is always within the child's output. Without an accumulator, or under substitution, it is that output. Otherwise it is exactly the elements common to the accumulator and the output. |
| Intersection.RunAnd | src/backend/executor/nodeBitmapAnd.c:136-211 | The whole loop from slot 0 with no accumulator. It runs at most every child, and with any child it runs the first, against a null accumulator. Its outcome and trace are characterized by the `RunAnd...` lemmas below. |
| Intersection.ClauseSetting | src/backend/executor/nodeBitmapAnd.c:174-179 | The clause fields a VA child sets by its slot: `(true, limit)` past slot 0, `(false, -1)` at slot 0 (no contract; this function is the definition). |
| Intersection.ClauseAfter | src/backend/executor/nodeBitmapAnd.c:156-182 | The clause fields after the first m children were prepared (no contract; definition: those set by the last VA child among them, else the initial ones, as `ClauseAfterLastVA` proves). |
| Intersection.RunFrom | src/backend/executor/nodeBitmapAnd.c:136-211 | The run from slot i executes at most the remaining children. If it executes any, the first recorded accumulator is the one it was entered with. |
| Intersection.RunAndShape | src/backend/executor/nodeBitmapAnd.c:199-207 | Short-circuit: every accumulator that starts an iteration after the first is non-empty, so no child runs after the first one that leaves it empty. A run that stops before the last child without an error returns the empty set. |
| Intersection.RunAndErrors | src/backend/executor/nodeBitmapAnd.c:186-211 | "zero inputs" is returned if and only if there are no children. "unrecognized result" is returned if and only if the last child executed yields no bitmap. With at least one child and every output a bitmap, the result is a bitmap. |
| Intersection.RunAndPlainIntersection | src/backend/executor/nodeBitmapAnd.c:136-197 | With no VA child and every output a bitmap, the result is the intersection of all outputs, the first output being adopted as the accumulator. The accumulator before iteration k is the intersection of the first k outputs. Every child runs, unless the loop stops at the first prefix whose intersection is empty. |
| Intersection.RunAndSubstitutesLast | src/backend/executor/nodeBitmapAnd.c:191-192 | When a VA child with a clause sits in the last slot and the loop reaches it, the result is that child's own output, not an intersection. |
| Intersection.RunAndFirstVAWithoutClause | src/backend/executor/nodeBitmapAnd.c:148-150 | A VA child running first without a clause is intersected with the freshly created empty bitmap. The result is empty, and no other child runs. |
| Intersection.RunAndSoleVA | src/backend/executor/nodeBitmapAnd.c:148-192 | A sole VA child with a clause returns its own output after one iteration. |
| Intersection.ClauseAfterLastVA | src/backend/executor/nodeBitmapAnd.c:156-182 | The clause fields are those set by the last VA child prepared: `check_tid` true and `nn_limit` set to the node's limit past slot 0; `check_tid` false and `nn_limit` -1 at slot 0. With no VA child prepared, the clause fields are untouched. |
| Intersection.ClauseOfLastVA | src/backend/executor/nodeBitmapAnd.c:174-179 | A VA child in the last slot, reached, leaves `(true, limit)` when there are two or more children and `(false, -1)` when it is the only child. |
| Intersection.ProgressStep | src/backend/executor/nodeBitmapAnd.c:186-207 | Proof structure, not a promise of the source: it links the loop to `RunAnd`. One iteration moves the loop's position against the whole run by one slot, and sets the stop flag on an error or an empty accumulator. |
| Intersection.ProgressEnd | src/backend/executor/nodeBitmapAnd.c:208-211 | Proof structure, not a promise of the source: it links the loop to `RunAnd`. Once the loop is over, it has recorded the run's accumulators, and the two checks after it produce the run's outcome. |
| NodeBitmapAnd.BitmapAndState.PrepareChild | src/backend/executor/nodeBitmapAnd.c:140-184 | "No intersect" is reset in every iteration and set only for a VA child with a clause. A VA child's `biss_result` becomes the accumulator, or `{}` if there is none, and it gets the plan's clause. The clause fields are set by slot, and no other child is touched. |
| NodeBitmapAnd.BitmapAndState.RunChild | src/backend/executor/nodeBitmapAnd.c:138-197 | The child is prepared and executed once. The error flag is raised if and only if there is no bitmap, and otherwise the new accumulator is `Merge` of the prepared accumulator and the output. |
| NodeBitmapAnd.BitmapAndState.Iterate | src/backend/executor/nodeBitmapAnd.c:136-208 | Proof structure, not a promise of the source: it links the loop to `RunAnd`. One loop iteration keeps the loop state `Looping` from one slot to the next. |
| NodeBitmapAnd.BitmapAndState.AndChildren | src/backend/executor/nodeBitmapAnd.c:136-208 | Proof structure, not a promise of the source: it links the loop to `RunAnd`. On exit, either some iteration stopped the loop or every child ran, and `Looping` holds. |
| NodeBitmapAnd.BitmapAndState.Intersect | src/backend/executor/nodeBitmapAnd.c:136-211 | The outcome is `RunAnd` of the current slots. Slots 0, 1, ... up to the number of iterations are executed once each, in order. The clause is `ClauseAfter` those iterations, and every VA child reached holds its prepared accumulator. |
| NodeBitmapAnd.BitmapAndState.MultiExec | src/backend/executor/nodeBitmapAnd.c:97-218 | The slots end up `Reordered`, and the outcome, executed trace, clause and child fields are those of `RunAnd` on the reordered slots. |
| NodeBitmapAnd.WhereExactlyOnce | src/backend/executor/nodeBitmapAnd.c:244-273 | `Where` lists exactly the slots satisfying the test, each once, in increasing order. With `End` this gives: each non-null slot shut down once, in order. With `ReScan`: a child rescanned if and only if its set is empty after propagation. |
| NodeBitmapAnd.BitmapAndState.End | src/backend/executor/nodeBitmapAnd.c:244-248 | The shutdown trace grows by exactly `Where` of the non-null slots. |
| NodeBitmapAnd.Propagated | src/backend/executor/nodeBitmapAnd.c:264-265 | The propagation step keeps one parameter set per child. |
| NodeBitmapAnd.PropagatedOnlyWithParams | src/backend/executor/nodeBitmapAnd.c:264-265 | An empty node set leaves every child's set alone. A non-empty one replaces each child's set by what UpdateChangedParamSet (`update`) makes of it. |
| NodeBitmapAnd.BitmapAndState.ReScanChild | src/backend/executor/nodeBitmapAnd.c:258-272 | One child's set is updated only when the node's set is non-empty. The child is rescanned if and only if its set is then empty, and its other fields are kept. |
| NodeBitmapAnd.BitmapAndState.ReScanLoop | src/backend/executor/nodeBitmapAnd.c:256-273 | Every child's set goes from its value before to its value after propagation. The rescan trace grows by the slots whose new set is empty, and the other fields are unchanged. |
| NodeBitmapAnd.BitmapAndState.ReScan | src/backend/executor/nodeBitmapAnd.c:251-274 | The children's sets become `Propagated` of their old sets. The rescan trace grows by exactly the slots whose new set is empty, and `biss_result` and the clause of every child are unchanged. |

## Left out

- TID bitmap internals (`tbm_create`, `tbm_intersect`, `tbm_is_empty`,
  `tbm_free`) and the `work_mem * 1024L` size hint: bitmaps are sets, and
  freeing has no effect in the model.
- Aliasing of `biss_result` with the accumulator. The model records the
  accumulator's value at the time the child is prepared. A VA scan that
  writes through that pointer, and how the scan uses `biss_result`,
  `check_tid` and `nn_limit`, live in the index scan node, which is not part
  of this model.
- Generic executor dispatch (`ExecInitNode`, `MultiExecProcNode`,
  `ExecEndNode`, `ExecReScan`). These become trace-recording methods. A
  child's output is fixed at initialization, so a child returns the same
  bitmap on every execution.
- UpdateChangedParamSet is not part of this model. It is an abstract
  function parameter `update`, and nothing is assumed about how it filters
  the node's set.
- The run-time type and relcache tests (`IsA`, `relam == VA_AM_OID`) are
  replaced by the `Kind` tag of each child.
- Instrumentation (lines 107-108 and 214-215), `palloc0`/`makeNode`, and the
  `ps.plan`/`ps.state` back pointers.
- `elog(ERROR)` does not unwind: it is reported as an `Outcome` value, and
  the loop ends at that point.
- The node's `limit` is set outside this file. The constructor starts it
  at 0, as `makeNode` zeroes it.
- NodeBitmapAnd.BitmapAndState.MultiExec requires every slot to be non-null.
  The source would dereference a null slot in its `IsA` tests, and the
  constructor never leaves one null. `End` alone tolerates null slots.
- Intersection.RunAndSubstitutesLast states substitution only for a VA child
  in the last slot, where the reordering pass puts it. In every slot,
  substitution is stated by `PrepareChild`'s `noIntersect` and
  `RunChild`'s `Merge`.
- Behaviour of the code worth noting; the model follows it:
  - A second VA child is not rejected. Every VA child met before the last
    slot is swapped with it, so with two VA children the pass exchanges
    them again on every execution (`ReorderedIdempotent` needs at most one).
  - Reordering is a swap, not an order-preserving partition. The child that
    was last moves to the VA child's old slot.
  - Zero children are accepted at initialization. The error is raised only
    at execution, as `ZeroInputs`.
- Concurrency and memory contexts are not modelled.
