/** Executor-side entities the BitmapAnd node works with: the bitmaps its
    children produce, the children themselves, and the ADAM scan clause
    shared between the plan and a VA index scan child. */
module PlanStates {

  /** A TID bitmap, abstracted to the set of row identifiers it holds. */
  type TidSet = set<int>

  datatype Option<+T> = None | Some(value: T)

  /** What the node needs to know about a child: a VA index scan is a
      BitmapIndexScanState whose index relation uses the VA access method;
      every other child (another index AM, a BitmapOr, ...) is Plain. */
  datatype Kind = Plain | VA

  /** A child plan as handed to the node at initialization. `output` is what
      executing the child yields: `Some(tids)` for a TID bitmap, `None` for a
      null or non-bitmap result. */
  datatype Plan = Plan(kind: Kind, output: Option<TidSet>)

  /** Executor flags; only Backward and Mark matter to this node. */
  datatype ExecFlag = ExplainOnly | Rewind | Backward | Mark | SkipTriggers

  /** The ADAM clause: how many nearest neighbours to fetch and whether to
      check candidate TIDs against the bitmap handed to the scan. */
  class AdamScanClause {
    var checkTid: bool
    var nnLimit: int
  }

  /** The run-time state of one child. `kind` and `output` stand for the
      child's own behaviour; the three variables are the fields this node
      reads or writes. */
  class PlanState {
    const kind: Kind
    const output: Option<TidSet>
    /** Changed-parameter set; the empty set stands for a null Bitmapset. */
    var chgParam: set<int>
    /** `biss_result`: the bitmap handed to a VA scan before it runs. */
    var bissResult: Option<TidSet>
    /** `adamScanClause`: the clause attached to a VA scan. */
    var adamScanClause: AdamScanClause?

    /** ExecInitNode on one child plan. */
    constructor (plan: Plan)
      ensures kind == plan.kind && output == plan.output
      ensures chgParam == {} && bissResult == None && adamScanClause == null
    {
      kind := plan.kind;
      output := plan.output;
      chgParam := {};
      bissResult := None;
      adamScanClause := null;
    }
  }

  /** The VA test of both passes: a non-null child of kind VA. */
  predicate IsVA(p: PlanState?) {
    p != null && p.kind == VA
  }

  /** What executing a slot yields; a null slot yields no bitmap. */
  function OutputOf(p: PlanState?): Option<TidSet> {
    if p == null then None else p.output
  }
}
