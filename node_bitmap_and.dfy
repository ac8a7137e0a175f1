/** The BitmapAnd executor node: its state, its initialization, the
    execution that reorders the children and ANDs their bitmaps, shutdown
    and rescan. Calls into the generic executor (executing, rescanning or
    shutting down one child) are methods that only record which slot they
    were called on, in a ghost trace. */
module NodeBitmapAnd {
  import opened PlanStates
  import opened Reordering
  import opened Intersection

  /** No two non-null slots hold the same child. */
  predicate Distinct(s: seq<PlanState?>) {
    forall a, b :: 0 <= a < b < |s| && s[a] != null ==> s[a] != s[b]
  }

  /** The slot numbers 0, 1, ..., m - 1, in order. */
  function Upto(m: nat): (r: seq<nat>)
    ensures |r| == m && forall k :: 0 <= k < m ==> r[k] == k
  {
    seq(m, k requires 0 <= k < m => k)
  }

  /** The slots below `n` whose entry satisfies `keep`, in increasing order. */
  function Where<T>(s: seq<T>, n: nat, keep: T -> bool): seq<nat>
    requires n <= |s|
  {
    if n == 0 then [] else Where(s, n - 1, keep) + (if keep(s[n - 1]) then [n - 1] else [])
  }

  /** A slot holding an initialized child. */
  predicate Initialized(p: PlanState?) {
    p != null
  }

  /** A null (empty) changed-parameter set. */
  predicate NoChangedParams(ps: set<int>) {
    ps == {}
  }

  /** `Where` lists exactly the slots that satisfy `keep`, each once, in
      increasing order. */
  lemma {:induction false} WhereExactlyOnce<T>(s: seq<T>, n: nat, keep: T -> bool)
    requires n <= |s|
    ensures forall k :: k in Where(s, n, keep) <==> 0 <= k < n && keep(s[k])
    ensures forall a, b :: 0 <= a < b < |Where(s, n, keep)| ==>
      Where(s, n, keep)[a] < Where(s, n, keep)[b]
  {
    if n > 0 {
      WhereExactlyOnce(s, n - 1, keep);
      var w := Where(s, n - 1, keep);
      forall a | 0 <= a < |w| ensures w[a] < n - 1 {
        assert w[a] in w;
      }
    }
  }

  /** The changed-parameter set of a slot (empty for a null slot). */
  function ParamOf(p: PlanState?): set<int>
    reads p
  {
    if p == null then {} else p.chgParam
  }

  /** The changed-parameter sets of all slots. */
  function Params(s: seq<PlanState?>): (ps: seq<set<int>>)
    reads s
    ensures |ps| == |s| && forall k :: 0 <= k < |s| ==> ps[k] == ParamOf(s[k])
  {
    seq(|s|, k requires 0 <= k < |s| reads s => ParamOf(s[k]))
  }

  /** The children's changed-parameter sets after the propagation step of a
      rescan: each child's set is passed with the node's own set `delta` to
      UpdateChangedParamSet, modelled by `update`, unless `delta` is empty. */
  function Propagated(s: seq<PlanState?>, ps: seq<set<int>>, delta: set<int>,
                      update: (PlanState, set<int>, set<int>) -> set<int>): (r: seq<set<int>>)
    requires |ps| == |s|
    ensures |r| == |s|
  {
    seq(|s|, k requires 0 <= k < |s| =>
      if delta != {} && s[k] != null then update(s[k], ps[k], delta) else ps[k])
  }

  /** With an empty own parameter set the node leaves its children's sets
      alone; otherwise each child's set becomes what UpdateChangedParamSet
      makes of it. */
  lemma PropagatedOnlyWithParams(s: seq<PlanState?>, ps: seq<set<int>>, delta: set<int>,
                                 update: (PlanState, set<int>, set<int>) -> set<int>)
    requires |ps| == |s|
    ensures delta == {} ==> Propagated(s, ps, delta, update) == ps
    ensures delta != {} ==> forall k :: 0 <= k < |s| && s[k] != null ==>
      Propagated(s, ps, delta, update)[k] == update(s[k], ps[k], delta)
  {
    if delta == {} {
      assert Propagated(s, ps, delta, update) == ps;
    }
  }

  /** The fields of one child that the node writes. */
  datatype ChildFields = ChildFields(chgParam: set<int>, bissResult: Option<TidSet>,
                                     adamScanClause: AdamScanClause?)

  ghost function FieldsOf(s: seq<PlanState?>): (r: seq<ChildFields>)
    reads s
    ensures |r| == |s|
  {
    seq(|s|, k requires 0 <= k < |s| reads s =>
      if s[k] == null then ChildFields({}, None, null)
      else ChildFields(s[k].chgParam, s[k].bissResult, s[k].adamScanClause))
  }

  /** The children once the first |before| of them have been prepared for
      execution, `before[k]` being the accumulator when slot k was reached:
      each VA child among them holds the prepared accumulator and the plan's
      clause, every other child keeps the fields recorded in `snap`, and no
      changed-parameter set is touched. */
  ghost predicate ChildrenAfter(s: seq<PlanState?>, before: seq<Option<TidSet>>,
                                clause: AdamScanClause?, snap: seq<ChildFields>)
    reads s
  {
    |before| <= |s| && |snap| == |s| &&
    forall k :: 0 <= k < |s| ==>
      s[k] != null && s[k].chgParam == snap[k].chgParam &&
      if k < |before| && IsVA(s[k]) then
        s[k].bissResult == Prepared(s[k], before[k]) && s[k].adamScanClause == clause
      else
        s[k].bissResult == snap[k].bissResult && s[k].adamScanClause == snap[k].adamScanClause
  }

  class BitmapAndState {
    /** `bitmapplans`: one slot per child plan. */
    const plans: array<PlanState?>
    const nplans: nat
    /** `ps.plan->adamPlanClause`, shared by every VA child the node runs. */
    const planClause: AdamScanClause?
    /** `limit`: the number of neighbours a VA child past slot 0 fetches. */
    var limit: int
    /** `ps.chgParam`: the node's own changed-parameter set. */
    var chgParam: set<int>

    /** Slots on which a child was executed, rescanned, shut down. */
    ghost var executed: seq<nat>
    ghost var rescanned: seq<nat>
    ghost var ended: seq<nat>

    ghost predicate Valid()
      reads plans
    {
      plans.Length == nplans && Distinct(plans[..])
    }

    /** Every slot holds a child, as after initialization. */
    ghost predicate Ready()
      reads plans
    {
      forall k :: 0 <= k < plans.Length ==> plans[k] != null
    }

    /** ExecInitBitmapAnd: one slot per child plan, filled in list order by
        initializing that plan. */
    constructor (bitmapplans: seq<Plan>, adamPlanClause: AdamScanClause?, eflags: set<ExecFlag>)
      requires Backward !in eflags && Mark !in eflags
      ensures Valid() && Ready() && fresh(plans)
      ensures nplans == |bitmapplans| && planClause == adamPlanClause
      ensures limit == 0 && chgParam == {}
      ensures forall i :: 0 <= i < nplans ==>
        var p := plans[i];
        p != null && fresh(p) && p.kind == bitmapplans[i].kind && p.output == bitmapplans[i].output &&
        p.chgParam == {} && p.bissResult == None && p.adamScanClause == null
      ensures executed == [] && rescanned == [] && ended == []
    {
      nplans := |bitmapplans|;
      plans := new PlanState?[|bitmapplans|](_ => null);
      planClause := adamPlanClause;
      limit := 0;
      chgParam := {};
      executed, rescanned, ended := [], [], [];
      new;
      var i := 0;
      while i < nplans
        invariant 0 <= i <= nplans
        invariant forall k :: 0 <= k < i ==>
          var p := plans[k];
          p != null && fresh(p) && p.kind == bitmapplans[k].kind && p.output == bitmapplans[k].output &&
          p.chgParam == {} && p.bissResult == None && p.adamScanClause == null
        invariant forall k :: i <= k < nplans ==> plans[k] == null
        invariant Distinct(plans[..])
        modifies plans
      {
        plans[i] := new PlanState(bitmapplans[i]);
        i := i + 1;
      }
    }

    /** MultiExecProcNode on the child in slot `i`. */
    method ExecProcNode(i: nat) returns (out: Option<TidSet>)
      requires i < plans.Length && plans[i] != null
      modifies this`executed
      ensures out == plans[i].output
      ensures executed == old(executed) + [i]
    {
      out := plans[i].output;
      executed := executed + [i];
    }

    /** ExecReScan on the child in slot `i`. */
    method ExecReScan(i: nat)
      requires i < plans.Length && plans[i] != null
      modifies this`rescanned
      ensures rescanned == old(rescanned) + [i]
    {
      rescanned := rescanned + [i];
    }

    /** ExecEndNode on the child in slot `i`. */
    method ExecEndNode(i: nat)
      requires i < plans.Length && plans[i] != null
      modifies this`ended
      ensures ended == old(ended) + [i]
    {
      ended := ended + [i];
    }

    /** The reordering pass: each VA child not in the last slot is swapped
        in place with the last slot. */
    method Reorder()
      requires Valid() && Ready()
      modifies plans
      ensures Valid() && Ready()
      ensures plans[..] == Reordered(old(plans[..]))
      ensures multiset(plans[..]) == multiset(old(plans[..]))
    {
      var i := 0;
      while i < nplans
        invariant 0 <= i <= nplans
        invariant Valid() && Ready()
        invariant ReorderFrom(plans[..], i) == Reordered(old(plans[..]))
      {
        var subnode := plans[i];
        if subnode.kind == VA && i != nplans - 1 {
          ghost var s := plans[..];
          var tmp := plans[nplans - 1];
          plans[nplans - 1] := plans[i];
          plans[i] := tmp;
          assert plans[..] == Swap(s, i, nplans - 1);
        }
        i := i + 1;
      }
      ReorderedPermutes(old(plans[..]));
    }

    /** The ADAM step before the child in slot `i` runs: a VA child gets the
        accumulator (created empty if there is none yet) as `biss_result` and
        the plan's clause; if that clause is non-null its fields are set by
        the slot and the child's output will replace the accumulator. */
    method PrepareChild(i: nat, result: Option<TidSet>, ghost before: seq<Option<TidSet>>,
                        ghost snap: seq<ChildFields>)
      returns (prepared: Option<TidSet>, noIntersect: bool)
      requires Valid() && i < nplans && |before| == i
      requires ChildrenAfter(plans[..], before, planClause, snap)
      modifies plans[i], planClause
      ensures prepared == Prepared(plans[i], result)
      ensures noIntersect == Substitutes(plans[i], planClause != null)
      ensures ChildrenAfter(plans[..], before + [result], planClause, snap)
      ensures planClause != null ==>
        ClauseFields(planClause.checkTid, planClause.nnLimit) ==
        if IsVA(plans[i]) then ClauseSetting(i, limit) else old(ClauseFields(planClause.checkTid, planClause.nnLimit))
    {
      var subnode := plans[i];
      prepared := result;
      noIntersect := false;
      if subnode.kind == VA {
        if prepared.None? {
          prepared := Some({});
        }
        subnode.bissResult := prepared;
        subnode.adamScanClause := planClause;
        if subnode.adamScanClause != null {
          planClause.checkTid := true;
          if i != 0 {
            planClause.nnLimit := limit;
          } else {
            planClause.nnLimit := -1;
            planClause.checkTid := false;
          }
          noIntersect := true;
        }
      }
      ghost var s := plans[..];
      forall k | 0 <= k < |s| && k != i
        ensures s[k] != null && s[k].chgParam == snap[k].chgParam
        ensures if k < i + 1 && IsVA(s[k]) then
            s[k].bissResult == Prepared(s[k], (before + [result])[k]) && s[k].adamScanClause == planClause
          else
            s[k].bissResult == snap[k].bissResult && s[k].adamScanClause == snap[k].adamScanClause
      {
        assert s[k] != s[i];
        assert k < i ==> (before + [result])[k] == before[k];
      }
    }

    /** One iteration up to the merge: prepare the child in slot `i`, run it,
        and merge its bitmap into the accumulator. `failed` reports a child
        that yields no bitmap. */
    method RunChild(i: nat, result: Option<TidSet>, ghost before: seq<Option<TidSet>>,
                    ghost snap: seq<ChildFields>)
      returns (next: Option<TidSet>, failed: bool)
      requires Valid() && i < nplans && |before| == i
      requires ChildrenAfter(plans[..], before, planClause, snap)
      modifies plans[i], planClause, this`executed
      ensures failed <==> OutputOf(plans[i]).None?
      ensures !failed ==> next == Some(Merge(Prepared(plans[i], result), OutputOf(plans[i]).value,
                                             Substitutes(plans[i], planClause != null)))
      ensures executed == old(executed) + [i]
      ensures ChildrenAfter(plans[..], before + [result], planClause, snap)
      ensures planClause != null ==>
        ClauseFields(planClause.checkTid, planClause.nnLimit) ==
        if IsVA(plans[i]) then ClauseSetting(i, limit) else old(ClauseFields(planClause.checkTid, planClause.nnLimit))
    {
      var noIntersect;
      next, noIntersect := PrepareChild(i, result, before, snap);
      var subresult := ExecProcNode(i);
      failed := subresult.None?;
      if !failed {
        if next.None? || noIntersect {
          next := subresult;
        } else {
          next := Some(next.value * subresult.value);
        }
      }
    }

    /** Where the intersection loop over the children `s` stands after `n`
        iterations: the progress of the run, the slots executed since the
        trace read `e0`, the clause fields set from `init`, and the children's
        fields as prepared from the record `snap`. */
    ghost predicate Looping(s: seq<PlanState?>, init: ClauseFields, snap: seq<ChildFields>, e0: seq<nat>,
                            n: nat, result: Option<TidSet>, before: seq<Option<TidSet>>,
                            failed: bool, stop: bool)
      reads this, plans, planClause, s
    {
      n <= nplans && plans[..] == s &&
      Progress(s, planClause != null, n, result, before, failed, stop) &&
      executed == e0 + Upto(n) &&
      (planClause != null ==>
        ClauseFields(planClause.checkTid, planClause.nnLimit) == ClauseAfter(s, n, limit, init)) &&
      ChildrenAfter(s, before, planClause, snap)
    }

    /** Before the first iteration, nothing has been run or prepared. */
    lemma LoopingStart(s: seq<PlanState?>, init: ClauseFields, snap: seq<ChildFields>)
      requires Valid() && Ready() && plans[..] == s
      requires planClause != null ==> init == ClauseFields(planClause.checkTid, planClause.nnLimit)
      requires snap == FieldsOf(s)
      ensures Looping(s, init, snap, executed, 0, None, [], false, false)
    {
      ProgressStart(s, planClause != null);
      assert executed + Upto(0) == executed;
    }

    /** One iteration of the intersection loop at slot `i`. `stop` is set on
        an unrecognized result (an error) or an empty accumulator. */
    method Iterate(i: nat, result: Option<TidSet>, ghost s: seq<PlanState?>, ghost init: ClauseFields,
                   ghost snap: seq<ChildFields>, ghost before: seq<Option<TidSet>>, ghost e0: seq<nat>)
      returns (next: Option<TidSet>, failed: bool, stop: bool)
      requires Valid() && i < nplans
      requires Looping(s, init, snap, e0, i, result, before, false, false)
      modifies plans[i], planClause, this`executed
      ensures Looping(s, init, snap, e0, i + 1, next, before + [result], failed, stop)
    {
      next, failed := RunChild(i, result, before, snap);
      ProgressStep(s, planClause != null, i, result, before, next);
      assert Upto(i + 1) == Upto(i) + [i];
      AppendAssoc(e0, Upto(i), [i]);
      // elog(ERROR) on an unrecognized result; the loop also ends on an empty result
      stop := failed || next.value == {};
    }

    /** The intersection loop over the children `s` in their current order,
        until every child has been run or the loop stops early; `before`
        lists the accumulator at the start of each iteration. */
    method AndChildren(ghost s: seq<PlanState?>, ghost init: ClauseFields, ghost snap: seq<ChildFields>)
      returns (result: Option<TidSet>, failed: bool, stop: bool, ghost i: nat, ghost before: seq<Option<TidSet>>)
      requires Valid() && Ready() && plans[..] == s
      requires planClause != null ==> init == ClauseFields(planClause.checkTid, planClause.nnLimit)
      requires snap == FieldsOf(s)
      modifies this`executed, planClause, plans[..]
      ensures stop || i == nplans
      ensures Looping(s, init, snap, old(executed), i, result, before, failed, stop)
    {
      ghost var e0 := executed;
      before := [];
      result := None;
      failed := false;
      stop := false;
      LoopingStart(s, init, snap);
      var n := 0;
      while n < nplans && !stop
        invariant Looping(s, init, snap, e0, n, result, before, failed, stop)
      {
        ghost var acc := result;
        result, failed, stop := Iterate(n, result, s, init, snap, before, e0);
        before := before + [acc];
        n := n + 1;
      }
      i := n;
    }

    /** MultiExecBitmapAnd after the reordering pass: the intersection loop
        and the checks on its result. */
    method Intersect() returns (r: Outcome)
      requires Valid() && Ready()
      modifies this`executed, planClause, plans[..]
      ensures Valid() && Ready()
      ensures var run := RunAnd(plans[..], planClause != null);
        r == run.outcome && executed == old(executed) + Upto(|run.before|)
      ensures planClause != null ==>
        ClauseFields(planClause.checkTid, planClause.nnLimit) ==
        ClauseAfter(plans[..], |RunAnd(plans[..], true).before|, limit,
                    old(ClauseFields(planClause.checkTid, planClause.nnLimit)))
      ensures ChildrenAfter(plans[..], RunAnd(plans[..], planClause != null).before, planClause,
                            old(FieldsOf(plans[..])))
    {
      ghost var s := plans[..];
      ghost var init := if planClause != null then ClauseFields(planClause.checkTid, planClause.nnLimit)
                        else ClauseFields(false, 0);
      var result, failed, stop;
      ghost var i, before;
      result, failed, stop, i, before := AndChildren(s, init, FieldsOf(s));
      ProgressEnd(s, planClause != null, i, result, before, failed, stop);
      if failed {
        r := UnrecognizedResult;
      } else if result.None? {
        // elog(ERROR): BitmapAnd doesn't support zero inputs
        r := ZeroInputs;
      } else {
        r := Bitmap(result.value);
      }
    }

    /** MultiExecBitmapAnd: the reordering pass, then the intersection loop
        over the reordered children. */
    method MultiExec() returns (r: Outcome)
      requires Valid() && Ready()
      modifies plans, plans[..], planClause, this`executed
      ensures Valid() && Ready()
      ensures plans[..] == Reordered(old(plans[..]))
      ensures var run := RunAnd(plans[..], planClause != null);
        r == run.outcome && executed == old(executed) + Upto(|run.before|)
      ensures planClause != null ==>
        ClauseFields(planClause.checkTid, planClause.nnLimit) ==
        ClauseAfter(plans[..], |RunAnd(plans[..], true).before|, limit,
                    old(ClauseFields(planClause.checkTid, planClause.nnLimit)))
      ensures ChildrenAfter(plans[..], RunAnd(plans[..], planClause != null).before, planClause,
                            old(FieldsOf(Reordered(plans[..]))))
    {
      ghost var s0 := plans[..];
      ghost var f := FieldsOf(Reordered(s0));
      Reorder();
      ReorderedPermutes(s0);
      forall k | 0 <= k < plans.Length ensures plans[k] in s0 {
        assert plans[k] in multiset(plans[..]);
      }
      assert FieldsOf(plans[..]) == f;
      r := Intersect();
    }

    /** ExecEndBitmapAnd: every initialized child is shut down, in slot
        order; null slots are skipped. */
    method End()
      requires plans.Length == nplans
      modifies this`ended
      ensures ended == old(ended) + Where(plans[..], nplans, Initialized)
    {
      var i := 0;
      while i < nplans
        invariant 0 <= i <= nplans
        invariant ended == old(ended) + Where(plans[..], i, Initialized)
      {
        if plans[i] != null {
          ExecEndNode(i);
        }
        i := i + 1;
      }
    }

    /** One iteration of the rescan: the node's changed parameters, if any,
        are merged into the child's set, and a child whose set is then
        empty is rescanned. */
    method ReScanChild(i: nat, update: (PlanState, set<int>, set<int>) -> set<int>)
      requires i < plans.Length && plans[i] != null
      modifies plans[i], this`rescanned
      ensures plans[i].chgParam ==
        if chgParam != {} then update(plans[i], old(plans[i].chgParam), chgParam) else old(plans[i].chgParam)
      ensures rescanned == old(rescanned) + if plans[i].chgParam == {} then [i] else []
      ensures plans[i].bissResult == old(plans[i].bissResult)
      ensures plans[i].adamScanClause == old(plans[i].adamScanClause)
    {
      var subnode := plans[i];
      if chgParam != {} {
        subnode.chgParam := update(subnode, subnode.chgParam, chgParam);
      }
      if subnode.chgParam == {} {
        ExecReScan(i);
      }
    }

    /** The loop of ExecReScanBitmapAnd over the children `s` in slot order,
        whose sets go from `pre` to `post`. */
    method ReScanLoop(update: (PlanState, set<int>, set<int>) -> set<int>, ghost s: seq<PlanState?>,
                      ghost pre: seq<set<int>>, ghost post: seq<set<int>>, ghost snap: seq<ChildFields>)
      requires Valid() && plans[..] == s && |pre| == |s| && |snap| == |s|
      requires post == Propagated(s, pre, chgParam, update)
      requires forall k :: 0 <= k < nplans ==>
        s[k] != null && s[k].chgParam == pre[k] &&
        s[k].bissResult == snap[k].bissResult && s[k].adamScanClause == snap[k].adamScanClause
      modifies plans[..], this`rescanned
      ensures forall k :: 0 <= k < nplans ==>
        s[k] != null && s[k].chgParam == post[k] &&
        s[k].bissResult == snap[k].bissResult && s[k].adamScanClause == snap[k].adamScanClause
      ensures rescanned == old(rescanned) + Where(post, nplans, NoChangedParams)
    {
      ghost var r0 := rescanned;
      var i := 0;
      while i < nplans
        invariant 0 <= i <= nplans
        invariant forall k :: 0 <= k < nplans ==>
          s[k] != null && s[k].chgParam == (if k < i then post[k] else pre[k]) &&
          s[k].bissResult == snap[k].bissResult && s[k].adamScanClause == snap[k].adamScanClause
        invariant rescanned == r0 + Where(post, i, NoChangedParams)
      {
        ReScanChild(i, update);
        forall k | 0 <= k < nplans && k != i ensures s[k] != s[i] {
        }
        i := i + 1;
      }
    }

    /** ExecReScanBitmapAnd: the node's changed parameters are pushed into
        each child, and a child whose own set is then still empty is
        rescanned at once (the others are rescanned when next executed). */
    method ReScan(update: (PlanState, set<int>, set<int>) -> set<int>)
      requires Valid() && Ready()
      modifies plans[..], this`rescanned
      ensures Valid() && Ready()
      ensures Params(plans[..]) == Propagated(plans[..], old(Params(plans[..])), chgParam, update)
      ensures rescanned == old(rescanned) + Where(Params(plans[..]), nplans, NoChangedParams)
      ensures forall k :: 0 <= k < nplans ==>
        var p := plans[k];
        p != null && p.bissResult == old(p.bissResult) && p.adamScanClause == old(p.adamScanClause)
    {
      ghost var s := plans[..];
      ghost var pre := Params(s);
      ghost var post := Propagated(s, pre, chgParam, update);
      ReScanLoop(update, s, pre, post, FieldsOf(s));
      assert Params(plans[..]) == post;
    }
  }
}
