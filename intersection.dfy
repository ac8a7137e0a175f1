/** The intersection loop of MultiExecBitmapAnd, stated on values: the
    children (already reordered) are run in slot order while an accumulator
    is kept, and the loop falls out as soon as the accumulator is empty. */
module Intersection {
  import opened PlanStates

  /** What MultiExecBitmapAnd returns: the result bitmap, or one of its two
      `elog(ERROR)` exits. */
  datatype Outcome = Bitmap(tids: TidSet) | UnrecognizedResult | ZeroInputs

  /** `before[k]` is the accumulator (null as None) at the start of the
      iteration for slot k; its length is the number of children executed. */
  datatype Run = Run(outcome: Outcome, before: seq<Option<TidSet>>)

  /** The clause fields the loop writes. */
  datatype ClauseFields = ClauseFields(checkTid: bool, nnLimit: int)

  /** The accumulator once a VA child is about to run: a VA child with no
      accumulator yet gets a freshly created, empty bitmap. */
  function Prepared(p: PlanState?, acc: Option<TidSet>): (r: Option<TidSet>)
    ensures acc.Some? || !IsVA(p) ==> r == acc
    ensures IsVA(p) ==> r.Some?
    ensures IsVA(p) && acc.None? ==> r == Some({})
  {
    if IsVA(p) && acc.None? then Some({}) else acc
  }

  /** Substitution ("no intersect") mode: a VA child with a clause attached. */
  predicate Substitutes(p: PlanState?, withClause: bool) {
    IsVA(p) && withClause
  }

  /** The accumulator after a child's bitmap `out` is merged into `acc`. */
  function Merge(acc: Option<TidSet>, out: TidSet, substitute: bool): (r: TidSet)
    ensures r <= out
    ensures acc.None? || substitute ==> r == out
    ensures acc.Some? && !substitute ==> r <= acc.value && forall t :: t in acc.value && t in out ==> t in r
  {
    if acc.None? || substitute then out else acc.value * out
  }

  /** The loop from slot `i` on, entered with accumulator `acc`. */
  function RunFrom(s: seq<PlanState?>, withClause: bool, i: nat, acc: Option<TidSet>): (r: Run)
    requires i <= |s|
    ensures |r.before| <= |s| - i
    ensures i < |s| ==> |r.before| >= 1 && r.before[0] == acc
    decreases |s| - i
  {
    if i == |s| then
      Run(if acc.Some? then Bitmap(acc.value) else ZeroInputs, [])
    else
      match OutputOf(s[i])
      case None => Run(UnrecognizedResult, [acc])
      case Some(out) =>
        var next := Merge(Prepared(s[i], acc), out, Substitutes(s[i], withClause));
        if next == {} then Run(Bitmap({}), [acc])
        else
          var rest := RunFrom(s, withClause, i + 1, Some(next));
          Run(rest.outcome, [acc] + rest.before)
  }

  /** How one iteration hands the run on: an error or an empty accumulator
      ends it, otherwise the rest of the run starts at the next slot. */
  lemma RunFromNext(s: seq<PlanState?>, wc: bool, i: nat, acc: Option<TidSet>)
    requires i < |s|
    ensures OutputOf(s[i]).None? ==> RunFrom(s, wc, i, acc) == Run(UnrecognizedResult, [acc])
    ensures OutputOf(s[i]).Some? ==>
      var next := Merge(Prepared(s[i], acc), OutputOf(s[i]).value, Substitutes(s[i], wc));
      var rest := RunFrom(s, wc, i + 1, Some(next));
      RunFrom(s, wc, i, acc) ==
        if next == {} then Run(Bitmap({}), [acc]) else Run(rest.outcome, [acc] + rest.before)
  {
  }

  /** The whole loop; `withClause` says whether the plan carries an ADAM clause. */
  function RunAnd(s: seq<PlanState?>, withClause: bool): (r: Run)
    ensures |r.before| <= |s|
    ensures |s| > 0 ==> |r.before| >= 1 && r.before[0] == None
  {
    RunFrom(s, withClause, 0, None)
  }

  /** Where a loop that has reached slot `i` stands against the whole run:
      `before` lists the accumulators seen so far; a loop still going has the
      rest of the run ahead of it, one that stopped has already produced the
      run's outcome. */
  ghost predicate Progress(s: seq<PlanState?>, wc: bool, i: nat, acc: Option<TidSet>,
                           before: seq<Option<TidSet>>, failed: bool, stop: bool)
  {
    i <= |s| && |before| == i &&
    (!stop ==> (!failed &&
      RunAnd(s, wc) == Run(RunFrom(s, wc, i, acc).outcome, before + RunFrom(s, wc, i, acc).before))) &&
    (stop ==> ((failed || acc == Some({})) &&
      RunAnd(s, wc) == Run(if failed then UnrecognizedResult else Bitmap({}), before)))
  }

  lemma ProgressStart(s: seq<PlanState?>, wc: bool)
    ensures Progress(s, wc, 0, None, [], false, false)
  {
  }

  /** One iteration: the child at slot `i` yields `out`, and a bitmap is
      merged into the accumulator; the loop stops on a missing bitmap or an
      empty accumulator. */
  lemma ProgressStep(s: seq<PlanState?>, wc: bool, i: nat, acc: Option<TidSet>,
                     before: seq<Option<TidSet>>, next: Option<TidSet>)
    requires i < |s| && Progress(s, wc, i, acc, before, false, false)
    requires OutputOf(s[i]).Some? ==>
      next == Some(Merge(Prepared(s[i], acc), OutputOf(s[i]).value, Substitutes(s[i], wc)))
    ensures var failed := OutputOf(s[i]).None?;
      Progress(s, wc, i + 1, next, before + [acc], failed, failed || next.value == {})
  {
    RunFromNext(s, wc, i, acc);
    if OutputOf(s[i]).Some? && next.value != {} {
      AppendAssoc(before, [acc], RunFrom(s, wc, i + 1, next).before);
    }
  }

  /** Once the loop is over, it has seen the run's accumulators and produced
      its outcome. */
  lemma ProgressEnd(s: seq<PlanState?>, wc: bool, i: nat, acc: Option<TidSet>,
                    before: seq<Option<TidSet>>, failed: bool, stop: bool)
    requires Progress(s, wc, i, acc, before, failed, stop) && (stop || i == |s|)
    ensures RunAnd(s, wc).before == before
    ensures RunAnd(s, wc).outcome ==
      if failed then UnrecognizedResult else if acc.None? then ZeroInputs else Bitmap(acc.value)
  {
  }

  lemma AppendAssoc<T>(a: seq<T>, b: seq<T>, c: seq<T>)
    ensures a + (b + c) == (a + b) + c
  {
  }

  /** The clause fields set for a VA child at slot `i`. */
  function ClauseSetting(i: nat, limit: int): ClauseFields {
    if i != 0 then ClauseFields(true, limit) else ClauseFields(false, -1)
  }

  /** The clause fields once the first `m` children have been prepared,
      starting from `init`. */
  function ClauseAfter(s: seq<PlanState?>, m: nat, limit: int, init: ClauseFields): ClauseFields
    requires m <= |s|
  {
    if m == 0 then init
    else if IsVA(s[m - 1]) then ClauseSetting(m - 1, limit)
    else ClauseAfter(s, m - 1, limit, init)
  }

  /** The bitmap of slot k (empty when the slot yields none). */
  function Out(s: seq<PlanState?>, k: nat): TidSet
    requires k < |s|
  {
    match OutputOf(s[k])
    case Some(t) => t
    case None => {}
  }

  /** The TIDs present in the outputs of the first `m` slots, `m >= 1`. */
  function Common(s: seq<PlanState?>, m: nat): TidSet
    requires 1 <= m <= |s|
  {
    set t | t in Out(s, 0) && forall k :: 0 <= k < m ==> t in Out(s, k)
  }

  // ---------------------------------------------------------------------
  // Shape of a run: how many children it executes and when it stops.

  lemma {:induction false} RunFromShape(s: seq<PlanState?>, wc: bool, i: nat, acc: Option<TidSet>)
    requires i <= |s|
    ensures var r := RunFrom(s, wc, i, acc);
      |r.before| <= |s| - i &&
      (i < |s| ==> |r.before| >= 1 && r.before[0] == acc) &&
      (forall k :: 1 <= k < |r.before| ==> r.before[k].Some? && r.before[k].value != {}) &&
      (r.outcome == UnrecognizedResult <==>
        |r.before| >= 1 && OutputOf(s[i + |r.before| - 1]).None?) &&
      (r.outcome == ZeroInputs <==> i == |s| && acc.None?) &&
      (r.outcome.Bitmap? && |r.before| < |s| - i ==> r.outcome.tids == {})
    decreases |s| - i
  {
    if i < |s| && OutputOf(s[i]).Some? {
      var next := Merge(Prepared(s[i], acc), OutputOf(s[i]).value, Substitutes(s[i], wc));
      if next != {} {
        RunFromShape(s, wc, i + 1, Some(next));
      }
    }
  }

  /** The short-circuit and the error exits: every accumulator seen after
      the first child is non-empty (so the loop stops right after the first
      child that leaves it empty), and a run that stops before the last child
      without an error returns the empty set. */
  lemma RunAndShape(s: seq<PlanState?>, wc: bool)
    ensures var r := RunAnd(s, wc);
      |r.before| <= |s| &&
      (|s| > 0 ==> |r.before| >= 1 && r.before[0] == None) &&
      (forall k :: 1 <= k < |r.before| ==> r.before[k].Some? && r.before[k].value != {}) &&
      (r.outcome.Bitmap? && |r.before| < |s| ==> r.outcome.tids == {})
  {
    RunFromShape(s, wc, 0, None);
  }

  /** "zero inputs" is raised exactly when there are no children; "unrecognized
      result" exactly when the last child executed yields no bitmap; with at
      least one child and no such child, the result is a bitmap. */
  lemma RunAndErrors(s: seq<PlanState?>, wc: bool)
    ensures RunAnd(s, wc).outcome == ZeroInputs <==> |s| == 0
    ensures var r := RunAnd(s, wc);
      r.outcome == UnrecognizedResult <==>
        |r.before| >= 1 && OutputOf(s[|r.before| - 1]).None?
    ensures |s| >= 1 && (forall k :: 0 <= k < |s| ==> OutputOf(s[k]).Some?) ==>
      RunAnd(s, wc).outcome.Bitmap?
  {
    RunFromShape(s, wc, 0, None);
  }

  // ---------------------------------------------------------------------
  // Plain children: the result is the intersection.

  lemma {:induction false} RunFromPlain(s: seq<PlanState?>, wc: bool, i: nat)
    requires 1 <= i <= |s|
    requires forall k :: 0 <= k < |s| ==> !IsVA(s[k]) && OutputOf(s[k]).Some?
    requires Common(s, i) != {}
    ensures var r := RunFrom(s, wc, i, Some(Common(s, i)));
      r.outcome == Bitmap(Common(s, |s|)) &&
      (forall k :: 0 <= k < |r.before| ==> r.before[k] == Some(Common(s, i + k))) &&
      (|r.before| == |s| - i || Common(s, i + |r.before|) == {})
    decreases |s| - i
  {
    if i < |s| {
      var next := Common(s, i) * Out(s, i);
      assert next == Common(s, i + 1);
      if next == {} {
        CommonShrinks(s, i + 1, |s|);
      } else {
        RunFromPlain(s, wc, i + 1);
      }
    }
  }

  lemma CommonShrinks(s: seq<PlanState?>, m: nat, n: nat)
    requires 1 <= m <= n <= |s|
    ensures Common(s, n) <= Common(s, m)
  {
  }

  /** With no VA child and every child yielding a bitmap, the result is the
      intersection of all outputs, the first output being adopted as the
      accumulator; every child is executed unless some prefix of them has an
      empty intersection, and the loop stops at the first such prefix. */
  lemma RunAndPlainIntersection(s: seq<PlanState?>, wc: bool)
    requires |s| >= 1
    requires forall k :: 0 <= k < |s| ==> !IsVA(s[k]) && OutputOf(s[k]).Some?
    ensures var r := RunAnd(s, wc);
      r.outcome == Bitmap(Common(s, |s|)) &&
      1 <= |r.before| &&
      (forall k :: 1 <= k < |r.before| ==> r.before[k] == Some(Common(s, k))) &&
      (|r.before| == |s| || Common(s, |r.before|) == {})
  {
    var first := Out(s, 0);
    assert Common(s, 1) == first;
    if first == {} {
      CommonShrinks(s, 1, |s|);
    } else {
      RunFromPlain(s, wc, 1);
    }
  }

  // ---------------------------------------------------------------------
  // VA children.

  lemma {:induction false} RunFromSubstitutesLast(s: seq<PlanState?>, i: nat, acc: Option<TidSet>)
    requires i < |s| && IsVA(s[|s| - 1]) && OutputOf(s[|s| - 1]).Some?
    requires |RunFrom(s, true, i, acc).before| == |s| - i
    ensures RunFrom(s, true, i, acc).outcome == Bitmap(OutputOf(s[|s| - 1]).value)
    decreases |s| - i
  {
    if i < |s| - 1 {
      var next := Merge(Prepared(s[i], acc), OutputOf(s[i]).value, Substitutes(s[i], true));
      RunFromSubstitutesLast(s, i + 1, Some(next));
    }
  }

  /** Substitution: when a VA child with a clause yields a bitmap, the
      accumulator after it is that bitmap, not an intersection. Here it is
      the child in the last slot, where reordering puts it: the result is the
      child's own output. */
  lemma RunAndSubstitutesLast(s: seq<PlanState?>)
    requires |s| >= 1 && IsVA(s[|s| - 1]) && OutputOf(s[|s| - 1]).Some?
    requires |RunAnd(s, true).before| == |s|
    ensures RunAnd(s, true).outcome == Bitmap(OutputOf(s[|s| - 1]).value)
  {
    RunFromSubstitutesLast(s, 0, None);
  }

  /** A VA child with no clause that runs first is intersected with the
      freshly created empty bitmap: the result is empty and no other child
      runs. */
  lemma RunAndFirstVAWithoutClause(s: seq<PlanState?>)
    requires |s| >= 1 && IsVA(s[0]) && OutputOf(s[0]).Some?
    ensures RunAnd(s, false) == Run(Bitmap({}), [None])
  {
  }

  /** A VA child alone with its clause: the result is its own output. */
  lemma RunAndSoleVA(s: seq<PlanState?>)
    requires |s| == 1 && IsVA(s[0]) && OutputOf(s[0]).Some?
    ensures RunAnd(s, true) == Run(Bitmap(OutputOf(s[0]).value), [None])
  {
    var out := OutputOf(s[0]).value;
    assert Merge(Prepared(s[0], None), out, Substitutes(s[0], true)) == out;
    if out != {} {
      assert RunFrom(s, true, 1, Some(out)) == Run(Bitmap(out), []);
    }
  }

  // ---------------------------------------------------------------------
  // Clause settings.

  /** The clause fields are those set for the last VA child prepared, by its
      slot: `check_tid` and the node's limit past slot 0, no TID check and
      no limit (-1) at slot 0; with no VA child prepared they are untouched. */
  lemma {:induction false} ClauseAfterLastVA(s: seq<PlanState?>, m: nat, limit: int, init: ClauseFields)
    requires m <= |s|
    ensures (forall k :: 0 <= k < m ==> !IsVA(s[k])) ==> ClauseAfter(s, m, limit, init) == init
    ensures forall j :: 0 <= j < m && IsVA(s[j]) && (forall k :: j < k < m ==> !IsVA(s[k])) ==>
      ClauseAfter(s, m, limit, init) == ClauseSetting(j, limit)
  {
    if m > 0 {
      ClauseAfterLastVA(s, m - 1, limit, init);
    }
  }

  /** A VA child in the last slot past slot 0 that is reached is told to
      check TIDs and fetch `limit` neighbours; a sole VA child is told to
      fetch all of them (-1) without a TID check. */
  lemma ClauseOfLastVA(s: seq<PlanState?>, limit: int, init: ClauseFields)
    requires |s| >= 1 && IsVA(s[|s| - 1])
    ensures |s| >= 2 ==> ClauseAfter(s, |s|, limit, init) == ClauseFields(true, limit)
    ensures |s| == 1 ==> ClauseAfter(s, |s|, limit, init) == ClauseFields(false, -1)
  {
  }
}
