/** The reordering pass at the start of MultiExecBitmapAnd: every VA child
    found in a slot other than the last is swapped with the last slot. */
module Reordering {
  import opened PlanStates

  /** The slots with entries `i` and `j` exchanged. */
  function Swap<T>(s: seq<T>, i: nat, j: nat): seq<T>
    requires i < |s| && j < |s|
  {
    s[i := s[j]][j := s[i]]
  }

  /** The pass from slot `i` on; the array it reads is the one earlier
      iterations have already rearranged. */
  function ReorderFrom(s: seq<PlanState?>, i: nat): (r: seq<PlanState?>)
    requires i <= |s|
    ensures |r| == |s| && r[..i] == s[..i]
    decreases |s| - i
  {
    if i == |s| then s
    else if IsVA(s[i]) && i != |s| - 1 then ReorderFrom(Swap(s, i, |s| - 1), i + 1)
    else ReorderFrom(s, i + 1)
  }

  /** The whole pass. */
  function Reordered(s: seq<PlanState?>): (r: seq<PlanState?>)
    ensures |r| == |s|
  {
    ReorderFrom(s, 0)
  }

  lemma SwapPermutes<T>(s: seq<T>, i: nat, j: nat)
    requires i < |s| && j < |s|
    ensures multiset(Swap(s, i, j)) == multiset(s)
  {
    var t := s[i := s[j]];
    assert multiset(t) == multiset(s) - multiset{s[i]} + multiset{s[j]};
    assert t[j] == s[j] || i == j;
    assert multiset(t[j := s[i]]) == multiset(t) - multiset{t[j]} + multiset{s[i]};
  }

  lemma {:induction false} ReorderFromPermutes(s: seq<PlanState?>, i: nat)
    requires i <= |s|
    ensures |ReorderFrom(s, i)| == |s|
    ensures multiset(ReorderFrom(s, i)) == multiset(s)
    decreases |s| - i
  {
    if i < |s| {
      if IsVA(s[i]) && i != |s| - 1 {
        SwapPermutes(s, i, |s| - 1);
        ReorderFromPermutes(Swap(s, i, |s| - 1), i + 1);
      } else {
        ReorderFromPermutes(s, i + 1);
      }
    }
  }

  /** The pass only exchanges slots, so it yields a permutation. */
  lemma ReorderedPermutes(s: seq<PlanState?>)
    ensures |Reordered(s)| == |s|
    ensures multiset(Reordered(s)) == multiset(s)
  {
    ReorderFromPermutes(s, 0);
  }

  /** Without a VA child from slot `i` up to the second-to-last slot, the
      rest of the pass changes nothing. */
  lemma {:induction false} ReorderFromNoVA(s: seq<PlanState?>, i: nat)
    requires i <= |s|
    requires forall k :: i <= k < |s| - 1 ==> !IsVA(s[k])
    ensures ReorderFrom(s, i) == s
    decreases |s| - i
  {
    if i < |s| {
      ReorderFromNoVA(s, i + 1);
    }
  }

  /** An array without VA children is left as it is. */
  lemma ReorderedNoVA(s: seq<PlanState?>)
    requires forall k :: 0 <= k < |s| ==> !IsVA(s[k])
    ensures Reordered(s) == s
  {
    ReorderFromNoVA(s, 0);
  }

  lemma {:induction false} ReorderFromLastIsVA(s: seq<PlanState?>, i: nat)
    requires i <= |s| && |s| > 0
    requires (exists k :: i <= k < |s| && IsVA(s[k])) || IsVA(s[|s| - 1])
    ensures |ReorderFrom(s, i)| == |s| && IsVA(ReorderFrom(s, i)[|s| - 1])
    decreases |s| - i
  {
    ReorderFromPermutes(s, i);
    if i < |s| {
      if IsVA(s[i]) && i != |s| - 1 {
        ReorderFromLastIsVA(Swap(s, i, |s| - 1), i + 1);
      } else {
        ReorderFromLastIsVA(s, i + 1);
      }
    }
  }

  /** If any child is a VA scan, a VA scan ends up in the last slot. */
  lemma ReorderedLastIsVA(s: seq<PlanState?>, k: nat)
    requires k < |s| && IsVA(s[k])
    ensures |Reordered(s)| == |s| && IsVA(Reordered(s)[|s| - 1])
  {
    ReorderFromPermutes(s, 0);
    ReorderFromLastIsVA(s, 0);
  }

  /** Slots before `p` hold no VA child: the pass passes them by. */
  lemma {:induction false} ReorderFromSkips(s: seq<PlanState?>, i: nat, p: nat)
    requires i <= p <= |s|
    requires forall k :: i <= k < p ==> !IsVA(s[k]) || k == |s| - 1
    ensures ReorderFrom(s, i) == ReorderFrom(s, p)
    decreases p - i
  {
    if i < p {
      ReorderFromSkips(s, i + 1, p);
    }
  }

  /** With exactly one VA child, at slot `p`: if it is not last, only slots
      `p` and the last one are exchanged; if it is last, nothing changes. */
  lemma ReorderedSingleVA(s: seq<PlanState?>, p: nat)
    requires p < |s| && IsVA(s[p])
    requires forall k :: 0 <= k < |s| && k != p ==> !IsVA(s[k])
    ensures p < |s| - 1 ==> Reordered(s) == Swap(s, p, |s| - 1)
    ensures p == |s| - 1 ==> Reordered(s) == s
  {
    ReorderFromSkips(s, 0, p);
    if p < |s| - 1 {
      ReorderFromNoVA(Swap(s, p, |s| - 1), p + 1);
    } else {
      ReorderFromNoVA(s, p);
    }
  }

  /** With at most one VA child the pass is idempotent: running it again on
      the next execution leaves the order alone. */
  lemma ReorderedIdempotent(s: seq<PlanState?>)
    requires forall a, b :: 0 <= a < b < |s| && IsVA(s[a]) ==> !IsVA(s[b])
    ensures Reordered(Reordered(s)) == Reordered(s)
  {
    if p :| 0 <= p < |s| && IsVA(s[p]) {
      ReorderedSingleVA(s, p);
      var r := Reordered(s);
      if p < |s| - 1 {
        ReorderedSingleVA(r, |s| - 1);
      } else {
        ReorderedSingleVA(r, p);
      }
    } else {
      ReorderedNoVA(s);
      ReorderedNoVA(s);
    }
  }
}
