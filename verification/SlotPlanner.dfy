/** `plan_dynamic_share`: how request slots are spread over independent runs, and why
    no other spread has a smaller largest share. */
module SlotPlanner {
  import opened Arith
  import opened PieceMaps
  import opened Planner

  lemma {:induction false} SumGrows(xs: seq<nat>, ys: seq<nat>, j: nat)
    requires |xs| == |ys| && j < |xs| && xs[j] < ys[j]
    requires forall i :: 0 <= i < |xs| ==> xs[i] <= ys[i]
    ensures Sum(xs) < Sum(ys)
  {
    if j > 0 {
      SumGrows(xs[1..], ys[1..], j - 1);
    } else {
      SumMono(xs[1..], ys[1..]);
    }
  }

  lemma {:induction false} SumMono(xs: seq<nat>, ys: seq<nat>)
    requires |xs| == |ys|
    requires forall i :: 0 <= i < |xs| ==> xs[i] <= ys[i]
    ensures Sum(xs) <= Sum(ys)
  {
    if xs != [] {
      SumMono(xs[1..], ys[1..]);
    }
  }

  lemma {:induction false} SumIncrement(xs: seq<nat>, j: nat)
    requires j < |xs|
    ensures Sum(xs[j := xs[j] + 1]) == Sum(xs) + 1
  {
    if j == 0 {
      assert xs[0 := xs[0] + 1][1..] == xs[1..];
    } else {
      assert xs[j := xs[j] + 1][1..] == xs[1..][j - 1 := xs[j] + 1];
      SumIncrement(xs[1..], j - 1);
    }
  }

  lemma {:induction false} SumOnes(n: nat)
    ensures Sum(Ones(n)) == n
  {
    if n > 0 {
      assert Ones(n)[1..] == Ones(n - 1);
      SumOnes(n - 1);
    }
  }

  /** Taking back any extra slot would leave a share at least as large as the share of
      every candidate that could still use one. */
  ghost predicate Greedy(lens: seq<nat>, caps: seq<nat>, slots: seq<nat>)
    requires |lens| == |caps| == |slots|
    requires forall i :: 0 <= i < |slots| ==> slots[i] > 0
  {
    forall k, j :: 0 <= k < |slots| && 0 <= j < |slots| && slots[k] >= 2 && slots[j] < caps[j] ==>
      Share(lens[k], slots[k] - 1) >= Share(lens[j], slots[j])
  }

  /** Giving the next slot to the largest open share keeps the greedy property. */
  lemma GreedyStep(lens: seq<nat>, caps: seq<nat>, slots: seq<nat>, m: nat)
    requires |lens| == |caps| == |slots| && m < |slots| && slots[m] < caps[m]
    requires forall i :: 0 <= i < |slots| ==> slots[i] > 0
    requires Greedy(lens, caps, slots)
    requires forall j :: 0 <= j < |slots| && slots[j] < caps[j] ==> Share(lens[j], slots[j]) <= Share(lens[m], slots[m])
    ensures Greedy(lens, caps, slots[m := slots[m] + 1])
  {
    hide Share;
    ShareShrinks(lens[m], slots[m], slots[m] + 1);
  }

  /** The share left by the greedy allocation for `j` is reached by every allocation. */
  lemma GreedyOptimal(lens: seq<nat>, caps: seq<nat>, slots: seq<nat>, budget: nat, other: seq<nat>, j: nat)
    returns (i: nat)
    requires |lens| == |caps| && Allocation(caps, slots, budget) && Allocation(caps, other, budget)
    requires Greedy(lens, caps, slots)
    requires Sum(slots) == budget || forall k :: 0 <= k < |slots| ==> slots[k] == caps[k]
    requires j < |slots|
    ensures i < |slots| && Share(lens[i], other[i]) >= Share(lens[j], slots[j])
  {
    hide Share;
    if other[j] <= slots[j] {
      ShareShrinks(lens[j], other[j], slots[j]);
      return j;
    }
    if forall k :: 0 <= k < |slots| ==> slots[k] <= other[k] {
      SumGrows(slots, other, j);
      assert false;
    }
    i :| 0 <= i < |slots| && other[i] < slots[i];
    ShareShrinks(lens[i], other[i], slots[i] - 1);
  }

  // ----- choosing a candidate

  lemma NotGreaterByShare(a: Candidate, m: nat, b: Candidate, n: nat)
    requires m > 0 && n > 0
    ensures NotGreater(a, m, b, n) <==>
            || Share(Length(a), m) < Share(Length(b), n)
            || (Share(Length(a), m) == Share(Length(b), n) && b.start <= a.start)
  {
    hide Share;
    CrossMultiplyExact(Length(a), m, Length(b), n);
    CrossMultiplyExact(Length(b), n, Length(a), m);
  }

  /** `max_by` over the eligible candidates: the largest share, ties to the lowest start. */
  method PickLargest(cands: seq<Candidate>, slots: seq<nat>, eligible: seq<bool>) returns (best: Option<nat>)
    requires |cands| == |slots| == |eligible|
    requires forall i :: 0 <= i < |slots| ==> slots[i] > 0
    ensures best.None? ==> forall j :: 0 <= j < |cands| ==> !eligible[j]
    ensures best.Some? ==> LargestAmong(cands, slots, eligible, |cands|, best.value)
  {
    hide Share;
    best := None;
    for i := 0 to |cands|
      invariant best.None? ==> forall j :: 0 <= j < i ==> !eligible[j]
      invariant best.Some? ==> LargestAmong(cands, slots, eligible, i, best.value)
    {
      if eligible[i] {
        if best.Some? {
          NotGreaterByShare(cands[best.value], slots[best.value], cands[i], slots[i]);
        }
        if best.None? || NotGreater(cands[best.value], slots[best.value], cands[i], slots[i]) {
          best := Some(i);
        }
      }
    }
  }

  /** The greedy slot loop. */
  method AllocateSlots(g: Geometry, cands: seq<Candidate>, requested: nat, minSplit: nat) returns (slots: seq<nat>)
    requires 0 < |cands| < requested
    requires forall i :: 0 <= i < |cands| ==> cands[i].firstPiece < cands[i].endPiece
    ensures Allocation(Caps(g, cands, minSplit), slots, requested)
    ensures Greedy(Lengths(cands), Caps(g, cands, minSplit), slots)
    ensures Sum(slots) == requested || slots == Caps(g, cands, minSplit)
  {
    hide Share, LegalSplitBounds, MaxDynamicSlots;
    var lens, caps := Lengths(cands), Caps(g, cands, minSplit);
    slots := Ones(|cands|);
    var extra := requested - |cands|;
    SumOnes(|cands|);
    while extra != 0
      invariant |slots| == |cands| && Allocation(caps, slots, requested)
      invariant Greedy(lens, caps, slots)
      invariant Sum(slots) + extra == requested
    {
      var eligible := seq(|cands|, i requires 0 <= i < |cands| =>
                          slots[i] < MaxDynamicSlots(g, cands[i], minSplit));
      var index := PickLargest(cands, slots, eligible);
      if index.None? {
        forall j | 0 <= j < |cands| ensures slots[j] == caps[j] {
          assert !eligible[j];
        }
        break;
      }
      var m := index.value;
      forall j | 0 <= j < |slots| && slots[j] < caps[j] ensures Share(lens[j], slots[j]) <= Share(lens[m], slots[m]) {
        assert eligible[j];
      }
      GreedyStep(lens, caps, slots, m);
      SumIncrement(slots, m);
      slots := slots[m := slots[m] + 1];
      extra := extra - 1;
    }
  }

  /** With fewer runs than slots, the spread is min-max optimal among all spreads within
      the caps and the budget; otherwise every run has one nominal slot. */
  method SpreadSlots(g: Geometry, cands: seq<Candidate>, requested: nat, minSplit: nat) returns (slots: seq<nat>)
    requires 0 < |cands| && 0 < requested
    requires forall i :: 0 <= i < |cands| ==> cands[i].firstPiece < cands[i].endPiece
    ensures |slots| == |cands| && forall i :: 0 <= i < |slots| ==> slots[i] > 0
    ensures |cands| >= requested ==> slots == Ones(|cands|) && Sum(slots) >= requested
    ensures |cands| < requested ==> Sum(slots) <= requested
    ensures |cands| < requested ==>
              && Allocation(Caps(g, cands, minSplit), slots, requested)
              && (Sum(slots) == requested || slots == Caps(g, cands, minSplit))
              && forall other :: Allocation(Caps(g, cands, minSplit), other, requested) ==>
                   NoWorseThan(Lengths(cands), slots, other)
  {
    hide Share, LegalSplitBounds, MaxDynamicSlots, Sum, Greedy;
    if |cands| >= requested {
      SumOnes(|cands|);
      return Ones(|cands|);
    }
    slots := AllocateSlots(g, cands, requested, minSplit);
    AllocationIsOptimal(g, cands, requested, minSplit, slots);
  }

  method PlanDynamicShare(g: Geometry, cands: seq<Candidate>, requested: nat, minSplit: nat)
    returns (plan: Option<DynamicPlan>, slots: seq<nat>, chosen: nat)
    requires forall i :: 0 <= i < |cands| ==> cands[i].firstPiece < cands[i].endPiece
    ensures plan.None? <==> requested == 0 || cands == []
    ensures plan.Some? ==>
              && PlanOk(g, cands, requested, minSplit, slots, chosen)
              && plan.value == DynamicPlan(cands[chosen], slots[chosen], Min(requested, Sum(slots)))
  {
    hide Share, LegalSplitBounds, MaxDynamicSlots, Sum, Allocation, NoWorseThan, Caps, Lengths;
    slots, chosen := [], 0;
    if requested == 0 || cands == [] {
      return None, slots, chosen;
    }
    slots := SpreadSlots(g, cands, requested, minSplit);
    var largest := PickLargest(cands, slots, Everyone(|cands|));
    assert Everyone(|cands|)[0];
    chosen := largest.value;
    plan := Some(DynamicPlan(cands[chosen], slots[chosen], if |cands| >= requested then requested else Sum(slots)));
  }

  lemma AllocationIsOptimal(g: Geometry, cands: seq<Candidate>, requested: nat, minSplit: nat, slots: seq<nat>)
    requires forall i :: 0 <= i < |cands| ==> cands[i].firstPiece < cands[i].endPiece
    requires Allocation(Caps(g, cands, minSplit), slots, requested)
    requires Greedy(Lengths(cands), Caps(g, cands, minSplit), slots)
    requires Sum(slots) == requested || slots == Caps(g, cands, minSplit)
    ensures forall other :: Allocation(Caps(g, cands, minSplit), other, requested) ==>
              NoWorseThan(Lengths(cands), slots, other)
  {
    hide Share, LegalSplitBounds, MaxDynamicSlots;
    var lens, caps := Lengths(cands), Caps(g, cands, minSplit);
    forall other, j | Allocation(caps, other, requested) && 0 <= j < |slots|
      ensures exists i :: 0 <= i < |slots| && Share(lens[i], other[i]) >= Share(lens[j], slots[j])
    {
      var i := GreedyOptimal(lens, caps, slots, requested, other, j);
    }
  }
}
