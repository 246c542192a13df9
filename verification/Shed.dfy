/** Cap-aware payload shedding (src/arknights_mcp/mcp/shed.py), over any type of frame. */
module Shed {
  import opened Json

  datatype ShedStep<!F> = ShedStep(paginated: bool, depths: F -> int, apply: (F, int) -> F)

  function Pow2(n: nat): nat { if n == 0 then 1 else 2 * Pow2(n - 1) }

  /** How often a range can be halved before it is empty: floor(log2 width) + 1. */
  function Halvings(width: nat): nat { if width == 0 then 0 else 1 + Halvings(width / 2) }

  lemma {:induction false} HalvingsIsLog(width: nat)
    requires width >= 1
    ensures Halvings(width) >= 1 && Pow2(Halvings(width) - 1) <= width < Pow2(Halvings(width))
  {
    if width == 1 {
      assert Halvings(0) == 0;
    } else {
      HalvingsIsLog(width / 2);
    }
  }

  lemma {:induction false} HalvingsMonotone(a: nat, b: nat)
    requires a <= b
    ensures Halvings(a) <= Halvings(b)
  {
    if a > 0 {
      HalvingsMonotone(a / 2, b / 2);
    }
  }

  lemma HalvingStep(low: int, high: int, mid: int)
    requires 0 <= low <= high && mid == (low + high) / 2
    ensures 1 + Halvings(mid - low) <= Halvings(high - low + 1)
    ensures 1 + Halvings(high - mid) <= Halvings(high - low + 1)
  {
    HalvingsMonotone(mid - low, (high - low + 1) / 2);
    HalvingsMonotone(high - mid, (high - low + 1) / 2);
  }

  predicate FitsAt<F>(step: ShedStep<F>, frame: F, fits: F -> bool, depth: int) { fits(step.apply(frame, depth)) }

  /** `_shallowest_fitting`, lines 85-111. No assumption on `apply` at all: the answer is always a
      variant of this step, fitting or deepest, and it is a local minimum. `calls` counts calls of `fits`. */
  method ShallowestFitting<F>(step: ShedStep<F>, frame: F, depthCount: int, fits: F -> bool)
    returns (out: F, fitted: bool, ghost depth: int, ghost calls: nat)
    requires depthCount >= 1
    ensures 0 <= depth < depthCount && out == step.apply(frame, depth)
    ensures fitted == fits(out)
    ensures fitted && depth > 0 ==> !FitsAt(step, frame, fits, depth - 1)
    ensures !fitted ==> depth == depthCount - 1
    ensures 1 <= calls <= Halvings(depthCount)
  {
    var low, high := 0, depthCount - 1;
    var best: Option<F> := None;
    depth, calls := depthCount - 1, 0;
    ghost var budget := Halvings(depthCount);
    while low <= high
      invariant 0 <= low <= high + 1 <= depthCount
      invariant low > 0 ==> !FitsAt(step, frame, fits, low - 1)
      invariant best.None? ==> high == depthCount - 1 == depth
      invariant best.Some? ==> depth == high + 1 && depth < depthCount
      invariant best.Some? ==> best.value == step.apply(frame, depth) && FitsAt(step, frame, fits, depth)
      invariant calls == 0 ==> low == 0 && high == depthCount - 1
      invariant calls + Halvings(high - low + 1) <= budget
      decreases high - low
    {
      var mid := (low + high) / 2;
      var candidate := step.apply(frame, mid);
      HalvingStep(low, high, mid);
      calls := calls + 1;
      if fits(candidate) {
        best, depth := Some(candidate), mid;
        high := mid - 1;
      } else {
        low := mid + 1;
      }
    }
    if best.Some? {
      return best.value, true, depth, calls;
    }
    return step.apply(frame, depthCount - 1), false, depthCount - 1, calls;
  }

  // ---------------------------------------------------------------- the walk down a plan

  type Plan<!F> = seq<ShedStep<F>>

  /** The frame step k starts from when no earlier step fitted: every earlier step at its deepest. */
  function Deepest<F>(plan: Plan<F>, frame: F, k: nat): F
    requires k <= |plan|
  {
    if k == 0 then frame
    else
      var f := Deepest(plan, frame, k - 1);
      var n := plan[k - 1].depths(f);
      if n <= 0 then f else plan[k - 1].apply(f, n - 1)
  }

  function DepthsAt<F>(plan: Plan<F>, frame: F, k: nat): int
    requires k < |plan|
  {
    plan[k].depths(Deepest(plan, frame, k))
  }

  /** Candidate (k, d) is the frame after the first k steps at their deepest and step k at depth d. */
  predicate IsCandidate<F>(plan: Plan<F>, frame: F, k: nat, d: int) {
    k < |plan| && 0 <= d < DepthsAt(plan, frame, k)
  }

  function Candidate<F>(plan: Plan<F>, frame: F, k: nat, d: int): F
    requires IsCandidate(plan, frame, k, d)
  {
    plan[k].apply(Deepest(plan, frame, k), d)
  }

  /** Some step up to k had something to shed and was not a page trim. */
  predicate SectionShed<F>(plan: Plan<F>, frame: F, k: nat)
    requires k < |plan|
  {
    exists i :: 0 <= i <= k && DepthsAt(plan, frame, i) > 0 && !plan[i].paginated
  }

  /** `ShedStep`'s contract (lines 61-65), where the search uses it: a deeper shed still fits. */
  ghost predicate Monotone<F>(plan: Plan<F>, frame: F, fits: F -> bool) {
    forall k: nat, d, e :: IsCandidate(plan, frame, k, d) && IsCandidate(plan, frame, k, e) && d <= e ==>
      fits(Candidate(plan, frame, k, d)) ==> fits(Candidate(plan, frame, k, e))
  }

  /** (k, d) is the lexicographically first candidate that fits. */
  ghost predicate FirstFitting<F>(plan: Plan<F>, frame: F, fits: F -> bool, k: nat, d: int) {
    && IsCandidate(plan, frame, k, d) && fits(Candidate(plan, frame, k, d))
    && forall i: nat, e :: IsCandidate(plan, frame, i, e) && (i < k || (i == k && e < d)) ==>
         !fits(Candidate(plan, frame, i, e))
  }

  /** No candidate of the first n steps fits. */
  ghost predicate NothingFits<F>(plan: Plan<F>, frame: F, fits: F -> bool, n: nat) {
    forall k: nat, d :: k < n && IsCandidate(plan, frame, k, d) ==> !fits(Candidate(plan, frame, k, d))
  }

  lemma {:induction false} LocalIsFirst<F>(plan: Plan<F>, frame: F, fits: F -> bool, k: nat, d: int)
    requires Monotone(plan, frame, fits) && IsCandidate(plan, frame, k, d)
    requires d > 0 ==> !FitsAt(plan[k], Deepest(plan, frame, k), fits, d - 1)
    ensures forall e :: 0 <= e < d ==> !fits(Candidate(plan, frame, k, e))
  {
    forall e | 0 <= e < d ensures !fits(Candidate(plan, frame, k, e)) {
      assert IsCandidate(plan, frame, k, d - 1) && IsCandidate(plan, frame, k, e);
    }
  }

  lemma Exhausted<F>(plan: Plan<F>, frame: F, fits: F -> bool, k: nat)
    requires Monotone(plan, frame, fits) && NothingFits(plan, frame, fits, k) && k < |plan|
    requires var n := DepthsAt(plan, frame, k); n > 0 ==> !fits(Candidate(plan, frame, k, n - 1))
    ensures NothingFits(plan, frame, fits, k + 1)
  {
    var n := DepthsAt(plan, frame, k);
    forall i: nat, d | i < k + 1 && IsCandidate(plan, frame, i, d) ensures !fits(Candidate(plan, frame, i, d)) {
      if i == k {
        assert IsCandidate(plan, frame, k, n - 1);
      }
    }
  }

  lemma SectionShedNext<F>(plan: Plan<F>, frame: F, k: nat)
    requires k < |plan|
    ensures SectionShed(plan, frame, k)
            <==> (k > 0 && SectionShed(plan, frame, k - 1)) || (DepthsAt(plan, frame, k) > 0 && !plan[k].paginated)
  {
  }

  /** `shed_to_fit`, lines 114-137.  Without any assumption the returned frame is a candidate that
      fits, flagged by what was shed on the way; with the steps' monotonicity contract it is the
      first fitting candidate of the plan, and `None` means that nothing in the plan fits. */
  method ShedToFit<F>(frame: F, plan: Plan<F>, fits: F -> bool)
    returns (r: Option<(F, bool)>, ghost at: nat, ghost depth: int)
    ensures r.Some? ==> IsCandidate(plan, frame, at, depth) && r.value.0 == Candidate(plan, frame, at, depth)
    ensures r.Some? ==> fits(r.value.0) && r.value.1 == SectionShed(plan, frame, at)
    ensures Monotone(plan, frame, fits) && r.Some? ==> FirstFitting(plan, frame, fits, at, depth)
    ensures Monotone(plan, frame, fits) && r.None? ==> NothingFits(plan, frame, fits, |plan|)
  {
    var current, sectionShed := frame, false;
    at, depth := 0, 0;
    for k := 0 to |plan|
      invariant current == Deepest(plan, frame, k)
      invariant sectionShed == (k > 0 && SectionShed(plan, frame, k - 1))
      invariant Monotone(plan, frame, fits) ==> NothingFits(plan, frame, fits, k)
    {
      var step := plan[k];
      SectionShedNext(plan, frame, k);
      var depthCount := step.depths(current);
      if depthCount <= 0 {
        if Monotone(plan, frame, fits) { Exhausted(plan, frame, fits, k); }
        continue;
      }
      var next, fitted, d, _ := ShallowestFitting(step, current, depthCount, fits);
      sectionShed := sectionShed || !step.paginated;
      assert IsCandidate(plan, frame, k, d) && next == Candidate(plan, frame, k, d);
      if Monotone(plan, frame, fits) {
        if fitted {
          LocalIsFirst(plan, frame, fits, k, d);
        } else {
          Exhausted(plan, frame, fits, k);
        }
      }
      current := next;
      if fitted {
        return Some((current, sectionShed)), k, d;
      }
    }
    return None, 0, 0;
  }
}
