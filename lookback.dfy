module Wrappers {

  datatype Option<T> = None | Some(value: T)
}

/** Bounded look-back search over model initialisation times: candidate `i`
    is `start - i * step`, candidates are tried for `i = 0, 1, ...` (most
    recent first) and the first one an availability probe accepts wins.
    Both scripts search this way; only their window and probe differ. */
module Lookback {
  import opened Wrappers

  function Candidate(start: int, step: nat, i: nat): int {
    start - i * step
  }

  /** Index of the first accepted candidate among `from .. count - 1`, if any. */
  function FirstHit(accepts: int -> bool, start: int, step: nat, from: nat, count: nat): (r: Option<nat>)
    decreases count - from
    ensures r.Some? ==> from <= r.value < count
  {
    if count <= from then None
    else if accepts(Candidate(start, step, from)) then Some(from)
    else FirstHit(accepts, start, step, from + 1, count)
  }

  /** The search finds the first accepted candidate of the window, and finds
      nothing exactly when no candidate of the window is accepted. */
  lemma {:induction false} FirstHitSpec(accepts: int -> bool, start: int, step: nat, from: nat, count: nat)
    ensures var r := FirstHit(accepts, start, step, from, count);
      r.Some? ==> accepts(Candidate(start, step, r.value)) &&
                  forall j :: from <= j < r.value ==> !accepts(Candidate(start, step, j))
    ensures FirstHit(accepts, start, step, from, count).None? <==>
              forall j :: from <= j < count ==> !accepts(Candidate(start, step, j))
    decreases count - from
  {
    if from < count && !accepts(Candidate(start, step, from)) {
      FirstHitSpec(accepts, start, step, from + 1, count);
    }
  }

  /** Only the probe's answers on the candidates matter. */
  lemma {:induction false} FirstHitDependsOnCandidatesOnly(p: int -> bool, q: int -> bool, start: int, step: nat, from: nat, count: nat)
    requires forall j :: from <= j < count ==> p(Candidate(start, step, j)) == q(Candidate(start, step, j))
    ensures FirstHit(p, start, step, from, count) == FirstHit(q, start, step, from, count)
    decreases count - from
  {
    if from < count {
      FirstHitDependsOnCandidatesOnly(p, q, start, step, from + 1, count);
    }
  }
}
