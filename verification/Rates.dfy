/** How many instants fit into a span when each keeps its distance from the one before. */
module Rates {

  /** Every instant lies at least `gap` after the one before it. */
  predicate Spaced(times: seq<int>, gap: int) {
    forall i | 0 < i < |times| :: times[i] - times[i - 1] >= gap
  }

  predicate Within(times: seq<int>, lo: int, hi: int) {
    forall t | t in times :: lo <= t <= hi
  }

  lemma {:induction false} SpacedSpan(times: seq<int>, gap: int, k: nat)
    requires k < |times| && Spaced(times, gap)
    ensures times[k] - times[0] >= k * gap
  {
    if k > 0 {
      SpacedSpan(times, gap, k - 1);
      assert times[k] - times[k - 1] >= gap;
      assert k * gap == (k - 1) * gap + gap;
    }
  }

  lemma CancelFactor(n: int, m: int, gap: int)
    requires gap > 0 && n * gap < m * gap
    ensures n < m
  {
    assert (n - m) * gap == n * gap - m * gap;
  }

  lemma AtMost(n: nat, gap: int, span: nat)
    requires gap > 0 && n * gap <= span
    ensures n <= span / gap
  {
    assert (span / gap + 1) * gap == span / gap * gap + gap;
    CancelFactor(n, span / gap + 1, gap);
  }

  /** In a closed span of the given length there are at most span / gap + 1 of them. */
  lemma SpacedCount(times: seq<int>, gap: int, lo: int, span: nat)
    requires gap > 0 && Spaced(times, gap) && Within(times, lo, lo + span)
    ensures |times| <= span / gap + 1
  {
    if times != [] {
      SpacedSpan(times, gap, |times| - 1);
      assert times[0] in times && times[|times| - 1] in times;
      AtMost(|times| - 1, gap, span);
    }
  }
}
