/** The dashboard's progress bar: the share of completed tasks in whole
    percent, rounded to the nearest integer with halves rounded up, and 0
    when there are no tasks. */
module ProgressBar {
  import opened Common

  /** The bar's percentage: `Math.round(completed / total * 100)` for a
      positive total, 0 otherwise. */
  function Percentage(completed: int, total: int): (p: int)
    ensures total <= 0 ==> p == 0
    ensures total > 0 ==> 2 * total * p <= 200 * completed + total < 2 * total * (p + 1)
  {
    if total > 0 then RoundDiv(100 * completed, total) else 0
  }

  /** A positive factor can be cancelled from a strict inequality. */
  lemma CancelFactor(t: int, a: int, b: int)
    requires t > 0 && t * a < t * b
    ensures a < b
  {
    assert t * b - t * a == t * (b - a);
  }

  /** With no more completed tasks than tasks the bar stays within 0..100;
      it is full when every task is completed, and empty when none is. */
  lemma PercentageBounds(completed: int, total: int)
    requires 0 <= completed <= total
    ensures 0 <= Percentage(completed, total) <= 100
    ensures total > 0 && completed == total ==> Percentage(completed, total) == 100
    ensures completed == 0 ==> Percentage(completed, total) == 0
  {
    if total > 0 {
      var p := Percentage(completed, total);
      var t2 := 2 * total;
      assert t2 * p < t2 * 101;
      CancelFactor(t2, p, 101);
      assert t2 * 0 < t2 * (p + 1);
      CancelFactor(t2, 0, p + 1);
      if completed == total {
        assert t2 * 100 < t2 * (p + 1);
        CancelFactor(t2, 100, p + 1);
      }
      if completed == 0 {
        assert t2 * p < t2 * 1;
        CancelFactor(t2, p, 1);
      }
    }
  }

  /** Completing one more task never shrinks the bar. */
  lemma PercentageMonotone(c1: int, c2: int, total: int)
    requires c1 <= c2
    ensures Percentage(c1, total) <= Percentage(c2, total)
  {
    if total > 0 {
      var p1 := Percentage(c1, total);
      var p2 := Percentage(c2, total);
      CancelFactor(2 * total, p1, p2 + 1);
    }
  }
}
