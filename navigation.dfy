/**
 * The circular previous/next stepping of the recipe detail view. The
 * browser computes the new index with JavaScript's `%`, which truncates
 * toward zero; Dafny's `%` is Euclidean, so the JavaScript operator is
 * written out here.
 */
module Navigation {

  /**
   * JavaScript's `a % n` for a positive divisor: `n` is taken off the
   * dividend toward zero until it lies strictly between `-n` and `n`, so the
   * remainder carries the sign of the dividend and a dividend already in
   * that range comes back unchanged (where Dafny's `%` would map -1 to n - 1).
   */
  function JsRemainder(a: int, n: int): (r: int)
    requires n > 0
    ensures a >= 0 ==> 0 <= r < n
    ensures a < 0 ==> -n < r <= 0
    ensures -n < a < n ==> r == a
    decreases if a < 0 then -a else a
  {
    if a >= n then JsRemainder(a - n, n)
    else if a <= -n then JsRemainder(a + n, n)
    else a
  }

  /**
   * The remainder differs from the dividend by a multiple of the divisor:
   * together with JsRemainder's sign and range this pins it down as the
   * truncated remainder.
   */
  lemma {:induction false} JsCongruent(a: int, n: int) returns (q: int)
    requires n > 0
    ensures a == q * n + JsRemainder(a, n)
    decreases if a < 0 then -a else a
  {
    if a >= n {
      var q' := JsCongruent(a - n, n);
      q := q' + 1;
      MultipleStep(q', n);
    } else if a <= -n {
      var q' := JsCongruent(a + n, n);
      q := q' - 1;
      MultipleStep(q, n);
    } else {
      q := 0;
    }
  }

  lemma MultipleStep(q: int, n: int)
    ensures (q + 1) * n == q * n + n
  {
  }

  /** The index `goToNextRecipe` moves to in a list of `n` recipes. */
  function NextIndex(i: int, n: int): (j: int)
    requires n > 0
    ensures i >= -1 ==> 0 <= j < n
  {
    JsRemainder(i + 1, n)
  }

  /** The index `goToPrevRecipe` moves to in a list of `n` recipes. */
  function PrevIndex(i: int, n: int): (j: int)
    requires n > 0
    ensures i >= 1 - n ==> 0 <= j < n
  {
    JsRemainder(i - 1 + n, n)
  }

  /** From a valid index, "next" is the following one, wrapping from the last to the first. */
  lemma NextIndexWraps(i: int, n: int)
    requires 0 <= i < n
    ensures NextIndex(i, n) == if i == n - 1 then 0 else i + 1
  {
    if i == n - 1 {
      assert JsRemainder(n, n) == JsRemainder(0, n);
    }
  }

  /** From a valid index, "previous" is the preceding one, wrapping from the first to the last. */
  lemma PrevIndexWraps(i: int, n: int)
    requires 0 <= i < n
    ensures PrevIndex(i, n) == if i == 0 then n - 1 else i - 1
  {
    if i > 0 {
      assert JsRemainder(i - 1 + n, n) == JsRemainder(i - 1, n);
    }
  }

  /** One step back undoes one step forward, and the other way round. */
  lemma NextPrevInverse(i: int, n: int)
    requires 0 <= i < n
    ensures PrevIndex(NextIndex(i, n), n) == i
    ensures NextIndex(PrevIndex(i, n), n) == i
  {
    NextIndexWraps(i, n);
    PrevIndexWraps(NextIndex(i, n), n);
    PrevIndexWraps(i, n);
    NextIndexWraps(PrevIndex(i, n), n);
  }
}
