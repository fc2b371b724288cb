/** Exact-arithmetic versions of the numeric helpers the scripts take from
    Python and numpy: `max`, `sum`, `np.mean` and the counting
    comprehension used for the service level. Everything is over `real`,
    so no rounding happens anywhere in the model. */
module Stats {
  import opened Results

  function Max(a: real, b: real): (m: real)
    ensures m >= a && m >= b
    ensures m == a || m == b
  {
    if a >= b then a else b
  }

  function Abs(x: real): (r: real)
    ensures r >= 0.0
    ensures r == 0.0 <==> x == 0.0
  {
    if x >= 0.0 then x else -x
  }

  /** On-hand stock of a signed inventory level, `max(I, 0)`. */
  function OnHand(level: real): real
  {
    Max(level, 0.0)
  }

  /** Backlogged demand of a signed inventory level, `max(-I, 0)`. */
  function Backlog(level: real): real
  {
    Max(-level, 0.0)
  }

  /** Left-to-right sum, the order in which Python's `sum` accumulates. */
  function Sum(s: seq<real>): real
    decreases |s|
  {
    if |s| == 0 then 0.0 else Sum(s[..|s| - 1]) + s[|s| - 1]
  }

  /** `np.mean`; the mean of nothing is NaN, modelled as `None`. */
  function Mean(s: seq<real>): (m: Option<real>)
    ensures m.Some? <==> |s| > 0
  {
    if |s| == 0 then None else Some(Sum(s) / (|s| as real))
  }

  /** Number of entries that are not negative. */
  function CountNonNegative(s: seq<real>): nat
    decreases |s|
  {
    if |s| == 0 then 0
    else CountNonNegative(s[..|s| - 1]) + (if s[|s| - 1] >= 0.0 then 1 else 0)
  }

  /** Smallest and largest entry of a non-empty sequence. */
  function SeqMin(s: seq<real>): (m: real)
    requires |s| > 0
    ensures forall i :: 0 <= i < |s| ==> m <= s[i]
    ensures exists i :: 0 <= i < |s| && m == s[i]
    decreases |s|
  {
    if |s| == 1 then s[0]
    else
      var rest := SeqMin(s[..|s| - 1]);
      if s[|s| - 1] < rest then s[|s| - 1] else rest
  }

  function SeqMax(s: seq<real>): (m: real)
    requires |s| > 0
    ensures forall i :: 0 <= i < |s| ==> s[i] <= m
    ensures exists i :: 0 <= i < |s| && m == s[i]
    decreases |s|
  {
    if |s| == 1 then s[0]
    else
      var rest := SeqMax(s[..|s| - 1]);
      if s[|s| - 1] > rest then s[|s| - 1] else rest
  }

  /** A sum of non-negative terms is non-negative, and it is zero exactly
      when every term is zero. */
  lemma {:induction false} SumNonNegative(s: seq<real>)
    requires forall i :: 0 <= i < |s| ==> s[i] >= 0.0
    ensures Sum(s) >= 0.0
    ensures Sum(s) == 0.0 <==> forall i :: 0 <= i < |s| ==> s[i] == 0.0
    decreases |s|
  {
    if |s| > 0 {
      var init := s[..|s| - 1];
      assert forall i :: 0 <= i < |init| ==> init[i] == s[i];
      SumNonNegative(init);
      if Sum(s) == 0.0 {
        forall i | 0 <= i < |s|
          ensures s[i] == 0.0
        {
          if i < |s| - 1 {
            assert init[i] == s[i];
          }
        }
      }
    }
  }

  /** If every term lies in [lo, hi], the sum lies in [n*lo, n*hi]. */
  lemma {:induction false} SumBounds(s: seq<real>, lo: real, hi: real)
    requires forall i :: 0 <= i < |s| ==> lo <= s[i] <= hi
    ensures (|s| as real) * lo <= Sum(s) <= (|s| as real) * hi
    decreases |s|
  {
    if |s| > 0 {
      var init := s[..|s| - 1];
      assert forall i :: 0 <= i < |init| ==> init[i] == s[i];
      SumBounds(init, lo, hi);
      assert (|s| as real) * lo == (|init| as real) * lo + lo;
      assert (|s| as real) * hi == (|init| as real) * hi + hi;
    }
  }

  /** Dividing a bounded total by a positive count bounds the quotient. */
  lemma DivideBounds(total: real, n: real, lo: real, hi: real)
    requires n > 0.0
    requires n * lo <= total <= n * hi
    ensures lo <= total / n <= hi
  {
    var q := total / n;
    assert total == n * q;
    assert n * lo <= n * q;
    assert n * q <= n * hi;
  }

  /** If every entry lies in [lo, hi], so does the mean. */
  lemma MeanBounds(s: seq<real>, lo: real, hi: real)
    requires |s| > 0
    requires forall i :: 0 <= i < |s| ==> lo <= s[i] <= hi
    ensures lo <= Mean(s).value <= hi
  {
    SumBounds(s, lo, hi);
    DivideBounds(Sum(s), |s| as real, lo, hi);
  }

  /** The mean of a non-empty sequence lies between its extreme entries. */
  lemma MeanBetweenExtremes(s: seq<real>)
    requires |s| > 0
    ensures SeqMin(s) <= Mean(s).value <= SeqMax(s)
  {
    MeanBounds(s, SeqMin(s), SeqMax(s));
  }

  /** Sum is linear: if c[i] == x*a[i] + y*b[i] for every i, then
      Sum(c) == x*Sum(a) + y*Sum(b). */
  lemma {:induction false} SumLinear(a: seq<real>, b: seq<real>, c: seq<real>, x: real, y: real)
    requires |a| == |b| == |c|
    requires forall i :: 0 <= i < |c| ==> c[i] == x * a[i] + y * b[i]
    ensures Sum(c) == x * Sum(a) + y * Sum(b)
    decreases |c|
  {
    if |c| > 0 {
      var n := |c| - 1;
      assert forall i :: 0 <= i < n ==> c[..n][i] == x * a[..n][i] + y * b[..n][i];
      SumLinear(a[..n], b[..n], c[..n], x, y);
    }
  }

  /** The non-negative count never exceeds the length; it equals the
      length exactly when no entry is negative and is zero exactly when
      every entry is negative. */
  lemma {:induction false} CountNonNegativeBounds(s: seq<real>)
    ensures CountNonNegative(s) <= |s|
    ensures CountNonNegative(s) == |s| <==> forall i :: 0 <= i < |s| ==> s[i] >= 0.0
    ensures CountNonNegative(s) == 0 <==> forall i :: 0 <= i < |s| ==> s[i] < 0.0
    decreases |s|
  {
    if |s| > 0 {
      var init := s[..|s| - 1];
      assert forall i :: 0 <= i < |init| ==> init[i] == s[i];
      CountNonNegativeBounds(init);
    }
  }

  /** Raising every entry never lowers the non-negative count. */
  lemma {:induction false} CountNonNegativeMonotone(s: seq<real>, t: seq<real>)
    requires |s| == |t|
    requires forall i :: 0 <= i < |s| ==> s[i] <= t[i]
    ensures CountNonNegative(s) <= CountNonNegative(t)
    decreases |s|
  {
    if |s| > 0 {
      var n := |s| - 1;
      assert forall i :: 0 <= i < n ==> s[..n][i] <= t[..n][i];
      CountNonNegativeMonotone(s[..n], t[..n]);
    }
  }
}
