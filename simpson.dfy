/** Composite Simpson weights and the exact sums they satisfy. */
module Simpson {
  /** Sum of a sequence, peeling the last element. */
  function SeqSum(s: seq<real>): real {
    if |s| == 0 then 0.0 else SeqSum(s[..|s| - 1]) + s[|s| - 1]
  }

  lemma SeqSumPrefixStep(s: seq<real>, k: int)
    requires 0 <= k < |s|
    ensures SeqSum(s[..k + 1]) == SeqSum(s[..k]) + s[k]
  {
    assert s[..k + 1][..k] == s[..k];
  }

  /** Scaling every term scales the sum. */
  lemma {:induction false} SeqSumScale(s: seq<real>, t: seq<real>, c: real)
    requires |s| == |t|
    requires forall k :: 0 <= k < |s| ==> t[k] == c * s[k]
    ensures SeqSum(t) == c * SeqSum(s)
  {
    if |s| > 0 {
      var m := |s| - 1;
      SeqSumScale(s[..m], t[..m], c);
    }
  }

  /** Sums of equal terms are equal. */
  lemma {:induction false} SeqSumCongruent(s: seq<real>, t: seq<real>)
    requires |s| == |t|
    requires forall k :: 0 <= k < |s| ==> t[k] == s[k]
    ensures SeqSum(t) == SeqSum(s)
  {
    assert s == t;
  }

  /** Entry i of the n-node composite Simpson vector 1, 4, 2, 4, ..., 2, 4, 1. */
  function SimpsonWeight(n: int, i: int): real {
    if i == 0 || i == n - 1 then 1.0 else if i % 2 == 1 then 4.0 else 2.0
  }

  function SimpsonPattern(n: nat): (w: seq<real>)
    ensures |w| == n
  {
    seq(n, i requires 0 <= i < n => SimpsonWeight(n, i))
  }

  /** wr = ones(n); wr[1:-1:2] = 4.0; wr[2:-2:2] = 2.0, for odd n >= 3. */
  method SimpsonWeights(n: int) returns (w: seq<real>)
    requires n >= 3 && n % 2 == 1
    ensures |w| == n && w[0] == 1.0 && w[n - 1] == 1.0
    ensures forall i :: 0 < i < n - 1 ==> w[i] == (if i % 2 == 1 then 4.0 else 2.0)
    ensures w == SimpsonPattern(n)
  {
    var a := new real[n](_ => 1.0);
    var i := 1;
    while i < n - 1
      invariant 1 <= i <= n && i % 2 == 1
      invariant forall k :: 0 <= k < n ==> a[k] == (if k % 2 == 1 && k < i then 4.0 else 1.0)
    {
      a[i] := 4.0;
      i := i + 2;
    }
    i := 2;
    while i < n - 2
      invariant 2 <= i <= n - 1 && i % 2 == 0
      invariant forall k :: 0 <= k < n ==>
        a[k] == (if k % 2 == 1 && k < n - 1 then 4.0 else if k % 2 == 0 && 2 <= k < i then 2.0 else 1.0)
    {
      a[i] := 2.0;
      i := i + 2;
    }
    w := a[..];
  }

  lemma {:induction false} SimpsonPrefixSum(n: int, k: int)
    requires n >= 3 && n % 2 == 1
    requires 2 <= k <= n - 1 && k % 2 == 0
    ensures SeqSum(SimpsonPattern(n)[..k]) == 3.0 * (k as real) - 1.0
  {
    var w := SimpsonPattern(n);
    assert (k - 1) % 2 == 1;
    if k == 2 {
      SeqSumPairStep(w, k, 1.0, 4.0);
      assert w[..0] == [];
    } else {
      SeqSumPairStep(w, k, 2.0, 4.0);
      SimpsonPrefixSum(n, k - 2);
    }
  }

  /** The weights of odd n >= 3 nodes add up to 3 (n - 1). */
  lemma SimpsonWeightSum(n: int)
    requires n >= 3 && n % 2 == 1
    ensures SeqSum(SimpsonPattern(n)) == 3.0 * ((n - 1) as real)
  {
    var w := SimpsonPattern(n);
    SimpsonPrefixSum(n, n - 1);
    SeqSumPrefixStep(w, n - 1);
    assert w[..n] == w;
  }

  /** Composite Simpson's rule with n nodes over an interval of length len
      (node spacing len / (n - 1)) integrates a constant exactly. */
  lemma SimpsonIntegratesConstant(n: int, len: real)
    requires n >= 3 && n % 2 == 1
    ensures (len / ((n - 1) as real)) / 3.0 * SeqSum(SimpsonPattern(n)) == len
  {
    SimpsonWeightSum(n);
  }

  /** i-th weight times i. */
  function SimpsonMoments(n: nat): (m: seq<real>)
    ensures |m| == n
  {
    seq(n, i requires 0 <= i < n => SimpsonWeight(n, i) * (i as real))
  }

  /** 0 * w_0 + ... + (k - 1) * w_(k - 1) summed two terms at a time. */
  function MomentPrefix(k: int): real
    requires k >= 0 && k % 2 == 0
  {
    if k == 0 then 0.0 else MomentPrefix(k - 2) + 2.0 * ((k - 2) as real) + 4.0 * ((k - 1) as real)
  }

  lemma {:induction false} MomentPrefixClosed(k: int)
    requires k >= 0 && k % 2 == 0
    ensures MomentPrefix(k) == 1.5 * (k as real) * (k as real) - (k as real)
  {
    if k > 0 {
      MomentPrefixClosed(k - 2);
      MomentStep(MomentPrefix(k), MomentPrefix(k - 2), k);
    }
  }

  lemma MomentStep(total: real, prev: real, k: int)
    requires prev == 1.5 * ((k - 2) as real) * ((k - 2) as real) - ((k - 2) as real)
    requires total == prev + 2.0 * ((k - 2) as real) + 4.0 * ((k - 1) as real)
    ensures total == 1.5 * (k as real) * (k as real) - (k as real)
  {
  }

  lemma {:induction false} SimpsonPrefixMomentSteps(n: int, k: int)
    requires n >= 3 && n % 2 == 1
    requires 0 <= k <= n - 1 && k % 2 == 0
    ensures SeqSum(SimpsonMoments(n)[..k]) == MomentPrefix(k)
  {
    var m := SimpsonMoments(n);
    if k == 0 {
      assert m[..0] == [];
    } else {
      SimpsonPrefixMomentSteps(n, k - 2);
      MomentEntries(n, k);
      SeqSumPairStep(m, k, 2.0 * ((k - 2) as real), 4.0 * ((k - 1) as real));
    }
  }

  lemma SimpsonPrefixMoment(n: int, k: int)
    requires n >= 3 && n % 2 == 1
    requires 2 <= k <= n - 1 && k % 2 == 0
    ensures SeqSum(SimpsonMoments(n)[..k]) == 1.5 * (k as real) * (k as real) - (k as real)
  {
    SimpsonPrefixMomentSteps(n, k);
    MomentPrefixClosed(k);
  }

  /** The two moments that close an even prefix: 2 (k - 2) and 4 (k - 1). */
  lemma MomentEntries(n: int, k: int)
    requires n >= 3 && n % 2 == 1
    requires 2 <= k <= n - 1 && k % 2 == 0
    ensures SimpsonMoments(n)[k - 2] == 2.0 * ((k - 2) as real)
    ensures SimpsonMoments(n)[k - 1] == 4.0 * ((k - 1) as real)
  {
    assert (k - 1) % 2 == 1;
  }

  lemma SeqSumPairStep(s: seq<real>, k: int, a: real, b: real)
    requires 2 <= k <= |s| && s[k - 2] == a && s[k - 1] == b
    ensures SeqSum(s[..k]) == SeqSum(s[..k - 2]) + a + b
  {
    SeqSumPrefixStep(s, k - 2);
    SeqSumPrefixStep(s, k - 1);
  }

  /** sum_i w_i * i = 3 (n - 1)^2 / 2: Simpson's rule is exact for a linear
      integrand, here the polar Jacobian rho. */
  lemma SimpsonMomentSum(n: int)
    requires n >= 3 && n % 2 == 1
    ensures SeqSum(SimpsonMoments(n)) == 1.5 * ((n - 1) as real) * ((n - 1) as real)
  {
    var m := SimpsonMoments(n);
    SimpsonPrefixMoment(n, n - 1);
    SeqSumPrefixStep(m, n - 1);
    assert m[..n] == m;
  }
}
