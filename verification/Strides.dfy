/** Arithmetic of block alignment, and the strided slices `xs[::n]` from which block
    tables are built. */
module Strides {

  lemma MulSign(k: int, d: int)
    requires d > 0
    ensures k >= 1 ==> k * d >= d
    ensures k <= -1 ==> k * d <= -d
    ensures k <= 0 ==> k * d <= 0
  {
    if k >= 1 { assert k * d == (k - 1) * d + d; }
    if k <= -1 { assert -k * d == (-k - 1) * d + d; }
  }

  lemma DivUnique(x: int, d: int, q: int, r: int)
    requires d > 0 && 0 <= r < d && x == q * d + r
    ensures x / d == q && x % d == r
  {
    var k := x / d - q;
    assert x == (x / d) * d + x % d;
    assert k * d == r - x % d;
    MulSign(k, d);
  }

  lemma ModSplit(x: int, d: int) returns (q: int)
    requires d > 0
    ensures x == q * d + x % d && q == x / d
  {
    q := x / d;
  }

  /** Adding a whole number of blocks shifts the quotient and keeps the remainder. */
  lemma AddAligned(a: int, p: int, d: int)
    requires d > 0 && a % d == 0
    ensures (a + p) % d == p % d
    ensures (a + p) / d == a / d + p / d
  {
    var q := ModSplit(a, d);
    var k := ModSplit(p, d);
    assert a + p == (q + k) * d + p % d;
    DivUnique(a + p, d, q + k, p % d);
  }

  lemma ModSucc(i: int, d: int)
    requires d > 0 && i % d != 0
    ensures (i - 1) % d == i % d - 1
  {
    var q := ModSplit(i, d);
    DivUnique(i - 1, d, q, i % d - 1);
  }

  lemma FloorAligned(p: int, d: int)
    requires d > 0
    ensures (p / d) * d == p - p % d && (p - p % d) % d == 0
  {
    var q := ModSplit(p, d);
    DivUnique(p - p % d, d, q, 0);
  }

  function CeilDiv(n: nat, d: nat): nat
    requires d > 0
  {
    (n + d - 1) / d
  }

  /** Block k begins before position n exactly when it is one of the first ceil(n / d). */
  lemma CeilIff(n: nat, d: nat, k: nat)
    requires d > 0
    ensures k < CeilDiv(n, d) <==> k * d < n
  {
    var q := ModSplit(n + d - 1, d);
    assert n + d - 1 == q * d + (n + d - 1) % d;
    if k < q {
      assert (k + 1) * d <= q * d;
    } else {
      assert k * d >= q * d;
    }
  }

  lemma CeilBounds(n: nat, d: nat)
    requires d > 0
    ensures CeilDiv(n, d) * d >= n
    ensures n % d == 0 ==> CeilDiv(n, d) * d == n
    ensures n % d != 0 ==> CeilDiv(n, d) * d - n == d - n % d
    ensures (CeilDiv(n, d) * d) % d == 0
  {
    var q := ModSplit(n, d);
    if n % d == 0 {
      DivUnique(n + d - 1, d, q, d - 1);
    } else {
      assert n + d - 1 == (q + 1) * d + (n % d - 1);
      DivUnique(n + d - 1, d, q + 1, n % d - 1);
      assert (q + 1) * d == q * d + d;
    }
    DivUnique(CeilDiv(n, d) * d, d, CeilDiv(n, d), 0);
  }

  /** One more token needs one more block exactly at a block boundary. */
  lemma CeilStep(n: nat, d: nat)
    requires d > 0
    ensures CeilDiv(n + 1, d) == CeilDiv(n, d) + if n % d == 0 then 1 else 0
  {
    var q := ModSplit(n, d);
    if n % d == 0 {
      DivUnique(n + d - 1, d, q, d - 1);
      DivUnique(n + d, d, q + 1, 0);
    } else {
      DivUnique(n + d - 1, d, q + 1, n % d - 1);
      DivUnique(n + d, d, q + 1, n % d);
    }
  }

  lemma {:induction false} CeilMono(n: nat, k: nat, d: nat)
    requires d > 0
    ensures CeilDiv(n + k, d) >= CeilDiv(n, d)
  {
    if k > 0 {
      CeilMono(n, k - 1, d);
      CeilStep(n + k - 1, d);
    }
  }

  /** `xs[::d]`. */
  function Stride<T>(xs: seq<T>, d: nat): (r: seq<T>)
    requires d > 0
    decreases |xs|
  {
    if xs == [] then [] else [xs[0]] + Stride(if d < |xs| then xs[d..] else [], d)
  }

  lemma {:induction false} StrideLength<T>(xs: seq<T>, d: nat)
    requires d > 0
    ensures |Stride(xs, d)| == CeilDiv(|xs|, d)
    decreases |xs|
  {
    if xs == [] {
      DivUnique(d - 1, d, 0, d - 1);
    } else {
      var rest := if d < |xs| then xs[d..] else [];
      StrideLength(rest, d);
      if d < |xs| {
        DivUnique(d, d, 1, 0);
        AddAligned(d, |rest| + d - 1, d);
      } else {
        DivUnique(|xs| + d - 1, d, 1, |xs| - 1);
        DivUnique(d - 1, d, 0, d - 1);
      }
    }
  }

  lemma {:induction false} StrideAt<T>(xs: seq<T>, d: nat, k: nat)
    requires d > 0 && k < |Stride(xs, d)|
    ensures 0 <= k * d < |xs| && Stride(xs, d)[k] == xs[k * d]
    decreases |xs|
  {
    if k > 0 {
      var rest := if d < |xs| then xs[d..] else [];
      assert Stride(xs, d) == [xs[0]] + Stride(rest, d);
      StrideAt(rest, d, k - 1);
      assert (k - 1) * d + d == k * d;
    }
  }

  /** The table entry of the block that covers position p is the element at the start of
      that block. */
  lemma StrideCovers<T>(xs: seq<T>, d: nat, p: nat)
    requires d > 0 && p < |xs|
    ensures 0 <= p / d < |Stride(xs, d)| && 0 <= p - p % d < |xs| && Stride(xs, d)[p / d] == xs[p - p % d]
  {
    FloorAligned(p, d);
    CeilIff(|xs|, d, p / d);
    StrideLength(xs, d);
    StrideAt(xs, d, p / d);
  }

  /** Striding distributes over concatenation at a block boundary. */
  lemma {:induction false} StrideConcat<T>(a: seq<T>, b: seq<T>, d: nat)
    requires d > 0 && |a| % d == 0
    ensures Stride(a + b, d) == Stride(a, d) + Stride(b, d)
    decreases |a|
  {
    hide Stride;
    if a == [] {
      assert a + b == b;
      StrideNothing<T>(d);
    } else {
      WholeBlocks(|a|, d);
      StrideStep(a, d);
      StrideStep(a + b, d);
      assert (a + b)[d..] == a[d..] + b && (a + b)[0] == a[0];
      StrideConcat(a[d..], b, d);
      assert [a[0]] + (Stride(a[d..], d) + Stride(b, d)) == [a[0]] + Stride(a[d..], d) + Stride(b, d);
    }
  }

  lemma WholeBlocks(n: nat, d: nat)
    requires d > 0 && n > 0 && n % d == 0
    ensures n >= d && (n - d) % d == 0
  {
    var q := ModSplit(n, d);
    MulSign(q, d);
    AddAligned(d, n - d, d);
    DivUnique(d, d, 1, 0);
  }

  lemma StrideNothing<T>(d: nat)
    requires d > 0
    ensures Stride<T>([], d) == []
  {}

  lemma StrideStep<T>(xs: seq<T>, d: nat)
    requires 0 < d <= |xs|
    ensures Stride(xs, d) == [xs[0]] + Stride(xs[d..], d)
  {
    assert d == |xs| ==> xs[d..] == [];
  }
}
