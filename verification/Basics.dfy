/** Small facts about integers, reals and finite sequences that several components use. */
module Basics {

  datatype Option<+T> = None | Some(value: T)

  /** A place in a matrix: row m, column n. */
  datatype Cell = Cell(m: nat, n: nat)

  function Min(a: int, b: int): int { if a < b then a else b }

  function Max(a: int, b: int): int { if a > b then a else b }

  /** Division rounding up, for naturals. */
  function CeilDiv(a: nat, b: nat): (r: nat)
    requires b > 0
    ensures (r - 1) * b < a <= r * b || (a == 0 && r == 0)
  {
    CeilDivFacts(a, b);
    (a + b - 1) / b
  }

  lemma CeilDivFacts(a: nat, b: nat)
    requires b > 0
    ensures (a + b - 1) / b >= 0
    ensures var r := (a + b - 1) / b; (r - 1) * b < a <= r * b || (a == 0 && r == 0)
  {
    var n := a + b - 1;
    var r := n / b;
    assert n == r * b + n % b;
    assert (r - 1) * b == r * b - b;
    if a == 0 {
      QuotientUnique(0, b - 1, b);
    }
  }

  lemma QuotientUnique(q: int, r: nat, d: nat)
    requires r < d
    ensures (q * d + r) / d == q && (q * d + r) % d == r
  {
    var n := q * d + r;
    assert n == (n / d) * d + n % d;
    if n / d < q {
      MulGap(n / d, q, d);
    } else if n / d > q {
      MulGap(q, n / d, d);
    }
  }

  lemma MulGap(a: int, b: int, d: nat)
    requires a < b
    ensures a * d + d <= b * d
  {
    var e: nat := b - a - 1;
    assert (a + 1 + e) * d == a * d + d + e * d;
    assert e * d >= 0;
  }

  lemma MulMono(a: int, b: int, d: nat)
    requires a <= b
    ensures a * d <= b * d
  {
    if a < b {
      MulGap(a, b, d);
    }
  }

  /** Two-digit numbers in base d are equal only if their digits are. */
  lemma MixedRadix(q: nat, r: nat, q': nat, r': nat, d: nat)
    requires r < d && r' < d && q * d + r == q' * d + r'
    ensures q == q' && r == r'
  {
    if q < q' {
      MulGap(q, q', d);
    } else if q > q' {
      MulGap(q', q, d);
    }
  }

  lemma MixedRadixBound(q: nat, r: nat, d: nat, n: nat)
    requires q < n && r < d
    ensures 0 <= q * d + r < n * d
  {
    MulGap(q, n, d);
  }

  /** row * stride, as a sum, so that proofs about flat buffers need no multiplication. */
  function Offset(row: nat, stride: nat): nat {
    if row == 0 then 0 else Offset(row - 1, stride) + stride
  }

  lemma {:induction false} OffsetIsProduct(row: nat, stride: nat)
    ensures Offset(row, stride) == row * stride
  {
    if row > 0 {
      OffsetIsProduct(row - 1, stride);
      assert row * stride == (row - 1) * stride + stride;
    }
  }

  lemma {:induction false} OffsetMono(a: nat, b: nat, stride: nat)
    requires a < b
    ensures Offset(a, stride) + stride <= Offset(b, stride)
    decreases b
  {
    if a < b - 1 {
      OffsetMono(a, b - 1, stride);
    }
  }

  predicate Distinct<T(==)>(a: seq<T>) {
    forall i, j :: 0 <= i < j < |a| ==> a[i] != a[j]
  }

  ghost function Elements<T>(a: seq<T>): set<T> {
    set x | x in a
  }

  lemma {:induction false} DistinctSize<T>(a: seq<T>)
    requires Distinct(a)
    ensures |Elements(a)| == |a|
  {
    if a != [] {
      var b, x := a[..|a| - 1], a[|a| - 1];
      DistinctSize(b);
      assert a == b + [x];
      assert Elements(a) == Elements(b) + {x};
      assert x !in b;
    }
  }

  ghost function Below(n: nat): (s: set<nat>)
    ensures |s| == n
    ensures forall k: nat :: k in s <==> k < n
  {
    if n == 0 then {} else Below(n - 1) + {n - 1}
  }

  lemma SubsetSize<T>(s: set<T>, u: set<T>)
    requires s <= u
    ensures |s| <= |u|
    ensures |s| == |u| ==> s == u
  {
    assert u == s + (u - s);
    assert |u| == |s| + |u - s|;
  }

  /** Distinct numbers below n: there are at most n of them, and n of them are all of them. */
  lemma Pigeonhole(a: seq<nat>, n: nat)
    requires Distinct(a) && forall i :: 0 <= i < |a| ==> a[i] < n
    ensures |a| <= n
    ensures |a| == n <==> forall k: nat :: k < n ==> k in a
  {
    DistinctSize(a);
    SubsetSize(Elements(a), Below(n));
    if |a| == n {
      assert Elements(a) == Below(n);
      forall k: nat | k < n ensures k in a {
        assert k in Below(n);
      }
    }
    if forall k: nat :: k < n ==> k in a {
      forall k | k in Below(n) ensures k in Elements(a) {
        assert k < n;
      }
      assert Elements(a) == Below(n);
    }
  }
}
