/** What a drafter layer's attention receives from its context once the scale fold has gone over the key and
    value projections: keys normed head by head, and values. */
module ContextKv {
  import opened AwqFold

  function Mean(total: real, n: nat): real
    requires n > 0
  {
    total / n as real
  }

  lemma MeanLaws(k: real, x: real, n: nat)
    requires n > 0
    ensures Mean(Mul(k, x), n) == Mul(k, Mean(x, n)) && (x >= 0.0 ==> Mean(x, n) >= 0.0) && Mul(Mean(x, n), n as real) == x
  {
  }

  lemma PositiveProduct(a: real, b: real)
    requires a > 0.0 && b > 0.0
    ensures Mul(a, b) > 0.0
  {
  }

  lemma Negated(a: real)
    ensures Mul(-a, -a) == Mul(a, a)
  {
  }

  lemma SquareSign(a: real)
    ensures Mul(a, a) >= 0.0 && (a != 0.0 ==> Mul(a, a) > 0.0)
  {
    hide Mul;
    ZeroTimes(a);
    if a > 0.0 {
      PositiveProduct(a, a);
    } else if a < 0.0 {
      PositiveProduct(-a, -a);
      Negated(a);
    }
  }

  lemma Cancel(a: real, x: real, y: real)
    requires a != 0.0 && Mul(a, x) == Mul(a, y)
    ensures x == y
  {
    assert a * (x - y) == 0.0;
  }

  lemma NoZeroFactors(x: real, y: real)
    requires x * y == 0.0
    ensures x == 0.0 || y == 0.0
  {
  }

  lemma SameSquare(a: real, b: real)
    requires Mul(a, a) == Mul(b, b) && (a > 0.0 <==> b > 0.0)
    ensures a == b
  {
    assert (a - b) * (a + b) == a * a - b * b == 0.0;
    NoZeroFactors(a - b, a + b);
  }

  lemma Swap(a: real, g: real, k: real)
    ensures Mul(Mul(Mul(a, g), Mul(a, g)), k) == Mul(Mul(a, a), Mul(Mul(g, g), k))
  {
    assert (a * g) * (a * g) * k == (a * a) * ((g * g) * k);
  }

  lemma Distribute(a: real, x: real, y: real)
    ensures Mul(a, x + y) == Mul(a, x) + Mul(a, y)
  {
  }

  // ----- the norm of a head ---------------------------------------------------------------

  /** One head of the key projection: its rows, and the weight of the norm that follows. */
  datatype Head = Head(k: Matrix, weight: Vector) {
    ghost predicate Valid(n: nat) { k != [] && |k| == |weight| && Columns(k, n) }
    /** No key entry of this head can be anything but zero. */
    ghost predicate Dead(n: nat)
      requires Valid(n)
    {
      forall i, c :: 0 <= i < |k| && 0 <= c < n ==> weight[i] == 0.0 || k[i][c] == 0.0
    }
  }

  /** What the norm takes the root of: the mean square and a small constant. */
  function MeanSquare(y: Vector, eps: real): real
    requires y != []
  {
    Mean(Dot(y, y, |y|), |y|) + eps
  }

  /** a over the root of p and b over the root of q are the same, said without roots. */
  predicate SameOver(a: real, p: real, b: real, q: real) {
    Mul(Mul(a, a), q) == Mul(Mul(b, b), p) && (a > 0.0 <==> b > 0.0)
  }

  /** That is what it says: r and t are the reciprocal roots, weight the norm's. */
  lemma SameOverIff(weight: real, a: real, p: real, r: real, b: real, q: real, t: real)
    requires r > 0.0 && t > 0.0 && p > 0.0 && q > 0.0 && Mul(Mul(r, r), p) == 1.0 && Mul(Mul(t, t), q) == 1.0
    ensures Mul(weight, Mul(a, r)) == Mul(weight, Mul(b, t)) <==> weight == 0.0 || SameOver(a, p, b, q)
  {
    hide Mul;
    SquaredOver(a, p, r, q);
    SquaredOver(b, q, t, p);
    SignKept(a, r);
    SignKept(b, t);
    Commute(p, q);
    if weight == 0.0 {
      ZeroTimes(Mul(a, r));
      ZeroTimes(Mul(b, t));
    } else if SameOver(a, p, b, q) {
      Cancel(Mul(p, q), Mul(Mul(a, r), Mul(a, r)), Mul(Mul(b, t), Mul(b, t)));
      SameSquare(Mul(a, r), Mul(b, t));
    } else if Mul(weight, Mul(a, r)) == Mul(weight, Mul(b, t)) {
      Cancel(weight, Mul(a, r), Mul(b, t));
    }
  }

  lemma ZeroTimes(x: real)
    ensures Mul(0.0, x) == 0.0 == Mul(x, 0.0)
  {
  }

  lemma Commute(p: real, q: real)
    ensures Mul(p, q) == Mul(q, p)
  {
  }

  lemma SquaredOver(a: real, p: real, r: real, q: real)
    requires Mul(Mul(r, r), p) == 1.0 && p > 0.0 && q > 0.0
    ensures Mul(Mul(p, q), Mul(Mul(a, r), Mul(a, r))) == Mul(Mul(a, a), q) && Mul(p, q) > 0.0
  {
    assert (p * q) * ((a * r) * (a * r)) == (a * a * q) * (r * r * p);
  }

  lemma SignKept(a: real, r: real)
    requires r > 0.0
    ensures Mul(a, r) > 0.0 <==> a > 0.0
  {
  }

  /** The normed keys of input x are the same with scaled columns.  The rotation that follows the norm is
      one-to-one, so it needs no part in this. */
  ghost predicate SameKeys(h: Head, s: Vector, eps: real, x: Vector)
    requires h.Valid(|s|) && |x| == |s|
  {
    SameNormed(h.weight, Apply(h.k, x), Apply(ScaleColumns(h.k, s), x), eps)
  }

  ghost predicate SameNormed(weight: Vector, y: Vector, z: Vector, eps: real)
    requires |weight| == |y| == |z| > 0
  {
    forall i :: 0 <= i < |y| ==> weight[i] == 0.0 || SameOver(y[i], MeanSquare(y, eps), z[i], MeanSquare(z, eps))
  }

  ghost predicate KeysKept(h: Head, s: Vector, eps: real)
    requires h.Valid(|s|)
  {
    forall x: Vector :: |x| == |s| ==> SameKeys(h, s, eps, x)
  }

  // ----- inputs that give a scale away ------------------------------------------------------

  function Column(w: Matrix, n: nat, c: nat): (v: Vector)
    requires Columns(w, n) && c < n
    ensures |v| == |w| && forall i :: 0 <= i < |w| ==> v[i] == w[i][c]
  {
    seq(|w|, i requires 0 <= i < |w| => w[i][c])
  }

  /** Entry 1 at channel a and d at channel c. */
  function Probe(n: nat, a: nat, c: nat, d: real): (v: Vector)
    ensures |v| == n && forall i :: 0 <= i < n ==> v[i] == if i == a then 1.0 else if i == c then d else 0.0
  {
    seq(n, i => if i == a then 1.0 else if i == c then d else 0.0)
  }

  lemma {:induction false} DotProbe(v: Vector, a: nat, c: nat, d: real, n: nat)
    requires n <= |v| && a < |v| && c < |v| && a != c
    ensures Dot(v, Probe(|v|, a, c, d), n) == (if a < n then v[a] else 0.0) + if c < n then Mul(v[c], d) else 0.0
  {
    if n > 0 {
      DotProbe(v, a, c, d, n - 1);
    }
  }

  lemma {:induction false} SquareOfSum(u: Vector, v: Vector, y: Vector, d: real, n: nat)
    requires n <= |u| == |v| == |y| && forall i :: 0 <= i < |y| ==> y[i] == u[i] + Mul(v[i], d)
    ensures Dot(y, y, n) == Dot(u, u, n) + 2.0 * Mul(d, Dot(u, v, n)) + Mul(Mul(d, d), Dot(v, v, n))
  {
    hide Mul;
    if n == 0 {
      ZeroTimes(d);
      ZeroTimes(Mul(d, d));
    } else {
      SquareOfSum(u, v, y, d, n - 1);
      StepOfSum(Dot(y, y, n - 1), Dot(u, u, n - 1), Dot(u, v, n - 1), Dot(v, v, n - 1), u[n - 1], v[n - 1], y[n - 1], d,
                Dot(y, y, n), Dot(u, u, n), Dot(u, v, n), Dot(v, v, n));
    }
  }

  /** One entry more on each of the sums. */
  lemma StepOfSum(yy: real, uu: real, uv: real, vv: real, a: real, b: real, y: real, d: real, yy': real, uu': real, uv': real, vv': real)
    requires yy == uu + 2.0 * Mul(d, uv) + Mul(Mul(d, d), vv) && y == a + Mul(b, d)
    requires yy' == yy + y * y && uu' == uu + a * a && uv' == uv + a * b && vv' == vv + b * b
    ensures yy' == uu' + 2.0 * Mul(d, uv') + Mul(Mul(d, d), vv')
  {
    Binomial(a, b, d, y);
    Distribute(d, uv, a * b);
    Distribute(Mul(d, d), vv, b * b);
  }

  lemma Binomial(a: real, b: real, d: real, y: real)
    requires y == a + Mul(b, d)
    ensures y * y == a * a + 2.0 * Mul(d, a * b) + Mul(Mul(d, d), b * b)
  {
    assert (a + b * d) * (a + b * d) == a * a + 2.0 * (d * (a * b)) + (d * d) * (b * b);
  }

  lemma {:induction false} SquaresPositive(y: Vector, n: nat)
    requires n <= |y|
    ensures Dot(y, y, n) >= 0.0
    ensures forall i :: 0 <= i < n && y[i] != 0.0 ==> Dot(y, y, n) > 0.0
  {
    if n > 0 {
      SquaresPositive(y, n - 1);
      SquareSign(y[n - 1]);
    }
  }

  lemma {:induction false} SquaresScaled(u: Vector, z: Vector, g: real, n: nat)
    requires n <= |u| == |z| && forall i :: 0 <= i < |u| ==> z[i] == Mul(u[i], g)
    ensures Dot(z, z, n) == Mul(Mul(g, g), Dot(u, u, n))
  {
    if n > 0 {
      SquaresScaled(u, z, g, n - 1);
      hide Mul;
      SquareScaled(u[n - 1], g);
      Distribute(Mul(g, g), Dot(u, u, n - 1), u[n - 1] * u[n - 1]);
    }
  }

  lemma SquareScaled(a: real, g: real)
    ensures Mul(a, g) * Mul(a, g) == Mul(Mul(g, g), a * a)
  {
    assert (a * g) * (a * g) == (g * g) * (a * a);
  }

  lemma BasisOutputs(w: Matrix, s: Vector, c: nat)
    requires Columns(w, |s|) && c < |s|
    ensures Apply(w, Basis(|s|, c)) == Column(w, |s|, c)
    ensures forall i :: 0 <= i < |w| ==> Apply(ScaleColumns(w, s), Basis(|s|, c))[i] == Mul(Column(w, |s|, c)[i], s[c])
  {
    hide Dot;
    forall i | 0 <= i < |w|
      ensures Apply(w, Basis(|s|, c))[i] == w[i][c] && Apply(ScaleColumns(w, s), Basis(|s|, c))[i] == Mul(w[i][c], s[c])
    {
      DotBasis(w[i], c, |s|);
      DotBasis(AwqFold.Times(w[i], s), c, |s|);
    }
  }

  /** A channel that a live row uses has scale 1: by itself it already gives the scale away, as the constant
      under the root does not scale. */
  lemma LiveChannel(h: Head, s: Vector, eps: real, i: nat, c: nat)
    requires h.Valid(|s|) && Positive(s) && eps > 0.0 && KeysKept(h, s, eps)
    requires i < |h.k| && c < |s| && h.weight[i] != 0.0 && h.k[i][c] != 0.0
    ensures s[c] == 1.0
  {
    hide Dot, Apply, ScaleColumns, SameOver, Mul, Mean;
    var x, u := Basis(|s|, c), Column(h.k, |s|, c);
    BasisOutputs(h.k, s, c);
    var z := Apply(ScaleColumns(h.k, s), x);
    assert SameKeys(h, s, eps, x);
    assert SameOver(u[i], MeanSquare(u, eps), z[i], MeanSquare(z, eps));
    SquaresScaled(u, z, s[c], |u|);
    ScaleGivenAway(u[i], Dot(u, u, |u|), |u|, eps, s[c]);
  }

  lemma ScaleGivenAway(a: real, square: real, n: nat, eps: real, g: real)
    requires n > 0 && a != 0.0 && eps > 0.0 && g > 0.0
    requires SameOver(a, Mean(square, n) + eps, Mul(a, g), Mean(Mul(Mul(g, g), square), n) + eps)
    ensures g == 1.0
  {
    hide Mul, Mean;
    var m := Mean(square, n);
    MeanLaws(Mul(g, g), square, n);
    Swap(a, g, m + eps);
    SquareSign(a);
    Cancel(Mul(a, a), Mul(Mul(g, g), m) + eps, Mul(Mul(g, g), m + eps));
    Distribute(Mul(g, g), m, eps);
    One(eps);
    Commute(eps, Mul(g, g));
    Cancel(eps, Mul(g, g), 1.0);
    One(1.0);
    SameSquare(g, 1.0);
  }

  lemma One(x: real)
    ensures Mul(1.0, x) == x == Mul(x, 1.0) && Mul(-1.0, x) == -x
  {
  }

  /** So has a channel that only other rows of a live head use: it changes the head's mean square. */
  lemma QuietChannel(h: Head, s: Vector, eps: real, i: nat, a: nat, j: nat, c: nat)
    requires h.Valid(|s|) && Positive(s) && eps > 0.0 && KeysKept(h, s, eps)
    requires i < |h.k| && a < |s| && h.weight[i] != 0.0 && h.k[i][a] != 0.0 && s[a] == 1.0
    requires j < |h.k| && c < |s| && h.k[j][c] != 0.0 && h.k[i][c] == 0.0
    ensures s[c] == 1.0
  {
    hide Dot, KeysKept, Mul;
    var u, v := Column(h.k, |s|, a), Column(h.k, |s|, c);
    One(1.0);
    QuietProbe(h, s, eps, i, a, c, 1.0);
    One(-1.0);
    QuietProbe(h, s, eps, i, a, c, -1.0);
    SquaresPositive(v, |v|);
    var t, cross, square := s[c], Dot(u, v, |v|), Dot(v, v, |v|);
    One(cross);
    One(Mul(t, cross));
    One(square);
    assert square > 0.0 by { assert v[j] != 0.0; }
    Commute(square, Mul(t, t));
    Cancel(square, Mul(t, t), 1.0);
    One(1.0);
    SameSquare(t, 1.0);
  }

  lemma QuietProbe(h: Head, s: Vector, eps: real, i: nat, a: nat, c: nat, d: real)
    requires h.Valid(|s|) && Positive(s) && eps > 0.0 && KeysKept(h, s, eps) && Mul(d, d) == 1.0
    requires i < |h.k| && a < |s| && h.weight[i] != 0.0 && h.k[i][a] != 0.0 && s[a] == 1.0 && c < |s| && h.k[i][c] == 0.0
    ensures var u, v, n := Column(h.k, |s|, a), Column(h.k, |s|, c), |h.k|;
            2.0 * Mul(d, Dot(u, v, n)) + Dot(v, v, n) == 2.0 * Mul(d, Mul(s[c], Dot(u, v, n))) + Mul(Mul(s[c], s[c]), Dot(v, v, n))
  {
    hide Dot, Apply, ScaleColumns, SameOver, Mul, Mean;
    var x, n, e := Probe(|s|, a, c, d), |h.k|, Mul(d, s[c]);
    var y, z := Apply(h.k, x), Apply(ScaleColumns(h.k, s), x);
    var u, v := Column(h.k, |s|, a), Column(h.k, |s|, c);
    ProbeOutputs(h.k, s, a, c, d);
    assert SameKeys(h, s, eps, x);
    SquareOfSum(u, v, y, d, n);
    SquareOfSum(u, v, z, e, n);
    ZeroTimes(d);
    ZeroTimes(e);
    assert SameOver(u[i], MeanSquare(y, eps), u[i], MeanSquare(z, eps));
    RootsAlike(u[i], Dot(y, y, n), Dot(z, z, n), n, eps);
    Regroup(d, s[c], Dot(u, v, n));
    One(Dot(v, v, n));
  }

  lemma Regroup(d: real, t: real, x: real)
    requires Mul(d, d) == 1.0
    ensures Mul(Mul(d, t), x) == Mul(d, Mul(t, x)) && Mul(Mul(d, t), Mul(d, t)) == Mul(t, t)
  {
    assert (d * t) * (d * t) == (d * d) * (t * t);
  }

  lemma RootsAlike(a: real, p: real, q: real, n: nat, eps: real)
    requires a != 0.0 && n > 0 && SameOver(a, Mean(p, n) + eps, a, Mean(q, n) + eps)
    ensures p == q
  {
    hide Mul, Mean;
    SquareSign(a);
    Cancel(Mul(a, a), Mean(p, n) + eps, Mean(q, n) + eps);
    MeanLaws(1.0, p, n);
    MeanLaws(1.0, q, n);
  }

  lemma ProbeOutputs(w: Matrix, s: Vector, a: nat, c: nat, d: real)
    requires Columns(w, |s|) && a < |s| && c < |s| && a != c && s[a] == 1.0
    ensures var x, u, v := Probe(|s|, a, c, d), Column(w, |s|, a), Column(w, |s|, c);
            forall i :: 0 <= i < |w| ==>
              Apply(w, x)[i] == u[i] + Mul(v[i], d) && Apply(ScaleColumns(w, s), x)[i] == u[i] + Mul(v[i], Mul(d, s[c]))
  {
    hide Dot;
    var x := Probe(|s|, a, c, d);
    forall i | 0 <= i < |w|
      ensures Apply(w, x)[i] == w[i][a] + Mul(w[i][c], d) && Apply(ScaleColumns(w, s), x)[i] == w[i][a] + Mul(w[i][c], Mul(d, s[c]))
    {
      DotProbe(w[i], a, c, d, |s|);
      DotProbe(AwqFold.Times(w[i], s), a, c, d, |s|);
      assert (w[i][c] * s[c]) * d == w[i][c] * (d * s[c]);
    }
  }

  // ----- which keys and values survive --------------------------------------------------------

  lemma {:induction false} DotOfZeros(v: Vector, x: Vector, n: nat)
    requires n <= |v| && n <= |x| && forall c :: 0 <= c < n ==> v[c] == 0.0
    ensures Dot(v, x, n) == 0.0
  {
    if n > 0 {
      DotOfZeros(v, x, n - 1);
    }
  }

  lemma DeadKeys(h: Head, s: Vector, eps: real, x: Vector)
    requires h.Valid(|s|) && |x| == |s| && h.Dead(|s|)
    ensures SameKeys(h, s, eps, x)
  {
    hide Dot, MeanSquare;
    var y, z := Apply(h.k, x), Apply(ScaleColumns(h.k, s), x);
    forall i | 0 <= i < |h.k| && h.weight[i] != 0.0 ensures y[i] == 0.0 && z[i] == 0.0 {
      DotOfZeros(h.k[i], x, |x|);
      DotOfZeros(AwqFold.Times(h.k[i], s), x, |x|);
    }
  }

  lemma SameProjection(h: Head, s: Vector, eps: real, x: Vector)
    requires h.Valid(|s|) && |x| == |s| && OnesWhereUsed(h.k, s)
    ensures SameKeys(h, s, eps, x)
  {
    hide Apply, ScaleColumns, MeanSquare;
    ScaledSame(h.k, s, x);
  }

  /** A head's normed keys survive the fold, for every context, exactly when they are zero anyway or every
      channel that the head uses keeps scale 1.  The norm does not even absorb a scale that all its channels
      share, since the constant under its root stays. */
  lemma KeysKeptIff(h: Head, s: Vector, eps: real)
    requires h.Valid(|s|) && Positive(s) && eps > 0.0
    ensures KeysKept(h, s, eps) <==> h.Dead(|s|) || OnesWhereUsed(h.k, s)
  {
    hide Apply, ScaleColumns, SameKeys;
    if h.Dead(|s|) {
      forall x: Vector | |x| == |s| ensures SameKeys(h, s, eps, x) {
        DeadKeys(h, s, eps, x);
      }
    } else if OnesWhereUsed(h.k, s) {
      forall x: Vector | |x| == |s| ensures SameKeys(h, s, eps, x) {
        SameProjection(h, s, eps, x);
      }
    } else if KeysKept(h, s, eps) {
      KeptMeansOnes(h, s, eps);
      assert false;
    }
  }

  lemma KeptMeansOnes(h: Head, s: Vector, eps: real)
    requires h.Valid(|s|) && Positive(s) && eps > 0.0 && KeysKept(h, s, eps) && !h.Dead(|s|)
    ensures OnesWhereUsed(h.k, s)
  {
    hide KeysKept;
    var i, a :| 0 <= i < |h.k| && 0 <= a < |s| && h.weight[i] != 0.0 && h.k[i][a] != 0.0;
    LiveChannel(h, s, eps, i, a);
    forall j, c | 0 <= j < |h.k| && 0 <= c < |s| && h.k[j][c] != 0.0 ensures s[c] == 1.0 {
      if h.k[i][c] != 0.0 {
        LiveChannel(h, s, eps, i, c);
      } else {
        QuietChannel(h, s, eps, i, a, j, c);
      }
    }
  }

  /** Without that constant a scale that all channels share would cancel. */
  lemma CommonScaleCancels(y: Vector, z: Vector, g: real, i: nat)
    requires i < |y| == |z| && g > 0.0 && forall k :: 0 <= k < |y| ==> z[k] == Mul(y[k], g)
    ensures SameOver(y[i], MeanSquare(y, 0.0), z[i], MeanSquare(z, 0.0))
  {
    hide Dot, Mul, Mean;
    SquaresScaled(y, z, g, |y|);
    MeanLaws(Mul(g, g), Dot(y, y, |y|), |y|);
    Swap(y[i], g, Mean(Dot(y, y, |y|), |y|));
    SignKept(y[i], g);
  }

  /** Whatever the context, attention receives the same values and the same keys from it. */
  ghost predicate ContextKept(heads: seq<Head>, values: Matrix, s: Vector, eps: real)
    requires Columns(values, |s|) && forall h :: 0 <= h < |heads| ==> heads[h].Valid(|s|)
  {
    && (forall x: Vector :: |x| == |s| ==> Apply(ScaleColumns(values, s), x) == Apply(values, x))
    && forall h :: 0 <= h < |heads| ==> KeysKept(heads[h], s, eps)
  }

  /** The head uses no channel whose scale is not 1, or its keys are zero anyway. */
  ghost predicate Unharmed(h: Head, s: Vector)
    requires h.Valid(|s|)
  {
    h.Dead(|s|) || OnesWhereUsed(h.k, s)
  }

  /** The drafter applies the key and value projections to its context too: the target's states behind one
      norm that all layers share, with no convolution.  Nothing divides that input.  What attention receives
      from the context is as before exactly when every channel that the values or a head that is not dead
      use keeps scale 1. */
  lemma ContextKvIff(heads: seq<Head>, values: Matrix, s: Vector, eps: real)
    requires Columns(values, |s|) && (forall h :: 0 <= h < |heads| ==> heads[h].Valid(|s|)) && Positive(s) && eps > 0.0
    ensures ContextKept(heads, values, s, eps) <==>
              OnesWhereUsed(values, s) && forall h :: 0 <= h < |heads| ==> Unharmed(heads[h], s)
  {
    hide Apply, ScaleColumns, KeysKept;
    ProjectionKeptIff(values, s);
    forall h | 0 <= h < |heads| ensures KeysKept(heads[h], s, eps) <==> Unharmed(heads[h], s) {
      KeysKeptIff(heads[h], s, eps);
    }
  }

  /** Two channels scaled by 2 and 1/2, as a balanced scale may: a value projection that adds them gives 2
      for the context (1, 0), where it gave 1, and a head of one such row keys it differently. */
  lemma ContextKvChanges(eps: real)
    requires eps > 0.0
    ensures var w, s, x := [[1.0, 1.0]], [2.0, 0.5], [1.0, 0.0];
            && Apply(w, x) == [1.0] && Apply(ScaleColumns(w, s), x) == [2.0]
            && !SameKeys(Head(w, [1.0]), s, eps, x)
  {
    var w, s, x := [[1.0, 1.0]], [2.0, 0.5], [1.0, 0.0];
    assert AwqFold.Times([1.0, 1.0], s) == [2.0, 0.5];
    assert ScaleColumns(w, s) == [[2.0, 0.5]];
    DotOfTwo([1.0, 1.0], x);
    DotOfTwo([2.0, 0.5], x);
    assert Apply(w, x) == [1.0] && Apply([[2.0, 0.5]], x) == [2.0];
    assert Dot([1.0], [1.0], 0) == 0.0 && Dot([2.0], [2.0], 0) == 0.0;
    assert MeanSquare([1.0], eps) == 1.0 + eps && MeanSquare([2.0], eps) == 4.0 + eps;
    assert !SameOver(1.0, 1.0 + eps, 2.0, 4.0 + eps);
  }

  lemma DotOfTwo(v: Vector, x: Vector)
    requires |v| == |x| == 2
    ensures Dot(v, x, 2) == v[0] * x[0] + v[1] * x[1]
  {
    assert Dot(v, x, 0) == 0.0 && Dot(v, x, 1) == v[0] * x[0];
  }
}
