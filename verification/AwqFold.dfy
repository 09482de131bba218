/** Folding per-channel scales into a drafter layer: what divides a projection's input and multiplies its
    columns must go somewhere, and a dynamic convolution sits in between. */
module AwqFold {
  import opened Basics
  import Mxfp4

  type Vector = seq<real>
  type Matrix = seq<seq<real>>

  function Dot(a: Vector, b: Vector, n: nat): real
    requires n <= |a| && n <= |b|
  {
    if n == 0 then 0.0 else Dot(a, b, n - 1) + a[n - 1] * b[n - 1]
  }

  /** Every row has n entries. */
  ghost predicate Columns(w: Matrix, n: nat) { forall r :: 0 <= r < |w| ==> |w[r]| == n }

  ghost predicate Positive(s: Vector) { forall c :: 0 <= c < |s| ==> s[c] > 0.0 }

  ghost predicate NonZero(s: Vector) { forall c :: 0 <= c < |s| ==> s[c] != 0.0 }

  function Apply(w: Matrix, x: Vector): (y: Vector)
    requires Columns(w, |x|)
    ensures |y| == |w| && forall r :: 0 <= r < |w| ==> y[r] == Dot(w[r], x, |x|)
  {
    seq(|w|, r requires 0 <= r < |w| => Dot(w[r], x, |x|))
  }

  function Times(x: Vector, s: Vector): (y: Vector)
    requires |x| == |s|
    ensures |y| == |x| && forall c :: 0 <= c < |x| ==> y[c] == x[c] * s[c]
  {
    seq(|x|, c requires 0 <= c < |x| => x[c] * s[c])
  }

  function Over(x: Vector, s: Vector): (y: Vector)
    requires |x| == |s| && NonZero(s)
    ensures |y| == |x| && forall c :: 0 <= c < |x| ==> y[c] == x[c] / s[c]
  {
    seq(|x|, c requires 0 <= c < |x| => x[c] / s[c])
  }

  /** W * s: scale the columns. */
  function ScaleColumns(w: Matrix, s: Vector): (r: Matrix)
    requires Columns(w, |s|)
    ensures |r| == |w| && Columns(r, |s|) && forall i :: 0 <= i < |w| ==> r[i] == Times(w[i], s)
  {
    seq(|w|, i requires 0 <= i < |w| => Times(w[i], s))
  }

  /** W / s, by rows. */
  function DivideRows(w: Matrix, s: Vector): (r: Matrix)
    requires |w| == |s| && NonZero(s)
    ensures |r| == |w| && forall i :: 0 <= i < |w| ==> |r[i]| == |w[i]| && forall c :: 0 <= c < |w[i]| ==> r[i][c] == w[i][c] / s[i]
  {
    seq(|w|, i requires 0 <= i < |w| && s[i] != 0.0 => seq(|w[i]|, c requires 0 <= c < |w[i]| => w[i][c] / s[i]))
  }

  lemma TermCancels(a: real, x: real, s: real)
    requires s != 0.0
    ensures (a * s) * (x / s) == a * x
  {
    assert (x / s) * s == x;
  }

  lemma {:induction false} DotCancels(a: Vector, x: Vector, s: Vector, n: nat)
    requires |a| == |x| == |s| && n <= |a| && NonZero(s)
    ensures Dot(Times(a, s), Over(x, s), n) == Dot(a, x, n)
  {
    if n > 0 {
      DotCancels(a, x, s, n - 1);
      TermCancels(a[n - 1], x[n - 1], s[n - 1]);
    }
  }

  /** Scaled columns on a divided input: the same output. */
  lemma ApplyCancels(w: Matrix, x: Vector, s: Vector)
    requires Columns(w, |x|) && |x| == |s| && NonZero(s)
    ensures Apply(ScaleColumns(w, s), Over(x, s)) == Apply(w, x)
  {
    forall r | 0 <= r < |w| ensures Apply(ScaleColumns(w, s), Over(x, s))[r] == Apply(w, x)[r] {
      DotCancels(w[r], x, s, |x|);
    }
  }

  lemma {:induction false} DotDivided(a: Vector, a': Vector, x: Vector, d: real, n: nat)
    requires |a| == |a'| == |x| && n <= |a| && d != 0.0 && forall c :: 0 <= c < |a| ==> a'[c] == a[c] / d
    ensures Dot(a', x, n) == Dot(a, x, n) / d
  {
    if n > 0 {
      DotDivided(a, a', x, d, n - 1);
      DivDistributes(Dot(a, x, n - 1), a[n - 1], x[n - 1], d);
    }
  }

  lemma DivDistributes(p: real, a: real, x: real, d: real)
    requires d != 0.0
    ensures p / d + (a / d) * x == (p + a * x) / d
  {
    assert (p / d + (a / d) * x) * d == (p / d) * d + ((a / d) * d) * x;
  }

  lemma DivideRowsDivides(w: Matrix, x: Vector, s: Vector)
    requires Columns(w, |x|) && |w| == |s| && NonZero(s)
    ensures Columns(DivideRows(w, s), |x|) && Apply(DivideRows(w, s), x) == Over(Apply(w, x), s)
  {
    forall r | 0 <= r < |w| ensures Apply(DivideRows(w, s), x)[r] == Over(Apply(w, x), s)[r] {
      DotDivided(w[r], DivideRows(w, s)[r], x, s[r], |x|);
    }
  }

  // ----- the dynamic convolution ---------------------------------------------------

  /** One vector of n channels per token. */
  ghost predicate Tokens(hs: seq<Vector>, n: nat) { forall t :: 0 <= t < |hs| ==> |hs[t]| == n }

  function OverAll(hs: seq<Vector>, s: Vector): (r: seq<Vector>)
    requires Tokens(hs, |s|) && NonZero(s)
    ensures |r| == |hs| && Tokens(r, |s|) && forall t :: 0 <= t < |r| ==> r[t] == Over(hs[t], s)
  {
    seq(|hs|, t requires 0 <= t < |hs| && |hs[t]| == |s| => Over(hs[t], s))
  }

  function ApplyAll(w: Matrix, hs: seq<Vector>, n: nat): (r: seq<Vector>)
    requires Columns(w, n) && Tokens(hs, n)
    ensures |r| == |hs| && Tokens(r, |w|) && forall t :: 0 <= t < |r| ==> r[t] == Apply(w, hs[t])
  {
    seq(|hs|, t requires 0 <= t < |hs| && |hs[t]| == n => Apply(w, hs[t]))
  }

  lemma ApplyAllCancels(w: Matrix, hs: seq<Vector>, s: Vector)
    requires Columns(w, |s|) && Tokens(hs, |s|) && NonZero(s)
    ensures ApplyAll(ScaleColumns(w, s), OverAll(hs, s), |s|) == ApplyAll(w, hs, |s|)
  {
    hide Apply;
    var a, b := ApplyAll(ScaleColumns(w, s), OverAll(hs, s), |s|), ApplyAll(w, hs, |s|);
    forall t | 0 <= t < |hs| ensures a[t] == b[t] {
      ApplyCancels(w, hs[t], s);
    }
  }

  /** The grouped convolution.  Each token's coefficients are a base kernel plus a projection of that token,
      one per side, tap and group of channels; an output channel mixes the token's value with those of the
      tokens before it, tap by tap, as far as the token's block reaches back. */
  datatype Conv = Conv(kernel: Matrix, base: seq<seq<Vector>>, taps: nat, groups: nat, size: nat, block: nat) {
    ghost predicate Valid(n: nat) {
      && size > 0 && block > 0 && n == groups * size
      && Columns(kernel, n) && |kernel| == 2 * taps * groups
      && |base| == 2 && |base[0]| == |base[1]| == taps && Tokens(base[0], n) && Tokens(base[1], n)
    }

    /** Where the projection has the coefficient of a side, a tap and a channel's group. */
    function Place(side: nat, tap: nat, c: nat): nat
      requires size > 0
    {
      (side * taps + tap) * groups + c / size
    }

    function Coefficient(n: nat, side: nat, tap: nat, c: nat, k: Vector): real
      requires Valid(n) && side < 2 && tap < taps && c < n && |k| == |kernel|
    {
      PlaceFits(this, n, side, tap, c);
      base[side][tap][c] + k[Place(side, tap, c)]
    }

    /** What tap gives to output channel c of token t. */
    function Term(n: nat, side: nat, k: Vector, hs: seq<Vector>, t: nat, c: nat, tap: nat): real
      requires Valid(n) && side < 2 && c < n && |k| == |kernel| && Tokens(hs, n) && t < |hs| && tap < taps
    {
      WithinBlock(t, block);
      if tap <= t % block then Coefficient(n, side, tap, c, k) * hs[t - tap][c] else 0.0
    }

    /** The first m taps. */
    function Mix(n: nat, side: nat, k: Vector, hs: seq<Vector>, t: nat, c: nat, m: nat): real
      requires Valid(n) && side < 2 && c < n && |k| == |kernel| && Tokens(hs, n) && t < |hs| && m <= taps
    {
      if m == 0 then 0.0 else Mix(n, side, k, hs, t, c, m - 1) + Term(n, side, k, hs, t, c, m - 1)
    }

    function Convolve(n: nat, side: nat, ks: seq<Vector>, hs: seq<Vector>): (r: seq<Vector>)
      requires Valid(n) && side < 2 && |ks| == |hs| && Tokens(ks, |kernel|) && Tokens(hs, n)
      ensures |r| == |hs| && Tokens(r, n)
      ensures forall t, c :: 0 <= t < |r| && 0 <= c < n ==> r[t][c] == Mix(n, side, ks[t], hs, t, c, taps)
    {
      seq(|hs|, t requires 0 <= t < |hs| && |ks[t]| == |kernel| => seq(n, c requires 0 <= c < n => Mix(n, side, ks[t], hs, t, c, taps)))
    }

    /** The projection of every token: both sides' coefficients. */
    function Coefficients(n: nat, hs: seq<Vector>): (ks: seq<Vector>)
      requires Valid(n) && Tokens(hs, n)
      ensures |ks| == |hs| && Tokens(ks, |kernel|)
    {
      ApplyAll(kernel, hs, n)
    }

    function Scaled(s: Vector): Conv
      requires Columns(kernel, |s|)
    {
      this.(kernel := ScaleColumns(kernel, s))
    }
  }

  lemma WithinBlock(t: nat, block: nat)
    requires block > 0
    ensures 0 <= t % block <= t
  {
  }

  lemma PlaceFits(conv: Conv, n: nat, side: nat, tap: nat, c: nat)
    requires conv.Valid(n) && side < 2 && tap < conv.taps && c < n
    ensures conv.Place(side, tap, c) < |conv.kernel|
  {
    var g := c / conv.size;
    assert c == g * conv.size + c % conv.size;
    if g >= conv.groups {
      if g > conv.groups {
        MulGap(conv.groups, g, conv.size);
      }
      assert false;
    }
    MixedRadixBound(side, tap, conv.taps, 2);
    MixedRadixBound(side * conv.taps + tap, g, conv.groups, 2 * conv.taps);
  }

  /** A shifted token, nothing before the first, masked where its block does not reach back that far. */
  lemma TapTerm(conv: Conv, n: nat, side: nat, k: Vector, hs: seq<Vector>, t: nat, c: nat, tap: nat)
    requires conv.Valid(n) && side < 2 && c < n && |k| == |conv.kernel| && Tokens(hs, n) && t < |hs| && tap < conv.taps
    ensures 0 <= (side * conv.taps + tap) * conv.groups + c / conv.size < |k|
    ensures var coefficient := conv.base[side][tap][c] + k[(side * conv.taps + tap) * conv.groups + c / conv.size];
            var shifted := if t >= tap then hs[t - tap][c] else 0.0;
            var mask := if t % conv.block >= tap then 1.0 else 0.0;
            conv.Term(n, side, k, hs, t, c, tap) == coefficient * shifted * mask
  {
    PlaceFits(conv, n, side, tap, c);
    WithinBlock(t, conv.block);
  }

  lemma MixStep(conv: Conv, n: nat, side: nat, k: Vector, hs: seq<Vector>, t: nat, c: nat, tap: nat)
    requires conv.Valid(n) && side < 2 && c < n && |k| == |conv.kernel| && Tokens(hs, n) && t < |hs| && tap < conv.taps
    ensures conv.Mix(n, side, k, hs, t, c, tap + 1) == conv.Mix(n, side, k, hs, t, c, tap) + conv.Term(n, side, k, hs, t, c, tap)
    ensures tap == 0 ==> conv.Mix(n, side, k, hs, t, c, tap) == 0.0
  {
  }

  /** One tap added to all outputs of a token. */
  method AddTap(conv: Conv, n: nat, side: nat, k: Vector, hs: seq<Vector>, t: nat, tap: nat, out: array2<real>)
    requires conv.Valid(n) && side < 2 && |k| == |conv.kernel| && Tokens(hs, n) && t < |hs| && tap < conv.taps
    requires out.Length0 == |hs| && out.Length1 == n
    requires forall c: nat :: c < n ==> out[t, c] == conv.Mix(n, side, k, hs, t, c, tap)
    modifies out
    ensures forall c: nat :: c < n ==> out[t, c] == conv.Mix(n, side, k, hs, t, c, tap + 1)
    ensures forall u: nat, c: nat :: u < |hs| && c < n && u != t ==> out[u, c] == old(out[u, c])
  {
    hide Conv.Mix, Conv.Term, Conv.Valid;
    BlockPositive(conv, n);
    for c := 0 to n
      invariant forall d: nat :: d < c ==> out[t, d] == conv.Mix(n, side, k, hs, t, d, tap + 1)
      invariant forall d: nat :: c <= d < n ==> out[t, d] == conv.Mix(n, side, k, hs, t, d, tap)
      invariant forall u: nat, d: nat :: u < |hs| && d < n && u != t ==> out[u, d] == old(out[u, d])
    {
      BaseFits(conv, n, side, tap);
      TapTerm(conv, n, side, k, hs, t, c, tap);
      MixStep(conv, n, side, k, hs, t, c, tap);
      var coefficient := conv.base[side][tap][c] + k[(side * conv.taps + tap) * conv.groups + c / conv.size];
      var shifted := if t >= tap then hs[t - tap][c] else 0.0;
      var mask := if t % conv.block >= tap then 1.0 else 0.0;
      out[t, c] := out[t, c] + coefficient * shifted * mask;
    }
  }

  lemma BaseFits(conv: Conv, n: nat, side: nat, tap: nat)
    requires conv.Valid(n) && side < 2 && tap < conv.taps
    ensures |conv.base| == 2 && tap < |conv.base[side]| && |conv.base[side][tap]| == n
  {
  }

  /** The convolution as it is run: tap by tap over the whole output. */
  method GroupedConv(conv: Conv, n: nat, side: nat, ks: seq<Vector>, hs: seq<Vector>) returns (out: array2<real>)
    requires conv.Valid(n) && side < 2 && |ks| == |hs| && Tokens(ks, |conv.kernel|) && Tokens(hs, n)
    ensures fresh(out) && out.Length0 == |hs| && out.Length1 == n
    ensures forall t: nat, c: nat :: t < |hs| && c < n ==> out[t, c] == conv.Convolve(n, side, ks, hs)[t][c]
  {
    hide Conv.Mix, Conv.Valid;
    out := new real[|hs|, n]((_, _) => 0.0);
    forall t: nat, c: nat | t < |hs| && c < n ensures out[t, c] == conv.Mix(n, side, ks[t], hs, t, c, 0) {
      MixNothing(conv, n, side, ks[t], hs, t, c);
    }
    for tap := 0 to conv.taps
      invariant forall t: nat, c: nat :: t < |hs| && c < n ==> out[t, c] == conv.Mix(n, side, ks[t], hs, t, c, tap)
    {
      for t := 0 to |hs|
        invariant forall u: nat, c: nat :: u < |hs| && c < n ==>
                    out[u, c] == if u < t then conv.Mix(n, side, ks[u], hs, u, c, tap + 1) else conv.Mix(n, side, ks[u], hs, u, c, tap)
      {
        AddTap(conv, n, side, ks[t], hs, t, tap, out);
      }
    }
  }

  lemma MixNothing(conv: Conv, n: nat, side: nat, k: Vector, hs: seq<Vector>, t: nat, c: nat)
    requires conv.Valid(n) && side < 2 && c < n && |k| == |conv.kernel| && Tokens(hs, n) && t < |hs|
    ensures conv.Mix(n, side, k, hs, t, c, 0) == 0.0
  {
  }

  lemma DivAssoc(a: real, b: real, s: real)
    requires s != 0.0
    ensures a * (b / s) == (a * b) / s
  {
    assert (a * (b / s)) * s == a * ((b / s) * s);
  }

  lemma SumDivided(p: real, q: real, s: real)
    requires s != 0.0
    ensures p / s + q / s == (p + q) / s && 0.0 / s == 0.0
  {
    assert (p / s + q / s) * s == p / s * s + q / s * s;
  }

  lemma TermDivided(conv: Conv, n: nat, side: nat, k: Vector, hs: seq<Vector>, s: Vector, t: nat, c: nat, tap: nat)
    requires conv.Valid(n) && side < 2 && c < n == |s| && |k| == |conv.kernel| && Tokens(hs, n) && t < |hs| && tap < conv.taps && NonZero(s)
    ensures conv.Term(n, side, k, OverAll(hs, s), t, c, tap) == conv.Term(n, side, k, hs, t, c, tap) / s[c]
  {
    hide Conv.Valid, Conv.Coefficient;
    BlockPositive(conv, n);
    WithinBlock(t, conv.block);
    SumDivided(0.0, 0.0, s[c]);
    if tap <= t % conv.block {
      assert OverAll(hs, s)[t - tap][c] == hs[t - tap][c] / s[c];
      DivAssoc(conv.Coefficient(n, side, tap, c, k), hs[t - tap][c], s[c]);
    }
  }

  lemma BlockPositive(conv: Conv, n: nat)
    requires conv.Valid(n)
    ensures conv.block > 0 && conv.size > 0
  {
  }

  lemma {:induction false} MixDivided(conv: Conv, n: nat, side: nat, k: Vector, hs: seq<Vector>, s: Vector, t: nat, c: nat, m: nat)
    requires conv.Valid(n) && side < 2 && c < n == |s| && |k| == |conv.kernel| && Tokens(hs, n) && t < |hs| && m <= conv.taps && NonZero(s)
    ensures conv.Mix(n, side, k, OverAll(hs, s), t, c, m) == conv.Mix(n, side, k, hs, t, c, m) / s[c]
  {
    hide Conv.Valid, Conv.Term;
    if m == 0 {
      SumDivided(0.0, 0.0, s[c]);
    } else {
      MixDivided(conv, n, side, k, hs, s, t, c, m - 1);
      TermDivided(conv, n, side, k, hs, s, t, c, m - 1);
      SumDivided(conv.Mix(n, side, k, hs, t, c, m - 1), conv.Term(n, side, k, hs, t, c, m - 1), s[c]);
    }
  }

  lemma ScaledValid(conv: Conv, n: nat, s: Vector)
    requires conv.Valid(n) && |s| == n
    ensures conv.Scaled(s).Valid(n) && |conv.Scaled(s).kernel| == |conv.kernel|
  {
  }

  lemma SameMix(conv: Conv, n: nat, s: Vector, side: nat, k: Vector, hs: seq<Vector>, t: nat, c: nat, m: nat)
    requires conv.Valid(n) && |s| == n && side < 2 && c < n && |k| == |conv.kernel| && Tokens(hs, n) && t < |hs| && m <= conv.taps
    ensures conv.Scaled(s).Valid(n) && conv.Scaled(s).Mix(n, side, k, hs, t, c, m) == conv.Mix(n, side, k, hs, t, c, m)
    decreases m
  {
    ScaledValid(conv, n, s);
    if m > 0 {
      SameMix(conv, n, s, side, k, hs, t, c, m - 1);
    }
  }

  /** The mixing itself does not look at the projection's weight. */
  lemma SameConvolve(conv: Conv, n: nat, s: Vector, side: nat, ks: seq<Vector>, hs: seq<Vector>)
    requires conv.Valid(n) && |s| == n && side < 2 && |ks| == |hs| && Tokens(ks, |conv.kernel|) && Tokens(hs, n)
    ensures conv.Scaled(s).Valid(n) && |conv.Scaled(s).kernel| == |conv.kernel|
    ensures conv.Scaled(s).Convolve(n, side, ks, hs) == conv.Convolve(n, side, ks, hs)
  {
    hide Conv.Mix, Conv.Valid, ScaleColumns;
    ScaledValid(conv, n, s);
    var a, b := conv.Scaled(s).Convolve(n, side, ks, hs), conv.Convolve(n, side, ks, hs);
    forall t | 0 <= t < |hs| ensures a[t] == b[t] {
      forall c: nat | c < n ensures a[t][c] == b[t][c] {
        SameMix(conv, n, s, side, ks[t], hs, t, c, conv.taps);
      }
    }
  }

  lemma ConvolveDivided(conv: Conv, n: nat, side: nat, ks: seq<Vector>, hs: seq<Vector>, s: Vector)
    requires conv.Valid(n) && |s| == n && side < 2 && |ks| == |hs| && Tokens(ks, |conv.kernel|) && Tokens(hs, n) && NonZero(s)
    ensures conv.Convolve(n, side, ks, OverAll(hs, s)) == OverAll(conv.Convolve(n, side, ks, hs), s)
  {
    hide Conv.Mix, Conv.Valid;
    var a, b := conv.Convolve(n, side, ks, OverAll(hs, s)), OverAll(conv.Convolve(n, side, ks, hs), s);
    forall t | 0 <= t < |hs| ensures a[t] == b[t] {
      forall c: nat | c < n ensures a[t][c] == b[t][c] {
        MixDivided(conv, n, side, ks[t], hs, s, t, c, conv.taps);
      }
    }
  }

  /** Dividing the convolution's input channels and compensating its coefficient projection leaves both
      sides' coefficients as they were, and divides its output, nothing more. */
  lemma ConvCommutes(conv: Conv, n: nat, hs: seq<Vector>, s: Vector)
    requires conv.Valid(n) && |s| == n && Tokens(hs, n) && NonZero(s)
    ensures conv.Scaled(s).Valid(n) && |conv.Scaled(s).kernel| == |conv.kernel|
    ensures conv.Scaled(s).Coefficients(n, OverAll(hs, s)) == conv.Coefficients(n, hs)
    ensures conv.Scaled(s).Convolve(n, 0, conv.Coefficients(n, hs), OverAll(hs, s)) == OverAll(conv.Convolve(n, 0, conv.Coefficients(n, hs), hs), s)
  {
    hide Conv.Mix, Conv.Valid, Conv.Convolve;
    ScaledValid(conv, n, s);
    KernelColumns(conv, n);
    ApplyAllCancels(conv.kernel, hs, s);
    SameConvolve(conv, n, s, 0, conv.Coefficients(n, hs), OverAll(hs, s));
    ConvolveDivided(conv, n, 0, conv.Coefficients(n, hs), hs, s);
  }

  lemma KernelColumns(conv: Conv, n: nat)
    requires conv.Valid(n)
    ensures Columns(conv.kernel, n)
  {
  }

  // ----- the two sides of a layer ------------------------------------------------------

  /** A norm's output: the normalised tokens, channel by channel, times the norm's weight. */
  function Normed(units: seq<Vector>, weight: Vector): (r: seq<Vector>)
    requires Tokens(units, |weight|)
    ensures |r| == |units| && Tokens(r, |weight|) && forall t :: 0 <= t < |r| ==> r[t] == Times(units[t], weight)
  {
    seq(|units|, t requires 0 <= t < |units| && |units[t]| == |weight| => Times(units[t], weight))
  }

  lemma NormFold(units: seq<Vector>, weight: Vector, s: Vector)
    requires Tokens(units, |weight|) && |weight| == |s| && NonZero(s)
    ensures Normed(units, Over(weight, s)) == OverAll(Normed(units, weight), s)
  {
    var a, b := Normed(units, Over(weight, s)), OverAll(Normed(units, weight), s);
    forall t | 0 <= t < |units| ensures a[t] == b[t] {
      forall c | 0 <= c < |s| ensures a[t][c] == b[t][c] {
        DivAssoc(units[t][c], weight[c], s[c]);
      }
    }
  }

  /** What runs between a side's two convolutions keeps tokens and channels. */
  ghost predicate Keeps(inner: seq<Vector> -> seq<Vector>, n: nat) {
    forall hs: seq<Vector> :: |inner(hs)| == |hs| && Tokens(inner(hs), n)
  }

  /** What the projections w make of the prepared tokens. */
  function Prepared(hs: seq<Vector>, n: nat, conv: Conv, w: Matrix): (r: seq<Vector>)
    requires Tokens(hs, n) && conv.Valid(n) && Columns(w, n)
    ensures |r| == |hs|
  {
    ApplyAll(w, conv.Convolve(n, 0, conv.Coefficients(n, hs), hs), n)
  }

  /** One side of a layer: norm, prepare, the projections w of what that gives, what is computed from them,
      finish. */
  function Side(units: seq<Vector>, weight: Vector, conv: Conv, w: Matrix, inner: seq<Vector> -> seq<Vector>): seq<Vector>
    requires Tokens(units, |weight|) && conv.Valid(|weight|) && Columns(w, |weight|) && Keeps(inner, |weight|)
  {
    var n, hs := |weight|, Normed(units, weight);
    conv.Convolve(n, 1, conv.Coefficients(n, hs), inner(Prepared(hs, n, conv, w)))
  }

  /** Dividing the norm's weight, compensating the convolution's coefficient projection and scaling the
      projections' columns leaves the side as it was, for any tokens and whatever is computed from the
      projections. */
  lemma FoldPreserves(units: seq<Vector>, weight: Vector, conv: Conv, w: Matrix, inner: seq<Vector> -> seq<Vector>, s: Vector)
    requires Tokens(units, |weight|) && conv.Valid(|weight|) && Columns(w, |weight|) && Keeps(inner, |weight|)
    requires |s| == |weight| && NonZero(s)
    ensures conv.Scaled(s).Valid(|weight|)
    ensures Side(units, Over(weight, s), conv.Scaled(s), ScaleColumns(w, s), inner) == Side(units, weight, conv, w, inner)
  {
    hide Conv.Valid, Conv.Convolve, Conv.Coefficients, Conv.Scaled, ApplyAll, OverAll, Normed, ScaleColumns, Over;
    var n, hs := |weight|, Normed(units, weight);
    var ks := conv.Coefficients(n, hs);
    var ys := conv.Convolve(n, 0, ks, hs);
    NormFold(units, weight, s);
    ConvCommutes(conv, n, hs, s);
    ApplyAllCancels(w, ys, s);
    SameConvolve(conv, n, s, 1, ks, inner(Prepared(hs, n, conv, w)));
  }

  lemma OneByOne(a: real, x: real)
    ensures Columns([[a]], 1) && Apply([[a]], [x]) == [a * x]
  {
    assert Dot([a], [x], 1) == Dot([a], [x], 0) + a * x;
  }

  // ----- what the fold forgets ----------------------------------------------------------

  /** The vector with one entry of 1. */
  function Basis(n: nat, c: nat): (v: Vector)
    ensures |v| == n && forall i :: 0 <= i < n ==> v[i] == if i == c then 1.0 else 0.0
  {
    seq(n, i => if i == c then 1.0 else 0.0)
  }

  lemma {:induction false} DotBasis(a: Vector, c: nat, n: nat)
    requires n <= |a| && c < |a|
    ensures Dot(a, Basis(|a|, c), n) == if c < n then a[c] else 0.0
  {
    if n > 0 {
      DotBasis(a, c, n - 1);
    }
  }

  lemma {:induction false} DotScaledSame(a: Vector, s: Vector, x: Vector, n: nat)
    requires |a| == |s| == |x| && n <= |a| && forall c :: 0 <= c < |a| ==> s[c] == 1.0 || a[c] == 0.0
    ensures Dot(Times(a, s), x, n) == Dot(a, x, n)
  {
    if n > 0 {
      DotScaledSame(a, s, x, n - 1);
      assert Times(a, s)[n - 1] == a[n - 1];
    }
  }

  /** Scaled columns on an input that is not divided: the same output, for every input, exactly when every
      channel that is used has scale 1. */
  lemma ProjectionKeptIff(w: Matrix, s: Vector)
    requires Columns(w, |s|)
    ensures (forall x: Vector :: |x| == |s| ==> Apply(ScaleColumns(w, s), x) == Apply(w, x)) <==> OnesWhereUsed(w, s)
  {
    hide Apply, ScaleColumns;
    if OnesWhereUsed(w, s) {
      forall x: Vector | |x| == |s| ensures Apply(ScaleColumns(w, s), x) == Apply(w, x) {
        ScaledSame(w, s, x);
      }
    } else {
      var x := ScaledDiffers(w, s);
    }
  }

  /** Every channel that some row uses has scale 1. */
  ghost predicate OnesWhereUsed(kv: Matrix, s: Vector)
    requires Columns(kv, |s|)
  {
    forall r, c :: 0 <= r < |kv| && 0 <= c < |s| ==> s[c] == 1.0 || kv[r][c] == 0.0
  }

  /** Attention keeps tokens and channels, whatever the context. */
  ghost predicate KeepsAll(core: (seq<Vector>, seq<Vector>) -> seq<Vector>, n: nat) {
    forall ps: seq<Vector>, cs: seq<Vector> :: |core(ps, cs)| == |ps| && Tokens(core(ps, cs), n)
  }

  /** The attention side: core attends with the tokens' projections and the context's keys and values. */
  function AttentionSide(units: seq<Vector>, weight: Vector, conv: Conv, w: Matrix, kv: Matrix, context: seq<Vector>,
                         core: (seq<Vector>, seq<Vector>) -> seq<Vector>): seq<Vector>
    requires Tokens(units, |weight|) && conv.Valid(|weight|) && Columns(w, |weight|) && Columns(kv, |weight|)
    requires Tokens(context, |weight|) && KeepsAll(core, |weight|)
  {
    var cs := ApplyAll(kv, context, |weight|);
    Side(units, weight, conv, w, ps => core(ps, cs))
  }

  /** The attention fold changes nothing but the context's keys and values, which it sees through scaled
      projections; where those are as before, so is the whole side. */
  lemma AttentionFold(units: seq<Vector>, weight: Vector, conv: Conv, w: Matrix, kv: Matrix, context: seq<Vector>,
                      core: (seq<Vector>, seq<Vector>) -> seq<Vector>, s: Vector)
    requires Tokens(units, |weight|) && conv.Valid(|weight|) && Columns(w, |weight|) && Columns(kv, |weight|)
    requires Tokens(context, |weight|) && KeepsAll(core, |weight|) && |s| == |weight| && NonZero(s)
    ensures conv.Scaled(s).Valid(|weight|)
    ensures AttentionSide(units, Over(weight, s), conv.Scaled(s), ScaleColumns(w, s), ScaleColumns(kv, s), context, core)
            == AttentionSide(units, weight, conv, w, ScaleColumns(kv, s), context, core)
    ensures OnesWhereUsed(kv, s) ==>
              AttentionSide(units, Over(weight, s), conv.Scaled(s), ScaleColumns(w, s), ScaleColumns(kv, s), context, core)
              == AttentionSide(units, weight, conv, w, kv, context, core)
  {
    hide Side, ApplyAll, ScaleColumns, Conv.Valid, Over, Conv.Scaled;
    var cs := ApplyAll(ScaleColumns(kv, s), context, |weight|);
    FoldPreserves(units, weight, conv, w, ps => core(ps, cs), s);
    if OnesWhereUsed(kv, s) {
      ContextSame(kv, s, context);
    }
  }

  lemma ContextSame(kv: Matrix, s: Vector, context: seq<Vector>)
    requires Columns(kv, |s|) && Tokens(context, |s|) && OnesWhereUsed(kv, s)
    ensures ApplyAll(ScaleColumns(kv, s), context, |s|) == ApplyAll(kv, context, |s|)
  {
    var a, b := ApplyAll(ScaleColumns(kv, s), context, |s|), ApplyAll(kv, context, |s|);
    forall t | 0 <= t < |context| ensures a[t] == b[t] {
      ScaledSame(kv, s, context[t]);
    }
  }

  lemma ScaledSame(kv: Matrix, s: Vector, x: Vector)
    requires Columns(kv, |s|) && |x| == |s| && OnesWhereUsed(kv, s)
    ensures Apply(ScaleColumns(kv, s), x) == Apply(kv, x)
  {
    hide Dot;
    forall r | 0 <= r < |kv| ensures Apply(ScaleColumns(kv, s), x)[r] == Apply(kv, x)[r] {
      DotScaledSame(kv[r], s, x, |s|);
    }
  }

  lemma ScaledDiffers(kv: Matrix, s: Vector) returns (x: Vector)
    requires Columns(kv, |s|) && !OnesWhereUsed(kv, s)
    ensures |x| == |s| && Apply(ScaleColumns(kv, s), x) != Apply(kv, x)
  {
    hide Dot, Times;
    var r, c :| 0 <= r < |kv| && 0 <= c < |s| && s[c] != 1.0 && kv[r][c] != 0.0;
    x := Basis(|s|, c);
    DotBasis(kv[r], c, |s|);
    DotBasis(Times(kv[r], s), c, |s|);
    ProductDiffers(kv[r][c], s[c], Times(kv[r], s)[c]);
    var y, z := Apply(ScaleColumns(kv, s), x), Apply(kv, x);
    assert y[r] == Times(kv[r], s)[c] && z[r] == kv[r][c];
    Unequal(y, z, r);
  }

  lemma Unequal(y: Vector, z: Vector, r: nat)
    requires r < |y| && r < |z| && y[r] != z[r]
    ensures y != z
  {
  }

  lemma ProductDiffers(a: real, s: real, p: real)
    requires a != 0.0 && s != 1.0 && p == a * s
    ensures p != a
  {
    assert a * s - a == a * (s - 1.0);
  }

  /** One channel and one tap; the coefficient is the token itself, and finish changes nothing. */
  function UnitConv(): Conv { Conv([[1.0], [0.0]], [[[0.0]], [[1.0]]], 1, 1, 1, 1) }

  lemma UnitConvIs()
    ensures var c := UnitConv();
            c.Valid(1) && c.kernel == [[1.0], [0.0]] && c.base[0] == [[0.0]] && c.taps == c.groups == c.size == c.block == 1
  {
  }

  /** Without the compensation the fold is wrong: the coefficients see the divided input.  One token. */
  lemma CompensationNeeded()
    ensures UnitConv().Valid(1)
    ensures Prepared(Normed([[1.0]], Over([1.0], [2.0])), 1, UnitConv(), ScaleColumns([[1.0]], [2.0]))
            != Prepared(Normed([[1.0]], [1.0]), 1, UnitConv(), [[1.0]])
  {
    hide Prepared, Conv.Valid, UnitConv, Normed;
    UnitConvIs();
    OneTap(1.0, 1.0, 1.0, 1.0);
    OneTap(0.5, 0.25, 2.0, 0.5);
    assert Times([1.0], [2.0]) == [2.0];
    assert Over([1.0], [2.0]) == [0.5] && ScaleColumns([[1.0]], [2.0]) == [[2.0]];
  }

  /** One token of value 1 behind a norm of weight x, and a projection by w. */
  lemma OneTap(x: real, y: real, w: real, out: real)
    requires y == x * x && out == w * y
    ensures UnitConv().Valid(1) && Prepared(Normed([[1.0]], [x]), 1, UnitConv(), [[w]]) == [[out]]
  {
    hide Apply, UnitConv, Conv.Valid, Conv.Mix, Conv.Convolve, Normed;
    UnitConvIs();
    var conv, hs := UnitConv(), Normed([[1.0]], [x]);
    assert Times([1.0], [x]) == [x];
    assert hs == [[x]];
    TwoByOne(x);
    var ks := conv.Coefficients(1, hs);
    assert ks == [[x, 0.0]];
    OneMix(conv, ks[0], hs, x);
    var ys := conv.Convolve(1, 0, ks, hs);
    assert ys[0] == [y] && ys == [[y]];
    OneByOne(w, y);
    var zs := ApplyAll([[w]], ys, 1);
    assert zs[0] == Apply([[w]], [y]) == [out];
    assert zs == [[out]];
  }

  lemma TwoByOne(x: real)
    ensures Columns([[1.0], [0.0]], 1) && Apply([[1.0], [0.0]], [x]) == [x, 0.0]
  {
    assert Dot([1.0], [x], 0) == 0.0 && Dot([0.0], [x], 0) == 0.0;
  }

  lemma OneMix(conv: Conv, k: Vector, hs: seq<Vector>, x: real)
    requires conv.Valid(1) && conv.taps == conv.groups == conv.size == conv.block == 1 && conv.base[0] == [[0.0]]
    requires |k| == |conv.kernel| && Tokens(hs, 1) && |hs| == 1 && |k| > 0 && k[0] == x == hs[0][0]
    ensures conv.Mix(1, 0, k, hs, 0, 0, 1) == x * x
  {
    OneTerm(conv, k, hs, x);
    MixOne(conv, k, hs);
  }

  lemma MixOne(conv: Conv, k: Vector, hs: seq<Vector>)
    requires conv.Valid(1) && conv.taps == 1 && |k| == |conv.kernel| && Tokens(hs, 1) && |hs| == 1
    ensures conv.Mix(1, 0, k, hs, 0, 0, 1) == conv.Term(1, 0, k, hs, 0, 0, 0)
  {
    hide Conv.Valid, Conv.Term;
  }

  lemma OneTerm(conv: Conv, k: Vector, hs: seq<Vector>, x: real)
    requires conv.Valid(1) && conv.taps == conv.groups == conv.size == conv.block == 1 && conv.base[0] == [[0.0]]
    requires |k| == |conv.kernel| && Tokens(hs, 1) && |hs| == 1 && |k| > 0 && k[0] == x == hs[0][0]
    ensures conv.Term(1, 0, k, hs, 0, 0, 0) == x * x
  {
    assert conv.Place(0, 0, 0) == 0;
    assert conv.Coefficient(1, 0, 0, 0, k) == x;
  }

  // ----- the gated mlp -------------------------------------------------------------------

  /** What the mlp computes of a token's gate and up projections; silu is any function. */
  function Gated(silu: real -> real, g: Vector, u: Vector): (r: Vector)
    requires |g| == |u|
    ensures |r| == |u| && forall j :: 0 <= j < |u| ==> r[j] == silu(g[j]) * u[j]
  {
    seq(|u|, j requires 0 <= j < |u| => silu(g[j]) * u[j])
  }

  /** The gated mlp on an input both projections read. */
  function Mlp(silu: real -> real, gate: Matrix, up: Matrix, down: Matrix, x: Vector): Vector
    requires Columns(gate, |x|) && Columns(up, |x|) && |gate| == |up| && Columns(down, |up|)
  {
    Apply(down, Gated(silu, Apply(gate, x), Apply(up, x)))
  }

  /** Dividing up's rows and scaling down's columns leaves the mlp as it was, the gate untouched. */
  lemma DownFoldPreserves(silu: real -> real, gate: Matrix, up: Matrix, down: Matrix, x: Vector, s: Vector)
    requires Columns(gate, |x|) && Columns(up, |x|) && |gate| == |up| == |s| && Columns(down, |s|) && NonZero(s)
    ensures Columns(DivideRows(up, s), |x|)
    ensures Mlp(silu, gate, DivideRows(up, s), ScaleColumns(down, s), x) == Mlp(silu, gate, up, down, x)
  {
    hide Apply, ScaleColumns, DivideRows, Over, Gated;
    DivideRowsDivides(up, x, s);
    var g, u := Apply(gate, x), Apply(up, x);
    GatedDivided(silu, g, u, s);
    ApplyCancels(down, Gated(silu, g, u), s);
  }

  lemma GatedDivided(silu: real -> real, g: Vector, u: Vector, s: Vector)
    requires |g| == |u| == |s| && NonZero(s)
    ensures Gated(silu, g, Over(u, s)) == Over(Gated(silu, g, u), s)
  {
    forall j | 0 <= j < |u| ensures Gated(silu, g, Over(u, s))[j] == Over(Gated(silu, g, u), s)[j] {
      DivAssoc(silu(g[j]), u[j], s[j]);
    }
  }

  /** The mlp side of a layer: norm, prepare, gated mlp token by token, finish. */
  function MlpSide(silu: real -> real, units: seq<Vector>, weight: Vector, conv: Conv, gate: Matrix, up: Matrix, down: Matrix): seq<Vector>
    requires Tokens(units, |weight|) && conv.Valid(|weight|) && |down| == |weight|
    requires Columns(gate, |weight|) && Columns(up, |weight|) && |gate| == |up| && Columns(down, |up|)
  {
    var n, hs := |weight|, Normed(units, weight);
    var ks := conv.Coefficients(n, hs);
    conv.Convolve(n, 1, ks, MlpAll(silu, gate, up, down, conv.Convolve(n, 0, ks, hs), n))
  }

  function MlpAll(silu: real -> real, gate: Matrix, up: Matrix, down: Matrix, ys: seq<Vector>, n: nat): (r: seq<Vector>)
    requires Tokens(ys, n) && Columns(gate, n) && Columns(up, n) && |gate| == |up| && Columns(down, |up|)
    ensures |r| == |ys| && Tokens(r, |down|) && forall t :: 0 <= t < |r| ==> r[t] == Mlp(silu, gate, up, down, ys[t])
  {
    seq(|ys|, t requires 0 <= t < |ys| && |ys[t]| == n => Mlp(silu, gate, up, down, ys[t]))
  }

  lemma MlpAllFolds(silu: real -> real, gate: Matrix, up: Matrix, down: Matrix, ys: seq<Vector>, s: Vector, t: Vector)
    requires Tokens(ys, |s|) && Columns(gate, |s|) && Columns(up, |s|) && |gate| == |up| == |t| && Columns(down, |t|)
    requires NonZero(s) && NonZero(t)
    ensures Columns(DivideRows(ScaleColumns(up, s), t), |s|)
    ensures MlpAll(silu, ScaleColumns(gate, s), DivideRows(ScaleColumns(up, s), t), ScaleColumns(down, t), OverAll(ys, s), |s|)
            == MlpAll(silu, gate, up, down, ys, |s|)
  {
    hide Apply, ScaleColumns, DivideRows, Over, Gated, Mlp;
    RowsKeepColumns(ScaleColumns(up, s), t, |s|);
    var a := MlpAll(silu, ScaleColumns(gate, s), DivideRows(ScaleColumns(up, s), t), ScaleColumns(down, t), OverAll(ys, s), |s|);
    forall i | 0 <= i < |ys| ensures a[i] == Mlp(silu, gate, up, down, ys[i]) {
      DownFoldPreserves(silu, ScaleColumns(gate, s), ScaleColumns(up, s), down, Over(ys[i], s), t);
      MlpUnscaled(silu, gate, up, down, ys[i], s);
    }
  }

  lemma RowsKeepColumns(w: Matrix, t: Vector, n: nat)
    requires |w| == |t| && NonZero(t) && Columns(w, n)
    ensures Columns(DivideRows(w, t), n)
  {
  }

  lemma MlpUnscaled(silu: real -> real, gate: Matrix, up: Matrix, down: Matrix, y: Vector, s: Vector)
    requires |y| == |s| && Columns(gate, |s|) && Columns(up, |s|) && |gate| == |up| && Columns(down, |up|) && NonZero(s)
    ensures Mlp(silu, ScaleColumns(gate, s), ScaleColumns(up, s), down, Over(y, s)) == Mlp(silu, gate, up, down, y)
  {
    hide Apply, ScaleColumns, Over, Gated;
    ApplyCancels(gate, y, s);
    ApplyCancels(up, y, s);
  }

  /** Both folds of the mlp side, one after the other, as the quantiser applies them: s for what gate and
      up read, t for what down reads. */
  lemma MlpFoldsPreserve(silu: real -> real, units: seq<Vector>, weight: Vector, conv: Conv, gate: Matrix, up: Matrix, down: Matrix,
                         s: Vector, t: Vector)
    requires Tokens(units, |weight|) && conv.Valid(|weight|) && |down| == |weight| == |s| && NonZero(s) && NonZero(t)
    requires Columns(gate, |weight|) && Columns(up, |weight|) && |gate| == |up| == |t| && Columns(down, |up|)
    ensures conv.Scaled(s).Valid(|weight|) && Columns(DivideRows(ScaleColumns(up, s), t), |weight|)
    ensures MlpSide(silu, units, Over(weight, s), conv.Scaled(s),
                    ScaleColumns(gate, s), DivideRows(ScaleColumns(up, s), t), ScaleColumns(down, t))
            == MlpSide(silu, units, weight, conv, gate, up, down)
  {
    hide Conv.Valid, Conv.Convolve, Conv.Coefficients, Conv.Scaled, OverAll, Normed, ScaleColumns, DivideRows, Over, MlpAll;
    var n, hs := |weight|, Normed(units, weight);
    var ks := conv.Coefficients(n, hs);
    var ys := conv.Convolve(n, 0, ks, hs);
    NormFold(units, weight, s);
    ConvCommutes(conv, n, hs, s);
    MlpAllFolds(silu, gate, up, down, ys, s, t);
    SameConvolve(conv, n, s, 1, ks, MlpAll(silu, gate, up, down, ys, n));
  }

  // ----- the scale search ----------------------------------------------------------------

  /** A product, kept out of sight where only its laws matter. */
  function Mul(a: real, b: real): real { a * b }

  function Square(x: real): real { Mul(x, x) }

  /** What quantising gives back for entry c of a row whose columns are scaled. */
  function Restored(w: Vector, s: Vector, c: nat): real
    requires |w| == |s| && c < |w| && |w| % Mxfp4.GROUP == 0 && NonZero(s)
  {
    Mxfp4.RoundTrip(Times(w, s))[c] / s[c]
  }

  /** The weighted squared error of one row after quantising it with scaled columns. */
  function RowError(w: Vector, a: Vector, s: Vector, n: nat): real
    requires |w| == |a| == |s| && n <= |w| && |w| % Mxfp4.GROUP == 0 && NonZero(s)
  {
    if n == 0 then 0.0
    else
      RowError(w, a, s, n - 1) + Square(Mul(Restored(w, s, n - 1) - w[n - 1], a[n - 1]))
  }

  function Error(w: Matrix, a: Vector, s: Vector): real
    requires Columns(w, |a|) && |a| == |s| && |a| % Mxfp4.GROUP == 0 && NonZero(s)
  {
    if w == [] then 0.0 else Error(w[..|w| - 1], a, s) + RowError(w[|w| - 1], a, s, |a|)
  }

  lemma SquarePositive(x: real)
    requires x > 0.0
    ensures Square(x) > 0.0
  {
    hide Mul;
    PositiveTimes(x, x);
  }

  lemma PositiveTimes(a: real, b: real)
    requires a > 0.0 && b > 0.0
    ensures Mul(a, b) > 0.0
  {
  }

  lemma SquareNegated(x: real)
    ensures Square(-x) == Square(x)
  {
  }

  lemma SquareZero()
    ensures Square(0.0) == 0.0
  {
  }

  lemma SquareIsZero(x: real)
    ensures Square(x) >= 0.0 && (Square(x) == 0.0 <==> x == 0.0)
  {
    hide Square;
    if x > 0.0 {
      SquarePositive(x);
    } else if x < 0.0 {
      SquarePositive(-x);
      SquareNegated(x);
    } else {
      SquareZero();
    }
  }

  lemma WeighedIsZero(d: real, a: real)
    ensures Mul(d, a) == 0.0 <==> d == 0.0 || a == 0.0
  {
  }

  /** The error is never negative, and zero exactly when every weight that matters is given back. */
  lemma {:induction false} RowErrorZeroIff(w: Vector, a: Vector, s: Vector, n: nat)
    requires |w| == |a| == |s| && n <= |w| && |w| % Mxfp4.GROUP == 0 && NonZero(s)
    ensures RowError(w, a, s, n) >= 0.0
    ensures RowError(w, a, s, n) == 0.0 <==> forall c :: 0 <= c < n ==> GivenBack(w, a, s, c)
  {
    hide Restored, Square, Deviation, Mul, GivenBack, Mxfp4.RoundTrip, Times;
    if n > 0 {
      RowErrorZeroIff(w, a, s, n - 1);
      RowErrorStep(w, a, s, n - 1);
      hide RowError, GivenBack;
      assert (forall c :: 0 <= c < n ==> GivenBack(w, a, s, c))
        <==> (forall c :: 0 <= c < n - 1 ==> GivenBack(w, a, s, c)) && GivenBack(w, a, s, n - 1);
    }
  }

  /** Weight c comes back as it was, or its channel carries no weight. */
  ghost predicate GivenBack(w: Vector, a: Vector, s: Vector, c: nat)
    requires |w| == |a| == |s| && c < |w| && |w| % Mxfp4.GROUP == 0 && NonZero(s)
  {
    Restored(w, s, c) == w[c] || a[c] == 0.0
  }

  lemma RowErrorStep(w: Vector, a: Vector, s: Vector, c: nat)
    requires |w| == |a| == |s| && c < |w| && |w| % Mxfp4.GROUP == 0 && NonZero(s)
    ensures var more := RowError(w, a, s, c + 1) - RowError(w, a, s, c);
            more == Deviation(w[c], Restored(w, s, c), a[c]) && more >= 0.0 && (more == 0.0 <==> GivenBack(w, a, s, c))
  {
    hide Square, Restored, Deviation, Mul;
    var d := Restored(w, s, c) - w[c];
    SquareIsZero(Mul(d, a[c]));
    WeighedIsZero(d, a[c]);
    DeviationIs(w[c], Restored(w, s, c), a[c]);
  }

  lemma {:induction false} ErrorZeroIff(w: Matrix, a: Vector, s: Vector)
    requires Columns(w, |a|) && |a| == |s| && |a| % Mxfp4.GROUP == 0 && NonZero(s)
    ensures Error(w, a, s) >= 0.0
    ensures Error(w, a, s) == 0.0 <==>
              forall r, c :: 0 <= r < |w| && 0 <= c < |a| ==> GivenBack(w[r], a, s, c)
  {
    hide RowError, GivenBack;
    if w != [] {
      ErrorZeroIff(w[..|w| - 1], a, s);
      RowErrorZeroIff(w[|w| - 1], a, s, |a|);
    }
  }

  /** The squared deviation of one weight, times the squared magnitude of its channel. */
  function Deviation(w: real, restored: real, a: real): real {
    ((restored - w) * (restored - w)) * (a * a)
  }

  lemma DeviationIs(w: real, restored: real, a: real)
    ensures Square(Mul(restored - w, a)) == Deviation(w, restored, a)
  {
    var d := restored - w;
    assert (d * a) * (d * a) == (d * d) * (a * a);
  }

  lemma RowErrorStart(w: Vector, a: Vector, s: Vector)
    requires |w| == |a| == |s| && |w| % Mxfp4.GROUP == 0 && NonZero(s)
    ensures RowError(w, a, s, 0) == 0.0
  {
  }

  lemma RestoredIs(w: Vector, s: Vector, c: nat)
    requires |w| == |s| && c < |w| && |w| % Mxfp4.GROUP == 0 && NonZero(s)
    ensures Restored(w, s, c) == Mxfp4.RoundTrip(Times(w, s))[c] / s[c]
  {
  }

  /** The error measured entry by entry. */
  method MeasureError(w: Matrix, a: Vector, s: Vector) returns (err: real)
    requires Columns(w, |a|) && |a| == |s| && |a| % Mxfp4.GROUP == 0 && NonZero(s)
    ensures err == Error(w, a, s)
  {
    hide RowError, Restored, Deviation, Mxfp4.RoundTrip;
    err := 0.0;
    for r := 0 to |w|
      invariant err == Error(w[..r], a, s)
    {
      var restored := Mxfp4.RoundTrip(Times(w[r], s));
      ghost var before := err;
      assert RowError(w[r], a, s, 0) == 0.0 by { RowErrorStart(w[r], a, s); }
      for c := 0 to |a|
        invariant err == before + RowError(w[r], a, s, c)
      {
        assert Restored(w[r], s, c) == restored[c] / s[c] by { RestoredIs(w[r], s, c); }
        RowErrorStep(w[r], a, s, c);
        err := err + Deviation(w[r][c], restored[c] / s[c], a[c]);
      }
      assert w[..r + 1][..r] == w[..r];
    }
    assert w[..|w|] == w;
  }

  /** The strided rows the search looks at. */
  function Sampled(w: Matrix, maxRows: nat): (r: Matrix)
    requires maxRows > 0
    ensures |r| <= maxRows && forall i :: 0 <= i < |r| ==> r[i] in w
    ensures |w| <= maxRows ==> r == w
    ensures |w| > maxRows ==> |r| == maxRows && forall i: nat, j: nat :: i < maxRows && j < |w| && j == i * (|w| / maxRows) ==> r[i] == w[j]
  {
    if |w| <= maxRows then w
    else
      var step := |w| / maxRows;
      StrideFits(|w|, maxRows);
      seq(maxRows, i requires 0 <= i < maxRows && i * step < |w| => w[i * step])
  }

  lemma StrideFits(n: nat, m: nat)
    requires 0 < m < n
    ensures n / m >= 1 && forall i :: 0 <= i < m ==> 0 <= i * (n / m) < n
  {
    var step := n / m;
    assert n == step * m + n % m;
    if step < 1 {
      assert false;
    }
    forall i | 0 <= i < m ensures 0 <= i * step < n {
      MulGap(i, m, step);
    }
  }

  // The candidate scales: a power of the normalised activation magnitudes, clamped, divided by its
  // geometric mean.

  const FLOOR := 0.00000001

  /** x to the power alpha, and the exponential of a vector's mean logarithm. */
  datatype Operations = Operations(pow: (real, real) -> real, geo: Vector -> real)

  /** The zeroth power is 1, and an exponential is positive. */
  ghost predicate Lawful(p: Operations) {
    (forall x: real :: ZerothPower(p, x)) && forall v: Vector :: p.geo(v) > 0.0
  }

  ghost predicate ZerothPower(p: Operations, x: real) { p.pow(x, 0.0) == 1.0 }

  type Powers = p: Operations | Lawful(p) ghost witness Operations((_: real, _: real) => 1.0, (_: Vector) => 1.0)

  function Product(v: Vector): real {
    if v == [] then 1.0 else Product(v[..|v| - 1]) * v[|v| - 1]
  }

  function Power(g: real, n: nat): real {
    if n == 0 then 1.0 else Power(g, n - 1) * g
  }

  /** g is the geometric mean of v: the positive number whose |v|-th power is the product of v. */
  ghost predicate IsGeometricMean(g: real, v: Vector) { g > 0.0 && Power(g, |v|) == Product(v) }

  function Ones(n: nat): (v: Vector)
    ensures |v| == n && forall i :: 0 <= i < n ==> v[i] == 1.0
  {
    seq(n, _ => 1.0)
  }

  function OverOne(v: Vector, c: real): (r: Vector)
    requires c != 0.0
    ensures |r| == |v| && forall i :: 0 <= i < |v| ==> r[i] == v[i] / c
  {
    seq(|v|, i requires 0 <= i < |v| => v[i] / c)
  }

  function Clamped(x: real): (r: real)
    ensures 0.01 <= r <= 100.0
    ensures 0.01 <= x <= 100.0 ==> r == x
  {
    if x < 0.01 then 0.01 else if x > 100.0 then 100.0 else x
  }

  /** The measured magnitudes, kept off zero. */
  function Floored(a: Vector): (r: Vector)
    ensures |r| == |a| && forall c :: 0 <= c < |a| ==> r[c] >= FLOOR && (a[c] >= FLOOR ==> r[c] == a[c])
  {
    seq(|a|, c requires 0 <= c < |a| => if a[c] < FLOOR then FLOOR else a[c])
  }

  function Total(a: Vector): real {
    if a == [] then 0.0 else Total(a[..|a| - 1]) + a[|a| - 1]
  }

  lemma {:induction false} TotalPositive(a: Vector)
    requires forall c :: 0 <= c < |a| ==> a[c] >= FLOOR
    ensures a != [] ==> Total(a) > 0.0
  {
    if a != [] {
      TotalPositive(a[..|a| - 1]);
    }
  }

  /** Divided by their mean. */
  function Normalised(a: Vector): (r: Vector)
    requires forall c :: 0 <= c < |a| ==> a[c] >= FLOOR
    ensures |r| == |a|
  {
    if a == [] then []
    else
      TotalPositive(a);
      OverOne(a, Total(a) / |a| as real)
  }

  lemma {:induction false} TotalOver(a: Vector, c: real)
    requires c != 0.0
    ensures Total(OverOne(a, c)) == Total(a) / c
  {
    if a != [] {
      var n := |a| - 1;
      TotalOver(a[..n], c);
      assert OverOne(a, c)[..n] == OverOne(a[..n], c);
    }
  }

  /** The normalised magnitudes have mean 1 and the proportions of the measured ones. */
  lemma NormalisedMean(a: Vector)
    requires a != [] && forall c :: 0 <= c < |a| ==> a[c] >= FLOOR
    ensures Total(Normalised(a)) == |a| as real
    ensures forall i, j :: 0 <= i < |a| && 0 <= j < |a| ==> Mul(Normalised(a)[i], a[j]) == Mul(Normalised(a)[j], a[i])
  {
    TotalPositive(a);
    var c := Total(a) / |a| as real;
    TotalOver(a, c);
    MeanDivides(Total(a), |a| as real);
    forall i, j | 0 <= i < |a| && 0 <= j < |a| ensures Mul(Normalised(a)[i], a[j]) == Mul(Normalised(a)[j], a[i]) {
      CrossTimes(a[i], a[j], c);
    }
  }

  lemma MeanDivides(t: real, n: real)
    requires t > 0.0 && n > 0.0
    ensures t / n > 0.0 && t / (t / n) == n
  {
    assert (t / n) * n == t;
    assert t / n > 0.0;
    assert n * (t / n) == t;
  }

  lemma CrossTimes(x: real, y: real, c: real)
    requires c != 0.0
    ensures Mul(x / c, y) == Mul(y / c, x)
  {
    assert (x / c) * y == (x * y) / c == (y / c) * x;
  }

  function Raised(p: Powers, an: Vector, alpha: real): (r: Vector)
    ensures |r| == |an| && forall c :: 0 <= c < |r| ==> r[c] == Clamped(p.pow(an[c], alpha))
  {
    seq(|an|, c requires 0 <= c < |an| => Clamped(p.pow(an[c], alpha)))
  }

  function CandidateScale(p: Powers, an: Vector, alpha: real): (s: Vector)
    ensures |s| == |an| && Positive(s) && NonZero(s)
  {
    var r := Raised(p, an, alpha);
    OverPositive(r, p.geo(r));
    OverOne(r, p.geo(r))
  }

  lemma OverPositive(v: Vector, c: real)
    requires Positive(v) && c > 0.0
    ensures Positive(OverOne(v, c))
  {
  }

  lemma {:induction false} PowerOrder(g: real, n: nat)
    requires g > 0.0
    ensures Power(g, n) > 0.0
    ensures n > 0 ==> (g < 1.0 ==> Power(g, n) < 1.0) && (g > 1.0 ==> Power(g, n) > 1.0)
    ensures g == 1.0 ==> Power(g, n) == 1.0
  {
    if n > 0 {
      PowerOrder(g, n - 1);
      ProductOrder(Power(g, n - 1), g);
    }
  }

  lemma ProductOrder(p: real, g: real)
    requires p > 0.0 && g > 0.0
    ensures p * g > 0.0 && (p <= 1.0 && g < 1.0 ==> p * g < 1.0) && (p >= 1.0 && g > 1.0 ==> p * g > 1.0)
  {
    if g < 1.0 {
      assert p * (1.0 - g) > 0.0;
    } else {
      assert p * (g - 1.0) >= 0.0;
      if g > 1.0 {
        assert p * (g - 1.0) > 0.0;
      }
    }
  }

  /** Dividing every entry by c divides the product by c, once for each. */
  lemma {:induction false} ProductOver(v: Vector, c: real)
    requires c != 0.0
    ensures Product(OverOne(v, c)) * Power(c, |v|) == Product(v)
  {
    if v != [] {
      var n := |v| - 1;
      ProductOver(v[..n], c);
      assert OverOne(v, c)[..n] == OverOne(v[..n], c);
      FactorOut(Product(OverOne(v[..n], c)), v[n], c, Power(c, n));
    }
  }

  lemma FactorOut(p: real, a: real, c: real, q: real)
    requires c != 0.0
    ensures (p * (a / c)) * (q * c) == (p * q) * a
  {
    assert (p * (a / c)) * (q * c) == (p * q) * ((a / c) * c);
  }

  lemma CancelOne(a: real, c: real, p: real)
    requires a * c == p && p == c && c > 0.0
    ensures a == 1.0
  {
    assert (a - 1.0) * c == 0.0;
  }

  /** Every candidate has product 1, so its geometric mean is 1 and nothing else: all that is used is that
      what the raised magnitudes are divided by is their geometric mean. */
  lemma CandidateBalanced(p: Powers, an: Vector, alpha: real)
    requires an != [] && IsGeometricMean(p.geo(Raised(p, an, alpha)), Raised(p, an, alpha))
    ensures Product(CandidateScale(p, an, alpha)) == 1.0
    ensures forall g: real :: IsGeometricMean(g, CandidateScale(p, an, alpha)) <==> g == 1.0
  {
    hide Product, Power, OverOne, Raised;
    var r, s := Raised(p, an, alpha), CandidateScale(p, an, alpha);
    var g := p.geo(r);
    ProductOver(r, g);
    PowerOrder(g, |r|);
    assert s == OverOne(r, g);
    CancelOne(Product(s), Power(g, |r|), Product(r));
    forall m: real ensures IsGeometricMean(m, s) <==> m == 1.0 {
      if m > 0.0 {
        PowerOrder(m, |s|);
      }
    }
  }

  /** Two magnitudes, 1 and 4, at exponent 1: there is such a mean, 2, and the candidate is (1/2, 2). */
  lemma CandidateExample() returns (p: Powers)
    ensures IsGeometricMean(p.geo(Raised(p, [1.0, 4.0], 1.0)), Raised(p, [1.0, 4.0], 1.0))
    ensures CandidateScale(p, [1.0, 4.0], 1.0) == [0.5, 2.0]
  {
    var ops := Operations((x: real, alpha: real) => if alpha == 0.0 then 1.0 else x, (v: Vector) => if v == [1.0, 4.0] then 2.0 else 1.0);
    assert Lawful(ops) by {
      forall x: real ensures ZerothPower(ops, x) {
      }
    }
    p := ops;
    var v := [1.0, 4.0];
    assert Raised(p, v, 1.0) == v;
    ProductOfTwo(1.0, 4.0);
    PowerTwo(2.0);
    assert OverOne(v, 2.0) == [0.5, 2.0];
  }

  lemma ProductOfTwo(a: real, b: real)
    ensures Product([a, b]) == a * b
  {
    assert [a, b][..1] == [a] && [a][..0] == [];
    assert Product([]) == 1.0;
    assert Product([a]) == a;
  }

  lemma PowerTwo(g: real)
    ensures Power(g, 2) == g * g
  {
    assert Power(g, 0) == 1.0 && Power(g, 1) == g;
  }

  /** Exponent 0 means no scaling. */
  lemma CandidateZero(p: Powers, an: Vector)
    requires an != [] ==> IsGeometricMean(p.geo(Ones(|an|)), Ones(|an|))
    ensures CandidateScale(p, an, 0.0) == Ones(|an|)
  {
    hide Power, Product;
    forall c | 0 <= c < |an| ensures Raised(p, an, 0.0)[c] == 1.0 {
      assert ZerothPower(p, an[c]);
    }
    assert Raised(p, an, 0.0) == Ones(|an|);
    if an != [] {
      ProductOfOnes(|an|);
      PowerOrder(p.geo(Ones(|an|)), |an|);
      assert OverOne(Ones(|an|), 1.0) == Ones(|an|);
    }
  }

  lemma {:induction false} ProductOfOnes(n: nat)
    ensures Product(Ones(n)) == 1.0
  {
    if n > 0 {
      ProductOfOnes(n - 1);
      assert Ones(n)[..n - 1] == Ones(n - 1);
    }
  }

  /** Candidate i has the least error, and no earlier one has as little. */
  ghost predicate FirstBest(p: Powers, rows: Matrix, a: Vector, an: Vector, grid: seq<real>, i: nat, n: nat)
    requires Columns(rows, |a|) && |an| == |a| && |a| % Mxfp4.GROUP == 0 && n <= |grid|
  {
    && i < n
    && (forall j :: 0 <= j < n ==> ErrorOf(p, rows, a, an, grid[i]) <= ErrorOf(p, rows, a, an, grid[j]))
    && forall j :: 0 <= j < i ==> ErrorOf(p, rows, a, an, grid[i]) < ErrorOf(p, rows, a, an, grid[j])
  }

  /** There is one such candidate. */
  lemma FirstBestUnique(p: Powers, rows: Matrix, a: Vector, an: Vector, grid: seq<real>, i: nat, j: nat, n: nat)
    requires Columns(rows, |a|) && |an| == |a| && |a| % Mxfp4.GROUP == 0 && n <= |grid|
    requires FirstBest(p, rows, a, an, grid, i, n) && FirstBest(p, rows, a, an, grid, j, n)
    ensures i == j
  {
    hide ErrorOf;
    var e := seq(n, k requires 0 <= k < n => ErrorOf(p, rows, a, an, grid[k]));
    assert e[i] == ErrorOf(p, rows, a, an, grid[i]) && e[j] == ErrorOf(p, rows, a, an, grid[j]);
  }

  function ErrorOf(p: Powers, rows: Matrix, a: Vector, an: Vector, alpha: real): real
    requires Columns(rows, |a|) && |an| == |a| && |a| % Mxfp4.GROUP == 0
  {
    Error(rows, a, CandidateScale(p, an, alpha))
  }

  /** The scale, its exponent and its error. */
  datatype Found = Found(s: Vector, alpha: real, err: real)

  /** The search over the candidate exponents: a running best over the sampled rows. */
  method SearchScale(p: Powers, w: Matrix, magnitudes: Vector, grid: seq<real>, maxRows: nat) returns (best: Option<Found>)
    requires maxRows > 0 && Columns(w, |magnitudes|) && |magnitudes| % Mxfp4.GROUP == 0
    ensures Columns(Sampled(w, maxRows), |magnitudes|)
    ensures best.None? <==> grid == []
    ensures best.Some? ==>
              var rows, a := Sampled(w, maxRows), Floored(magnitudes);
              var an := Normalised(a);
              && (exists i: nat :: FirstBest(p, rows, a, an, grid, i, |grid|) && best.value.alpha == grid[i])
              && best.value.s == CandidateScale(p, an, best.value.alpha) && best.value.err == Error(rows, a, best.value.s)
  {
    hide Error, RowError, Sampled, CandidateScale, Normalised, Floored;
    var rows, a := Sampled(w, maxRows), Floored(magnitudes);
    var an := Normalised(a);
    best := None;
    ghost var at: nat := 0;
    for j := 0 to |grid|
      invariant best.None? <==> j == 0
      invariant best.Some? ==> at < j && best.value.alpha == grid[at] && best.value.s == CandidateScale(p, an, grid[at])
      invariant best.Some? ==> best.value.err == ErrorOf(p, rows, a, an, grid[at]) && FirstBest(p, rows, a, an, grid, at, j)
    {
      var s := CandidateScale(p, an, grid[j]);
      var err := MeasureError(rows, a, s);
      if best.None? || err < best.value.err {
        best, at := Some(Found(s, grid[j], err)), j;
      }
    }
  }

  /** With exponent 0 among the candidates the search never does worse than plain rounding, by its own
      measure. */
  lemma SearchNeverWorse(p: Powers, rows: Matrix, a: Vector, an: Vector, grid: seq<real>, i: nat, k: nat)
    requires (a != [] ==> IsGeometricMean(p.geo(Ones(|a|)), Ones(|a|))) && Columns(rows, |a|) && |an| == |a| && |a| % Mxfp4.GROUP == 0
    requires FirstBest(p, rows, a, an, grid, i, |grid|) && k < |grid| && grid[k] == 0.0
    ensures ErrorOf(p, rows, a, an, grid[i]) <= Error(rows, a, Ones(|a|))
  {
    hide Error, CandidateScale;
    CandidateZero(p, an);
  }
}
