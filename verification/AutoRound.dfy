/** AutoRound W4A8: the problem a GEMM launch is given, the slow reference it must agree with, and
    the algebra that connects the kernels' accumulation order to it.  Arithmetic is exact. */
module AutoRound {
  import opened Basics

  const GROUP: nat := 128

  /** A byte, held in the low eight bits. */
  type Byte = bv32

  type EightCodes = v: seq<nat> | |v| == 8 witness [0, 0, 0, 0, 0, 0, 0, 0]
  type EightBytes = v: seq<Byte> | |v| == 8 witness [0, 0, 0, 0, 0, 0, 0, 0]

  /** How bytes and packed words are read: the value of an activation or weight byte, the eight codes
      of a word, and the eight weight bytes a kernel unpacks from it. */
  datatype Format = Format(value: Byte -> real, codes: bv32 -> EightCodes, unpack: bv32 -> EightBytes) {
    /** Unpacking is exact: byte j has the value code j minus the zero point 8. */
    ghost predicate Faithful() {
      forall w, j :: 0 <= j < 8 ==> value(unpack(w)[j]) == codes(w)[j] as real - 8.0
    }
  }

  // ------------------------------------------------------------------ one output element

  /** What one output element depends on: a row of activations and its scale, a column of
      zero-centred weights and its group scales. */
  datatype Element = Element(x: seq<real>, xs: real, w: seq<real>, s: seq<real>) {
    predicate Valid() { |x| == |w| == GROUP * |s| }
  }

  /** The first k terms of the dequantise-then-multiply sum, (x * xs) * (w * s). */
  ghost function RefSum(d: Element, k: nat): real
    requires d.Valid() && k <= |d.x|
  {
    if k == 0 then 0.0 else RefSum(d, k - 1) + (d.x[k - 1] * d.xs) * (d.w[k - 1] * d.s[(k - 1) / GROUP])
  }

  ghost function Ref(d: Element): real
    requires d.Valid()
  {
    RefSum(d, |d.x|)
  }

  /** The unscaled dot product over k in [lo, hi). */
  ghost function Dot(x: seq<real>, w: seq<real>, lo: nat, hi: nat): real
    requires hi <= |x| == |w|
    decreases hi
  {
    if hi <= lo then 0.0 else Dot(x, w, lo, hi - 1) + x[hi - 1] * w[hi - 1]
  }

  /** The scaled sum over the groups in [lo, hi): what an accumulator holds. */
  ghost function GroupSum(d: Element, lo: nat, hi: nat): real
    requires d.Valid() && hi <= |d.s|
    decreases hi
  {
    if hi <= lo then 0.0
    else GroupSum(d, lo, hi - 1) + d.s[hi - 1] * Dot(d.x, d.w, GROUP * (hi - 1), GROUP * hi)
  }

  lemma {:induction false} DotSplit(x: seq<real>, w: seq<real>, lo: nat, mid: nat, hi: nat)
    requires lo <= mid <= hi <= |x| == |w|
    ensures Dot(x, w, lo, hi) == Dot(x, w, lo, mid) + Dot(x, w, mid, hi)
    decreases hi
  {
    if mid < hi {
      DotSplit(x, w, lo, mid, hi - 1);
    }
  }

  lemma {:induction false} GroupSumSplit(d: Element, lo: nat, mid: nat, hi: nat)
    requires d.Valid() && lo <= mid <= hi <= |d.s|
    ensures GroupSum(d, lo, hi) == GroupSum(d, lo, mid) + GroupSum(d, mid, hi)
    decreases hi
  {
    if mid < hi {
      GroupSumSplit(d, lo, mid, hi - 1);
    }
  }

  lemma Distribute(x: real, xs: real, w: real, s: real, dot: real)
    ensures xs * (s * (dot + x * w)) == xs * (s * dot) + (x * xs) * (w * s)
  {
  }

  lemma {:induction false} RefSumWithinGroup(d: Element, g: nat, j: nat)
    requires d.Valid() && g < |d.s| && j <= GROUP
    ensures RefSum(d, GROUP * g + j)
            == RefSum(d, GROUP * g) + d.xs * (d.s[g] * Dot(d.x, d.w, GROUP * g, GROUP * g + j))
  {
    if j > 0 {
      RefSumWithinGroup(d, g, j - 1);
      var k := GROUP * g + j - 1;
      assert k / GROUP == g;
      Distribute(d.x[k], d.xs, d.w[k], d.s[g], Dot(d.x, d.w, GROUP * g, k));
    }
  }

  ghost function Sum(t: seq<real>, n: nat): real
    requires n <= |t|
  {
    if n == 0 then 0.0 else Sum(t, n - 1) + t[n - 1]
  }

  ghost function ScaledSum(t: seq<real>, xs: real, n: nat): real
    requires n <= |t|
  {
    if n == 0 then 0.0 else ScaledSum(t, xs, n - 1) + xs * t[n - 1]
  }

  lemma {:induction false} ScaledSumIsScaled(t: seq<real>, xs: real, n: nat)
    requires n <= |t|
    ensures ScaledSum(t, xs, n) == Sum(t, n) * xs
  {
    if n > 0 {
      ScaledSumIsScaled(t, xs, n - 1);
    }
  }

  /** The share of each group in an accumulator. */
  ghost function GroupTerms(d: Element): (t: seq<real>)
    requires d.Valid()
    ensures |t| == |d.s|
  {
    seq(|d.s|, g requires 0 <= g < |d.s| => d.s[g] * Dot(d.x, d.w, GROUP * g, GROUP * g + GROUP))
  }

  lemma {:induction false} GroupSumIsSum(d: Element, g: nat)
    requires d.Valid() && g <= |d.s|
    ensures GroupSum(d, 0, g) == Sum(GroupTerms(d), g)
  {
    if g > 0 {
      GroupSumIsSum(d, g - 1);
      assert GROUP * (g - 1) + GROUP == GROUP * g;
    }
  }

  lemma {:induction false} RefSumIsScaledSum(d: Element, g: nat)
    requires d.Valid() && g <= |d.s|
    ensures RefSum(d, GROUP * g) == ScaledSum(GroupTerms(d), d.xs, g)
  {
    if g > 0 {
      RefSumIsScaledSum(d, g - 1);
      RefSumWithinGroup(d, g - 1, GROUP);
    }
  }

  /** Scaling every group once and the row once at the end is the reference's term-by-term scaling. */
  lemma RefIsScaledGroupSum(d: Element)
    requires d.Valid()
    ensures Ref(d) == GroupSum(d, 0, |d.s|) * d.xs
  {
    GroupSumIsSum(d, |d.s|);
    RefSumIsScaledSum(d, |d.s|);
    ScaledSumIsScaled(GroupTerms(d), d.xs, |d.s|);
  }

  // ------------------------------------------------------------------ the matrices

  /** A is [M, K], W is [N, K/8] with eight codes to a word, S is [K/128, N]. */
  datatype Problem = Problem(fmt: Format, M: nat, N: nat, K: nat, A: seq<Byte>, W: seq<bv32>, S: seq<real>, As: seq<real>) {
    ghost predicate Valid() {
      && fmt.Faithful()
      && M >= 1 && N >= 1 && K % GROUP == 0
      && |A| == Offset(M, K) && |W| == Offset(N, K / 8) && |S| == Offset(K / GROUP, N) && |As| == M
    }

    function Groups(): nat { K / GROUP }

    function Activation(m: nat, k: nat): Byte
      requires |A| == Offset(M, K) && m < M && k < K
    {
      OffsetMono(m, M, K);
      A[Offset(m, K) + k]
    }

    /** Word j of column n, holding its codes 8j .. 8j + 7. */
    function Word(n: nat, j: nat): bv32
      requires |W| == Offset(N, K / 8) && n < N && j < K / 8
    {
      OffsetMono(n, N, K / 8);
      W[Offset(n, K / 8) + j]
    }

    function Scale(g: nat, n: nat): real
      requires |S| == Offset(K / GROUP, N) && g < K / GROUP && n < N
    {
      OffsetMono(g, K / GROUP, N);
      S[Offset(g, N) + n]
    }

    ghost function Row(m: nat): (x: seq<real>)
      requires |A| == Offset(M, K) && m < M
      ensures |x| == K && forall k :: 0 <= k < K ==> x[k] == fmt.value(Activation(m, k))
    {
      seq(K, k requires 0 <= k < K => fmt.value(Activation(m, k)))
    }

    ghost function Col(n: nat): (w: seq<real>)
      requires |W| == Offset(N, K / 8) && K % GROUP == 0 && n < N
      ensures |w| == K && forall k :: 0 <= k < K ==> w[k] == fmt.codes(Word(n, k / 8))[k % 8] as real - 8.0
    {
      seq(K, k requires 0 <= k < K => fmt.codes(Word(n, k / 8))[k % 8] as real - 8.0)
    }

    ghost function Scales(n: nat): (s: seq<real>)
      requires |S| == Offset(K / GROUP, N) && n < N
      ensures |s| == Groups() && forall g :: 0 <= g < Groups() ==> s[g] == Scale(g, n)
    {
      seq(Groups(), g requires 0 <= g < Groups() => Scale(g, n))
    }

    ghost function At(m: nat, n: nat): (d: Element)
      requires Valid() && m < M && n < N
      ensures d.Valid() && |d.x| == K && |d.s| == Groups() && d.xs == As[m]
    {
      Element(Row(m), As[m], Col(n), Scales(n))
    }
  }

  // ------------------------------------------------------------------ the result over the flat arrays

  lemma FlatPlace(row: nat, stride: nat, rows: nat, c: nat)
    requires row < rows && c < stride
    ensures 0 <= row * stride + c < Offset(rows, stride) && Offset(row, stride) == row * stride
  {
    OffsetIsProduct(row, stride);
    OffsetMono(row, rows, stride);
  }

  /** The three places that term i of output (m, n) is read from. */
  lemma FlatPlaces(p: Problem, m: nat, n: nat, i: nat)
    requires p.Valid() && m < p.M && n < p.N && i < p.K
    ensures 0 <= m * p.K + i < |p.A| && m * p.K == Offset(m, p.K)
    ensures i / 8 < p.K / 8 && 0 <= n * (p.K / 8) + i / 8 < |p.W| && n * (p.K / 8) == Offset(n, p.K / 8)
    ensures i / 128 < p.K / 128 && 0 <= i / 128 * p.N + n < |p.S| && i / 128 * p.N == Offset(i / 128, p.N)
  {
    WordWithin(p.K, i);
    hide Offset;
    FlatPlace(m, p.K, p.M, i);
    FlatPlace(n, p.K / 8, p.N, i / 8);
    FlatPlace(i / 128, p.N, p.K / 128, n);
  }

  /** Term i of output (m, n), read straight from the flat arrays: activations row by row, words of eight
      codes column by column, group scales group by group. */
  ghost function FlatTerm(p: Problem, m: nat, n: nat, i: nat): real
    requires p.Valid() && m < p.M && n < p.N && i < p.K
  {
    FlatPlaces(p, m, n, i);
    Scaled(p.fmt.value(p.A[m * p.K + i]), p.As[m], p.fmt.codes(p.W[n * (p.K / 8) + i / 8])[i % 8], p.S[i / 128 * p.N + n])
  }

  /** A dequantised activation times a dequantised weight. */
  function Scaled(x: real, xs: real, code: nat, s: real): real { (x * xs) * ((code as real - 8.0) * s) }

  /** The first k of them. */
  ghost function FlatSum(p: Problem, m: nat, n: nat, k: nat): real
    requires p.Valid() && m < p.M && n < p.N && k <= p.K
  {
    if k == 0 then 0.0 else FlatSum(p, m, n, k - 1) + FlatTerm(p, m, n, k - 1)
  }

  lemma FlatTermIs(p: Problem, m: nat, n: nat, i: nat)
    requires p.Valid() && m < p.M && n < p.N && i < p.K
    ensures var d := p.At(m, n); FlatTerm(p, m, n, i) == (d.x[i] * d.xs) * (d.w[i] * d.s[i / GROUP])
  {
    hide Offset, Problem.Valid;
    FlatPlaces(p, m, n, i);
  }

  /** The reference is that sum. */
  lemma {:induction false} FlatSumIs(p: Problem, m: nat, n: nat, k: nat)
    requires p.Valid() && m < p.M && n < p.N && k <= p.K
    ensures FlatSum(p, m, n, k) == RefSum(p.At(m, n), k)
  {
    hide FlatTerm, Problem.At;
    if k > 0 {
      FlatSumIs(p, m, n, k - 1);
      FlatTermIs(p, m, n, k - 1);
    }
  }

  /** The same sizes, and the same entries wherever output (m, n) reads. */
  ghost predicate AgreeFor(p: Problem, q: Problem, m: nat, n: nat)
    requires p.Valid() && q.Valid() && m < p.M
  {
    && q.fmt == p.fmt && q.M == p.M && q.N == p.N && q.K == p.K && q.As[m] == p.As[m]
    && (forall j :: 0 <= j < |p.A| && Quotient(j, p.K) == m ==> q.A[j] == p.A[j])
    && (forall j :: 0 <= j < |p.W| && Quotient(j, p.K / 8) == n ==> q.W[j] == p.W[j])
    && (forall j :: 0 <= j < |p.S| && Remainder(j, p.N) == n ==> q.S[j] == p.S[j])
  }

  function Quotient(j: nat, d: nat): nat { if d == 0 then 0 else j / d }

  function Remainder(j: nat, d: nat): nat { if d == 0 then 0 else j % d }

  lemma SameTerm(p: Problem, q: Problem, m: nat, n: nat, i: nat)
    requires p.Valid() && q.Valid() && m < p.M && n < p.N && i < p.K && AgreeFor(p, q, m, n)
    ensures FlatTerm(q, m, n, i) == FlatTerm(p, m, n, i)
  {
    hide Offset, Problem.Valid, Scaled;
    FlatPlaces(p, m, n, i);
    Digits(m, i, p.K);
    Digits(n, i / 8, p.K / 8);
    Digits(i / 128, n, p.N);
  }

  lemma WordWithin(K: nat, i: nat)
    requires K % GROUP == 0 && i < K
    ensures i / 8 < K / 8 && i / 128 < K / 128
  {
  }

  lemma Digits(q: nat, r: nat, d: nat)
    requires r < d
    ensures Quotient(q * d + r, d) == q && Remainder(q * d + r, d) == r
  {
    QuotientUnique(q, r, d);
  }

  /** Output (m, n) depends on its own row of activations and row scale, its own column of words, and every
      N-th group scale from n on, and on nothing else. */
  lemma {:induction false} ReadsOnly(p: Problem, q: Problem, m: nat, n: nat, k: nat)
    requires p.Valid() && q.Valid() && m < p.M && n < p.N && k <= p.K && AgreeFor(p, q, m, n)
    ensures FlatSum(q, m, n, k) == FlatSum(p, m, n, k)
  {
    hide FlatTerm;
    if k > 0 {
      ReadsOnly(p, q, m, n, k - 1);
      SameTerm(p, q, m, n, k - 1);
    }
  }

  /** Two problems that differ in one group scale have the same outputs in all other columns. */
  lemma ScaleEntryLocal(p: Problem, q: Problem, i: nat, m: nat, n: nat)
    requires p.Valid() && q.Valid() && i < |p.S| == |q.S| && q == p.(S := p.S[i := q.S[i]]) && m < p.M && n < p.N && n != i % p.N
    ensures Ref(q.At(m, n)) == Ref(p.At(m, n))
  {
    hide FlatTerm, Offset;
    assert AgreeFor(p, q, m, n);
    ReadsOnly(p, q, m, n, p.K);
    FlatSumIs(p, m, n, p.K);
    FlatSumIs(q, m, n, p.K);
  }

  /** The weight element of code b of word j, and the byte a kernel unpacks for it. */
  lemma WeightAt(p: Problem, m: nat, n: nat, j: nat, b: nat)
    requires p.Valid() && m < p.M && n < p.N && j < p.K / 8 && b < 8
    ensures 8 * j + b < p.K
    ensures p.At(m, n).w[8 * j + b] == p.fmt.value(p.fmt.unpack(p.Word(n, j))[b])
  {
    assert (8 * j + b) / 8 == j && (8 * j + b) % 8 == b;
  }

  // ------------------------------------------------------------------ the reference's code matrix

  /** v, less the zero point, is the weight the reference multiplies for code j of word c of column n. */
  ghost predicate CodeIs(p: Problem, v: int, n: nat, c: nat, j: nat)
    requires p.Valid()
  {
    n < p.N && c < p.K / 8 && j < 8 && v as real - 8.0 == p.Col(n)[8 * c + j]
  }

  lemma CodeOfWord(p: Problem, n: nat, c: nat, j: nat)
    requires p.Valid() && n < p.N && c < p.K / 8 && j < 8
    ensures CodeIs(p, p.fmt.codes(p.Word(n, c))[j], n, c, j)
  {
    assert (8 * c + j) / 8 == c && (8 * c + j) % 8 == j;
  }

  ghost predicate CodeAt(p: Problem, codes: array2<int>, n: nat, c: nat, j: nat)
    requires p.Valid() && codes.Length0 == p.N && codes.Length1 == p.K
    reads codes
  {
    n < p.N && c < p.K / 8 && j < 8 && CodeIs(p, codes[n, 8 * c + j], n, c, j)
  }

  /** Code j' of word c' of column n' comes before code j of word c of column n in the filling order. */
  predicate Before(j': nat, n': nat, c': nat, j: nat, n: nat, c: nat) {
    j' < j || (j' == j && (n' < n || (n' == n && c' < c)))
  }

  ghost predicate CodesFilled(p: Problem, codes: array2<int>, j: nat, n: nat, c: nat)
    requires p.Valid() && codes.Length0 == p.N && codes.Length1 == p.K
    reads codes
  {
    forall n': nat, c': nat, j': nat :: n' < p.N && c' < p.K / 8 && j' < 8 && Before(j', n', c', j, n, c) ==>
      CodeAt(p, codes, n', c', j')
  }

  /** The reference unpacks by filling the code matrix one nibble position at a time, strided over
      the columns; the result is the matrix of zero-centred weights. */
  method FillCodes(p: Problem) returns (codes: array2<int>)
    requires p.Valid()
    ensures fresh(codes) && codes.Length0 == p.N && codes.Length1 == p.K
    ensures forall n: nat, c: nat, j: nat :: n < p.N && c < p.K / 8 && j < 8 ==> CodeAt(p, codes, n, c, j)
  {
    hide CodeIs;
    codes := new int[p.N, p.K];
    for j := 0 to 8
      invariant CodesFilled(p, codes, j, 0, 0)
    {
      for n := 0 to p.N
        invariant CodesFilled(p, codes, j, n, 0)
      {
        for c := 0 to p.K / 8
          invariant CodesFilled(p, codes, j, n, c)
        {
          FillCode(p, codes, j, n, c);
        }
      }
    }
  }

  method FillCode(p: Problem, codes: array2<int>, j: nat, n: nat, c: nat)
    requires p.Valid() && codes.Length0 == p.N && codes.Length1 == p.K
    requires j < 8 && n < p.N && c < p.K / 8 && CodesFilled(p, codes, j, n, c)
    modifies codes
    ensures CodesFilled(p, codes, j, n, c + 1)
  {
    hide CodeIs, Problem.Word;
    codes[n, 8 * c + j] := p.fmt.codes(p.Word(n, c))[j];
    CodeOfWord(p, n, c, j);
    forall n': nat, c': nat, j': nat | n' < p.N && c' < p.K / 8 && j' < 8 && Before(j', n', c', j, n, c + 1)
      ensures CodeAt(p, codes, n', c', j')
    {
      if n' != n || c' != c || j' != j {
        assert old(CodeAt(p, codes, n', c', j'));
      }
    }
  }

  // ------------------------------------------------------------------ tiles in shared memory

  /** Eight accumulators: one lane's share of a 16 x 16 tile, a column and eight rows. */
  type Vec = v: seq<real> | |v| == 8 witness [0.0, 0.0, 0.0, 0.0, 0.0, 0.0, 0.0, 0.0]

  const ZERO: Vec := [0.0, 0.0, 0.0, 0.0, 0.0, 0.0, 0.0, 0.0]

  function RunDot(value: Byte -> real, sa: seq<Byte>, a: nat, sw: seq<Byte>, w: nat, len: nat): real
    requires a + len <= |sa| && w + len <= |sw|
  {
    if len == 0 then 0.0
    else RunDot(value, sa, a, sw, w, len - 1) + value(sa[a + len - 1]) * value(sw[w + len - 1])
  }

  /** One 16-deep matrix step: slot e multiplies the tile row staged at a + e * stride with the lane's
      column staged at w. */
  function Wmma(value: Byte -> real, sa: seq<Byte>, a: nat, stride: nat, sw: seq<Byte>, w: nat, t: Vec): Vec
    requires a + Offset(7, stride) + 16 <= |sa| && w + 16 <= |sw|
  {
    assert forall e: nat :: e < 8 ==> Offset(e, stride) <= Offset(7, stride) by {
      forall e: nat | e < 8 ensures Offset(e, stride) <= Offset(7, stride) {
        if e < 7 { OffsetMono(e, 7, stride); }
      }
    }
    seq(8, e requires 0 <= e < 8 && a + Offset(e, stride) + 16 <= |sa| =>
      t[e] + RunDot(value, sa, a + Offset(e, stride), sw, w, 16))
  }

  /** acc += sc * t, lane by lane. */
  function Fold(acc: Vec, sc: real, t: Vec): Vec {
    seq(8, e requires 0 <= e < 8 => acc[e] + sc * t[e])
  }

  function Clamp(i: nat, n: nat): nat
    requires n >= 1
  {
    if i < n - 1 then i else n - 1
  }

  /** Staged byte q of each run is worth element k + q of the row and of the column. */
  ghost predicate RunMatches(value: Byte -> real, sa: seq<Byte>, a: nat, sw: seq<Byte>, w: nat,
                             x: seq<real>, y: seq<real>, k: nat, q: nat) {
    && a + q < |sa| && w + q < |sw| && k + q < |x| == |y|
    && value(sa[a + q]) == x[k + q] && value(sw[w + q]) == y[k + q]
  }

  lemma {:induction false} RunDotIsDot(value: Byte -> real, sa: seq<Byte>, a: nat, sw: seq<Byte>, w: nat,
                                       x: seq<real>, y: seq<real>, k: nat, len: nat)
    requires a + len <= |sa| && w + len <= |sw| && k + len <= |x| == |y|
    requires forall q: nat :: q < len ==> RunMatches(value, sa, a, sw, w, x, y, k, q)
    ensures RunDot(value, sa, a, sw, w, len) == Dot(x, y, k, k + len)
  {
    if len > 0 {
      RunDotIsDot(value, sa, a, sw, w, x, y, k, len - 1);
      assert RunMatches(value, sa, a, sw, w, x, y, k, len - 1);
    }
  }

  /** Eight elements, and their dot products over [lo, hi) or scaled sums over groups [lo, hi). */
  type Elements = v: seq<Element> | |v| == 8 && forall e :: 0 <= e < 8 ==> v[e].Valid() && |v[e].s| == |v[0].s|
    witness seq(8, _ => Element([], 0.0, [], []))

  ghost function Dots(d: Elements, lo: nat, hi: nat): Vec
    requires hi <= |d[0].x|
  {
    seq(8, e requires 0 <= e < 8 => Dot(d[e].x, d[e].w, lo, hi))
  }

  ghost function GroupSums(d: Elements, lo: nat, hi: nat): Vec
    requires hi <= |d[0].s|
  {
    seq(8, e requires 0 <= e < 8 => GroupSum(d[e], lo, hi))
  }

  lemma DotsEmpty(d: Elements, lo: nat)
    requires lo <= |d[0].x|
    ensures Dots(d, lo, lo) == ZERO
  {
  }

  lemma GroupSumsEmpty(d: Elements, lo: nat, hi: nat)
    requires hi <= lo && hi <= |d[0].s|
    ensures GroupSums(d, lo, hi) == ZERO
  {
  }

  ghost predicate TileMatches(value: Byte -> real, sa: seq<Byte>, a: nat, stride: nat, sw: seq<Byte>, w: nat,
                              d: Elements, k: nat, e: nat, q: nat) {
    e < 8 && RunMatches(value, sa, a + Offset(e, stride), sw, w, d[e].x, d[e].w, k, q)
  }

  /** One matrix step extends the eight dot products by sixteen terms. */
  lemma WmmaStep(value: Byte -> real, sa: seq<Byte>, a: nat, stride: nat, sw: seq<Byte>, w: nat,
                 d: Elements, lo: nat, k: nat)
    requires a + Offset(7, stride) + 16 <= |sa| && w + 16 <= |sw| && lo <= k && k + 16 <= |d[0].x|
    requires forall e: nat, q: nat :: e < 8 && q < 16 ==> TileMatches(value, sa, a, stride, sw, w, d, k, e, q)
    ensures Wmma(value, sa, a, stride, sw, w, Dots(d, lo, k)) == Dots(d, lo, k + 16)
  {
    var u := Wmma(value, sa, a, stride, sw, w, Dots(d, lo, k));
    forall e: nat | e < 8 ensures u[e] == Dots(d, lo, k + 16)[e] {
      if e < 7 { OffsetMono(e, 7, stride); }
      var row := a + Offset(e, stride);
      forall q: nat | q < 16 ensures RunMatches(value, sa, row, sw, w, d[e].x, d[e].w, k, q) {
        assert TileMatches(value, sa, a, stride, sw, w, d, k, e, q);
      }
      RunDotIsDot(value, sa, row, sw, w, d[e].x, d[e].w, k, 16);
      DotSplit(d[e].x, d[e].w, lo, k, k + 16);
    }
  }

  /** Folding a whole group's dot products extends the scaled sums by that group. */
  lemma FoldGroup(d: Elements, lo: nat, g: nat, sc: real)
    requires lo <= g < |d[0].s| && forall e :: 0 <= e < 8 ==> d[e].s[g] == sc
    ensures Fold(GroupSums(d, lo, g), sc, Dots(d, GROUP * g, GROUP * g + GROUP)) == GroupSums(d, lo, g + 1)
  {
    var u := Fold(GroupSums(d, lo, g), sc, Dots(d, GROUP * g, GROUP * g + GROUP));
    forall e | 0 <= e < 8 ensures u[e] == GroupSums(d, lo, g + 1)[e] {
      assert GROUP * g + GROUP == GROUP * (g + 1);
      assert u[e] == GroupSum(d[e], lo, g) + sc * Dot(d[e].x, d[e].w, GROUP * g, GROUP * g + GROUP);
    }
  }

  /** The elements of count rows from m0 on, in column n; outside the matrix they repeat its edge. */
  ghost function ElementRows(p: Problem, m0: nat, n: nat, count: nat): (d: seq<Element>)
    requires p.Valid()
    ensures |d| == count
    ensures forall e :: 0 <= e < count ==>
              d[e] == p.At(Clamp(m0 + e, p.M), Clamp(n, p.N)) && d[e].Valid() && |d[e].x| == p.K && |d[e].s| == p.Groups()
  {
    if count == 0 then []
    else ElementRows(p, m0, n, count - 1) + [p.At(Clamp(m0 + count - 1, p.M), Clamp(n, p.N))]
  }

  /** Where a lane's eight accumulators sit: their first row and their column. */
  datatype Spot = Spot(m0: nat, n: nat)

  ghost function ElementsAt(p: Problem, sp: Spot): (d: Elements)
    requires p.Valid()
    ensures |d[0].x| == p.K && |d[0].s| == p.Groups()
  {
    ElementRows(p, sp.m0, sp.n, 8)
  }

  /** The elements of every spot.  Inside the kernels' loops they are only a function; the lemmas about
      staged bytes look at what they are. */
  ghost predicate Family(p: Problem, elems: Spot -> Elements)
    requires p.Valid()
  {
    && (forall sp {:trigger elems(sp)} :: |elems(sp)[0].x| == p.K && |elems(sp)[0].s| == p.Groups())
    && (forall sp {:trigger ElementsAt(p, sp)} :: elems(sp) == ElementsAt(p, sp))
  }

  lemma FamilyExists(p: Problem) returns (elems: Spot -> Elements)
    requires p.Valid()
    ensures Family(p, elems)
  {
    elems := (sp: Spot) => ElementsAt(p, sp);
  }

  lemma ElementInside(p: Problem, elems: Spot -> Elements, sp: Spot, e: nat)
    requires p.Valid() && Family(p, elems) && e < 8 && sp.m0 + e < p.M && sp.n < p.N
    ensures elems(sp)[e] == p.At(sp.m0 + e, sp.n)
  {
    assert elems(sp) == ElementsAt(p, sp);
    assert ElementRows(p, sp.m0, sp.n, 8)[e] == p.At(Clamp(sp.m0 + e, p.M), Clamp(sp.n, p.N));
  }

  lemma ElementScales(p: Problem, elems: Spot -> Elements, sp: Spot, g: nat)
    requires p.Valid() && Family(p, elems) && g < p.Groups()
    ensures forall e :: 0 <= e < 8 ==> elems(sp)[e].s[g] == p.Scale(g, Clamp(sp.n, p.N))
  {
    assert elems(sp) == ElementsAt(p, sp);
    forall e | 0 <= e < 8 ensures elems(sp)[e].s[g] == p.Scale(g, Clamp(sp.n, p.N)) {
      assert ElementRows(p, sp.m0, sp.n, 8)[e] == p.At(Clamp(sp.m0 + e, p.M), Clamp(sp.n, p.N));
    }
  }
}
