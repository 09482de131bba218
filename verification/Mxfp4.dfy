/** MXFP4 as the drafter's quantiser writes it: e2m1 codes, one power-of-two scale per block of 32
    (sections 5.3.3, 5.4.1 and 6.3 of the OCP Microscaling Formats (MX) Specification v1.0). */
module Mxfp4 {
  import opened Basics

  const GROUP := 32
  const EMAX := 127

  /** The e2m1 magnitude of a 3-bit code. */
  function Grid(code: nat): real
    requires code < 8
  {
    match code
    case 0 => 0.0
    case 1 => 0.5
    case 2 => 1.0
    case 3 => 1.5
    case 4 => 2.0
    case 5 => 3.0
    case 6 => 4.0
    case _ => 6.0
  }

  function Abs(x: real): real { if x < 0.0 then -x else x }

  // ----- powers of two ------------------------------------------------------------

  function Pow2(e: int): (r: real)
    ensures r > 0.0
    decreases if e < 0 then -e else e
  {
    if e == 0 then 1.0 else if e > 0 then 2.0 * Pow2(e - 1) else Pow2(e + 1) / 2.0
  }

  lemma Pow2Step(e: int)
    ensures Pow2(e + 1) == 2.0 * Pow2(e)
  {
  }

  lemma {:induction false} Pow2Mono(a: int, b: int)
    requires a <= b
    ensures Pow2(a) <= Pow2(b)
    decreases b - a
  {
    if a < b {
      Pow2Mono(a, b - 1);
      Pow2Step(b - 1);
    }
  }

  /** floor(log2(a)): the exponent of the largest power of two not above a. */
  function FloorLog2(a: real): (r: int)
    requires a > 0.0
    ensures Pow2(r) <= a < Pow2(r + 1)
    decreases if a >= 2.0 then a.Floor else if a < 1.0 then (1.0 / a).Floor else 0
  {
    if a >= 2.0 then
      HalfSmaller(a);
      var r := FloorLog2(a / 2.0);
      Pow2Step(r); Pow2Step(r + 1);
      r + 1
    else if a < 1.0 then
      DoubleCloser(a);
      var r := FloorLog2(2.0 * a);
      Pow2Step(r - 1); Pow2Step(r);
      r - 1
    else 0
  }

  lemma HalfSmaller(a: real)
    requires a >= 2.0
    ensures 0 <= (a / 2.0).Floor < a.Floor && a / 2.0 >= 1.0
  {
  }

  lemma DoubleCloser(a: real)
    requires 0.0 < a < 1.0
    ensures 1.0 / a > 1.0 && (1.0 / a).Floor > 0
    ensures 2.0 * a < 1.0 ==> 1.0 / (2.0 * a) > 1.0 && 0 <= (1.0 / (2.0 * a)).Floor < (1.0 / a).Floor
  {
    var r, h := 1.0 / a, 1.0 / (2.0 * a);
    assert r * a == 1.0;
    assert h * (2.0 * a) == 1.0;
    assert h == r / 2.0 by {
      assert (r / 2.0) * (2.0 * a) == 1.0;
    }
  }

  lemma FloorLog2Unique(a: real, e: int)
    requires a > 0.0 && Pow2(e) <= a < Pow2(e + 1)
    ensures FloorLog2(a) == e
  {
    var r := FloorLog2(a);
    if r < e {
      Pow2Mono(r + 1, e);
    } else if r > e {
      Pow2Mono(e + 1, r);
    }
  }

  // ----- one element -----------------------------------------------------------------

  function Distances(m: real): (d: seq<real>)
    ensures |d| == 8 && forall k :: 0 <= k < 8 ==> d[k] == Abs(m - Grid(k))
  {
    seq(8, k requires 0 <= k < 8 => Abs(m - Grid(k)))
  }

  /** The first place of the smallest entry. */
  function ArgMin(d: seq<real>): (k: nat)
    requires d != []
    ensures k < |d|
    ensures forall j :: 0 <= j < |d| ==> d[k] <= d[j]
    ensures forall j :: 0 <= j < k ==> d[k] < d[j]
  {
    if |d| == 1 then 0
    else
      var k := ArgMin(d[..|d| - 1]);
      assert forall j :: 0 <= j < |d| - 1 ==> d[..|d| - 1][j] == d[j];
      if d[|d| - 1] < d[k] then |d| - 1 else k
  }

  /** More than one entry is as small as entry k. */
  predicate Tied(d: seq<real>, k: nat)
    requires k < |d|
  {
    exists j :: 0 <= j < |d| && j != k && d[j] == d[k]
  }

  /** Nearest magnitude; in a tie the first of the two codes is rounded down to an even one. */
  function MagCode(m: real): (c: nat)
    requires 0.0 <= m <= 6.0
    ensures c < 8
  {
    var d := Distances(m);
    var k := ArgMin(d);
    if Tied(d, k) then k / 2 * 2 else k
  }

  /** The magnitudes where the tie rule does not pick a nearest code. */
  predicate BadTie(m: real) { m == 0.75 || m == 1.75 || m == 3.5 }

  /** The code as a step function of the magnitude. */
  function Band(m: real): nat {
    if m <= 0.25 then 0 else if m < 0.75 then 1 else if m == 0.75 then 0
    else if m <= 1.25 then 2 else if m < 1.75 then 3 else if m == 1.75 then 2
    else if m <= 2.5 then 4 else if m < 3.5 then 5 else if m == 3.5 then 4
    else if m <= 5.0 then 6 else 7
  }

  lemma MagCodeIsBand(m: real)
    requires 0.0 <= m <= 6.0
    ensures MagCode(m) == Band(m)
  {
    hide ArgMin, Distances;
    var d := Distances(m);
    var k := ArgMin(d);
    assert d[0] == m && d[1] == Abs(m - 0.5) && d[2] == Abs(m - 1.0) && d[3] == Abs(m - 1.5);
    assert d[4] == Abs(m - 2.0) && d[5] == Abs(m - 3.0) && d[6] == Abs(m - 4.0) && d[7] == Abs(m - 6.0);
    if k < 7 {
      assert Tied(d, k) <==> d[k] == d[k + 1];
    }
  }

  lemma BandIsNearest(m: real)
    requires 0.0 <= m <= 6.0 && !BadTie(m)
    ensures forall k :: 0 <= k < 8 ==> Abs(m - Grid(Band(m))) <= Abs(m - Grid(k))
  {
    var g := Grid(Band(m));
    forall k | 0 <= k < 8 ensures Abs(m - g) <= Abs(m - Grid(k)) {
      assert Grid(k) <= g || Grid(k) >= g;
    }
  }

  /** The code is a nearest one, except at exactly three magnitudes, where it is not: there it steps down
      past the nearer even code. */
  lemma NearestIff(m: real)
    requires 0.0 <= m <= 6.0
    ensures (forall k :: 0 <= k < 8 ==> Abs(m - Grid(MagCode(m))) <= Abs(m - Grid(k))) <==> !BadTie(m)
  {
    hide MagCode;
    MagCodeIsBand(m);
    var c := Band(m);
    if BadTie(m) {
      assert Abs(m - Grid(c)) > Abs(m - Grid(c + 2));
    } else {
      BandIsNearest(m);
    }
  }

  /** Ties to even codes, as the format's rounding rule and this code's own description have it. */
  ghost predicate HalfEven(m: real, c: nat) {
    && c < 8 && (forall k :: 0 <= k < 8 ==> Abs(m - Grid(c)) <= Abs(m - Grid(k)))
    && (forall k :: 0 <= k < 8 && k != c && Abs(m - Grid(k)) == Abs(m - Grid(c)) ==> c % 2 == 0)
  }

  lemma HalfEvenIff(m: real)
    requires 0.0 <= m <= 6.0
    ensures HalfEven(m, MagCode(m)) <==> !BadTie(m)
  {
    NearestIff(m);
    MagCodeIsBand(m);
  }

  // ----- one block --------------------------------------------------------------------

  function MaxAbs(b: seq<real>): (r: real)
    ensures r >= 0.0 && forall j :: 0 <= j < |b| ==> Abs(b[j]) <= r
    ensures r > 0.0 ==> exists j :: 0 <= j < |b| && Abs(b[j]) == r
  {
    if b == [] then 0.0
    else
      var r := MaxAbs(b[..|b| - 1]);
      assert forall j :: 0 <= j < |b| - 1 ==> b[..|b| - 1][j] == b[j];
      if r < Abs(b[|b| - 1]) then Abs(b[|b| - 1]) else r
  }

  /** The block exponent before clamping: the block maximum lands in [4, 8) scale units. */
  function RawExp(amax: real): int
    requires amax >= 0.0
  {
    if amax > 0.0 then FloorLog2(amax) - 2 else 0
  }

  function Clamp(e: int): (r: int)
    ensures -EMAX <= r <= EMAX
    ensures -EMAX <= e <= EMAX ==> r == e
  {
    if e < -EMAX then -EMAX else if e > EMAX then EMAX else e
  }

  function Clip(m: real): real { if m > 6.0 then 6.0 else m }

  /** A 4-bit code: magnitude code, sign in the high bit. */
  function Encode(x: real, scale: real): (c: nat)
    requires scale > 0.0
    ensures c < 16
  {
    var v := x / scale;
    MagCode(Clip(Abs(v))) + if v < 0.0 then 8 else 0
  }

  function Decode(c: nat, scale: real): real
    requires c < 16
  {
    (if c >= 8 then -Grid(c % 8) else Grid(c % 8)) * scale
  }

  /** A quantised block: codes and the biased exponent byte. */
  datatype Block = Block(codes: seq<nat>, e8m0: nat) {
    /** Exponent 255 encodes not-a-number. */
    predicate Valid() { e8m0 <= 254 && forall j :: 0 <= j < |codes| ==> codes[j] < 16 }
    function Exp(): int { e8m0 - EMAX }
  }

  function Quantise(b: seq<real>): (q: Block)
    ensures q.Valid() && |q.codes| == |b|
  {
    var exp := Clamp(RawExp(MaxAbs(b)));
    var scale := Pow2(exp);
    Block(seq(|b|, j requires 0 <= j < |b| => Encode(b[j], scale)), exp + EMAX)
  }

  /** The stored exponent in numbers: 127 for a block of zeros, whose codes are 0; else the one that puts the
      largest magnitude between 4 and 8 scale units, as far as a byte from 0 to 254 allows. */
  lemma ExponentMeans(b: seq<real>)
    ensures var e, top := Quantise(b).e8m0, MaxAbs(b);
            && (top == 0.0 ==> e == 127 && forall j :: 0 <= j < |b| ==> Quantise(b).codes[j] == 0)
            && (top > 0.0 && e > 0 ==> 4.0 * Pow2(e - 127) <= top)
            && (top > 0.0 && e < 254 ==> top < 8.0 * Pow2(e - 127))
  {
    hide Encode, Pow2, FloorLog2;
    if MaxAbs(b) == 0.0 {
      forall j | 0 <= j < |b| ensures Quantise(b).codes[j] == 0 {
        assert b[j] == 0.0 by { assert Abs(b[j]) <= 0.0; }
        EncodeZero(Pow2(0));
      }
    } else {
      ExponentBrackets(MaxAbs(b));
    }
  }

  lemma EncodeZero(scale: real)
    requires scale > 0.0
    ensures Encode(0.0, scale) == 0
  {
    hide MagCode;
    assert 0.0 / scale == 0.0;
    MagCodeIsBand(0.0);
  }

  lemma ExponentBrackets(top: real)
    requires top > 0.0
    ensures var e := Clamp(RawExp(top)) + 127;
            && (e > 0 ==> 4.0 * Pow2(e - 127) <= top)
            && (e < 254 ==> top < 8.0 * Pow2(e - 127))
  {
    hide Pow2;
    var r := FloorLog2(top);
    Pow2Step(r);
    Pow2Step(r - 1);
    Pow2Step(r - 2);
    if r - 2 > 127 {
      Pow2Mono(127, r - 2);
    } else if r - 2 < -127 {
      Pow2Mono(r - 2, -127);
    }
  }

  function Dequantise(q: Block): (b: seq<real>)
    requires q.Valid()
    ensures |b| == |q.codes| && forall j :: 0 <= j < |b| ==> b[j] == Decode(q.codes[j], Pow2(q.Exp()))
  {
    seq(|q.codes|, j requires 0 <= j < |q.codes| => Decode(q.codes[j], Pow2(q.Exp())))
  }

  // ----- error bound ---------------------------------------------------------------------

  function Signed(v: real, m: real): real { if v < 0.0 then -m else m }

  /** In scale units a value below 8 is off by less than 2, whatever the tie rule does. */
  lemma UnitError(v: real)
    requires -8.0 < v < 8.0
    ensures Abs(Signed(v, Grid(MagCode(Clip(Abs(v))))) - v) < 2.0
  {
    hide MagCode;
    MagCodeIsBand(Clip(Abs(v)));
  }

  lemma DecodeEncode(x: real, scale: real)
    requires scale > 0.0
    ensures var v := x / scale;
            Decode(Encode(x, scale), scale) == Signed(v, Grid(MagCode(Clip(Abs(v))))) * scale
  {
    hide MagCode, Grid, Abs;
  }

  lemma MulOrder(a: real, b: real, c: real)
    requires c > 0.0
    ensures a < b <==> a * c < b * c
  {
    if a < b {
      assert (b - a) * c > 0.0;
    } else {
      assert (a - b) * c >= 0.0;
    }
  }

  lemma InUnits(x: real, scale: real, v: real)
    requires scale > 0.0 && v == x / scale && Abs(x) < 8.0 * scale
    ensures v * scale == x && -8.0 < v < 8.0
  {
    assert v * scale == x;
    MulOrder(v, 8.0, scale);
    MulOrder(-8.0, v, scale);
  }

  lemma AbsScaled(d: real, scale: real)
    requires scale > 0.0 && Abs(d) < 2.0
    ensures Abs(d * scale) < 2.0 * scale
  {
    MulOrder(d, 2.0, scale);
    MulOrder(-2.0, d, scale);
  }

  lemma ScaleError(u: real, v: real, scale: real, p: real, q: real)
    requires scale > 0.0 && Abs(u - v) < 2.0 && p == u * scale && q == v * scale
    ensures Abs(p - q) < 2.0 * scale
  {
    AbsScaled(u - v, scale);
    var d := (u - v) * scale;
    Spread(u, v, scale);
    assert p - q == d;
    assert Abs(d) < 2.0 * scale;
  }

  lemma Spread(u: real, v: real, scale: real)
    ensures (u - v) * scale == u * scale - v * scale
  {
  }

  lemma ElementError(x: real, scale: real, amax: real)
    requires 0.0 < 4.0 * scale <= amax < 8.0 * scale && Abs(x) <= amax
    ensures Abs(Decode(Encode(x, scale), scale) - x) < amax / 2.0
  {
    hide MagCode, Grid, Encode, Decode;
    var v := x / scale;
    InUnits(x, scale, v);
    UnitError(v);
    DecodeEncode(x, scale);
    var u := Signed(v, Grid(MagCode(Clip(Abs(v)))));
    ScaleError(u, v, scale, Decode(Encode(x, scale), scale), x);
  }

  lemma ZeroExact(scale: real)
    requires scale > 0.0
    ensures Decode(Encode(0.0, scale), scale) == 0.0
  {
    hide MagCode;
    MagCodeIsBand(0.0);
    DecodeEncode(0.0, scale);
  }

  lemma AbsZero(x: real)
    requires Abs(x) <= 0.0
    ensures x == 0.0
  {
  }

  /** Each element goes through the block's scale on its own. */
  lemma QuantisedAt(b: seq<real>, j: nat)
    requires j < |b|
    ensures var s := Pow2(Clamp(RawExp(MaxAbs(b))));
            Dequantise(Quantise(b))[j] == Decode(Encode(b[j], s), s)
  {
    hide Encode, Decode, FloorLog2, Pow2, MaxAbs;
  }

  /** Quantising and dequantising moves an element by less than half the block's largest magnitude, as
      long as the block's exponent did not have to be clamped; zeros stay zeros. */
  lemma ErrorBound(b: seq<real>, j: nat)
    requires j < |b| && -EMAX <= RawExp(MaxAbs(b)) <= EMAX
    ensures MaxAbs(b) > 0.0 ==> Abs(Dequantise(Quantise(b))[j] - b[j]) < MaxAbs(b) / 2.0
    ensures MaxAbs(b) == 0.0 ==> Dequantise(Quantise(b))[j] == b[j]
  {
    hide Encode, Decode, FloorLog2, Pow2, MaxAbs, Dequantise, Quantise, Abs;
    var amax := MaxAbs(b);
    var e := RawExp(amax);
    QuantisedAt(b, j);
    if amax > 0.0 {
      Pow2Step(e); Pow2Step(e + 1); Pow2Step(e + 2);
      ElementError(b[j], Pow2(e), amax);
    } else {
      AbsZero(b[j]);
      ZeroExact(Pow2(e));
    }
  }

  /** How far one element moves, in scale units. */
  function UnitMove(v: real): real { Abs(Signed(v, Grid(MagCode(Clip(Abs(v))))) - v) }

  /** Block maxima, in scale units, for which no element of a block can move half the maximum. */
  predicate SafeUnits(u: real) { 0.5 < u < 0.75 || 1.5 < u < 12.0 }

  lemma SafeMove(u: real, v: real)
    requires SafeUnits(u) && Abs(v) <= u
    ensures UnitMove(v) < u / 2.0
  {
    hide MagCode;
    MagCodeIsBand(Clip(Abs(v)));
  }

  lemma UnsafeMove(u: real) returns (v: real)
    requires u > 0.0 && !SafeUnits(u)
    ensures 0.0 <= v <= u && UnitMove(v) >= u / 2.0
  {
    hide MagCode;
    v := if u <= 0.25 || u >= 12.0 then u else if u <= 0.5 then 0.25 else 0.75;
    MagCodeIsBand(Clip(Abs(v)));
  }

  lemma MoveInUnits(x: real, scale: real, v: real)
    requires scale > 0.0 && x == v * scale
    ensures Abs(Decode(Encode(x, scale), scale) - x) == UnitMove(v) * scale
  {
    hide MagCode, Grid, Encode, Decode;
    assert x / scale == v;
    DecodeEncode(x, scale);
    AbsTimes(Signed(v, Grid(MagCode(Clip(Abs(v))))), v, scale);
  }

  lemma AbsTimes(p: real, v: real, scale: real)
    requires scale > 0.0
    ensures Abs(p * scale - v * scale) == Abs(p - v) * scale
  {
    Spread(p, v, scale);
    if p < v {
      MulOrder(p, v, scale);
    } else if v < p {
      MulOrder(v, p, scale);
    }
  }

  /** No element of a block with this maximum moves half the maximum or more. */
  ghost predicate HalfMaximumHolds(amax: real) {
    forall b: seq<real>, j: nat :: |b| == GROUP && j < GROUP && MaxAbs(b) == amax ==>
      Abs(Dequantise(Quantise(b))[j] - b[j]) < amax / 2.0
  }

  lemma LessInUnits(m: real, u: real, scale: real, moved: real, amax: real)
    requires scale > 0.0 && moved == m * scale && amax == u * scale
    ensures moved < amax / 2.0 <==> m < u / 2.0
  {
    MulOrder(2.0 * m, u, scale);
    assert 2.0 * m * scale == 2.0 * moved;
  }

  lemma ElementIff(x: real, amax: real, scale: real, u: real, v: real)
    requires scale > 0.0 && amax == u * scale && x == v * scale
    ensures Abs(Decode(Encode(x, scale), scale) - x) < amax / 2.0 <==> UnitMove(v) < u / 2.0
  {
    hide MagCode, Grid, Encode, Decode, UnitMove, Abs;
    MoveInUnits(x, scale, v);
    LessInUnits(UnitMove(v), u, scale, Abs(Decode(Encode(x, scale), scale) - x), amax);
  }

  /** An element reaches half the maximum exactly when it does in scale units. */
  lemma MoveIff(b: seq<real>, j: nat, amax: real, scale: real, u: real, v: real)
    requires j < |b| && MaxAbs(b) == amax > 0.0 && scale == Pow2(Clamp(RawExp(amax)))
    requires amax == u * scale && b[j] == v * scale
    ensures Abs(Dequantise(Quantise(b))[j] - b[j]) < amax / 2.0 <==> UnitMove(v) < u / 2.0
  {
    hide MagCode, Grid, Encode, Decode, Pow2, FloorLog2, MaxAbs, Quantise, Dequantise, UnitMove, Abs;
    QuantisedAt(b, j);
    ElementIff(b[j], amax, scale, u, v);
  }

  lemma UnitsOf(x: real, scale: real) returns (v: real)
    requires scale > 0.0
    ensures x == v * scale
  {
    v := x / scale;
  }

  lemma HalfMaximumIfSafe(amax: real, scale: real, u: real)
    requires amax > 0.0 && scale == Pow2(Clamp(RawExp(amax))) && amax == u * scale
    requires SafeUnits(u)
    ensures HalfMaximumHolds(amax)
  {
    hide MagCode, Grid, Encode, Decode, Pow2, FloorLog2, MaxAbs, Quantise, Dequantise, UnitMove, SafeUnits, Abs;
    forall b: seq<real>, j: nat | |b| == GROUP && j < GROUP && MaxAbs(b) == amax
      ensures Abs(Dequantise(Quantise(b))[j] - b[j]) < amax / 2.0
    {
      var v := UnitsOf(b[j], scale);
      InMaximum(v, u, scale, b[j], amax);
      SafeMove(u, v);
      MoveIff(b, j, amax, scale, u, v);
    }
  }

  lemma InMaximum(v: real, u: real, scale: real, x: real, amax: real)
    requires scale > 0.0 && x == v * scale && amax == u * scale && Abs(x) <= amax
    ensures Abs(v) <= u
  {
    if v > u {
      MulOrder(u, v, scale);
    }
    if -v > u {
      MulOrder(u, -v, scale);
      assert -v * scale == -x;
    }
  }

  lemma MaximumFirst(amax: real, x: real)
    requires 0.0 <= x <= amax
    ensures MaxAbs([amax, x] + seq(GROUP - 2, _ => 0.0)) == amax
  {
    hide MaxAbs;
    var b := [amax, x] + seq(GROUP - 2, _ => 0.0);
    assert b[0] == amax && b[1] == x && forall j :: 0 <= j < |b| ==> Abs(b[j]) <= amax;
  }

  lemma UnsafeBreaksHalfMaximum(amax: real, scale: real, u: real)
    requires amax > 0.0 && scale == Pow2(Clamp(RawExp(amax))) && amax == u * scale
    requires u > 0.0 && !SafeUnits(u)
    ensures !HalfMaximumHolds(amax)
  {
    hide MagCode, Grid, Encode, Decode, Pow2, FloorLog2, MaxAbs, Quantise, Dequantise, UnitMove, SafeUnits, Abs;
    var v := UnsafeMove(u);
    var x := v * scale;
    NotAbove(v, u, scale);
    MaximumFirst(amax, x);
    var b := [amax, x] + seq(GROUP - 2, _ => 0.0);
    assert b[1] == x;
    MoveIff(b, 1, amax, scale, u, v);
    assert !(Abs(Dequantise(Quantise(b))[1] - b[1]) < amax / 2.0);
  }

  lemma NotAbove(a: real, b: real, scale: real)
    requires a <= b && scale > 0.0
    ensures a * scale <= b * scale && (a >= 0.0 ==> a * scale >= 0.0)
  {
    if a < b {
      MulOrder(a, b, scale);
    }
    if a > 0.0 {
      MulOrder(0.0, a, scale);
    }
  }

  /** Block maxima that break the bound: at or below 2^-128, from 0.75 to 1.5 times 2^-127, and from 12
      times 2^127 on. */
  predicate BreakingMaximum(amax: real) {
    amax <= Pow2(-EMAX - 1) || 0.75 * Pow2(-EMAX) <= amax <= 1.5 * Pow2(-EMAX) || amax >= 12.0 * Pow2(EMAX)
  }

  lemma BreakingInUnits(amax: real, scale: real, u: real)
    requires amax > 0.0 && scale == Pow2(Clamp(RawExp(amax))) && amax == u * scale
    ensures u > 0.0 && (SafeUnits(u) <==> !BreakingMaximum(amax))
  {
    hide Pow2, FloorLog2, SafeUnits, BreakingMaximum;
    var e := RawExp(amax);
    Pow2Step(e); Pow2Step(e + 1); Pow2Step(e + 2);
    Thresholds(u, scale, amax);
    if e < -EMAX {
      Pow2Mono(e + 3, -EMAX + 2);
      Pow2Step(-EMAX); Pow2Step(-EMAX + 1);
      BottomMaximum(amax, u);
    } else if e > EMAX {
      Pow2Mono(EMAX + 1, e);
      Pow2Step(EMAX);
      TopMaximum(amax, u);
    } else {
      Pow2Mono(-EMAX, e);
      Pow2Mono(e, EMAX);
      MiddleMaximum(amax, scale, u);
    }
  }

  lemma BottomMaximum(amax: real, u: real)
    requires 0.0 < amax < 4.0 * Pow2(-EMAX) && At(amax, u, Pow2(-EMAX))
    ensures SafeUnits(u) <==> !BreakingMaximum(amax)
  {
    hide Pow2;
    Pow2Step(-EMAX - 1);
    Pow2Mono(-EMAX, EMAX);
  }

  lemma TopMaximum(amax: real, u: real)
    requires 8.0 * Pow2(EMAX) <= amax && At(amax, u, Pow2(EMAX))
    ensures SafeUnits(u) <==> !BreakingMaximum(amax)
  {
    hide Pow2;
    Pow2Step(-EMAX - 1);
    Pow2Mono(-EMAX, EMAX);
  }

  lemma MiddleMaximum(amax: real, scale: real, u: real)
    requires 4.0 * scale <= amax < 8.0 * scale && Pow2(-EMAX) <= scale <= Pow2(EMAX) && At(amax, u, scale)
    ensures SafeUnits(u) && !BreakingMaximum(amax)
  {
    hide Pow2;
    Pow2Step(-EMAX - 1);
  }

  /** Where amax, u times scale, lies, in units and in full. */
  predicate At(amax: real, u: real, scale: real) {
    && (u > 0.0 <==> amax > 0.0) && (u <= 0.5 <==> amax <= 0.5 * scale) && (u < 0.75 <==> amax < 0.75 * scale)
    && (u <= 1.5 <==> amax <= 1.5 * scale) && (u < 4.0 <==> amax < 4.0 * scale) && (u < 8.0 <==> amax < 8.0 * scale)
    && (u < 12.0 <==> amax < 12.0 * scale)
  }

  lemma Thresholds(u: real, scale: real, amax: real)
    requires scale > 0.0 && amax == u * scale
    ensures At(amax, u, scale)
  {
    MulOrder(0.0, u, scale);
    MulOrder(0.5, u, scale);
    MulOrder(u, 0.75, scale);
    MulOrder(1.5, u, scale);
    MulOrder(u, 4.0, scale);
    MulOrder(u, 8.0, scale);
    MulOrder(u, 12.0, scale);
  }

  /** The bound of half the maximum, for every block with a given maximum, clamped exponent or not: it
      holds exactly outside three ranges at the ends of the exponent's span. */
  lemma HalfMaximumIff(amax: real)
    requires amax > 0.0
    ensures HalfMaximumHolds(amax) <==> !BreakingMaximum(amax)
  {
    hide Pow2, FloorLog2, HalfMaximumHolds, BreakingMaximum, SafeUnits;
    var scale := Pow2(Clamp(RawExp(amax)));
    var u := amax / scale;
    assert amax == u * scale;
    BreakingInUnits(amax, scale, u);
    if SafeUnits(u) {
      HalfMaximumIfSafe(amax, scale, u);
    } else {
      UnsafeBreaksHalfMaximum(amax, scale, u);
    }
  }

  // ----- dequantised data is a fixed point --------------------------------------------------

  /** Multiplying by 2^k keeps these magnitudes on the grid. */
  lemma GridTimesPower(c: nat, top: nat, k: nat, f: real)
    requires c < 8 && 0 < top < 8 && Grid(c) <= Grid(top)
    requires f == (if k == 0 then 1.0 else if k == 1 then 2.0 else if k == 2 then 4.0 else 8.0)
    requires k <= (if top == 1 then 3 else if top <= 3 then 2 else if top <= 5 then 1 else 0)
    ensures 0.0 <= Grid(c) * f <= 6.0
    ensures Grid(MagCode(Grid(c) * f)) == Grid(c) * f
  {
    hide MagCode;
    var m := Grid(c) * f;
    assert 0.0 <= m <= 6.0;
    MagCodeIsBand(m);
  }

  /** The exponent of the largest magnitude of a block, given its code. */
  function TopExp(top: nat): int
    requires 0 < top < 8
  {
    if top == 1 then -1 else if top <= 3 then 0 else if top <= 5 then 1 else 2
  }

  lemma LogOfScaled(top: nat, e: int)
    requires 0 < top < 8
    ensures Grid(top) * Pow2(e) > 0.0 && FloorLog2(Grid(top) * Pow2(e)) == e + TopExp(top)
  {
    hide FloorLog2, Pow2;
    Pow2Step(e - 1); Pow2Step(e); Pow2Step(e + 1); Pow2Step(e + 2);
    FloorLog2Unique(Grid(top) * Pow2(e), e + TopExp(top));
  }

  /** The factor between the scale a block came with and the one it gets. */
  function Shift(k: nat): real { if k == 0 then 1.0 else if k == 1 then 2.0 else if k == 2 then 4.0 else 8.0 }

  lemma Pow2Shift(e: int, k: nat)
    requires k <= 3
    ensures Pow2(e + k) == Shift(k) * Pow2(e)
  {
    hide Pow2;
    Pow2Step(e); Pow2Step(e + 1); Pow2Step(e + 2);
  }

  /** A decoded element survives re-encoding at the block's new scale. */
  lemma ReencodeExact(c: nat, top: nat, e: int, k: nat)
    requires c < 16 && 0 < top < 8 && Grid(c % 8) <= Grid(top)
    requires k <= 2 - TopExp(top)
    ensures var x := Decode(c, Pow2(e + k)); Decode(Encode(x, Pow2(e)), Pow2(e)) == x
  {
    hide FloorLog2, Pow2, MagCode, Encode;
    var s, g := Pow2(e), Grid(c % 8);
    Pow2Shift(e, k);
    GridTimesPower(c % 8, top, k, Shift(k));
    var u := g * Shift(k);
    var x := Decode(c, Pow2(e + k));
    var v := x / s;
    Units(x, if c >= 8 then -u else u, s) by {
      Assoc(g, Shift(k), s);
    }
    DecodeEncode(x, s);
  }

  lemma Assoc(a: real, b: real, c: real)
    ensures (a * b) * c == a * (b * c) && (-(a * b)) * c == (-a) * (b * c)
  {
  }

  lemma Units(x: real, u: real, s: real)
    requires s > 0.0 && x == u * s
    ensures x / s == u
  {
  }

  lemma DecodedSize(c: nat, s: real)
    requires c < 16 && s > 0.0
    ensures Abs(Decode(c, s)) == Grid(c % 8) * s
  {
    var g := Grid(c % 8);
    Assoc(g, 1.0, s);
    MulOrder(-1.0, g, s);
  }

  /** The magnitude code of a block's largest element, and what it says about the others. */
  lemma TopCode(q: Block) returns (top: nat)
    requires q.Valid()
    ensures top < 8 && MaxAbs(Dequantise(q)) == Grid(top) * Pow2(q.Exp())
    ensures forall j :: 0 <= j < |q.codes| ==> Grid(q.codes[j] % 8) <= Grid(top)
  {
    hide Grid, Pow2, Decode, Abs, MaxAbs, Dequantise;
    var b, s := Dequantise(q), Pow2(q.Exp());
    if MaxAbs(b) > 0.0 {
      var j :| 0 <= j < |b| && Abs(b[j]) == MaxAbs(b);
      top := q.codes[j] % 8;
      DecodedSize(q.codes[j], s);
      assert b[j] == Decode(q.codes[j], s);
    } else {
      top := 0;
      NoSize(s);
    }
    forall j | 0 <= j < |q.codes| ensures Grid(q.codes[j] % 8) <= Grid(top) {
      BelowTop(q, j, top);
    }
  }

  lemma BelowTop(q: Block, j: nat, top: nat)
    requires q.Valid() && j < |q.codes| && top < 8 && MaxAbs(Dequantise(q)) == Grid(top) * Pow2(q.Exp())
    ensures Grid(q.codes[j] % 8) <= Grid(top)
  {
    hide Grid, Pow2, Decode, Abs, MaxAbs, Dequantise;
    var b, s := Dequantise(q), Pow2(q.Exp());
    DecodedSize(q.codes[j], s);
    assert b[j] == Decode(q.codes[j], s);
    SizeOrder(Abs(b[j]), MaxAbs(b), Grid(q.codes[j] % 8), Grid(top), s);
  }

  lemma SizeOrder(x: real, m: real, g: real, top: real, s: real)
    requires s > 0.0 && x == g * s && m == top * s && x <= m
    ensures g <= top
  {
    MulOrder(top, g, s);
  }

  lemma NoSize(s: real)
    ensures Grid(0) * s == 0.0
  {
  }

  lemma GridZero()
    ensures Grid(0) == 0.0 && forall c: nat :: 0 < c < 8 ==> Grid(c) > 0.0
  {
  }

  /** Requantising data that was dequantised gives the same values back, for every block of codes and
      every exponent. */
  lemma BlockFixed(q: Block)
    requires q.Valid()
    ensures Dequantise(Quantise(Dequantise(q))) == Dequantise(q)
  {
    hide Grid, Pow2, Decode, Encode, FloorLog2, MaxAbs, Abs;
    var b, e := Dequantise(q), q.Exp();
    var top := TopCode(q);
    GridZero();
    if top != 0 {
      LogOfScaled(top, e);
    }
    var e' := Clamp(RawExp(MaxAbs(b)));
    forall j | 0 <= j < |b| ensures Dequantise(Quantise(b))[j] == b[j] {
      QuantisedAt(b, j);
      if top == 0 {
        DecodedZero(q.codes[j], Pow2(e));
        ZeroExact(Pow2(e'));
      } else {
        ReencodeExact(q.codes[j], top, e', e - e');
      }
    }
  }

  lemma DecodedZero(c: nat, s: real)
    requires c < 16 && Grid(c % 8) <= 0.0
    ensures Decode(c, s) == 0.0
  {
  }

  // ----- rows and tensors ----------------------------------------------------------------------

  /** Two codes in a byte, the first in the low nibble. */
  function Pack(lo: nat, hi: nat): nat { lo + 16 * hi }

  /** The shifts and masks on bytes do what Pack and its inverse say. */
  lemma NibbleOps(lo: bv8, hi: bv8)
    requires lo < 16 && hi < 16
    ensures lo | (hi << 4) == lo + 16 * hi
    ensures (lo | (hi << 4)) & 0xF == lo && (lo | (hi << 4)) >> 4 == hi
  {
  }

  function PackCodes(codes: seq<nat>): (p: seq<nat>)
    ensures |p| == |codes| / 2
    ensures forall i :: 0 <= i < |p| ==> p[i] == Pack(codes[2 * i], codes[2 * i + 1])
  {
    seq(|codes| / 2, i requires 0 <= i < |codes| / 2 => Pack(codes[2 * i], codes[2 * i + 1]))
  }

  /** Code j of a packed row. */
  function Nibble(p: seq<nat>, j: nat): nat
    requires j < 2 * |p|
  {
    if j % 2 == 0 then p[j / 2] % 16 else p[j / 2] / 16
  }

  function UnpackCodes(p: seq<nat>): (codes: seq<nat>)
    ensures |codes| == 2 * |p|
    ensures forall j :: 0 <= j < |codes| ==> codes[j] == Nibble(p, j)
  {
    seq(2 * |p|, j requires 0 <= j < 2 * |p| => Nibble(p, j))
  }

  lemma NibbleOfPacked(codes: seq<nat>, j: nat)
    requires |codes| % 2 == 0 && j < |codes| && forall i :: 0 <= i < |codes| ==> codes[i] < 16
    ensures Nibble(PackCodes(codes), j) == codes[j]
  {
    hide PackCodes, Pack;
    var i := j / 2;
    assert j == 2 * i || j == 2 * i + 1;
    assert PackCodes(codes)[i] == Pack(codes[2 * i], codes[2 * i + 1]);
    PackParts(codes[2 * i], codes[2 * i + 1]);
  }

  lemma PackParts(lo: nat, hi: nat)
    requires lo < 16
    ensures Pack(lo, hi) % 16 == lo && Pack(lo, hi) / 16 == hi
  {
  }

  lemma PackedOfNibbles(p: seq<nat>, i: nat)
    requires i < |p| && p[i] < 256
    ensures PackCodes(UnpackCodes(p))[i] == p[i]
  {
    hide PackCodes, UnpackCodes, Nibble, Pack;
    var u := UnpackCodes(p);
    NibblesAt(p, i);
    assert u[2 * i] == p[i] % 16 && u[2 * i + 1] == p[i] / 16;
    PartsPack(p[i]);
  }

  lemma NibblesAt(p: seq<nat>, i: nat)
    requires i < |p|
    ensures Nibble(p, 2 * i) == p[i] % 16 && Nibble(p, 2 * i + 1) == p[i] / 16
  {
    assert (2 * i) % 2 == 0 && (2 * i) / 2 == i && (2 * i + 1) % 2 == 1 && (2 * i + 1) / 2 == i;
  }

  lemma PartsPack(b: nat)
    requires b < 256
    ensures Pack(b % 16, b / 16) == b
  {
  }

  /** Packing loses nothing, in either direction. */
  lemma NibblesRoundTrip(codes: seq<nat>, p: seq<nat>)
    ensures |codes| % 2 == 0 && (forall j :: 0 <= j < |codes| ==> codes[j] < 16) ==> UnpackCodes(PackCodes(codes)) == codes
    ensures (forall j :: 0 <= j < |p| ==> p[j] < 256) ==> PackCodes(UnpackCodes(p)) == p
  {
    hide PackCodes, UnpackCodes, Nibble, Pack;
    if |codes| % 2 == 0 && forall j :: 0 <= j < |codes| ==> codes[j] < 16 {
      forall j | 0 <= j < |codes| ensures UnpackCodes(PackCodes(codes))[j] == codes[j] {
        NibbleOfPacked(codes, j);
      }
    }
    if forall j :: 0 <= j < |p| ==> p[j] < 256 {
      forall i | 0 <= i < |p| ensures PackCodes(UnpackCodes(p))[i] == p[i] {
        PackedOfNibbles(p, i);
      }
    }
  }

  /** A stored row: packed codes and one exponent byte per block. */
  datatype QRow = QRow(packed: seq<nat>, e8m0: seq<nat>) {
    predicate Valid() {
      && 2 * |packed| == GROUP * |e8m0|
      && (forall i :: 0 <= i < |packed| ==> packed[i] < 256)
      && forall i :: 0 <= i < |e8m0| ==> e8m0[i] <= 254
    }
  }

  function RowCodes(w: seq<real>): (c: seq<nat>)
    requires |w| % GROUP == 0
    ensures |c| == |w| && forall j :: 0 <= j < |c| ==> c[j] < 16
  {
    if w == [] then [] else Quantise(w[..GROUP]).codes + RowCodes(w[GROUP..])
  }

  function RowExps(w: seq<real>): (e: seq<nat>)
    requires |w| % GROUP == 0
    ensures GROUP * |e| == |w| && forall j :: 0 <= j < |e| ==> e[j] <= 254
  {
    if w == [] then [] else [Quantise(w[..GROUP]).e8m0] + RowExps(w[GROUP..])
  }

  lemma PackedInRange(c: seq<nat>)
    requires forall j :: 0 <= j < |c| ==> c[j] < 16
    ensures forall i :: 0 <= i < |c| / 2 ==> PackCodes(c)[i] < 256
  {
    forall i | 0 <= i < |c| / 2 ensures PackCodes(c)[i] < 256 {
      assert c[2 * i] < 16 && c[2 * i + 1] < 16;
    }
  }

  lemma RowIsValid(w: seq<real>)
    requires |w| % GROUP == 0
    ensures QRow(PackCodes(RowCodes(w)), RowExps(w)).Valid()
  {
    hide PackCodes, RowCodes, RowExps, Pack, Quantise;
    PackedInRange(RowCodes(w));
    assert |PackCodes(RowCodes(w))| == |w| / 2 && GROUP * |RowExps(w)| == |w|;
    HalfOfBlocks(|w|, |RowExps(w)|);
  }

  lemma HalfOfBlocks(n: nat, b: nat)
    requires n == GROUP * b
    ensures 2 * (n / 2) == n
  {
    QuotientUnique(16 * b, 0, 2);
  }

  function QuantiseRow(w: seq<real>): (r: QRow)
    requires |w| % GROUP == 0
    ensures r.Valid()
  {
    RowIsValid(w);
    QRow(PackCodes(RowCodes(w)), RowExps(w))
  }

  function Values(codes: seq<nat>, e8m0: seq<nat>): (w: seq<real>)
    requires |codes| == GROUP * |e8m0|
    requires (forall j :: 0 <= j < |codes| ==> codes[j] < 16) && forall j :: 0 <= j < |e8m0| ==> e8m0[j] <= 254
    ensures |w| == |codes|
  {
    if e8m0 == [] then [] else Dequantise(Block(codes[..GROUP], e8m0[0])) + Values(codes[GROUP..], e8m0[1..])
  }

  function DequantiseRow(r: QRow): (w: seq<real>)
    requires r.Valid()
    ensures |w| == 2 * |r.packed|
  {
    var codes := UnpackCodes(r.packed);
    CodesInRange(r.packed);
    Values(codes, r.e8m0)
  }

  lemma CodesInRange(p: seq<nat>)
    requires forall i :: 0 <= i < |p| ==> p[i] < 256
    ensures forall j :: 0 <= j < 2 * |p| ==> UnpackCodes(p)[j] < 16
  {
  }

  /** What a row comes back as: each block on its own. */
  function RoundTrip(w: seq<real>): (v: seq<real>)
    requires |w| % GROUP == 0
    ensures |v| == |w|
  {
    if w == [] then [] else Dequantise(Quantise(w[..GROUP])) + RoundTrip(w[GROUP..])
  }

  lemma {:induction false} ValuesRoundTrip(w: seq<real>)
    requires |w| % GROUP == 0
    ensures Values(RowCodes(w), RowExps(w)) == RoundTrip(w)
  {
    hide Quantise, Dequantise;
    if w != [] {
      ValuesRoundTrip(w[GROUP..]);
      var q := Quantise(w[..GROUP]);
      assert RowCodes(w)[..GROUP] == q.codes && RowCodes(w)[GROUP..] == RowCodes(w[GROUP..]);
      assert RowExps(w)[1..] == RowExps(w[GROUP..]);
    }
  }

  lemma RowRoundTrip(w: seq<real>)
    requires |w| % GROUP == 0
    ensures DequantiseRow(QuantiseRow(w)) == RoundTrip(w)
  {
    hide Values, RowCodes, RowExps, RoundTrip;
    NibblesRoundTrip(RowCodes(w), []);
    ValuesRoundTrip(w);
  }

  lemma {:induction false} ValuesFixed(codes: seq<nat>, e8m0: seq<nat>)
    requires |codes| == GROUP * |e8m0|
    requires (forall j :: 0 <= j < |codes| ==> codes[j] < 16) && forall j :: 0 <= j < |e8m0| ==> e8m0[j] <= 254
    ensures RoundTrip(Values(codes, e8m0)) == Values(codes, e8m0)
    decreases |e8m0|
  {
    hide Quantise, Dequantise;
    if e8m0 != [] {
      var q := Block(codes[..GROUP], e8m0[0]);
      var w := Values(codes, e8m0);
      BlockFixed(q);
      ValuesFixed(codes[GROUP..], e8m0[1..]);
      assert w[..GROUP] == Dequantise(q) && w[GROUP..] == Values(codes[GROUP..], e8m0[1..]);
    }
  }

  /** Quantising is a projection: a stored row, dequantised and quantised again, stores the same values. */
  lemma RequantiseFixed(r: QRow)
    requires r.Valid()
    ensures DequantiseRow(QuantiseRow(DequantiseRow(r))) == DequantiseRow(r)
  {
    hide Values, RoundTrip, QuantiseRow, DequantiseRow;
    RowRoundTrip(DequantiseRow(r));
    DequantiseRowFixed(r);
  }

  lemma DequantiseRowFixed(r: QRow)
    requires r.Valid()
    ensures RoundTrip(DequantiseRow(r)) == DequantiseRow(r)
  {
    hide Values, RoundTrip;
    CodesInRange(r.packed);
    ValuesFixed(UnpackCodes(r.packed), r.e8m0);
  }

  /** The dequantiser's buffer: low nibbles to the even places, high nibbles to the odd ones. */
  method UnpackInto(packed: seq<nat>) returns (code: array<nat>)
    ensures fresh(code) && code[..] == UnpackCodes(packed)
  {
    code := new nat[2 * |packed|];
    for i := 0 to |packed|
      invariant forall j :: 0 <= j < 2 * i && j % 2 == 0 ==> code[j] == Nibble(packed, j)
    {
      code[2 * i] := packed[i] % 16;
    }
    for i := 0 to |packed|
      invariant forall j :: 0 <= j < 2 * |packed| && (j % 2 == 0 || j < 2 * i) ==> code[j] == Nibble(packed, j)
    {
      code[2 * i + 1] := packed[i] / 16;
    }
    assert code[..] == UnpackCodes(packed);
  }

  function QuantiseRows(w: seq<seq<real>>): (r: seq<QRow>)
    requires forall i :: 0 <= i < |w| ==> |w[i]| % GROUP == 0
    ensures |r| == |w| && forall i :: 0 <= i < |w| ==> r[i] == QuantiseRow(w[i])
  {
    seq(|w|, i requires 0 <= i < |w| => QuantiseRow(w[i]))
  }

  /** The quantiser on an N x K tensor, in chunks of rows.  The chunk size does not matter; a row length
      that is not a whole number of blocks is an error. */
  method QuantiseTensor(w: seq<seq<real>>, k: nat, chunk: nat) returns (r: Option<seq<QRow>>)
    requires chunk > 0 && forall i :: 0 <= i < |w| ==> |w[i]| == k
    ensures r.Some? <==> k % GROUP == 0
    ensures r.Some? ==> r.value == QuantiseRows(w)
    decreases |w|
  {
    hide QuantiseRow;
    if |w| > chunk {
      var rows: seq<QRow> := [];
      var i := 0;
      while i < |w|
        invariant 0 <= i <= |w|
        invariant i > 0 ==> k % GROUP == 0
        invariant k % GROUP == 0 ==> rows == QuantiseRows(w[..i])
      {
        var hi := Min(i + chunk, |w|);
        var part := QuantiseTensor(w[i..hi], k, chunk);
        if part.None? {
          return None;
        }
        rows := rows + part.value;
        assert w[..i] + w[i..hi] == w[..hi];
        i := hi;
      }
      assert w[..i] == w;
      return Some(rows);
    }
    if k % GROUP != 0 {
      return None;
    }
    r := Some(QuantiseRows(w));
  }
}
