/** The top-1 confidence of a draft slot without a full-vocabulary softmax: an online log-sum-exp over
    chunks, a combine over the chunks of a shard, and a combine over the ranks' shards. */
module LogSumExp {
  import opened Basics

  const NSPLIT := 64
  const CHUNK := 4096
  const BLOCK := 512
  /** The longest row the chunks cover. */
  const SPAN := 262144

  datatype Logit = NegInf | Fin(x: real)

  /** A float32 where arithmetic is exact but minus infinity minus itself is not a number. */
  datatype Float = NaN | Num(x: real)

  predicate Leq(a: Logit, b: Logit) {
    a.NegInf? || (b.Fin? && a.x <= b.x)
  }

  function Larger(a: Logit, b: Logit): Logit {
    if Leq(a, b) then b else a
  }

  // ----- exp -------------------------------------------------------------------

  /** A product of reals, by name, so that proofs can leave it alone. */
  function Times(a: real, b: real): real { a * b }

  ghost predicate ExpAdds(E: real -> real, a: real, b: real) {
    E(a + b) == Times(E(a), E(b))
  }

  ghost predicate ExpPositive(E: real -> real, a: real) {
    E(a) > 0.0
  }

  ghost predicate ExpOrder(E: real -> real, a: real, b: real) {
    a <= b ==> E(a) <= E(b)
  }

  /** All that is used of the exponential function: it turns sums into products and does not fall.  It grows
      wherever its arguments do once E(1) > 1 (ExpGrows). */
  ghost predicate Exponential(E: real -> real) {
    && E(0.0) == 1.0
    && (forall a: real :: ExpPositive(E, a))
    && (forall a: real, b: real :: ExpAdds(E, a, b))
    && forall a: real, b: real :: ExpOrder(E, a, b)
  }

  /** The exponential function, as far as the kernels rely on it. */
  type Exp = E: real -> real | Exponential(E) ghost witness ((_: real) => 1.0)

  function Repeated(d: real, n: nat): real { if n == 0 then 0.0 else Repeated(d, n - 1) + d }

  lemma {:induction false} ExpFlat(E: Exp, d: real, n: nat)
    requires E(d) == 1.0
    ensures E(Repeated(d, n)) == 1.0
  {
    if n > 0 {
      ExpFlat(E, d, n - 1);
      assert ExpAdds(E, Repeated(d, n - 1), d);
    }
  }

  lemma {:induction false} RepeatedIs(d: real, n: nat)
    ensures Repeated(d, n) == n as real * d
  {
    if n > 0 {
      RepeatedIs(d, n - 1);
      assert n as real * d == (n - 1) as real * d + d;
    }
  }

  lemma Archimedes(d: real) returns (n: nat)
    requires d > 0.0
    ensures Repeated(d, n) >= 1.0
  {
    var q := 1.0 / d;
    assert q * d == 1.0;
    if q < 0.0 {
      assert false;
    }
    n := q.Floor + 1;
    assert (n as real - q) * d >= 0.0;
    RepeatedIs(d, n);
  }

  /** An exponential with E(1) > 1, as Euler's, grows strictly. */
  lemma ExpGrows(E: Exp, a: real, b: real)
    requires a < b && E(1.0) > 1.0
    ensures E(a) < E(b)
  {
    hide Exponential, Times;
    ExpLaws(E, a, b);
    if E(a) == E(b) {
      CancelOne(E(a), E(b - a));
      var n := Archimedes(b - a);
      ExpFlat(E, b - a, n);
      ExpLaws(E, 1.0, Repeated(b - a, n));
      assert false;
    }
  }

  lemma ExpLaws(E: Exp, a: real, b: real)
    ensures E(a) > 0.0 && (a <= b ==> E(a) <= E(b)) && E(b) == Times(E(a), E(b - a))
  {
    assert ExpPositive(E, a) && ExpOrder(E, a, b) && ExpAdds(E, a, b - a);
    assert a + (b - a) == b;
  }

  lemma CancelOne(a: real, e: real)
    requires a > 0.0 && Times(a, e) == a
    ensures e == 1.0
  {
    assert a * (e - 1.0) == 0.0;
  }

  // ----- the reference -----------------------------------------------------------

  /** exp of a logit, scaled by the reference point M. */
  function Weight(E: Exp, l: Logit, M: real): real {
    if l.NegInf? then 0.0 else E(l.x - M)
  }

  /** The sum of exp(l - M) over a row. */
  function Mass(E: Exp, s: seq<Logit>, M: real): real {
    if s == [] then 0.0 else Mass(E, s[..|s| - 1], M) + Weight(E, s[|s| - 1], M)
  }

  function Top(s: seq<Logit>): Logit {
    if s == [] then NegInf else Larger(Top(s[..|s| - 1]), s[|s| - 1])
  }

  ghost predicate FirstTop(s: seq<Logit>, i: nat) {
    && i < |s| && (forall j :: 0 <= j < |s| ==> Leq(s[j], s[i]))
    && forall j :: 0 <= j < i ==> s[j] != s[i]
  }

  /** Entry i is the largest, and every entry before it is smaller: in numbers, minus infinity below all. */
  ghost predicate LargestFirst(s: seq<Logit>, i: nat) {
    && i < |s|
    && (forall j :: 0 <= j < |s| && s[j].Fin? ==> s[i].Fin? && s[j].x <= s[i].x)
    && (forall j :: 0 <= j < i && s[j].Fin? ==> s[j].x < s[i].x)
    && (s[i].NegInf? ==> i == 0)
  }

  lemma FirstTopIs(s: seq<Logit>, i: nat)
    ensures FirstTop(s, i) <==> LargestFirst(s, i)
  {
    if FirstTop(s, i) {
      forall j | 0 <= j < |s| ensures (s[j].Fin? ==> s[i].Fin? && s[j].x <= s[i].x) && (j < i ==> s[i].Fin? && (s[j].Fin? ==> s[j].x < s[i].x)) {
        assert Leq(s[j], s[i]);
        assert j < i ==> s[j] != s[i];
      }
      assert i > 0 ==> s[0] != s[i];
    }
  }

  /** The softmax probability of entry i of the row. */
  ghost function Softmax(E: Exp, s: seq<Logit>, i: nat): real
    requires i < |s| && Mass(E, s, 0.0) != 0.0
  {
    Weight(E, s[i], 0.0) / Mass(E, s, 0.0)
  }

  lemma {:induction false} TopIs(s: seq<Logit>)
    ensures forall j :: 0 <= j < |s| ==> Leq(s[j], Top(s))
    ensures s != [] ==> Top(s) in s
    ensures Top(s).Fin? <==> exists j :: 0 <= j < |s| && s[j].Fin?
  {
    if s != [] {
      var r := s[..|s| - 1];
      TopIs(r);
      forall j | 0 <= j < |s| ensures Leq(s[j], Top(s)) {
        if j < |s| - 1 {
          assert s[j] == r[j];
        }
      }
      if Top(s).Fin? {
        var j :| 0 <= j < |s| && s[j] == Top(s);
      }
    }
  }

  lemma {:induction false} TopConcat(a: seq<Logit>, b: seq<Logit>)
    ensures Top(a + b) == Larger(Top(a), Top(b))
  {
    if b == [] {
      assert a + b == a;
    } else {
      var b' := b[..|b| - 1];
      TopConcat(a, b');
      assert (a + b)[..|a + b| - 1] == a + b';
    }
  }

  lemma {:induction false} MassConcat(E: Exp, a: seq<Logit>, b: seq<Logit>, M: real)
    ensures Mass(E, a + b, M) == Mass(E, a, M) + Mass(E, b, M)
  {
    if b == [] {
      assert a + b == a;
    } else {
      var b' := b[..|b| - 1];
      MassConcat(E, a, b', M);
      assert (a + b)[..|a + b| - 1] == a + b';
    }
  }

  lemma {:induction false} MassOfNothing(E: Exp, s: seq<Logit>, M: real)
    requires Top(s).NegInf?
    ensures Mass(E, s, M) == 0.0
  {
    if s != [] {
      MassOfNothing(E, s[..|s| - 1], M);
    }
  }

  /** Moving the reference point multiplies the sum by one factor. */
  lemma {:induction false} Rescale(E: Exp, s: seq<Logit>, M: real, N: real)
    ensures Times(Mass(E, s, M), E(M - N)) == Mass(E, s, N)
  {
    hide Times;
    TimesZero(E(M - N));
    if s != [] {
      var l := s[|s| - 1];
      Rescale(E, s[..|s| - 1], M, N);
      Distribute(Mass(E, s[..|s| - 1], M), Weight(E, l, M), E(M - N));
      if l.Fin? {
        assert ExpAdds(E, l.x - M, M - N);
        assert l.x - M + (M - N) == l.x - N;
      }
    }
  }

  lemma Distribute(a: real, b: real, c: real)
    ensures Times(a + b, c) == Times(a, c) + Times(b, c)
  {
  }

  lemma TimesZero(c: real)
    ensures Times(0.0, c) == 0.0
  {
  }

  /** Relative to its own maximum a row's sum is at least 1. */
  lemma {:induction false} MassAtLeast(E: Exp, s: seq<Logit>, M: real)
    ensures Mass(E, s, M) >= 0.0
    ensures Fin(M) in s ==> Mass(E, s, M) >= 1.0
  {
    if s != [] {
      MassAtLeast(E, s[..|s| - 1], M);
      assert s[|s| - 1].Fin? ==> ExpPositive(E, s[|s| - 1].x - M);
    }
  }

  // ----- exact partial results -----------------------------------------------------

  /** The sum of a row relative to its own maximum; 0 for a row without finite entries. */
  ghost function OwnMass(E: Exp, s: seq<Logit>): real {
    if Top(s).NegInf? then 0.0 else Mass(E, s, Top(s).x)
  }

  datatype Part = Part(m: Logit, s: Float)

  ghost function PartOf(E: Exp, s: seq<Logit>): Part {
    Part(Top(s), Num(OwnMass(E, s)))
  }

  // ----- float steps the kernels use ------------------------------------------------

  function Add(a: Float, b: Float): Float {
    if a.NaN? || b.NaN? then NaN else Num(a.x + b.x)
  }

  function Mul(a: Float, b: Float): Float {
    if a.NaN? || b.NaN? then NaN else Num(Times(a.x, b.x))
  }

  /** exp(l - M). */
  function ExpDiff(E: Exp, l: Logit, M: Logit): Float
    requires Leq(l, M)
  {
    if M.NegInf? then NaN else if l.NegInf? then Num(0.0) else Num(E(l.x - M.x))
  }

  /** The scaling step of the online algorithm. */
  lemma OwnMassRescale(E: Exp, s: seq<Logit>, M: real)
    requires Leq(Top(s), Fin(M))
    ensures Mul(Num(OwnMass(E, s)), ExpDiff(E, Top(s), Fin(M))) == Num(Mass(E, s, M))
  {
    hide Exponential, Times;
    if Top(s).NegInf? {
      MassOfNothing(E, s, M);
      TimesZero(0.0);
    } else {
      Rescale(E, s, Top(s).x, M);
    }
  }

  lemma AddIs(a: Float, b: Float)
    ensures Add(a, b) == if a.NaN? || b.NaN? then NaN else Num(a.x + b.x)
  {
  }

  lemma MulNaN(a: Float)
    ensures Mul(NaN, a) == NaN
  {
  }

  lemma ExpOfNegInf(E: Exp, M: Logit)
    requires M.Fin?
    ensures ExpDiff(E, NegInf, M) == Num(0.0)
  {
  }

  lemma MulZero()
    ensures Mul(Num(0.0), Num(0.0)) == Num(0.0)
  {
  }

  // ----- one chunk --------------------------------------------------------------------

  /** tl.sum of exp(l - M) over the lanes of one block that hold an entry. */
  function BlockSum(E: Exp, s: seq<Logit>, M: Logit): Float
    requires forall j :: 0 <= j < |s| ==> Leq(s[j], M)
  {
    if s == [] then Num(0.0) else Add(BlockSum(E, s[..|s| - 1], M), ExpDiff(E, s[|s| - 1], M))
  }

  lemma {:induction false} BlockSumIs(E: Exp, s: seq<Logit>, M: Logit)
    requires forall j :: 0 <= j < |s| ==> Leq(s[j], M)
    ensures BlockSum(E, s, M) == if s == [] then Num(0.0) else if M.NegInf? then NaN else Num(Mass(E, s, M.x))
  {
    hide Exponential, Add;
    if s != [] {
      BlockSumIs(E, s[..|s| - 1], M);
      AddIs(BlockSum(E, s[..|s| - 1], M), ExpDiff(E, s[|s| - 1], M));
    }
  }

  /** The row entries [lo, hi), less those past the end. */
  function Segment(row: seq<Logit>, lo: nat, hi: nat): seq<Logit>
    requires lo <= hi
  {
    row[Min(lo, |row|)..Min(hi, |row|)]
  }

  lemma SegmentJoin(row: seq<Logit>, a: nat, b: nat, c: nat)
    requires a <= b <= c
    ensures Segment(row, a, b) + Segment(row, b, c) == Segment(row, a, c)
  {
  }

  /** The first block of a chunk is where the running maximum has to become finite. */
  ghost predicate HeadFinite(row: seq<Logit>, base: nat) {
    base < |row| ==> Top(Segment(row, base, base + BLOCK)).Fin?
  }

  /** What the chunk loop holds after seeing the entries seen. */
  ghost predicate Running(E: Exp, seen: seq<Logit>, poisoned: bool, m: Logit, s: Float) {
    && m == Top(seen)
    && (poisoned ==> s == NaN)
    && (!poisoned ==> Part(m, s) == PartOf(E, seen) && (seen != [] ==> m.Fin?))
  }

  lemma RunningStep(E: Exp, seen: seq<Logit>, b: seq<Logit>, poisoned: bool, m: Logit, s: Float)
    requires Running(E, seen, poisoned, m, s)
    requires forall j :: 0 <= j < |b| ==> Leq(b[j], Larger(m, Top(b)))
    ensures var nm := Larger(m, Top(b));
            Leq(m, nm) &&
            Running(E, seen + b, poisoned || (seen == [] && b != [] && Top(b).NegInf?), nm,
              Add(Mul(s, if m.NegInf? then Num(0.0) else ExpDiff(E, m, nm)), BlockSum(E, b, nm)))
  {
    hide Exponential, Add, Mul, ExpDiff;
    var nm := Larger(m, Top(b));
    TopConcat(seen, b);
    AddIs(Mul(s, if m.NegInf? then Num(0.0) else ExpDiff(E, m, nm)), BlockSum(E, b, nm));
    BlockSumIs(E, b, nm);
    if poisoned {
      MulNaN(if m.NegInf? then Num(0.0) else ExpDiff(E, m, nm));
    } else if nm.Fin? {
      MassConcat(E, seen, b, nm.x);
      OwnMassRescale(E, seen, nm.x);
      ExpOfNegInf(E, nm);
    } else {
      MulZero();
    }
  }

  ghost predicate Poisoned(row: seq<Logit>, base: nat, k: nat) {
    k > 0 && !HeadFinite(row, base)
  }

  lemma ChunkStep(E: Exp, row: seq<Logit>, base: nat, k: nat, m: Logit, s: Float)
    requires Running(E, Segment(row, base, base + k * BLOCK), Poisoned(row, base, k), m, s)
    requires var b := Segment(row, base + k * BLOCK, base + k * BLOCK + BLOCK);
             forall j :: 0 <= j < |b| ==> Leq(b[j], Larger(m, Top(b)))
    ensures var b := Segment(row, base + k * BLOCK, base + k * BLOCK + BLOCK);
            var nm := Larger(m, Top(b));
            Running(E, Segment(row, base, base + (k + 1) * BLOCK), Poisoned(row, base, k + 1), nm,
              Add(Mul(s, if m.NegInf? then Num(0.0) else ExpDiff(E, m, nm)), BlockSum(E, b, nm)))
  {
    hide Exponential, Add, Mul, ExpDiff, BlockSum, Running;
    var lo := base + k * BLOCK;
    var seen, b := Segment(row, base, lo), Segment(row, lo, lo + BLOCK);
    RunningStep(E, seen, b, Poisoned(row, base, k), m, s);
    SegmentJoin(row, base, lo, lo + BLOCK);
    if k == 0 {
      assert seen == [];
    } else if seen == [] {
      assert b == [];
    }
  }

  lemma RunningStart(E: Exp, row: seq<Logit>, base: nat)
    ensures Running(E, Segment(row, base, base), false, NegInf, Num(0.0))
  {
  }

  lemma RunningEnd(E: Exp, row: seq<Logit>, base: nat, m: Logit, s: Float)
    requires Running(E, Segment(row, base, base + CHUNK), !HeadFinite(row, base), m, s)
    ensures m == Top(Segment(row, base, base + CHUNK))
    ensures if HeadFinite(row, base) then Part(m, s) == PartOf(E, Segment(row, base, base + CHUNK)) else s == NaN
  {
  }

  /** One program of the first kernel: blocks of chunk sp, left to right. */
  method CapChunk(E: Exp, row: seq<Logit>, sp: nat) returns (m: Logit, s: Float)
    ensures m == Top(Segment(row, sp * CHUNK, sp * CHUNK + CHUNK))
    ensures HeadFinite(row, sp * CHUNK) ==> Part(m, s) == PartOf(E, Segment(row, sp * CHUNK, sp * CHUNK + CHUNK))
    ensures !HeadFinite(row, sp * CHUNK) ==> s == NaN
  {
    hide Exponential, Add, Mul, ExpDiff, BlockSum, Running;
    var base := sp * CHUNK;
    m, s := NegInf, Num(0.0);
    RunningStart(E, row, base);
    for k := 0 to CHUNK / BLOCK
      invariant Running(E, Segment(row, base, base + k * BLOCK), Poisoned(row, base, k), m, s)
    {
      var lo := base + k * BLOCK;
      var b := Segment(row, lo, lo + BLOCK);
      var nm := Larger(m, Top(b));
      TopIs(b);
      BelowLarger(b, m);
      ChunkStep(E, row, base, k, m, s);
      var e := BlockSum(E, b, nm);
      var sc := if m.NegInf? then Num(0.0) else ExpDiff(E, m, nm);
      s := Add(Mul(s, sc), e);
      m := nm;
    }
    RunningEnd(E, row, base, m, s);
  }

  lemma BelowLarger(b: seq<Logit>, m: Logit)
    requires forall j :: 0 <= j < |b| ==> Leq(b[j], Top(b))
    ensures forall j :: 0 <= j < |b| ==> Leq(b[j], Larger(m, Top(b)))
  {
  }

  // ----- combining parts -----------------------------------------------------------------

  function TopPart(parts: seq<Part>): (r: Logit)
    ensures forall j :: 0 <= j < |parts| ==> Leq(parts[j].m, r)
  {
    if parts == [] then NegInf else Larger(TopPart(parts[..|parts| - 1]), parts[|parts| - 1].m)
  }

  /** The sum of s * exp(m - M) over the parts. */
  function Scaled(E: Exp, parts: seq<Part>, M: Logit): Float
    requires forall j :: 0 <= j < |parts| ==> Leq(parts[j].m, M)
  {
    if parts == [] then Num(0.0)
    else
      var p := parts[|parts| - 1];
      Add(Scaled(E, parts[..|parts| - 1], M), Mul(p.s, ExpDiff(E, p.m, M)))
  }

  function Flatten(segs: seq<seq<Logit>>): seq<Logit> {
    if segs == [] then [] else Flatten(segs[..|segs| - 1]) + segs[|segs| - 1]
  }

  ghost predicate PartsOf(E: Exp, segs: seq<seq<Logit>>, parts: seq<Part>) {
    |parts| == |segs| && forall j :: 0 <= j < |segs| ==> parts[j] == PartOf(E, segs[j])
  }

  lemma {:induction false} TopPartIs(segs: seq<seq<Logit>>, parts: seq<Part>)
    requires |parts| == |segs| && forall j :: 0 <= j < |segs| ==> parts[j].m == Top(segs[j])
    ensures TopPart(parts) == Top(Flatten(segs))
  {
    if segs != [] {
      var n := |segs| - 1;
      TopPartIs(segs[..n], parts[..n]);
      TopConcat(Flatten(segs[..n]), segs[n]);
    }
  }

  lemma {:induction false} ScaledIs(E: Exp, segs: seq<seq<Logit>>, parts: seq<Part>, M: real)
    requires PartsOf(E, segs, parts)
    requires forall j :: 0 <= j < |parts| ==> Leq(parts[j].m, Fin(M))
    ensures Scaled(E, parts, Fin(M)) == Num(Mass(E, Flatten(segs), M))
  {
    hide Exponential, Add, Mul, ExpDiff;
    if segs != [] {
      var n := |segs| - 1;
      AddIs(Scaled(E, parts[..n], Fin(M)), Mul(parts[n].s, ExpDiff(E, parts[n].m, Fin(M))));
      ScaledIs(E, segs[..n], parts[..n], M);
      MassConcat(E, Flatten(segs[..n]), segs[n], M);
      OwnMassRescale(E, segs[n], M);
      assert parts[n] == PartOf(E, segs[n]);
      assert Mul(parts[n].s, ExpDiff(E, parts[n].m, Fin(M))) == Num(Mass(E, segs[n], M));
    }
  }

  lemma {:induction false} ScaledNaN(E: Exp, parts: seq<Part>, M: Logit, j: nat)
    requires forall i :: 0 <= i < |parts| ==> Leq(parts[i].m, M)
    requires j < |parts| && (parts[j].s.NaN? || M.NegInf?)
    ensures Scaled(E, parts, M) == NaN
  {
    if j < |parts| - 1 {
      ScaledNaN(E, parts[..|parts| - 1], M, j);
    }
  }

  /** Combining exact parts gives the exact part of the whole. */
  lemma CombineExact(E: Exp, segs: seq<seq<Logit>>, parts: seq<Part>)
    requires PartsOf(E, segs, parts) && Top(Flatten(segs)).Fin?
    ensures Part(TopPart(parts), Scaled(E, parts, TopPart(parts))) == PartOf(E, Flatten(segs))
  {
    TopPartIs(segs, parts);
    ScaledIs(E, segs, parts, TopPart(parts).x);
  }

  // ----- one shard ---------------------------------------------------------------------------

  ghost predicate Healthy(row: seq<Logit>) {
    row != [] && forall sp: nat :: sp < NSPLIT ==> HeadFinite(row, sp * CHUNK)
  }

  function Chunks(row: seq<Logit>, n: nat): (r: seq<seq<Logit>>)
    ensures |r| == n && forall sp :: 0 <= sp < n ==> r[sp] == Segment(row, sp * CHUNK, sp * CHUNK + CHUNK)
  {
    seq(n, sp requires 0 <= sp < n => Segment(row, sp * CHUNK, sp * CHUNK + CHUNK))
  }

  lemma {:induction false} ChunksCover(row: seq<Logit>, n: nat)
    ensures Flatten(Chunks(row, n)) == Segment(row, 0, n * CHUNK)
  {
    if n > 0 {
      ChunksCover(row, n - 1);
      assert Chunks(row, n)[..n - 1] == Chunks(row, n - 1);
      SegmentJoin(row, 0, (n - 1) * CHUNK, n * CHUNK);
    }
  }

  /** What the first kernel leaves for chunk sp. */
  ghost predicate ChunkPart(E: Exp, row: seq<Logit>, sp: nat, p: Part) {
    var c := Segment(row, sp * CHUNK, sp * CHUNK + CHUNK);
    p.m == Top(c) && if HeadFinite(row, sp * CHUNK) then p == PartOf(E, c) else p.s == NaN
  }

  lemma CombineChunks(E: Exp, row: seq<Logit>, parts: seq<Part>)
    requires |parts| == NSPLIT && forall sp :: 0 <= sp < NSPLIT ==> ChunkPart(E, row, sp, parts[sp])
    ensures var M := TopPart(parts);
            var S := Scaled(E, parts, M);
            && M == Top(Segment(row, 0, SPAN))
            && (S.Num? <==> Healthy(row))
            && (Healthy(row) ==> M.Fin? && Part(M, S) == PartOf(E, Segment(row, 0, SPAN)))
  {
    hide Exponential, Add, Mul, ExpDiff, Mass;
    var segs := Chunks(row, NSPLIT);
    forall sp | 0 <= sp < NSPLIT ensures parts[sp].m == Top(segs[sp]) {
      assert ChunkPart(E, row, sp, parts[sp]);
    }
    ChunksCover(row, NSPLIT);
    TopPartIs(segs, parts);
    if Healthy(row) {
      forall sp | 0 <= sp < NSPLIT ensures parts[sp] == PartOf(E, segs[sp]) {
        assert ChunkPart(E, row, sp, parts[sp]) && HeadFinite(row, sp * CHUNK);
      }
      HealthyFinite(row);
      CombineExact(E, segs, parts);
    } else if row == [] {
      ScaledNaN(E, parts, TopPart(parts), 0);
    } else {
      var sp: nat :| sp < NSPLIT && !HeadFinite(row, sp * CHUNK);
      assert ChunkPart(E, row, sp, parts[sp]);
      ScaledNaN(E, parts, TopPart(parts), sp);
    }
  }

  /** A shard's maximum and sum: the two kernels one after the other.  The sum is a number exactly when
      no chunk starts with a block of minus infinities, and then it is exact for the entries covered. */
  method CaptureLocal(E: Exp, row: seq<Logit>) returns (M: Logit, S: Float)
    ensures M == Top(Segment(row, 0, SPAN))
    ensures S.Num? <==> Healthy(row)
    ensures Healthy(row) ==> M.Fin? && Part(M, S) == PartOf(E, Segment(row, 0, SPAN))
  {
    var parts: seq<Part> := [];
    for sp := 0 to NSPLIT
      invariant |parts| == sp
      invariant forall j :: 0 <= j < sp ==> ChunkPart(E, row, j, parts[j])
    {
      var m, s := CapChunk(E, row, sp);
      parts := parts + [Part(m, s)];
    }
    CombineChunks(E, row, parts);
    M := TopPart(parts);
    S := Scaled(E, parts, M);
  }

  lemma HealthyFinite(row: seq<Logit>)
    requires Healthy(row)
    ensures Top(Segment(row, 0, SPAN)).Fin?
  {
    assert HeadFinite(row, 0 * CHUNK);
    SegmentJoin(row, 0, BLOCK, SPAN);
    TopConcat(Segment(row, 0, BLOCK), Segment(row, BLOCK, SPAN));
  }

  // ----- softmax ---------------------------------------------------------------------------------

  /** One over the sum relative to the maximum is the softmax probability of the maximum. */
  lemma ReciprocalIsSoftmax(E: Exp, s: seq<Logit>, i: nat)
    requires i < |s| && s[i] == Top(s) && s[i].Fin?
    ensures Mass(E, s, 0.0) > 0.0 && Mass(E, s, s[i].x) >= 1.0
    ensures 1.0 / Mass(E, s, s[i].x) == Softmax(E, s, i)
  {
    hide Exponential, Mass, Softmax, Times;
    var M := s[i].x;
    MassAtLeast(E, s, M);
    ScaleToZero(E, s, M);
    Cancel(Mass(E, s, M), E(M), Mass(E, s, 0.0));
    SoftmaxAt(E, s, i);
  }

  lemma ScaleToZero(E: Exp, s: seq<Logit>, M: real)
    ensures Times(Mass(E, s, M), E(M)) == Mass(E, s, 0.0) && E(M) > 0.0
  {
    hide Times, Mass;
    Rescale(E, s, M, 0.0);
    assert M - 0.0 == M;
    assert ExpPositive(E, M);
  }

  lemma SoftmaxAt(E: Exp, s: seq<Logit>, i: nat)
    requires i < |s| && Mass(E, s, 0.0) != 0.0 && s[i].Fin?
    ensures Softmax(E, s, i) == E(s[i].x) / Mass(E, s, 0.0)
  {
    assert s[i].x - 0.0 == s[i].x;
  }

  /** Entry i is the most probable one, and, where the exponential grows, more probable than any before it. */
  ghost predicate MostProbable(E: Exp, s: seq<Logit>, i: nat)
    requires i < |s| && Mass(E, s, 0.0) != 0.0
  {
    && (forall j :: 0 <= j < |s| ==> Softmax(E, s, j) <= Softmax(E, s, i))
    && (E(1.0) > 1.0 ==> forall j :: 0 <= j < i ==> Softmax(E, s, j) < Softmax(E, s, i))
  }

  lemma MostProbableIs(E: Exp, s: seq<Logit>, i: nat)
    requires i < |s| && Mass(E, s, 0.0) != 0.0 && MostProbable(E, s, i)
    ensures forall j :: 0 <= j < |s| ==> Softmax(E, s, j) <= Softmax(E, s, i)
  {
  }

  lemma LargestIsMostProbable(E: Exp, s: seq<Logit>, i: nat)
    requires LargestFirst(s, i) && s[i].Fin? && Mass(E, s, 0.0) > 0.0
    ensures MostProbable(E, s, i)
  {
    hide Exponential, Mass;
    var t := Mass(E, s, 0.0);
    forall j | 0 <= j < |s|
      ensures Softmax(E, s, j) <= Softmax(E, s, i) && (E(1.0) > 1.0 && j < i ==> Softmax(E, s, j) < Softmax(E, s, i))
    {
      ExpLaws(E, s[i].x - 0.0, s[i].x - 0.0);
      if s[j].Fin? {
        ExpLaws(E, s[j].x - 0.0, s[i].x - 0.0);
        if j < i && E(1.0) > 1.0 {
          ExpGrows(E, s[j].x - 0.0, s[i].x - 0.0);
        }
      }
      OverOrder(Weight(E, s[j], 0.0), Weight(E, s[i], 0.0), t);
    }
  }

  lemma OverOrder(a: real, b: real, t: real)
    requires t > 0.0
    ensures (a <= b ==> a / t <= b / t) && (a < b ==> a / t < b / t)
  {
    assert b / t - a / t == (b - a) / t;
  }

  lemma Cancel(a: real, e: real, t: real)
    requires a >= 1.0 && e > 0.0 && Times(a, e) == t
    ensures t > 0.0 && e / t == 1.0 / a
  {
    assert e == (1.0 / a) * (a * e);
  }

  /** The gathered path: one row, one confidence. */
  method CaptureGpu(E: Exp, row: seq<Logit>, ghost best: nat) returns (conf: Float)
    requires |row| <= SPAN && FirstTop(row, best)
    ensures conf.Num? <==> Healthy(row)
    ensures Healthy(row) ==> Mass(E, row, 0.0) > 0.0 && conf == Num(Softmax(E, row, best))
    ensures Healthy(row) ==> LargestFirst(row, best) && MostProbable(E, row, best)
  {
    var M, S := CaptureLocal(E, row);
    assert Segment(row, 0, SPAN) == row;
    if S.NaN? {
      return NaN;
    }
    TopIs(row);
    FirstTopIsTop(row, best);
    FirstTopIs(row, best);
    ReciprocalIsSoftmax(E, row, best);
    LargestIsMostProbable(E, row, best);
    conf := Num(1.0 / S.x);
  }

  lemma FirstTopIsTop(s: seq<Logit>, i: nat)
    requires FirstTop(s, i)
    ensures i < |s| && s[i] == Top(s)
  {
    TopIs(s);
    var j :| 0 <= j < |s| && s[j] == Top(s);
  }

  // ----- across ranks ------------------------------------------------------------------------------

  /** One rank's slice of the vocabulary: its own entries, the number of padding entries after them,
      and where it starts. */
  datatype Shard = Shard(own: seq<Logit>, npad: nat, start: nat) {
    /** The row once the padding has been overwritten. */
    function Row(): seq<Logit> {
      own + seq(npad, _ => NegInf)
    }
  }

  ghost predicate AllFinite(s: seq<Logit>) {
    forall j :: 0 <= j < |s| ==> s[j].Fin?
  }

  /** A chunk starts badly exactly when it starts in the padding. */
  lemma HeadFiniteIff(sh: Shard, base: nat)
    requires AllFinite(sh.own)
    ensures HeadFinite(sh.Row(), base) <==> base < |sh.own| || |sh.Row()| <= base
  {
    var row := sh.Row();
    var b := Segment(row, base, base + BLOCK);
    TopIs(b);
    if base < |sh.own| {
      assert b[0] == sh.own[base];
    } else {
      assert forall j :: 0 <= j < |b| ==> b[j].NegInf?;
    }
  }

  /** For a shard whose own logits are finite the sizes alone decide whether its confidence is a number:
      the padding must not reach past the chunk that holds its last own entry. */
  lemma HealthyIff(sh: Shard)
    requires AllFinite(sh.own) && |sh.Row()| <= SPAN
    ensures Healthy(sh.Row()) <==> sh.own != [] && |sh.own| + sh.npad <= CeilDiv(|sh.own|, CHUNK) * CHUNK
  {
    var row, c := sh.Row(), CeilDiv(|sh.own|, CHUNK);
    HeadFiniteIff(sh, c * CHUNK);
    if sh.own != [] && |row| <= c * CHUNK {
      forall sp: nat | sp < NSPLIT ensures HeadFinite(row, sp * CHUNK) {
        HeadFiniteIff(sh, sp * CHUNK);
      }
    } else if sh.own == [] {
      HeadFiniteIff(sh, 0 * CHUNK);
      assert row != [] ==> !HeadFinite(row, 0 * CHUNK);
    } else {
      assert c < NSPLIT && !HeadFinite(row, c * CHUNK);
    }
  }

  /** 4096 finite logits followed by 32 padding entries: the second chunk starts in the padding. */
  lemma PaddingBreaksConfidence(l: real)
    ensures var sh := Shard(seq(4096, _ => Fin(l)), 32, 0);
            AllFinite(sh.own) && Top(sh.own) == Fin(l) && !Healthy(sh.Row())
  {
    var sh := Shard(seq(4096, _ => Fin(l)), 32, 0);
    TopIs(sh.own);
    QuotientUnique(1, CHUNK - 1, CHUNK);
    HealthyIff(sh);
  }

  function Owned(shards: seq<Shard>): (r: seq<seq<Logit>>)
    ensures |r| == |shards| && forall j :: 0 <= j < |r| ==> r[j] == shards[j].own
  {
    seq(|shards|, j requires 0 <= j < |shards| => shards[j].own)
  }

  /** Each rank starts where the ones before it end. */
  ghost predicate Contiguous(shards: seq<Shard>) {
    forall r :: 0 <= r < |shards| ==> shards[r].start == |Flatten(Owned(shards)[..r])|
  }

  lemma {:induction false} PaddingWeightless(E: Exp, s: seq<Logit>, npad: nat)
    ensures PartOf(E, s + seq(npad, _ => NegInf)) == PartOf(E, s)
  {
    var p: seq<Logit> := seq(npad, _ => NegInf);
    TopIs(p);
    TopConcat(s, p);
    if Top(s).Fin? {
      MassConcat(E, s, p, Top(s).x);
      MassOfNothing(E, p, Top(s).x);
    }
  }

  /** torch.argmax: the first position of the maximum. */
  method ArgMax(row: seq<Logit>) returns (i: nat)
    requires row != []
    ensures FirstTop(row, i)
  {
    i := 0;
    for j := 1 to |row|
      invariant i < j && FirstTop(row[..j], i)
    {
      if !Leq(row[j], row[i]) {
        i := j;
      }
    }
    assert row[..|row|] == row;
  }

  lemma {:induction false} SplitFlatten(segs: seq<seq<Logit>>, r: nat)
    requires r < |segs|
    ensures Flatten(segs) == Flatten(segs[..r]) + segs[r] + Flatten(segs[r + 1..])
  {
    var n := |segs| - 1;
    if r == n {
      assert segs[r + 1..] == [];
    } else {
      SplitFlatten(segs[..n], r);
      assert segs[..n][..r] == segs[..r] && segs[r + 1..][..n - r - 1] == segs[..n][r + 1..];
      assert segs[r + 1..][n - r - 1] == segs[n];
    }
  }

  /** The first maximum of the first rank holding the maximum is the first maximum of the whole row. */
  lemma FirstTopAcross(segs: seq<seq<Logit>>, r: nat, i: nat)
    requires r < |segs| && i < |segs[r]| && FirstTop(segs[r], i)
    requires segs[r][i] == Top(Flatten(segs))
    requires forall q :: 0 <= q < r ==> Top(segs[q]) != segs[r][i]
    requires segs[r][i].Fin?
    ensures FirstTop(Flatten(segs), |Flatten(segs[..r])| + i)
  {
    var all, before := Flatten(segs), Flatten(segs[..r]);
    var v := segs[r][i];
    SplitFlatten(segs, r);
    assert all[|before| + i] == v;
    TopIs(all);
    forall q | 0 <= q < r ensures Leq(Top(segs[q]), v) {
      TopWithin(segs, q);
    }
    AbsentBefore(segs[..r], v);
    forall j | 0 <= j < |before| + i ensures all[j] != v {
      if j < |before| {
        assert all[j] == before[j];
      } else {
        assert all[j] == segs[r][j - |before|];
      }
    }
  }

  lemma TopWithin(segs: seq<seq<Logit>>, q: nat)
    requires q < |segs|
    ensures Leq(Top(segs[q]), Top(Flatten(segs)))
  {
    SplitFlatten(segs, q);
    TopConcat(Flatten(segs[..q]), segs[q]);
    TopConcat(Flatten(segs[..q]) + segs[q], Flatten(segs[q + 1..]));
  }

  lemma {:induction false} AbsentBefore(segs: seq<seq<Logit>>, v: Logit)
    requires v.Fin? && forall q :: 0 <= q < |segs| ==> Top(segs[q]) != v
    requires forall q :: 0 <= q < |segs| ==> Leq(Top(segs[q]), v)
    ensures v !in Flatten(segs)
  {
    if segs != [] {
      var n := |segs| - 1;
      AbsentBefore(segs[..n], v);
      TopIs(segs[n]);
    }
  }

  /** What one rank contributes: its partial result and the place of its first maximum. */
  datatype Stats = Stats(p: Part, id: nat)

  /** The results of a rank are exact for its own entries, when its padded row is healthy. */
  ghost predicate RankStats(E: Exp, sh: Shard, st: Stats) {
    && st.p.m == Top(sh.own)
    && (st.p.s.Num? <==> Healthy(sh.Row()))
    && (Healthy(sh.Row()) ==> Top(sh.own).Fin? && st.p == PartOf(E, sh.own))
    && (Top(sh.own).Fin? ==> sh.start <= st.id && FirstTop(sh.own, st.id - sh.start))
  }

  method Rank(E: Exp, sh: Shard) returns (st: Stats)
    requires 0 < |sh.Row()| <= SPAN
    ensures RankStats(E, sh, st)
  {
    hide Exponential, Mass;
    var row := sh.Row();
    var M, S := CaptureLocal(E, row);
    assert Segment(row, 0, SPAN) == row;
    var i := ArgMax(row);
    st := Stats(Part(M, S), i + sh.start);
    PaddingWeightless(E, sh.own, sh.npad);
    if Top(sh.own).Fin? {
      PaddingNeverFirst(sh, i);
    }
  }

  lemma PaddingNeverFirst(sh: Shard, i: nat)
    requires FirstTop(sh.Row(), i) && Top(sh.own).Fin?
    ensures FirstTop(sh.own, i)
  {
    var row := sh.Row();
    TopIs(sh.own);
    var j :| 0 <= j < |sh.own| && sh.own[j] == Top(sh.own);
    assert Leq(row[j], row[i]);
    assert i < |sh.own|;
    forall k | 0 <= k < |sh.own| ensures Leq(sh.own[k], sh.own[i]) {
      assert Leq(row[k], row[i]);
    }
    forall k | 0 <= k < i ensures sh.own[k] != sh.own[i] {
      assert row[k] != row[i];
    }
  }

  function Parts(stats: seq<Stats>): (r: seq<Part>)
    ensures |r| == |stats| && forall j :: 0 <= j < |r| ==> r[j] == stats[j].p
  {
    seq(|stats|, j requires 0 <= j < |stats| => stats[j].p)
  }

  function Maxima(stats: seq<Stats>): (r: seq<Logit>)
    ensures |r| == |stats| && forall j :: 0 <= j < |r| ==> r[j] == stats[j].p.m
  {
    seq(|stats|, j requires 0 <= j < |stats| => stats[j].p.m)
  }

  ghost predicate AllHealthy(shards: seq<Shard>) {
    forall r :: 0 <= r < |shards| ==> Healthy(shards[r].Row())
  }

  ghost predicate AllStats(E: Exp, shards: seq<Shard>, stats: seq<Stats>) {
    |stats| == |shards| && forall r :: 0 <= r < |shards| ==> RankStats(E, shards[r], stats[r])
  }

  /** The sum over all ranks, relative to the maximum over all ranks. */
  ghost predicate WholeSum(E: Exp, shards: seq<Shard>, S: Float) {
    var all := Flatten(Owned(shards));
    && (S.Num? <==> AllHealthy(shards))
    && (S.Num? ==> Top(all).Fin? && S.x == OwnMass(E, all))
  }

  lemma OneRank(E: Exp, shards: seq<Shard>, stats: seq<Stats>)
    requires |shards| == 1 && Contiguous(shards) && AllStats(E, shards, stats)
    ensures WholeSum(E, shards, stats[0].p.s)
    ensures Top(Flatten(Owned(shards))).Fin? ==> FirstTop(Flatten(Owned(shards)), stats[0].id)
  {
    hide Exponential, Mass, Top, FirstTop, Healthy;
    var segs := Owned(shards);
    assert segs[..0] == [];
    assert Flatten(segs) == [] + shards[0].own == shards[0].own;
    assert shards[0].start == |Flatten(segs[..0])| == 0;
    assert RankStats(E, shards[0], stats[0]);
  }

  lemma {:induction false} TopPartIsTopOfMaxima(stats: seq<Stats>)
    ensures TopPart(Parts(stats)) == Top(Maxima(stats))
  {
    if stats != [] {
      var n := |stats| - 1;
      TopPartIsTopOfMaxima(stats[..n]);
      assert Parts(stats)[..n] == Parts(stats[..n]) && Maxima(stats)[..n] == Maxima(stats[..n]);
    }
  }

  lemma FirstTopDiffers(s: seq<Logit>, i: nat, j: nat)
    requires FirstTop(s, i) && j < i
    ensures i < |s| && s[j] != s[i]
  {
  }

  lemma WhichRank(E: Exp, shards: seq<Shard>, stats: seq<Stats>, which: nat)
    requires Contiguous(shards) && AllStats(E, shards, stats) && FirstTop(Maxima(stats), which)
    ensures Top(Flatten(Owned(shards))).Fin? ==> FirstTop(Flatten(Owned(shards)), stats[which].id)
  {
    hide Exponential, Mass, Top, Flatten, FirstTop, Healthy;
    var segs, all := Owned(shards), Flatten(Owned(shards));
    if Top(all).Fin? {
      TopPartIs(segs, Parts(stats));
      TopPartIsTopOfMaxima(stats);
      FirstTopIsTop(Maxima(stats), which);
      assert RankStats(E, shards[which], stats[which]);
      var i: nat := stats[which].id - shards[which].start;
      FirstTopIsTop(segs[which], i);
      forall q | 0 <= q < which ensures Top(segs[q]) != segs[which][i] {
        FirstTopDiffers(Maxima(stats), which, q);
      }
      FirstTopAcross(segs, which, i);
    }
  }

  lemma AcrossRanks(E: Exp, shards: seq<Shard>, stats: seq<Stats>)
    requires shards != [] && AllStats(E, shards, stats)
    ensures WholeSum(E, shards, Scaled(E, Parts(stats), TopPart(Parts(stats))))
  {
    hide Exponential, Mass, Mul, ExpDiff, Healthy;
    var segs, parts := Owned(shards), Parts(stats);
    if AllHealthy(shards) {
      forall r | 0 <= r < |shards| ensures parts[r] == PartOf(E, segs[r]) {
        assert RankStats(E, shards[r], stats[r]);
      }
      assert RankStats(E, shards[0], stats[0]);
      TopWithin(segs, 0);
      CombineExact(E, segs, parts);
    } else {
      var r :| 0 <= r < |shards| && !Healthy(shards[r].Row());
      assert RankStats(E, shards[r], stats[r]);
      ScaledNaN(E, parts, TopPart(parts), r);
    }
  }

  /** The drafted token and its confidence from three numbers per rank.  The token is the first maximum
      of the whole vocabulary row; the confidence is its softmax probability, or not a number exactly
      when some rank's row is unhealthy. */
  method LocalDraft(E: Exp, shards: seq<Shard>) returns (id: nat, conf: Float)
    requires shards != [] && Contiguous(shards)
    requires forall r :: 0 <= r < |shards| ==> 0 < |shards[r].Row()| <= SPAN
    ensures Top(Flatten(Owned(shards))).Fin? ==> FirstTop(Flatten(Owned(shards)), id)
    ensures (exists j :: 0 <= j < |Flatten(Owned(shards))| && Flatten(Owned(shards))[j].Fin?) ==> LargestFirst(Flatten(Owned(shards)), id)
    ensures conf.Num? <==> AllHealthy(shards)
    ensures AllHealthy(shards) ==>
              var all := Flatten(Owned(shards));
              FirstTop(all, id) && Mass(E, all, 0.0) > 0.0 && conf == Num(Softmax(E, all, id)) && MostProbable(E, all, id)
              && forall j :: 0 <= j < |all| ==> Softmax(E, all, j) <= Softmax(E, all, id)
  {
    hide Exponential, Mass, Mul, ExpDiff, Softmax, RankStats, FirstTop, Healthy, LargestFirst, MostProbable;
    var stats: seq<Stats> := [];
    for r := 0 to |shards|
      invariant |stats| == r && forall j :: 0 <= j < r ==> RankStats(E, shards[j], stats[j])
    {
      var st := Rank(E, shards[r]);
      stats := stats + [st];
    }
    var S: Float;
    if |shards| == 1 {
      id, S := stats[0].id, stats[0].p.s;
      OneRank(E, shards, stats);
    } else {
      var which := ArgMax(Maxima(stats));
      id := stats[which].id;
      S := Scaled(E, Parts(stats), TopPart(Parts(stats)));
      WhichRank(E, shards, stats, which);
      AcrossRanks(E, shards, stats);
    }
    TopIs(Flatten(Owned(shards)));
    FirstTopIs(Flatten(Owned(shards)), id);
    if S.NaN? {
      return id, NaN;
    }
    FirstTopIsTop(Flatten(Owned(shards)), id);
    ReciprocalIsSoftmax(E, Flatten(Owned(shards)), id);
    LargestIsMostProbable(E, Flatten(Owned(shards)), id);
    MostProbableIs(E, Flatten(Owned(shards)), id);
    conf := Num(1.0 / S.x);
  }
}
