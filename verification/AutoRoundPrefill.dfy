/** The prefill GEMM kernel: 256-row by 32*tn-column tiles, 64-wide slabs of K, no split.  A scale group
    is two slabs; the kernel either folds after every slab or keeps the unscaled sum across the pair
    and folds once per group. */
module AutoRoundPrefill {
  import opened Basics
  import opened AutoRound

  const THREADS: nat := 256
  const BMF: nat := 256      // rows of a tile
  const BK: nat := 64        // slab width
  const STRIDE: nat := 72    // bytes of one staged row: 64 and 8 of padding

  datatype Tile = Tile(m0: nat, n0: nat, tn: nat)
  datatype Lane = Lane(tid: nat, i: nat, j: nat)

  function WaveM(tid: nat): nat { (tid / 32) / 2 }
  function WaveN(tid: nat): nat { (tid / 32) % 2 }
  function HalfOf(tid: nat): nat { (tid % 32) / 16 }

  /** Inside the tile: the first of a lane's eight rows, and its column. */
  function TileRow(l: Lane): nat { WaveM(l.tid) * 64 + l.i * 16 + HalfOf(l.tid) * 8 }
  function TileCol(tn: nat, l: Lane): nat { (if WaveN(l.tid) == 0 then 0 else 16 * tn) + l.j * 16 + l.tid % 16 }

  predicate InTile(tn: nat, l: Lane) { l.tid < THREADS && l.i < 4 && l.j < tn }

  lemma LaneBounds(tn: nat, l: Lane)
    requires InTile(tn, l)
    ensures TileRow(l) + 8 <= BMF && TileCol(tn, l) < 32 * tn
  {
  }

  function LaneSpot(t: Tile, l: Lane): Spot { Spot(t.m0 + TileRow(l), t.n0 + TileCol(t.tn, l)) }

  // ------------------------------------------------------------------ folding per slab

  /** The scaled sum over the first h slabs, folded slab by slab. */
  ghost function SlabSum(d: Element, h: nat): real
    requires d.Valid() && h <= 2 * |d.s|
  {
    if h == 0 then 0.0 else SlabSum(d, h - 1) + d.s[(h - 1) / 2] * Dot(d.x, d.w, BK * (h - 1), BK * h)
  }

  lemma FoldHalves(s: real, a: real, b: real, c: real)
    requires c == a + b
    ensures s * a + s * b == s * c
  {
  }

  /** The scaled shares of a group's two slabs, and of the whole group. */
  lemma Halves(d: Element, g: nat) returns (first: real, second: real, whole: real)
    requires d.Valid() && g < |d.s|
    ensures first == d.s[g] * Dot(d.x, d.w, GROUP * g, GROUP * g + BK)
    ensures second == d.s[g] * Dot(d.x, d.w, GROUP * g + BK, GROUP * (g + 1))
    ensures whole == d.s[g] * Dot(d.x, d.w, GROUP * g, GROUP * (g + 1))
    ensures first + second == whole
  {
    var lo, mid, hi := GROUP * g, GROUP * g + BK, GROUP * (g + 1);
    hide Dot;
    var a, b, c := Dot(d.x, d.w, lo, mid), Dot(d.x, d.w, mid, hi), Dot(d.x, d.w, lo, hi);
    DotSplit(d.x, d.w, lo, mid, hi);
    FoldHalves(d.s[g], a, b, c);
    first, second, whole := d.s[g] * a, d.s[g] * b, d.s[g] * c;
  }

  lemma SlabSumStep(d: Element, h: nat, g: nat, lo: nat, hi: nat, t: real)
    requires d.Valid() && h < 2 * |d.s| && (h == 2 * g || h == 2 * g + 1) && lo == BK * h && hi == lo + BK
    requires t == d.s[g] * Dot(d.x, d.w, lo, hi)
    ensures SlabSum(d, h + 1) == SlabSum(d, h) + t
  {
  }

  lemma GroupSumStep(d: Element, g: nat, whole: real)
    requires d.Valid() && g < |d.s| && whole == d.s[g] * Dot(d.x, d.w, GROUP * g, GROUP * (g + 1))
    ensures GroupSum(d, 0, g + 1) == GroupSum(d, 0, g) + whole
  {
    hide Dot;
  }

  /** Folding after each of a group's two slabs adds what folding once per group adds. */
  lemma GroupShare(d: Element, g: nat) returns (share: real)
    requires d.Valid() && g < |d.s|
    ensures SlabSum(d, 2 * g + 2) == SlabSum(d, 2 * g) + share
    ensures GroupSum(d, 0, g + 1) == GroupSum(d, 0, g) + share
  {
    hide Dot, SlabSum, GroupSum;
    var first, second, whole := Halves(d, g);
    SlabSumStep(d, 2 * g, g, GROUP * g, GROUP * g + BK, first);
    SlabSumStep(d, 2 * g + 1, g, GROUP * g + BK, GROUP * (g + 1), second);
    GroupSumStep(d, g, whole);
    share := whole;
  }

  lemma {:induction false} SlabSumIsGroupSum(d: Element, g: nat)
    requires d.Valid() && g <= |d.s|
    ensures SlabSum(d, 2 * g) == GroupSum(d, 0, g)
  {
    if g > 0 {
      SlabSumIsGroupSum(d, g - 1);
      var share := GroupShare(d, g - 1);
    }
  }

  ghost function SlabSums(d: Elements, h: nat): Vec
    requires h <= 2 * |d[0].s|
  {
    seq(8, e requires 0 <= e < 8 => SlabSum(d[e], h))
  }

  lemma SlabSumsAreGroupSums(d: Elements, g: nat)
    requires g <= |d[0].s|
    ensures SlabSums(d, 2 * g) == GroupSums(d, 0, g)
  {
    forall e | 0 <= e < 8 ensures SlabSum(d[e], 2 * g) == GroupSum(d[e], 0, g) {
      SlabSumIsGroupSum(d[e], g);
    }
  }

  lemma SlabSumsEmpty(d: Elements)
    ensures SlabSums(d, 0) == ZERO
  {
  }

  lemma FoldSlab(d: Elements, h: nat, sc: real)
    requires h < 2 * |d[0].s| && forall e :: 0 <= e < 8 ==> d[e].s[h / 2] == sc
    ensures Fold(SlabSums(d, h), sc, Dots(d, BK * h, BK * h + BK)) == SlabSums(d, h + 1)
  {
    var u := Fold(SlabSums(d, h), sc, Dots(d, BK * h, BK * h + BK));
    hide Dot, SlabSum;
    forall e | 0 <= e < 8 ensures u[e] == SlabSums(d, h + 1)[e] {
      SlabSumStep(d[e], h, h / 2, BK * h, BK * h + BK, sc * Dot(d[e].x, d[e].w, BK * h, BK * h + BK));
    }
  }

  // ------------------------------------------------------------------ staging

  ghost predicate AStaged(p: Problem, t: Tile, h: nat, sa: seq<Byte>, r: nat, c: nat)
    requires p.Valid() && h < 2 * p.Groups() && c < BK
  {
    r * STRIDE + c < |sa| && sa[r * STRIDE + c] == p.Activation(Clamp(t.m0 + r, p.M), BK * h + c)
  }

  ghost predicate WStaged(p: Problem, t: Tile, h: nat, sw: seq<Byte>, r: nat, j: nat, b: nat)
    requires p.Valid() && h < 2 * p.Groups() && j < 8 && b < 8
  {
    && r * STRIDE + 8 * j + b < |sw|
    && sw[r * STRIDE + 8 * j + b] == p.fmt.unpack(p.Word(Clamp(t.n0 + r, p.N), 8 * h + j))[b]
  }

  ghost predicate AStagedUpTo(p: Problem, t: Tile, h: nat, sa: seq<Byte>, chunks: nat)
    requires p.Valid() && h < 2 * p.Groups()
  {
    forall r: nat, c: nat :: r < BMF && c < BK && r * 4 + c / 16 < chunks ==> AStaged(p, t, h, sa, r, c)
  }

  ghost predicate WStagedUpTo(p: Problem, t: Tile, h: nat, sw: seq<Byte>, chunks: nat)
    requires p.Valid() && h < 2 * p.Groups()
  {
    forall r: nat, j: nat, b: nat :: r < 32 * t.tn && j < 8 && b < 8 && r * 4 + j / 2 < chunks ==> WStaged(p, t, h, sw, r, j, b)
  }

  /** Stage the activations of one slab, unguarded: four full rounds of 256 threads fill the tile. */
  method StageA(p: Problem, t: Tile, h: nat, sA: array<Byte>)
    requires p.Valid() && h < 2 * p.Groups() && t.m0 < p.M && sA.Length == BMF * STRIDE
    modifies sA
    ensures AStagedUpTo(p, t, h, sA[..], BMF * 4)
  {
    var off := 0;
    while off < BMF * BK
      invariant off in {0, 4096, 8192, 12288, 16384}
      invariant AStagedUpTo(p, t, h, sA[..], off / 16)
    {
      for tid := 0 to THREADS
        invariant AStagedUpTo(p, t, h, sA[..], off / 16 + tid)
      {
        var idx := off + tid * 16;
        StageAChunk(p, t, h, idx / BK, (idx % BK) / 16, sA);
      }
      off := off + THREADS * 16;
    }
  }

  /** One sixteen-byte copy; a row past the last one re-reads it. */
  method StageAChunk(p: Problem, t: Tile, h: nat, r: nat, u: nat, sA: array<Byte>)
    requires p.Valid() && h < 2 * p.Groups() && t.m0 < p.M && sA.Length == BMF * STRIDE
    requires r < BMF && u < 4 && AStagedUpTo(p, t, h, sA[..], 4 * r + u)
    modifies sA
    ensures AStagedUpTo(p, t, h, sA[..], 4 * r + u + 1)
  {
    var rc: nat := if r < p.M - 1 - t.m0 then r else p.M - 1 - t.m0;
    assert t.m0 + rc == Clamp(t.m0 + r, p.M);
    var dst := r * STRIDE + 16 * u;
    ghost var before := sA[..];
    for b := 0 to 16
      invariant forall i: nat :: dst <= i < dst + b ==> sA[i] == p.Activation(t.m0 + rc, BK * h + 16 * u + (i - dst))
      invariant forall i :: 0 <= i < sA.Length && !(dst <= i < dst + b) ==> sA[i] == before[i]
    {
      sA[dst + b] := p.Activation(t.m0 + rc, BK * h + 16 * u + b);
    }
    AChunkStaged(p, t, h, r, u, before, sA[..]);
  }

  /** after is before with chunk u of row r staged. */
  lemma AChunkStaged(p: Problem, t: Tile, h: nat, r: nat, u: nat, before: seq<Byte>, after: seq<Byte>)
    requires p.Valid() && h < 2 * p.Groups() && r < BMF && u < 4 && |before| == |after| == BMF * STRIDE
    requires AStagedUpTo(p, t, h, before, 4 * r + u)
    requires var dst := r * STRIDE + 16 * u;
             && (forall i: nat :: dst <= i < dst + 16 ==> after[i] == p.Activation(Clamp(t.m0 + r, p.M), BK * h + 16 * u + (i - dst)))
             && forall i :: 0 <= i < |after| && !(dst <= i < dst + 16) ==> after[i] == before[i]
    ensures AStagedUpTo(p, t, h, after, 4 * r + u + 1)
  {
    forall r': nat, c: nat | r' < BMF && c < BK && r' * 4 + c / 16 < 4 * r + u + 1
      ensures AStaged(p, t, h, after, r', c)
    {
      if r' * 4 + c / 16 < 4 * r + u {
        assert AStaged(p, t, h, before, r', c);
      } else {
        assert r' == r && 16 * u <= c < 16 * u + 16;
      }
    }
  }

  /** Stage the weights of one slab, unguarded: it needs 128 * tn to be a multiple of 256. */
  method StageW(p: Problem, t: Tile, h: nat, sW: array<Byte>)
    requires p.Valid() && h < 2 * p.Groups() && t.n0 < p.N && t.tn % 2 == 0 && sW.Length == 32 * t.tn * STRIDE
    modifies sW
    ensures WStagedUpTo(p, t, h, sW[..], 32 * t.tn * 4)
  {
    var off := 0;
    while off < 32 * t.tn * 4
      invariant off % 256 == 0 && off <= 32 * t.tn * 4
      invariant WStagedUpTo(p, t, h, sW[..], off)
    {
      for tid := 0 to THREADS
        invariant WStagedUpTo(p, t, h, sW[..], off + tid)
      {
        var idx := off + tid;
        StageWChunk(p, t, h, idx / 4, idx % 4, sW);
      }
      off := off + THREADS;
    }
  }

  method StageWChunk(p: Problem, t: Tile, h: nat, r: nat, u: nat, sW: array<Byte>)
    requires p.Valid() && h < 2 * p.Groups() && t.n0 < p.N && sW.Length == 32 * t.tn * STRIDE
    requires r < 32 * t.tn && u < 4 && WStagedUpTo(p, t, h, sW[..], 4 * r + u)
    modifies sW
    ensures WStagedUpTo(p, t, h, sW[..], 4 * r + u + 1)
  {
    var rc: nat := if r < p.N - 1 - t.n0 then r else p.N - 1 - t.n0;
    assert t.n0 + rc == Clamp(t.n0 + r, p.N);
    var w0, w1 := p.Word(t.n0 + rc, 8 * h + 2 * u), p.Word(t.n0 + rc, 8 * h + 2 * u + 1);
    var a0: seq<Byte>, a1: seq<Byte> := p.fmt.unpack(w0), p.fmt.unpack(w1);
    var chunk, dst := a0 + a1, r * STRIDE + 16 * u;
    ghost var before := sW[..];
    for b := 0 to 16
      invariant forall i :: dst <= i < dst + b ==> sW[i] == chunk[i - dst]
      invariant forall i :: 0 <= i < sW.Length && !(dst <= i < dst + b) ==> sW[i] == before[i]
    {
      sW[dst + b] := chunk[b];
    }
    WChunkStaged(p, t, h, r, u, a0, a1, before, sW[..]);
  }

  lemma WChunkStaged(p: Problem, t: Tile, h: nat, r: nat, u: nat, a0: seq<Byte>, a1: seq<Byte>, before: seq<Byte>, after: seq<Byte>)
    requires p.Valid() && h < 2 * p.Groups() && r < 32 * t.tn && u < 4 && |before| == |after| == 32 * t.tn * STRIDE
    requires |a0| == |a1| == 8 && WStagedUpTo(p, t, h, before, 4 * r + u)
    requires a0 == p.fmt.unpack(p.Word(Clamp(t.n0 + r, p.N), 8 * h + 2 * u))
    requires a1 == p.fmt.unpack(p.Word(Clamp(t.n0 + r, p.N), 8 * h + 2 * u + 1))
    requires var dst := r * STRIDE + 16 * u;
             && (forall i :: dst <= i < dst + 16 ==> after[i] == (a0 + a1)[i - dst])
             && forall i :: 0 <= i < |after| && !(dst <= i < dst + 16) ==> after[i] == before[i]
    ensures WStagedUpTo(p, t, h, after, 4 * r + u + 1)
  {
    forall r': nat, j: nat, b: nat | r' < 32 * t.tn && j < 8 && b < 8 && r' * 4 + j / 2 < 4 * r + u + 1
      ensures WStaged(p, t, h, after, r', j, b)
    {
      if r' * 4 + j / 2 < 4 * r + u {
        assert WStaged(p, t, h, before, r', j, b);
      } else {
        assert r' == r && (j == 2 * u || j == 2 * u + 1);
        assert after[r * STRIDE + 8 * j + b] == (a0 + a1)[8 * (j - 2 * u) + b];
      }
    }
  }

  // ------------------------------------------------------------------ the matrix steps of one slab

  ghost predicate Staged(p: Problem, t: Tile, h: nat, sa: seq<Byte>, sw: seq<Byte>)
    requires p.Valid() && h < 2 * p.Groups()
  {
    && |sa| == BMF * STRIDE && |sw| == 32 * t.tn * STRIDE
    && AStagedUpTo(p, t, h, sa, BMF * 4) && WStagedUpTo(p, t, h, sw, 32 * t.tn * 4)
  }

  lemma StagedRow(p: Problem, t: Tile, h: nat, r: nat, step: nat, sa: seq<Byte>, sw: seq<Byte>, q: nat)
    requires p.Valid() && h < 2 * p.Groups() && r < BMF && step < 4 && q < 16 && Staged(p, t, h, sa, sw)
    ensures p.fmt.value(sa[r * STRIDE + 16 * step + q]) == p.Row(Clamp(t.m0 + r, p.M))[BK * h + 16 * step + q]
  {
    assert AStaged(p, t, h, sa, r, 16 * step + q);
  }

  lemma StagedCol(p: Problem, t: Tile, h: nat, c: nat, step: nat, sa: seq<Byte>, sw: seq<Byte>, q: nat)
    requires p.Valid() && h < 2 * p.Groups() && c < 32 * t.tn && step < 4 && q < 16 && Staged(p, t, h, sa, sw)
    ensures p.fmt.value(sw[c * STRIDE + 16 * step + q]) == p.Col(Clamp(t.n0 + c, p.N))[BK * h + 16 * step + q]
  {
    var j, b := 2 * step + q / 8, q % 8;
    assert WStaged(p, t, h, sw, c, j, b);
    WeightAt(p, 0, Clamp(t.n0 + c, p.N), 8 * h + j, b);
    assert 8 * (8 * h + j) + b == BK * h + 16 * step + q;
  }

  lemma StagedTile(p: Problem, t: Tile, h: nat, r0: nat, c0: nat, step: nat, sa: seq<Byte>, sw: seq<Byte>, e: nat, q: nat)
    requires p.Valid() && h < 2 * p.Groups() && r0 + 8 <= BMF && c0 < 32 * t.tn && step < 4 && e < 8 && q < 16
    requires Staged(p, t, h, sa, sw)
    ensures TileMatches(p.fmt.value, sa, r0 * STRIDE + 16 * step, STRIDE, sw, c0 * STRIDE + 16 * step,
                        ElementsAt(p, Spot(t.m0 + r0, t.n0 + c0)), BK * h + 16 * step, e, q)
  {
    OffsetIsProduct(e, STRIDE);
    StagedRow(p, t, h, r0 + e, step, sa, sw, q);
    StagedCol(p, t, h, c0, step, sa, sw, q);
  }

  lemma StagedStep(p: Problem, t: Tile, h: nat, r0: nat, c0: nat, step: nat, sa: seq<Byte>, sw: seq<Byte>,
                   a: nat, w: nat, lo: nat, k: nat, elems: Spot -> Elements, sp: Spot)
    requires p.Valid() && h < 2 * p.Groups() && r0 + 8 <= BMF && c0 < 32 * t.tn && step < 4 && Staged(p, t, h, sa, sw)
    requires a == r0 * STRIDE + 16 * step && w == c0 * STRIDE + 16 * step
    requires lo <= k == BK * h + 16 * step && Family(p, elems) && sp == Spot(t.m0 + r0, t.n0 + c0)
    ensures a + Offset(7, STRIDE) + 16 <= |sa| && w + 16 <= |sw| && k + 16 <= p.K
    ensures Wmma(p.fmt.value, sa, a, STRIDE, sw, w, Dots(elems(sp), lo, k)) == Dots(elems(sp), lo, k + 16)
  {
    OffsetIsProduct(7, STRIDE);
    var d := ElementsAt(p, sp);
    assert elems(sp) == d;
    forall e: nat, q: nat | e < 8 && q < 16 ensures TileMatches(p.fmt.value, sa, a, STRIDE, sw, w, d, k, e, q) {
      StagedTile(p, t, h, r0, c0, step, sa, sw, e, q);
    }
    WmmaStep(p.fmt.value, sa, a, STRIDE, sw, w, d, lo, k);
  }

  /** Four matrix steps on top of v, which holds the dot products from lo up to this slab. */
  method SlabSteps(p: Problem, t: Tile, h: nat, r0: nat, c0: nat, sa: seq<Byte>, sw: seq<Byte>, v: Vec, ghost lo: nat,
                   ghost elems: Spot -> Elements, ghost sp: Spot) returns (r: Vec)
    requires p.Valid() && h < 2 * p.Groups() && r0 + 8 <= BMF && c0 < 32 * t.tn && Staged(p, t, h, sa, sw)
    requires Family(p, elems) && sp == Spot(t.m0 + r0, t.n0 + c0) && lo <= BK * h && v == Dots(elems(sp), lo, BK * h)
    ensures r == Dots(elems(sp), lo, BK * h + BK)
  {
    r := v;
    for step := 0 to 4
      invariant r == Dots(elems(sp), lo, BK * h + 16 * step)
    {
      var a, w := r0 * STRIDE + 16 * step, c0 * STRIDE + 16 * step;
      StagedStep(p, t, h, r0, c0, step, sa, sw, a, w, lo, BK * h + 16 * step, elems, sp);
      r := Wmma(p.fmt.value, sa, a, STRIDE, sw, w, r);
    }
  }

  /** The shipped arm: fold this slab's dot products at once. */
  method FoldPerSlab(p: Problem, t: Tile, h: nat, r0: nat, c0: nat, sa: seq<Byte>, sw: seq<Byte>, v: Vec,
                     ghost elems: Spot -> Elements, ghost sp: Spot) returns (r: Vec)
    requires p.Valid() && h < 2 * p.Groups() && r0 + 8 <= BMF && c0 < 32 * t.tn && Staged(p, t, h, sa, sw)
    requires Family(p, elems) && sp == Spot(t.m0 + r0, t.n0 + c0) && v == SlabSums(elems(sp), h)
    ensures r == SlabSums(elems(sp), h + 1)
  {
    DotsEmpty(elems(sp), BK * h);
    var dots := SlabSteps(p, t, h, r0, c0, sa, sw, ZERO, BK * h, elems, sp);
    var sc := p.Scale(h / 2, Clamp(t.n0 + c0, p.N));
    ElementScales(p, elems, sp, h / 2);
    FoldSlab(elems(sp), h, sc);
    r := Fold(v, sc, dots);
  }

  /** The unscaled dot products since the start of the current group. */
  ghost function Pending(d: Elements, h: nat): Vec
    requires h <= 2 * |d[0].s|
  {
    Dots(d, GROUP * (h / 2), BK * h)
  }

  lemma PendingFolds(d: Elements, h: nat, sc: real)
    requires h < 2 * |d[0].s| && h % 2 == 1 && forall e :: 0 <= e < 8 ==> d[e].s[h / 2] == sc
    ensures Fold(GroupSums(d, 0, h / 2), sc, Dots(d, GROUP * (h / 2), BK * h + BK)) == GroupSums(d, 0, (h + 1) / 2)
    ensures Pending(d, h + 1) == ZERO
  {
    var g := h / 2;
    assert h == 2 * g + 1;
    FoldGroup(d, 0, g, sc);
    DotsEmpty(d, GROUP * (g + 1));
  }

  /** The other arm: keep the unscaled sum across the two slabs of a group, fold after the second. */
  method FoldPerGroup(p: Problem, t: Tile, h: nat, r0: nat, c0: nat, sa: seq<Byte>, sw: seq<Byte>, v: Vec, tmp: Vec,
                      ghost elems: Spot -> Elements, ghost sp: Spot) returns (r: Vec, u: Vec)
    requires p.Valid() && h < 2 * p.Groups() && r0 + 8 <= BMF && c0 < 32 * t.tn && Staged(p, t, h, sa, sw)
    requires Family(p, elems) && sp == Spot(t.m0 + r0, t.n0 + c0)
    requires v == GroupSums(elems(sp), 0, h / 2) && tmp == Pending(elems(sp), h)
    ensures r == GroupSums(elems(sp), 0, (h + 1) / 2) && u == Pending(elems(sp), h + 1)
  {
    u := SlabSteps(p, t, h, r0, c0, sa, sw, tmp, GROUP * (h / 2), elems, sp);
    r := v;
    if h % 2 == 1 {
      var sc := p.Scale(h / 2, Clamp(t.n0 + c0, p.N));
      ElementScales(p, elems, sp, h / 2);
      PendingFolds(elems(sp), h, sc);
      r := Fold(v, sc, u);
      u := ZERO;
    }
  }

  // ------------------------------------------------------------------ the K loop of one tile

  ghost predicate Shape(tn: nat, a: array3<Vec>) {
    a.Length0 == THREADS && a.Length1 == 4 && a.Length2 == tn
  }

  /** What lane l holds after h slabs: its accumulator, and in the per-group arm the pending sum. */
  ghost predicate LaneOk(imajor: bool, d: Elements, h: nat, acc: Vec, tmp: Vec)
    requires h <= 2 * |d[0].s|
  {
    if imajor then acc == SlabSums(d, h) else acc == GroupSums(d, 0, h / 2) && tmp == Pending(d, h)
  }

  ghost predicate Progress(t: Tile, imajor: bool, acc: array3<Vec>, tmp: array3<Vec>, elems: Spot -> Elements, h: nat)
    requires Shape(t.tn, acc) && Shape(t.tn, tmp)
    reads acc, tmp
  {
    && (forall sp :: h <= 2 * |elems(sp)[0].s|)
    && forall l: Lane :: InTile(t.tn, l) ==>
         LaneOk(imajor, elems(LaneSpot(t, l)), h, acc[l.tid, l.i, l.j], tmp[l.tid, l.i, l.j])
  }

  /** Lane k comes before lane (tid, i, j) in the order of the loops. */
  predicate LaneBefore(k: Lane, tid: nat, i: nat, j: nat) {
    k.tid < tid || (k.tid == tid && (k.i < i || (k.i == i && k.j < j)))
  }

  method ComputeLane(p: Problem, t: Tile, imajor: bool, h: nat, l: Lane, sa: seq<Byte>, sw: seq<Byte>, v: Vec, tmp: Vec,
                     ghost elems: Spot -> Elements) returns (r: Vec, u: Vec)
    requires p.Valid() && Family(p, elems) && h < 2 * p.Groups() && InTile(t.tn, l) && Staged(p, t, h, sa, sw)
    requires LaneOk(imajor, elems(LaneSpot(t, l)), h, v, tmp)
    ensures LaneOk(imajor, elems(LaneSpot(t, l)), h + 1, r, u)
  {
    LaneBounds(t.tn, l);
    if imajor {
      r := FoldPerSlab(p, t, h, TileRow(l), TileCol(t.tn, l), sa, sw, v, elems, LaneSpot(t, l));
      u := tmp;
    } else {
      r, u := FoldPerGroup(p, t, h, TileRow(l), TileCol(t.tn, l), sa, sw, v, tmp, elems, LaneSpot(t, l));
    }
  }

  method ComputeThread(p: Problem, t: Tile, imajor: bool, h: nat, tid: nat, sa: seq<Byte>, sw: seq<Byte>,
                       acc: array3<Vec>, tmp: array3<Vec>, ghost elems: Spot -> Elements)
    requires p.Valid() && Family(p, elems) && h < 2 * p.Groups() && Staged(p, t, h, sa, sw) && tid < THREADS
    requires Shape(t.tn, acc) && Shape(t.tn, tmp) && acc != tmp
    requires forall l: Lane :: InTile(t.tn, l) ==>
               LaneOk(imajor, elems(LaneSpot(t, l)), if l.tid < tid then h + 1 else h, acc[l.tid, l.i, l.j], tmp[l.tid, l.i, l.j])
    modifies acc, tmp
    ensures forall l: Lane :: InTile(t.tn, l) ==>
              LaneOk(imajor, elems(LaneSpot(t, l)), if l.tid <= tid then h + 1 else h, acc[l.tid, l.i, l.j], tmp[l.tid, l.i, l.j])
  {
    for i := 0 to 4
      invariant forall l: Lane :: InTile(t.tn, l) ==>
                  LaneOk(imajor, elems(LaneSpot(t, l)), if LaneBefore(l, tid, i, 0) then h + 1 else h,
                         acc[l.tid, l.i, l.j], tmp[l.tid, l.i, l.j])
    {
      for j := 0 to t.tn
        invariant forall l: Lane :: InTile(t.tn, l) ==>
                    LaneOk(imajor, elems(LaneSpot(t, l)), if LaneBefore(l, tid, i, j) then h + 1 else h,
                           acc[l.tid, l.i, l.j], tmp[l.tid, l.i, l.j])
      {
        assert InTile(t.tn, Lane(tid, i, j));
        var r, u := ComputeLane(p, t, imajor, h, Lane(tid, i, j), sa, sw, acc[tid, i, j], tmp[tid, i, j], elems);
        acc[tid, i, j], tmp[tid, i, j] := r, u;
      }
    }
  }

  method ComputeSlab(p: Problem, t: Tile, imajor: bool, h: nat, sa: seq<Byte>, sw: seq<Byte>,
                     acc: array3<Vec>, tmp: array3<Vec>, ghost elems: Spot -> Elements)
    requires p.Valid() && Family(p, elems) && h < 2 * p.Groups() && Staged(p, t, h, sa, sw)
    requires Shape(t.tn, acc) && Shape(t.tn, tmp) && acc != tmp && Progress(t, imajor, acc, tmp, elems, h)
    modifies acc, tmp
    ensures Progress(t, imajor, acc, tmp, elems, h + 1)
  {
    for tid := 0 to THREADS
      invariant forall l: Lane :: InTile(t.tn, l) ==>
                  LaneOk(imajor, elems(LaneSpot(t, l)), if l.tid < tid then h + 1 else h, acc[l.tid, l.i, l.j], tmp[l.tid, l.i, l.j])
    {
      ComputeThread(p, t, imajor, h, tid, sa, sw, acc, tmp, elems);
    }
  }

  lemma LaneStart(imajor: bool, d: Elements)
    ensures LaneOk(imajor, d, 0, ZERO, ZERO)
  {
    SlabSumsEmpty(d);
    GroupSumsEmpty(d, 0, 0);
    DotsEmpty(d, 0);
  }

  /** At the end of K both arms hold the scaled sum over all groups. */
  lemma LaneEnd(imajor: bool, d: Elements, acc: Vec, tmp: Vec)
    requires LaneOk(imajor, d, 2 * |d[0].s|, acc, tmp)
    ensures acc == GroupSums(d, 0, |d[0].s|)
  {
    SlabSumsAreGroupSums(d, |d[0].s|);
  }

  method ClearAccumulators(t: Tile, imajor: bool, ghost elems: Spot -> Elements) returns (acc: array3<Vec>, tmp: array3<Vec>)
    ensures fresh(acc) && fresh(tmp) && acc != tmp && Shape(t.tn, acc) && Shape(t.tn, tmp)
    ensures Progress(t, imajor, acc, tmp, elems, 0)
  {
    acc := new Vec[THREADS, 4, t.tn]((_, _, _) => ZERO);
    tmp := new Vec[THREADS, 4, t.tn]((_, _, _) => ZERO);
    forall l: Lane | InTile(t.tn, l)
      ensures LaneOk(imajor, elems(LaneSpot(t, l)), 0, acc[l.tid, l.i, l.j], tmp[l.tid, l.i, l.j])
    {
      LaneStart(imajor, elems(LaneSpot(t, l)));
    }
  }

  method KLoop(p: Problem, t: Tile, imajor: bool, ghost elems: Spot -> Elements) returns (acc: array3<Vec>, tmp: array3<Vec>)
    requires p.Valid() && Family(p, elems) && t.m0 < p.M && t.n0 < p.N && t.tn % 2 == 0
    ensures fresh(acc) && Shape(t.tn, acc) && Shape(t.tn, tmp) && Progress(t, imajor, acc, tmp, elems, 2 * p.Groups())
  {
    var sA, sW := new Byte[BMF * STRIDE], new Byte[32 * t.tn * STRIDE];
    acc, tmp := ClearAccumulators(t, imajor, elems);
    for h := 0 to 2 * p.Groups()
      invariant Progress(t, imajor, acc, tmp, elems, h)
    {
      StageA(p, t, h, sA);
      StageW(p, t, h, sW);
      ComputeSlab(p, t, imajor, h, sA[..], sW[..], acc, tmp, elems);
    }
  }

  /** One tile: every lane ends with the scaled sum over all groups, in both arms. */
  method PrefillTile(p: Problem, t: Tile, imajor: bool, ghost elems: Spot -> Elements) returns (acc: array3<Vec>)
    requires p.Valid() && Family(p, elems) && t.m0 < p.M && t.n0 < p.N && t.tn % 2 == 0
    ensures fresh(acc) && Shape(t.tn, acc)
    ensures forall l: Lane :: InTile(t.tn, l) ==> acc[l.tid, l.i, l.j] == GroupSums(elems(LaneSpot(t, l)), 0, p.Groups())
  {
    var tmp;
    acc, tmp := KLoop(p, t, imajor, elems);
    forall l: Lane | InTile(t.tn, l)
      ensures acc[l.tid, l.i, l.j] == GroupSums(elems(LaneSpot(t, l)), 0, p.Groups())
    {
      LaneEnd(imajor, elems(LaneSpot(t, l)), acc[l.tid, l.i, l.j], tmp[l.tid, l.i, l.j]);
    }
  }

  // ------------------------------------------------------------------ the epilogue

  predicate CellInTile(t: Tile, m: nat, n: nat) {
    t.m0 <= m < t.m0 + BMF && t.n0 <= n < t.n0 + 32 * t.tn
  }

  predicate LaneHas(t: Tile, l: Lane, m: nat, n: nat) {
    n == t.n0 + TileCol(t.tn, l) && t.m0 + TileRow(l) <= m < t.m0 + TileRow(l) + 8
  }

  /** The lane that stores a cell of the tile. */
  function OwnerLane(t: Tile, m: nat, n: nat): Lane
    requires CellInTile(t, m, n)
  {
    var dm, dn := m - t.m0, n - t.n0;
    var wn := if dn < 16 * t.tn then 0 else 1;
    var dj := if dn < 16 * t.tn then dn else dn - 16 * t.tn;
    Lane(((dm / 64) * 2 + wn) * 32 + ((dm % 16) / 8) * 16 + dj % 16, (dm % 64) / 16, dj / 16)
  }

  lemma TidParts(wm: nat, wn: nat, h: nat, c: nat)
    requires wm < 4 && wn < 2 && h < 2 && c < 16
    ensures var tid := (wm * 2 + wn) * 32 + h * 16 + c;
            tid < THREADS && WaveM(tid) == wm && WaveN(tid) == wn && HalfOf(tid) == h && tid % 16 == c
  {
    var tid := (wm * 2 + wn) * 32 + h * 16 + c;
    assert tid / 32 == wm * 2 + wn;
  }

  lemma TidOf(tid: nat)
    requires tid < THREADS
    ensures WaveM(tid) < 4 && WaveN(tid) < 2 && HalfOf(tid) < 2
    ensures tid == (WaveM(tid) * 2 + WaveN(tid)) * 32 + HalfOf(tid) * 16 + tid % 16
  {
    assert tid == (tid / 32) * 32 + tid % 32;
    assert tid % 32 == HalfOf(tid) * 16 + tid % 16;
  }

  lemma RowIndex(wm: nat, i: nat, h: nat, e: nat)
    requires wm < 4 && i < 4 && h < 2 && e < 8
    ensures var dm := wm * 64 + i * 16 + h * 8 + e; dm / 64 == wm && (dm % 64) / 16 == i && (dm % 16) / 8 == h
  {
  }

  lemma RowOf(dm: nat)
    requires dm < BMF
    ensures dm / 64 < 4 && (dm % 64) / 16 < 4 && (dm % 16) / 8 < 2
    ensures dm == (dm / 64) * 64 + ((dm % 64) / 16) * 16 + ((dm % 16) / 8) * 8 + dm % 8
  {
    var r := dm % 64;
    assert dm == (dm / 64) * 64 + r && r == (r / 16) * 16 + r % 16;
    assert dm % 16 == r % 16 by {
      assert dm == (4 * (dm / 64) + r / 16) * 16 + r % 16;
    }
    var c := dm % 16;
    assert c == (c / 8) * 8 + c % 8;
    assert dm % 8 == c % 8 by {
      assert dm == (2 * (dm / 16) + c / 8) * 8 + c % 8;
    }
  }

  lemma HasIsOwner(t: Tile, l: Lane, m: nat, n: nat)
    requires InTile(t.tn, l) && LaneHas(t, l, m, n)
    ensures CellInTile(t, m, n) && OwnerLane(t, m, n) == l
  {
    LaneBounds(t.tn, l);
    TidOf(l.tid);
    RowIndex(WaveM(l.tid), l.i, HalfOf(l.tid), m - t.m0 - TileRow(l));
    var dj := l.j * 16 + l.tid % 16;
    assert dj / 16 == l.j && dj % 16 == l.tid % 16;
  }

  lemma OwnerHas(t: Tile, m: nat, n: nat)
    requires CellInTile(t, m, n)
    ensures InTile(t.tn, OwnerLane(t, m, n)) && LaneHas(t, OwnerLane(t, m, n), m, n)
  {
    var dm, dn := m - t.m0, n - t.n0;
    var wn := if dn < 16 * t.tn then 0 else 1;
    var dj := if dn < 16 * t.tn then dn else dn - 16 * t.tn;
    RowOf(dm);
    TidParts(dm / 64, wn, (dm % 16) / 8, dj % 16);
    assert dj / 16 < t.tn && dj == (dj / 16) * 16 + dj % 16;
  }

  /** A tile's cells are shared out among its lanes, each to exactly one. */
  lemma OwnerIff(t: Tile, l: Lane, m: nat, n: nat)
    requires InTile(t.tn, l)
    ensures LaneHas(t, l, m, n) <==> CellInTile(t, m, n) && OwnerLane(t, m, n) == l
  {
    if LaneHas(t, l, m, n) {
      HasIsOwner(t, l, m, n);
    }
    if CellInTile(t, m, n) {
      OwnerHas(t, m, n);
    }
  }

  ghost predicate Holds(t: Tile, l: Lane, v: Vec, rowScale: seq<real>, e: nat, val: Cell -> real) {
    var m, n := t.m0 + TileRow(l) + e, t.n0 + TileCol(t.tn, l);
    e < 8 && m < |rowScale| && v[e] * rowScale[m] == val(Cell(m, n))
  }

  /** Store one lane's vector; guarded element by element unless the lane lies wholly inside. */
  method StoreVec(t: Tile, l: Lane, full: bool, v: Vec, rowScale: seq<real>, C: array2<real>, ghost val: Cell -> real)
    requires |rowScale| == C.Length0
    requires full ==> t.m0 + TileRow(l) + 8 <= C.Length0 && t.n0 + TileCol(t.tn, l) < C.Length1
    requires forall e: nat :: e < 8 && t.m0 + TileRow(l) + e < C.Length0 && t.n0 + TileCol(t.tn, l) < C.Length1 ==>
               Holds(t, l, v, rowScale, e, val)
    modifies C
    ensures forall m: nat, n: nat {:trigger C[m, n]} :: m < C.Length0 && n < C.Length1 ==>
              C[m, n] == if LaneHas(t, l, m, n) then val(Cell(m, n)) else old(C[m, n])
  {
    var m0, n := t.m0 + TileRow(l), t.n0 + TileCol(t.tn, l);
    for e := 0 to 8
      invariant forall m: nat, n': nat {:trigger C[m, n']} :: m < C.Length0 && n' < C.Length1 ==>
                  C[m, n'] == if n' == n && m0 <= m < m0 + e then val(Cell(m, n')) else old(C[m, n'])
    {
      if full || (m0 + e < C.Length0 && n < C.Length1) {
        assert Holds(t, l, v, rowScale, e, val);
        C[m0 + e, n] := v[e] * rowScale[m0 + e];
      }
    }
  }

  /** Cell (m, n) is stored once the loops have passed the lane that owns it. */
  predicate Stored(t: Tile, m: nat, n: nat, tid: nat, i: nat, j: nat) {
    CellInTile(t, m, n) && LaneBefore(OwnerLane(t, m, n), tid, i, j)
  }

  lemma StoredStep(t: Tile, l: Lane, m: nat, n: nat)
    requires InTile(t.tn, l)
    ensures Stored(t, m, n, l.tid, l.i, l.j + 1) <==> Stored(t, m, n, l.tid, l.i, l.j) || LaneHas(t, l, m, n)
  {
    OwnerIff(t, l, m, n);
  }

  lemma StoredRow(t: Tile, tid: nat, i: nat, m: nat, n: nat)
    ensures Stored(t, m, n, tid, i, t.tn) <==> Stored(t, m, n, tid, i + 1, 0)
    ensures Stored(t, m, n, tid, 4, 0) <==> Stored(t, m, n, tid + 1, 0, 0)
    ensures Stored(t, m, n, THREADS, 0, 0) <==> CellInTile(t, m, n)
  {
    if CellInTile(t, m, n) {
      OwnerHas(t, m, n);
    }
  }

  ghost predicate AllHold(t: Tile, acc: array3<Vec>, rowScale: seq<real>, cols: nat, val: Cell -> real)
    requires Shape(t.tn, acc)
    reads acc
  {
    forall l: Lane, e: nat :: InTile(t.tn, l) && e < 8 && t.m0 + TileRow(l) + e < |rowScale| && t.n0 + TileCol(t.tn, l) < cols ==>
      Holds(t, l, acc[l.tid, l.i, l.j], rowScale, e, val)
  }

  /** Does all of a lane's share of the tile lie inside the matrix? */
  predicate LaneFull(t: Tile, tid: nat, rows: nat, cols: nat)
    requires t.tn >= 1
  {
    t.m0 + TileRow(Lane(tid, 3, 0)) + 7 < rows && t.n0 + TileCol(t.tn, Lane(tid, 0, t.tn - 1)) < cols
  }

  method StoreThread(t: Tile, tid: nat, acc: array3<Vec>, rowScale: seq<real>, C: array2<real>, ghost val: Cell -> real)
    requires tid < THREADS && t.tn >= 1 && Shape(t.tn, acc) && acc as object != C && |rowScale| == C.Length0
    requires AllHold(t, acc, rowScale, C.Length1, val)
    modifies C
    ensures forall m: nat, n: nat {:trigger C[m, n]} :: m < C.Length0 && n < C.Length1 ==>
              C[m, n] == if !Stored(t, m, n, tid, 0, 0) && Stored(t, m, n, tid + 1, 0, 0) then val(Cell(m, n)) else old(C[m, n])
  {
    var full := LaneFull(t, tid, C.Length0, C.Length1);
    for i := 0 to 4
      invariant forall m: nat, n: nat {:trigger C[m, n]} :: m < C.Length0 && n < C.Length1 ==>
                  C[m, n] == if !Stored(t, m, n, tid, 0, 0) && Stored(t, m, n, tid, i, 0) then val(Cell(m, n)) else old(C[m, n])
    {
      for j := 0 to t.tn
        invariant forall m: nat, n: nat {:trigger C[m, n]} :: m < C.Length0 && n < C.Length1 ==>
                    C[m, n] == if !Stored(t, m, n, tid, 0, 0) && Stored(t, m, n, tid, i, j) then val(Cell(m, n)) else old(C[m, n])
      {
        var l := Lane(tid, i, j);
        forall m: nat, n: nat
          ensures LaneHas(t, l, m, n) ==> !Stored(t, m, n, tid, 0, 0)
          ensures Stored(t, m, n, tid, i, j + 1) <==> Stored(t, m, n, tid, i, j) || LaneHas(t, l, m, n)
        {
          StoredStep(t, l, m, n);
          OwnerIff(t, l, m, n);
        }
        StoreVec(t, l, full, acc[tid, i, j], rowScale, C, val);
      }
      forall m: nat, n: nat ensures Stored(t, m, n, tid, i, t.tn) <==> Stored(t, m, n, tid, i + 1, 0) {
        StoredRow(t, tid, i, m, n);
      }
    }
    forall m: nat, n: nat ensures Stored(t, m, n, tid, 4, 0) <==> Stored(t, m, n, tid + 1, 0, 0) {
      StoredRow(t, tid, 0, m, n);
    }
  }

  /** The epilogue of one tile: exactly the tile's cells inside the matrix are stored. */
  method StoreTile(t: Tile, acc: array3<Vec>, rowScale: seq<real>, C: array2<real>, ghost val: Cell -> real)
    requires t.tn >= 1 && Shape(t.tn, acc) && acc as object != C && |rowScale| == C.Length0
    requires AllHold(t, acc, rowScale, C.Length1, val)
    modifies C
    ensures forall m: nat, n: nat {:trigger C[m, n]} :: m < C.Length0 && n < C.Length1 ==>
              C[m, n] == if CellInTile(t, m, n) then val(Cell(m, n)) else old(C[m, n])
  {
    for tid := 0 to THREADS
      invariant forall m: nat, n: nat {:trigger C[m, n]} :: m < C.Length0 && n < C.Length1 ==>
                  C[m, n] == if Stored(t, m, n, tid, 0, 0) then val(Cell(m, n)) else old(C[m, n])
    {
      StoreThread(t, tid, acc, rowScale, C, val);
    }
    forall m: nat, n: nat ensures Stored(t, m, n, THREADS, 0, 0) <==> CellInTile(t, m, n) {
      StoredRow(t, 0, 0, m, n);
    }
  }
}
