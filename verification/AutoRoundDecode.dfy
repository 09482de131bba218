/** The decode GEMM kernel: one block computes the partial sums of a 128-wide column range over its
    slice of K.  Between two barriers the threads of a block touch disjoint places, so they are run
    one after the other here; the interleavings that matter, at the split-K tail, are in SplitK. */
module AutoRoundDecode {
  import opened Basics
  import opened AutoRound
  import opened SplitK

  const STRIDE: nat := 136   // bytes of one staged row: 128 and 8 of padding

  // ------------------------------------------------------------------ slab ranges

  function SlabsPerBlock(slabs: nat, dks: nat): nat
    requires dks >= 1
  {
    (slabs + dks - 1) / dks
  }

  function SlabLo(slabs: nat, dks: nat, ks: nat): nat
    requires dks >= 1
  {
    Offset(ks, SlabsPerBlock(slabs, dks))
  }

  function SlabHi(slabs: nat, dks: nat, ks: nat): nat
    requires dks >= 1
  {
    Min(slabs, SlabLo(slabs, dks, ks) + SlabsPerBlock(slabs, dks))
  }

  /** The slices of the blocks 0 .. k-1 together cover the slabs from 0 on, without overlap. */
  ghost function SlicesSum(d: Element, dks: nat, k: nat): real
    requires d.Valid() && dks >= 1
  {
    if k == 0 then 0.0
    else SlicesSum(d, dks, k - 1) + GroupSum(d, SlabLo(|d.s|, dks, k - 1), SlabHi(|d.s|, dks, k - 1))
  }

  lemma SlabsCovered(slabs: nat, dks: nat)
    requires dks >= 1
    ensures Offset(dks, SlabsPerBlock(slabs, dks)) >= slabs
    ensures slabs > 0 ==> Offset(dks, SlabsPerBlock(slabs, dks)) < slabs + dks
  {
    var spb := SlabsPerBlock(slabs, dks);
    CeilDivFacts(slabs, dks);
    OffsetIsProduct(dks, spb);
    assert spb * dks == dks * spb;
  }

  lemma {:induction false} SlicesTile(d: Element, dks: nat, k: nat)
    requires d.Valid() && dks >= 1
    ensures SlicesSum(d, dks, k) == GroupSum(d, 0, Min(|d.s|, Offset(k, SlabsPerBlock(|d.s|, dks))))
  {
    if k > 0 {
      SlicesTile(d, dks, k - 1);
      var lo, hi := SlabLo(|d.s|, dks, k - 1), SlabHi(|d.s|, dks, k - 1);
      if lo <= hi {
        GroupSumSplit(d, 0, lo, hi);
      }
    }
  }

  // ------------------------------------------------------------------ the places of a thread

  function Wave(tid: nat): nat { tid / 32 }
  function ColOf(tid: nat): nat { tid % 16 }
  function HalfOf(tid: nat): nat { (tid % 32) / 16 }

  /** The row of the weight tile a thread multiplies with. */
  function LaneTileRow(tid: nat): nat { Wave(tid) * 16 + ColOf(tid) }

  /** The column and the first row of the eight accumulators a thread has in fragment i. */
  function LaneCol(x: nat, tid: nat): nat { x * BND + LaneTileRow(tid) }
  function LaneRow(tid: nat, i: nat): nat { i * 16 + HalfOf(tid) * 8 }

  function LaneSpot(x: nat, tid: nat, i: nat): Spot { Spot(LaneRow(tid, i), LaneCol(x, tid)) }

  // ------------------------------------------------------------------ staging

  /** Byte (r, c) of the staged activations of slab s. */
  ghost predicate AStaged(p: Problem, s: nat, sa: seq<Byte>, r: nat, c: nat)
    requires p.Valid() && s < p.Groups() && c < GROUP
  {
    r * STRIDE + c < |sa| && sa[r * STRIDE + c] == p.Activation(Clamp(r, p.M), GROUP * s + c)
  }

  /** Byte b of word j of the staged weights of slab s: row r of the tile is column BND * x + r. */
  ghost predicate WStaged(p: Problem, x: nat, s: nat, sw: seq<Byte>, r: nat, j: nat, b: nat)
    requires p.Valid() && s < p.Groups() && j < 16 && b < 8
  {
    && r * STRIDE + 8 * j + b < |sw|
    && sw[r * STRIDE + 8 * j + b] == p.fmt.unpack(p.Word(Clamp(x * BND + r, p.N), 16 * s + j))[b]
  }

  /** Staged so far, in chunks of sixteen bytes counted row by row. */
  ghost predicate AStagedUpTo(p: Problem, dtm: nat, s: nat, sa: seq<Byte>, chunks: nat)
    requires p.Valid() && s < p.Groups()
  {
    forall r: nat, c: nat :: r < 16 * dtm && c < GROUP && r * 8 + c / 16 < chunks ==> AStaged(p, s, sa, r, c)
  }

  ghost predicate WStagedUpTo(p: Problem, x: nat, s: nat, sw: seq<Byte>, chunks: nat)
    requires p.Valid() && s < p.Groups()
  {
    forall r: nat, j: nat, b: nat :: r < BND && j < 16 && b < 8 && r * 8 + j / 2 < chunks ==> WStaged(p, x, s, sw, r, j, b)
  }

  /** Stage the activations of one slab: sixteen bytes per thread and step, rows past M re-read M - 1. */
  method StageA(p: Problem, dtm: nat, s: nat, sA: array<Byte>)
    requires p.Valid() && s < p.Groups() && sA.Length == 16 * dtm * STRIDE
    modifies sA
    ensures AStagedUpTo(p, dtm, s, sA[..], 16 * dtm * 8)
  {
    var off := 0;
    while off < 16 * dtm * GROUP
      invariant off % 16 == 0
      invariant AStagedUpTo(p, dtm, s, sA[..], off / 16)
    {
      for tid := 0 to THREADS
        invariant AStagedUpTo(p, dtm, s, sA[..], off / 16 + tid)
      {
        var idx := off + tid * 16;
        if idx < 16 * dtm * GROUP {
          StageAChunk(p, dtm, s, idx / GROUP, (idx % GROUP) / 16, sA);
        }
      }
      off := off + THREADS * 16;
    }
  }

  /** One sixteen-byte copy: chunk h of row r. */
  method StageAChunk(p: Problem, dtm: nat, s: nat, r: nat, h: nat, sA: array<Byte>)
    requires p.Valid() && s < p.Groups() && sA.Length == 16 * dtm * STRIDE
    requires r < 16 * dtm && h < 8 && AStagedUpTo(p, dtm, s, sA[..], 8 * r + h)
    modifies sA
    ensures AStagedUpTo(p, dtm, s, sA[..], 8 * r + h + 1)
  {
    var rc, dst := Clamp(r, p.M), r * STRIDE + 16 * h;
    ghost var before := sA[..];
    for b := 0 to 16
      invariant forall i: nat :: dst <= i < dst + b ==> sA[i] == p.Activation(rc, GROUP * s + 16 * h + (i - dst))
      invariant forall i :: 0 <= i < sA.Length && !(dst <= i < dst + b) ==> sA[i] == before[i]
    {
      sA[dst + b] := p.Activation(rc, GROUP * s + 16 * h + b);
    }
    AChunkStaged(p, dtm, s, r, h, before, sA[..]);
  }

  /** after is before with chunk h of row r staged. */
  lemma AChunkStaged(p: Problem, dtm: nat, s: nat, r: nat, h: nat, before: seq<Byte>, after: seq<Byte>)
    requires p.Valid() && s < p.Groups() && r < 16 * dtm && h < 8 && |before| == |after| == 16 * dtm * STRIDE
    requires AStagedUpTo(p, dtm, s, before, 8 * r + h)
    requires var dst := r * STRIDE + 16 * h;
             && (forall i: nat :: dst <= i < dst + 16 ==> after[i] == p.Activation(Clamp(r, p.M), GROUP * s + 16 * h + (i - dst)))
             && forall i :: 0 <= i < |after| && !(dst <= i < dst + 16) ==> after[i] == before[i]
    ensures AStagedUpTo(p, dtm, s, after, 8 * r + h + 1)
  {
    forall r': nat, c: nat | r' < 16 * dtm && c < GROUP && r' * 8 + c / 16 < 8 * r + h + 1
      ensures AStaged(p, s, after, r', c)
    {
      if r' * 8 + c / 16 < 8 * r + h {
        assert AStaged(p, s, before, r', c);
      } else {
        assert r' == r && 16 * h <= c < 16 * h + 16;
      }
    }
  }

  /** Stage the weights of one slab: two words per thread and step, unpacked to sixteen bytes; columns
      past N re-read N - 1. */
  method StageW(p: Problem, x: nat, s: nat, sW: array<Byte>)
    requires p.Valid() && s < p.Groups() && sW.Length == BND * STRIDE
    modifies sW
    ensures WStagedUpTo(p, x, s, sW[..], BND * 8)
  {
    var off := 0;
    while off < BND * 8
      invariant off in {0, 256, 512, 768, 1024}
      invariant WStagedUpTo(p, x, s, sW[..], off)
    {
      for tid := 0 to THREADS
        invariant WStagedUpTo(p, x, s, sW[..], off + tid)
      {
        var idx := off + tid;
        StageWChunk(p, x, s, idx / 8, idx % 8, sW);
      }
      off := off + THREADS;
    }
  }

  method StageWChunk(p: Problem, x: nat, s: nat, r: nat, h: nat, sW: array<Byte>)
    requires p.Valid() && s < p.Groups() && sW.Length == BND * STRIDE
    requires r < BND && h < 8 && WStagedUpTo(p, x, s, sW[..], 8 * r + h)
    modifies sW
    ensures WStagedUpTo(p, x, s, sW[..], 8 * r + h + 1)
  {
    var gc, dst := Clamp(x * BND + r, p.N), r * STRIDE + 16 * h;
    var a0: seq<Byte>, a1: seq<Byte> := p.fmt.unpack(p.Word(gc, 16 * s + 2 * h)), p.fmt.unpack(p.Word(gc, 16 * s + 2 * h + 1));
    var chunk := a0 + a1;
    ghost var before := sW[..];
    for b := 0 to 16
      invariant forall i :: dst <= i < dst + b ==> sW[i] == chunk[i - dst]
      invariant forall i :: 0 <= i < sW.Length && !(dst <= i < dst + b) ==> sW[i] == before[i]
    {
      sW[dst + b] := chunk[b];
    }
    forall r': nat, j: nat, b: nat | r' < BND && j < 16 && b < 8 && r' * 8 + j / 2 < 8 * r + h + 1
      ensures WStaged(p, x, s, sW[..], r', j, b)
    {
      if r' * 8 + j / 2 < 8 * r + h {
        assert WStaged(p, x, s, before, r', j, b);
      } else {
        assert r' == r && (j == 2 * h || j == 2 * h + 1);
        assert sW[r * STRIDE + 8 * j + b] == chunk[8 * (j - 2 * h) + b];
      }
    }
  }

  // ------------------------------------------------------------------ one slab

  lemma StagedRow(p: Problem, dtm: nat, s: nat, r: nat, step: nat, sa: seq<Byte>, q: nat)
    requires p.Valid() && s < p.Groups() && r < 16 * dtm && step < 8 && q < 16
    requires |sa| == 16 * dtm * STRIDE && AStagedUpTo(p, dtm, s, sa, 16 * dtm * 8)
    ensures r * STRIDE + 16 * step + q < |sa|
    ensures p.fmt.value(sa[r * STRIDE + 16 * step + q]) == p.Row(Clamp(r, p.M))[GROUP * s + 16 * step + q]
  {
    assert AStaged(p, s, sa, r, 16 * step + q);
  }

  lemma StagedCol(p: Problem, x: nat, s: nat, c: nat, step: nat, sw: seq<Byte>, q: nat)
    requires p.Valid() && s < p.Groups() && c < BND && step < 8 && q < 16
    requires |sw| == BND * STRIDE && WStagedUpTo(p, x, s, sw, BND * 8)
    ensures p.fmt.value(sw[c * STRIDE + 16 * step + q]) == p.Col(Clamp(x * BND + c, p.N))[GROUP * s + 16 * step + q]
  {
    var j, b := 2 * step + q / 8, q % 8;
    assert WStaged(p, x, s, sw, c, j, b);
    WeightAt(p, 0, Clamp(x * BND + c, p.N), 16 * s + j, b);
    assert 8 * (16 * s + j) + b == GROUP * s + 16 * step + q;
  }

  ghost predicate Staged(p: Problem, x: nat, dtm: nat, s: nat, sa: seq<Byte>, sw: seq<Byte>)
    requires p.Valid() && s < p.Groups()
  {
    && |sa| == 16 * dtm * STRIDE && |sw| == BND * STRIDE
    && AStagedUpTo(p, dtm, s, sa, 16 * dtm * 8) && WStagedUpTo(p, x, s, sw, BND * 8)
  }

  /** The staged bytes read in a matrix step, tile rows r0 .. r0 + 7 and tile column c0, are the operands
      of the elements there. */
  lemma StagedTile(p: Problem, x: nat, dtm: nat, s: nat, r0: nat, c0: nat, step: nat, sa: seq<Byte>, sw: seq<Byte>, e: nat, q: nat)
    requires p.Valid() && s < p.Groups() && r0 + 8 <= 16 * dtm && c0 < BND && step < 8 && e < 8 && q < 16
    requires Staged(p, x, dtm, s, sa, sw)
    ensures TileMatches(p.fmt.value, sa, r0 * STRIDE + 16 * step, STRIDE, sw, c0 * STRIDE + 16 * step,
                        ElementsAt(p, Spot(r0, x * BND + c0)), GROUP * s + 16 * step, e, q)
  {
    OffsetIsProduct(e, STRIDE);
    StagedRow(p, dtm, s, r0 + e, step, sa, q);
    StagedCol(p, x, s, c0, step, sw, q);
  }

  lemma StagedStep(p: Problem, x: nat, dtm: nat, s: nat, r0: nat, c0: nat, step: nat, sa: seq<Byte>, sw: seq<Byte>,
                   a: nat, w: nat, k: nat, elems: Spot -> Elements, sp: Spot)
    requires p.Valid() && s < p.Groups() && r0 + 8 <= 16 * dtm && c0 < BND && step < 8 && Staged(p, x, dtm, s, sa, sw)
    requires a == r0 * STRIDE + 16 * step && w == c0 * STRIDE + 16 * step
    requires k == GROUP * s + 16 * step && Family(p, elems) && sp == Spot(r0, x * BND + c0)
    ensures a + Offset(7, STRIDE) + 16 <= |sa| && w + 16 <= |sw| && k + 16 <= p.K
    ensures Wmma(p.fmt.value, sa, a, STRIDE, sw, w, Dots(elems(sp), GROUP * s, k)) == Dots(elems(sp), GROUP * s, k + 16)
  {
    OffsetIsProduct(7, STRIDE);
    var d := ElementsAt(p, sp);
    assert elems(sp) == d;
    forall e: nat, q: nat | e < 8 && q < 16 ensures TileMatches(p.fmt.value, sa, a, STRIDE, sw, w, d, k, e, q) {
      StagedTile(p, x, dtm, s, r0, c0, step, sa, sw, e, q);
    }
    WmmaStep(p.fmt.value, sa, a, STRIDE, sw, w, d, GROUP * s, k);
  }

  /** The eight matrix steps of one fragment: the group's unscaled dot products. */
  method SlabTile(p: Problem, x: nat, dtm: nat, s: nat, r0: nat, c0: nat, sa: seq<Byte>, sw: seq<Byte>,
                  ghost elems: Spot -> Elements, ghost sp: Spot) returns (t: Vec)
    requires p.Valid() && s < p.Groups() && r0 + 8 <= 16 * dtm && c0 < BND && Staged(p, x, dtm, s, sa, sw)
    requires Family(p, elems) && sp == Spot(r0, x * BND + c0)
    ensures t == Dots(elems(sp), GROUP * s, GROUP * s + GROUP)
  {
    t := ZERO;
    DotsEmpty(elems(sp), GROUP * s);
    for step := 0 to 8
      invariant t == Dots(elems(sp), GROUP * s, GROUP * s + 16 * step)
    {
      var a, w := r0 * STRIDE + 16 * step, c0 * STRIDE + 16 * step;
      StagedStep(p, x, dtm, s, r0, c0, step, sa, sw, a, w, GROUP * s + 16 * step, elems, sp);
      t := Wmma(p.fmt.value, sa, a, STRIDE, sw, w, t);
    }
  }

  /** Every accumulator of a block holds the scaled sum over the groups [lo, hi). */
  ghost predicate Accumulated(x: nat, dtm: nat, acc: array2<Vec>, elems: Spot -> Elements, lo: nat, hi: nat)
    requires acc.Length0 == THREADS && acc.Length1 == dtm
    reads acc
  {
    && (forall sp :: hi <= |elems(sp)[0].s|)
    && forall tid: nat, i: nat :: tid < THREADS && i < dtm ==> acc[tid, i] == GroupSums(elems(LaneSpot(x, tid, i)), lo, hi)
  }

  method FoldTile(p: Problem, x: nat, dtm: nat, lo: nat, s: nat, r0: nat, c0: nat, sa: seq<Byte>, sw: seq<Byte>, v: Vec,
                  ghost elems: Spot -> Elements, ghost sp: Spot) returns (r: Vec)
    requires p.Valid() && lo <= s < p.Groups() && r0 + 8 <= 16 * dtm && c0 < BND && Staged(p, x, dtm, s, sa, sw)
    requires Family(p, elems) && sp == Spot(r0, x * BND + c0) && v == GroupSums(elems(sp), lo, s)
    ensures r == GroupSums(elems(sp), lo, s + 1)
  {
    var sc := p.Scale(s, Clamp(x * BND + c0, p.N));
    var t := SlabTile(p, x, dtm, s, r0, c0, sa, sw, elems, sp);
    ElementScales(p, elems, sp, s);
    FoldGroup(elems(sp), lo, s, sc);
    r := Fold(v, sc, t);
  }

  lemma LaneBounds(dtm: nat, tid: nat, i: nat)
    requires tid < THREADS && i < dtm
    ensures LaneRow(tid, i) + 8 <= 16 * dtm && LaneTileRow(tid) < BND
  {
  }

  method ComputeSlab(p: Problem, x: nat, dtm: nat, lo: nat, s: nat, sa: seq<Byte>, sw: seq<Byte>, acc: array2<Vec>,
                     ghost elems: Spot -> Elements)
    requires p.Valid() && Family(p, elems) && lo <= s < p.Groups() && acc.Length0 == THREADS && acc.Length1 == dtm
    requires Staged(p, x, dtm, s, sa, sw) && Accumulated(x, dtm, acc, elems, lo, s)
    modifies acc
    ensures Accumulated(x, dtm, acc, elems, lo, s + 1)
  {
    for tid := 0 to THREADS
      invariant forall tid': nat, i: nat :: tid' < THREADS && i < dtm ==>
                  acc[tid', i] == GroupSums(elems(LaneSpot(x, tid', i)), lo, if tid' < tid then s + 1 else s)
    {
      for i := 0 to dtm
        invariant forall tid': nat, i': nat :: tid' < THREADS && i' < dtm ==>
                    acc[tid', i'] == GroupSums(elems(LaneSpot(x, tid', i')), lo,
                                               if tid' < tid || (tid' == tid && i' < i) then s + 1 else s)
      {
        LaneBounds(dtm, tid, i);
        acc[tid, i] := FoldTile(p, x, dtm, lo, s, LaneRow(tid, i), LaneTileRow(tid), sa, sw, acc[tid, i], elems, LaneSpot(x, tid, i));
      }
    }
  }

  method ClearAccumulators(x: nat, dtm: nat, lo: nat, hi: nat, ghost elems: Spot -> Elements) returns (acc: array2<Vec>)
    requires hi <= lo && forall sp :: hi <= |elems(sp)[0].s|
    ensures fresh(acc) && acc.Length0 == THREADS && acc.Length1 == dtm
    ensures Accumulated(x, dtm, acc, elems, lo, hi)
  {
    acc := new Vec[THREADS, dtm]((_, _) => ZERO);
    forall tid: nat, i: nat | tid < THREADS && i < dtm
      ensures acc[tid, i] == GroupSums(elems(LaneSpot(x, tid, i)), lo, hi)
    {
      GroupSumsEmpty(elems(LaneSpot(x, tid, i)), lo, hi);
    }
  }

  /** The K loop of one block over the slabs [lo, hi). */
  method KLoop(p: Problem, x: nat, dtm: nat, lo: nat, hi: nat, ghost elems: Spot -> Elements) returns (acc: array2<Vec>)
    requires p.Valid() && Family(p, elems) && hi <= p.Groups()
    ensures fresh(acc) && acc.Length0 == THREADS && acc.Length1 == dtm
    ensures Accumulated(x, dtm, acc, elems, lo, hi)
  {
    var sA, sW := new Byte[16 * dtm * STRIDE], new Byte[BND * STRIDE];
    acc := ClearAccumulators(x, dtm, lo, Min(lo, hi), elems);
    var s: nat := lo;
    while s < hi
      invariant lo <= s && (s <= hi || s == lo)
      invariant Accumulated(x, dtm, acc, elems, lo, Min(s, hi))
    {
      StageA(p, dtm, s, sA);
      StageW(p, x, s, sW);
      ComputeSlab(p, x, dtm, lo, s, sA[..], sW[..], acc, elems);
      s := s + 1;
    }
  }

  // ------------------------------------------------------------------ a single slice: store directly

  predicate LaneOwns(x: nat, tid: nat, m: nat, n: nat) {
    n == LaneCol(x, tid) && HalfOf(tid) == (m % 16) / 8
  }

  /** Accumulator (i, e) of a thread, scaled, is the value of its cell. */
  ghost predicate Holds(x: nat, tid: nat, acc: array2<Vec>, rowScale: seq<real>, i: nat, e: nat, val: Cell -> real)
    reads acc
  {
    && tid < acc.Length0 && i < acc.Length1 && e < 8 && LaneRow(tid, i) + e < |rowScale|
    && acc[tid, i][e] * rowScale[LaneRow(tid, i) + e] == val(Cell(LaneRow(tid, i) + e, LaneCol(x, tid)))
  }

  lemma RowStep(tid: nat, i: nat, m: nat)
    requires tid < THREADS
    ensures HalfOf(tid) == (m % 16) / 8 && m < 16 * i + 16
            <==> (HalfOf(tid) == (m % 16) / 8 && m < 16 * i) || LaneRow(tid, i) <= m < LaneRow(tid, i) + 8
  {
    var q, r := m / 16, m % 16;
    assert m == 16 * q + r;
  }

  method StoreFragment(x: nat, tid: nat, i: nat, acc: array2<Vec>, rowScale: seq<real>, C: array2<real>, ghost val: Cell -> real)
    requires tid < THREADS && acc.Length0 == THREADS && i < acc.Length1 && acc as object != C
    requires |rowScale| == C.Length0 && LaneCol(x, tid) < C.Length1
    requires forall e: nat :: e < 8 && LaneRow(tid, i) + e < C.Length0 ==> Holds(x, tid, acc, rowScale, i, e, val)
    modifies C
    ensures forall m: nat, n: nat {:trigger C[m, n]} :: m < C.Length0 && n < C.Length1 ==>
              C[m, n] == if n == LaneCol(x, tid) && LaneRow(tid, i) <= m < LaneRow(tid, i) + 8 then val(Cell(m, n)) else old(C[m, n])
  {
    var n, m0 := LaneCol(x, tid), LaneRow(tid, i);
    for e := 0 to 8
      invariant forall m: nat, n': nat {:trigger C[m, n']} :: m < C.Length0 && n' < C.Length1 ==>
                  C[m, n'] == if n' == n && m0 <= m < m0 + e then val(Cell(m, n')) else old(C[m, n'])
    {
      var m := m0 + e;
      if m < C.Length0 {
        assert Holds(x, tid, acc, rowScale, i, e, val);
        C[m, n] := acc[tid, i][e] * rowScale[m];
      }
    }
  }

  /** Store one thread's accumulators: exactly its own cells inside the matrix, each with the value
      val expects of it. */
  method StoreLane(x: nat, tid: nat, acc: array2<Vec>, rowScale: seq<real>, C: array2<real>, ghost val: Cell -> real)
    requires tid < THREADS && acc.Length0 == THREADS && acc as object != C
    requires |rowScale| == C.Length0 <= 16 * acc.Length1
    requires forall i: nat, e: nat :: i < acc.Length1 && e < 8 && LaneRow(tid, i) + e < C.Length0 && LaneCol(x, tid) < C.Length1 ==>
               Holds(x, tid, acc, rowScale, i, e, val)
    modifies C
    ensures forall m: nat, n: nat {:trigger C[m, n]} :: m < C.Length0 && n < C.Length1 ==>
              C[m, n] == if LaneOwns(x, tid, m, n) then val(Cell(m, n)) else old(C[m, n])
  {
    var n := LaneCol(x, tid);
    if n < C.Length1 {
      for i := 0 to acc.Length1
        invariant forall m: nat, n': nat {:trigger C[m, n']} :: m < C.Length0 && n' < C.Length1 ==>
                    C[m, n'] == if LaneOwns(x, tid, m, n') && m < 16 * i then val(Cell(m, n')) else old(C[m, n'])
      {
        forall m: nat
          ensures HalfOf(tid) == (m % 16) / 8 && m < 16 * i + 16
                  <==> (HalfOf(tid) == (m % 16) / 8 && m < 16 * i) || LaneRow(tid, i) <= m < LaneRow(tid, i) + 8
        {
          RowStep(tid, i, m);
        }
        StoreFragment(x, tid, i, acc, rowScale, C, val);
      }
    }
  }

  /** The launch the split-K machine runs: what every block holds for every cell. */
  ghost function LaunchOf(p: Problem, dks: nat, dtm: nat): (g: Launch)
    requires p.Valid() && dks >= 1
    ensures dks >= 2 && p.M <= 16 * dtm ==> g.Valid()
  {
    Launch(dks, dtm, p.M, p.N,
           (a: Slot) => if a.m < p.M && a.n < p.N
                        then GroupSum(p.At(a.m, a.n), SlabLo(p.Groups(), dks, a.ks), SlabHi(p.Groups(), dks, a.ks))
                        else 0.0,
           p.As)
  }

  lemma PartAt(p: Problem, dks: nat, dtm: nat, a: Slot)
    requires p.Valid() && dks >= 1 && a.m < p.M && a.n < p.N
    ensures LaunchOf(p, dks, dtm).part(a) == GroupSum(p.At(a.m, a.n), SlabLo(p.Groups(), dks, a.ks), SlabHi(p.Groups(), dks, a.ks))
  {
    hide GroupSum, SlabLo, SlabHi;
  }

  /** The accumulator a thread has for one of its own cells is that block's partial sum of the cell. */
  lemma AccIsPart(p: Problem, x: nat, dtm: nat, dks: nat, ks: nat, acc: array2<Vec>, elems: Spot -> Elements, tid: nat, i: nat, e: nat)
    requires p.Valid() && Family(p, elems) && dks >= 1 && acc.Length0 == THREADS && acc.Length1 == dtm
    requires Accumulated(x, dtm, acc, elems, SlabLo(p.Groups(), dks, ks), SlabHi(p.Groups(), dks, ks))
    requires tid < THREADS && i < dtm && e < 8 && LaneRow(tid, i) + e < p.M && LaneCol(x, tid) < p.N
    ensures acc[tid, i][e] == LaunchOf(p, dks, dtm).part(Slot(ks, LaneRow(tid, i) + e, LaneCol(x, tid)))
  {
    hide GroupSum, SlabLo, SlabHi, LaunchOf, LaneRow, LaneCol, Family;
    ElementInside(p, elems, LaneSpot(x, tid, i), e);
    PartAt(p, dks, dtm, Slot(ks, LaneRow(tid, i) + e, LaneCol(x, tid)));
  }
}
