/** A whole GEMM launch of the decode band: every output element is the reference's. */
module AutoRoundLaunch {
  import opened Basics
  import opened AutoRound
  import opened AutoRoundDecode
  import opened SplitK
  import Int4Unpack
  import Prefill = AutoRoundPrefill

  /** The formats of the shipped kernels: e4m3 bytes, nibbles, and the permute-based unpacker. */
  function ShippedFormat(): Format {
    Format(b => Int4Unpack.E4M3(b), w => Int4Unpack.Codes(w), w => Int4Unpack.UnpackedBytes(w))
  }

  lemma ShippedFormatFaithful()
    ensures ShippedFormat().Faithful()
  {
    forall w, j | 0 <= j < 8
      ensures ShippedFormat().value(ShippedFormat().unpack(w)[j]) == ShippedFormat().codes(w)[j] as real - 8.0
    {
      Int4Unpack.UnpackExact(w, j);
    }
  }

  // ------------------------------------------------------------------ one slice of K: DKS == 1

  /** total is the scaled sum over all groups, cell by cell, and val the same with the row scale. */
  ghost predicate Totals(p: Problem, total: Cell -> real, val: Cell -> real)
    requires p.Valid()
  {
    && (forall m: nat, n: nat {:trigger p.At(m, n)} :: m < p.M && n < p.N ==>
          total(Cell(m, n)) == GroupSum(p.At(m, n), 0, p.Groups()))
    && Scaled(p.As, total, val)
  }

  ghost predicate Scaled(rowScale: seq<real>, total: Cell -> real, val: Cell -> real) {
    forall c: Cell {:trigger val(c)} :: c.m < |rowScale| ==> val(c) == total(c) * rowScale[c.m]
  }

  lemma OwnerLane(x: nat, tid: nat, m: nat, n: nat)
    requires tid < THREADS
    ensures LaneOwns(x, tid, m, n) <==> n / BND == x && tid == Owner(0, Cell(m, n)).i
  {
    var g := Launch(2, m + 1, m + 1, n + 1, _ => 0.0, seq(m + 1, _ => 0.0));
    var cell := Cell(m, n);
    OwnerIsUnique(g, 0, cell, Owner(0, cell));
    if LaneOwns(x, tid, m, n) {
      LaneParts(tid);
      ColumnParts(x, tid / 32, tid % 16);
      OwnerIsUnique(g, 0, cell, Tid(x, 0, tid));
    }
  }

  method StoreBlock(x: nat, acc: array2<Vec>, rowScale: seq<real>, C: array2<real>, ghost val: Cell -> real)
    requires acc.Length0 == THREADS && acc as object != C && |rowScale| == C.Length0 <= 16 * acc.Length1
    requires forall tid: nat, i: nat, e: nat ::
               tid < THREADS && i < acc.Length1 && e < 8 && LaneRow(tid, i) + e < C.Length0 && LaneCol(x, tid) < C.Length1 ==>
               Holds(x, tid, acc, rowScale, i, e, val)
    modifies C
    ensures forall m: nat, n: nat {:trigger C[m, n]} :: m < C.Length0 && n < C.Length1 ==>
              C[m, n] == if n / BND == x then val(Cell(m, n)) else old(C[m, n])
  {
    for tid := 0 to THREADS
      invariant forall m: nat, n: nat {:trigger C[m, n]} :: m < C.Length0 && n < C.Length1 ==>
                  C[m, n] == if n / BND == x && Owner(0, Cell(m, n)).i < tid then val(Cell(m, n)) else old(C[m, n])
    {
      forall m: nat, n: nat ensures LaneOwns(x, tid, m, n) <==> n / BND == x && tid == Owner(0, Cell(m, n)).i {
        OwnerLane(x, tid, m, n);
      }
      StoreLane(x, tid, acc, rowScale, C, val);
    }
    forall m: nat, n: nat | m < C.Length0 && n < C.Length1 ensures Owner(0, Cell(m, n)).i < THREADS {
      LaneOf((n % BND) / 16, (m % 16) / 8, n % 16);
    }
  }

  lemma SpotTotal(p: Problem, sp: Spot, v: Vec, elems: Spot -> Elements, total: Cell -> real, val: Cell -> real, e: nat)
    requires p.Valid() && Family(p, elems) && Totals(p, total, val) && e < 8 && sp.m0 + e < p.M && sp.n < p.N
    requires v == GroupSums(elems(sp), 0, p.Groups())
    ensures v[e] == total(Cell(sp.m0 + e, sp.n))
  {
    ElementInside(p, elems, sp, e);
  }

  lemma HoldsScaled(x: nat, acc: array2<Vec>, rowScale: seq<real>, total: Cell -> real, val: Cell -> real, tid: nat, i: nat, e: nat)
    requires Scaled(rowScale, total, val) && tid < acc.Length0 && i < acc.Length1 && e < 8 && LaneRow(tid, i) + e < |rowScale|
    requires acc[tid, i][e] == total(Cell(LaneRow(tid, i) + e, LaneCol(x, tid)))
    ensures Holds(x, tid, acc, rowScale, i, e, val)
  {
  }

  method DecodeRange(p: Problem, dtm: nat, x: nat, C: array2<real>, ghost total: Cell -> real, ghost val: Cell -> real)
    requires p.Valid() && Totals(p, total, val) && p.M <= 16 * dtm && C.Length0 == p.M && C.Length1 == p.N
    modifies C
    ensures forall m: nat, n: nat {:trigger C[m, n]} :: m < C.Length0 && n < C.Length1 ==>
              C[m, n] == if n / BND == x then val(Cell(m, n)) else old(C[m, n])
  {
    ghost var elems := FamilyExists(p);
    var acc := KLoop(p, x, dtm, 0, p.Groups(), elems);
    forall tid: nat, i: nat, e: nat |
      tid < THREADS && i < acc.Length1 && e < 8 && LaneRow(tid, i) + e < C.Length0 && LaneCol(x, tid) < C.Length1
      ensures Holds(x, tid, acc, p.As, i, e, val)
    {
      SpotTotal(p, LaneSpot(x, tid, i), acc[tid, i], elems, total, val, e);
      HoldsScaled(x, acc, p.As, total, val, tid, i, e);
    }
    StoreBlock(x, acc, p.As, C, val);
  }

  lemma GroupTotals(p: Problem) returns (total: Cell -> real)
    requires p.Valid()
    ensures forall m: nat, n: nat {:trigger p.At(m, n)} :: m < p.M && n < p.N ==>
              total(Cell(m, n)) == GroupSum(p.At(m, n), 0, p.Groups())
  {
    total := (c: Cell) => if c.m < p.M && c.n < p.N then GroupSum(p.At(c.m, c.n), 0, p.Groups()) else 0.0;
  }

  lemma ScaledExists(rowScale: seq<real>, total: Cell -> real) returns (val: Cell -> real)
    ensures Scaled(rowScale, total, val)
  {
    val := (c: Cell) => if c.m < |rowScale| then total(c) * rowScale[c.m] else 0.0;
  }

  lemma TotalsExist(p: Problem) returns (total: Cell -> real, val: Cell -> real)
    requires p.Valid()
    ensures Totals(p, total, val)
  {
    total := GroupTotals(p);
    val := ScaledExists(p.As, total);
  }

  /** A scaled total is the reference of its element. */
  lemma ScaledIsReference(d: Element, rowScale: seq<real>, total: Cell -> real, val: Cell -> real, cell: Cell)
    requires d.Valid() && cell.m < |rowScale| && d.xs == rowScale[cell.m] && Scaled(rowScale, total, val)
    requires total(cell) == GroupSum(d, 0, |d.s|)
    ensures val(cell) == Ref(d)
  {
    RefIsScaledGroupSum(d);
  }

  lemma TotalsAreReference(p: Problem, total: Cell -> real, val: Cell -> real, m: nat, n: nat)
    requires p.Valid() && Totals(p, total, val) && m < p.M && n < p.N
    ensures val(Cell(m, n)) == Ref(p.At(m, n))
  {
    ScaledIsReference(p.At(m, n), p.As, total, val, Cell(m, n));
  }

  /** The unsplit launch: each of the column ranges stores its own part of the reference. */
  method DecodeUnsplit(p: Problem, dtm: nat) returns (C: array2<real>)
    requires p.Valid() && p.M <= 16 * dtm
    ensures fresh(C) && C.Length0 == p.M && C.Length1 == p.N
    ensures forall m: nat, n: nat :: m < p.M && n < p.N ==> C[m, n] == Ref(p.At(m, n)) == FlatSum(p, m, n, p.K)
  {
    ghost var total, val := TotalsExist(p);
    C := new real[p.M, p.N];
    for x := 0 to CeilDiv(p.N, BND)
      invariant forall m: nat, n: nat {:trigger C[m, n]} :: m < p.M && n < p.N && n / BND < x ==> C[m, n] == val(Cell(m, n))
    {
      DecodeRange(p, dtm, x, C, total, val);
    }
    forall m: nat, n: nat | m < p.M && n < p.N ensures C[m, n] == Ref(p.At(m, n)) == FlatSum(p, m, n, p.K) {
      FlatSumIs(p, m, n, p.K);
      TotalsAreReference(p, total, val, m, n);
    }
  }

  // ------------------------------------------------------------------ several slices of K

  /** The cells the split-K machine has a thread store are those of the dtm fragments it accumulates that
      lie inside the matrix, each at one place of one fragment. */
  lemma OwnCellsAre(g: Launch, t: Tid, cell: Cell)
    requires t.i < THREADS
    ensures cell in OwnCells(g, t) <==>
              Inside(g, cell) && exists i: nat, e: nat :: i < g.dtm && e < 8 && cell == FragmentCell(t, i, e)
  {
    var i, e := cell.m / 16, cell.m % 8;
    assert cell.m % 16 == (cell.m % 16) / 8 * 8 + e;
    if cell in OwnCells(g, t) {
      assert cell == FragmentCell(t, i, e);
    }
    if i: nat, e: nat :| i < g.dtm && e < 8 && cell == FragmentCell(t, i, e) {
      RowStep(t.i, i, cell.m);
    }
  }

  /** The cell at place e of a thread's fragment i. */
  function FragmentCell(t: Tid, i: nat, e: nat): Cell { Cell(LaneRow(t.i, i) + e, LaneCol(t.x, t.i)) }

  /** Accumulator (i, e) of a thread is its block's partial sum of its cell. */
  ghost predicate AccIs(g: Launch, t: Tid, acc: array2<Vec>, i: nat, e: nat)
    requires t.i < acc.Length0 && i < acc.Length1 && e < 8
    reads acc
  {
    var c := FragmentCell(t, i, e);
    c.m < g.rows && c.n < g.cols ==> acc[t.i, i][e] == g.part(Slot(t.ks, c.m, c.n))
  }

  /** A thread's store loop issues exactly the machine's stores: each of its cells, with its partial sum. */
  method StoreLoop(rows: nat, cols: nat, t: Tid, acc: array2<Vec>, ghost g: Launch) returns (issued: map<Cell, real>)
    requires t.i < THREADS == acc.Length0 && acc.Length1 == g.dtm && rows == g.rows && cols == g.cols
    requires forall i: nat, e: nat :: i < g.dtm && e < 8 ==> AccIs(g, t, acc, i, e)
    ensures issued.Keys == OwnCells(g, t)
    ensures forall c :: c in issued ==> issued[c] == g.part(Slot(t.ks, c.m, c.n))
  {
    issued := map[];
    var n := LaneCol(t.x, t.i);
    if n < cols {
      for i := 0 to acc.Length1
        invariant forall c: Cell :: c in issued <==> Owns(g, t, c) && c.m < 16 * i
        invariant forall c :: c in issued ==> issued[c] == g.part(Slot(t.ks, c.m, c.n))
      {
        for e := 0 to 8
          invariant forall c: Cell :: c in issued <==>
                      Owns(g, t, c) && (c.m < 16 * i || LaneRow(t.i, i) <= c.m < LaneRow(t.i, i) + e)
          invariant forall c :: c in issued ==> issued[c] == g.part(Slot(t.ks, c.m, c.n))
        {
          var c := FragmentCell(t, i, e);
          RowStep(t.i, i, c.m);
          assert AccIs(g, t, acc, i, e);
          if c.m < rows {
            assert Owns(g, t, c);
            issued := issued[c := acc[t.i, i][e]];
          }
        }
        forall c: Cell ensures c in issued <==> Owns(g, t, c) && c.m < 16 * (i + 1) {
          RowStep(t.i, i, c.m);
        }
      }
    }
  }

  method StoreBlockPartials(rows: nat, cols: nat, x: nat, ks: nat, acc: array2<Vec>, ghost g: Launch) returns (stores: seq<map<Cell, real>>)
    requires acc.Length0 == THREADS && acc.Length1 == g.dtm && rows == g.rows && cols == g.cols
    requires forall tid: nat, i: nat, e: nat :: tid < THREADS && i < g.dtm && e < 8 ==> AccIs(g, Tid(x, ks, tid), acc, i, e)
    ensures |stores| == THREADS
    ensures forall tid: nat :: tid < THREADS ==> stores[tid].Keys == OwnCells(g, Tid(x, ks, tid))
    ensures forall tid: nat, c :: tid < THREADS && c in stores[tid] ==> stores[tid][c] == g.part(Slot(ks, c.m, c.n))
  {
    hide OwnCells, AccIs;
    stores := [];
    for tid := 0 to THREADS
      invariant |stores| == tid
      invariant forall u: nat :: u < tid ==> stores[u].Keys == OwnCells(g, Tid(x, ks, u))
      invariant forall u: nat, c :: u < tid && c in stores[u] ==> stores[u][c] == g.part(Slot(ks, c.m, c.n))
    {
      var issued := StoreLoop(rows, cols, Tid(x, ks, tid), acc, g);
      stores := stores + [issued];
    }
  }

  /** One block of the split launch: every thread's stores are the machine's. */
  method DecodeSlice(p: Problem, x: nat, dtm: nat, dks: nat, ks: nat) returns (stores: seq<map<Cell, real>>)
    requires p.Valid() && dks >= 1 && p.M <= 16 * dtm
    ensures |stores| == THREADS
    ensures forall tid: nat :: tid < THREADS ==> stores[tid].Keys == OwnCells(LaunchOf(p, dks, dtm), Tid(x, ks, tid))
    ensures forall tid: nat, c :: tid < THREADS && c in stores[tid] ==> stores[tid][c] == LaunchOf(p, dks, dtm).part(Slot(ks, c.m, c.n))
  {
    hide OwnCells;
    ghost var elems := FamilyExists(p);
    ghost var g := LaunchOf(p, dks, dtm);
    var acc := KLoop(p, x, dtm, SlabLo(p.Groups(), dks, ks), SlabHi(p.Groups(), dks, ks), elems);
    forall tid: nat, i: nat, e: nat | tid < THREADS && i < dtm && e < 8 ensures AccIs(g, Tid(x, ks, tid), acc, i, e) {
      if LaneRow(tid, i) + e < p.M && LaneCol(x, tid) < p.N {
        AccIsPart(p, x, dtm, dks, ks, acc, elems, tid, i, e);
      }
    }
    stores := StoreBlockPartials(p.M, p.N, x, ks, acc, g);
  }

  lemma {:induction false} PartSumIsSlicesSum(g: Launch, d: Element, m: nat, n: nat, k: nat)
    requires d.Valid() && g.dks >= 1
    requires forall ks: nat {:trigger g.part(Slot(ks, m, n))} ::
               g.part(Slot(ks, m, n)) == GroupSum(d, SlabLo(|d.s|, g.dks, ks), SlabHi(|d.s|, g.dks, ks))
    ensures PartSum(g, m, n, k) == SlicesSum(d, g.dks, k)
  {
    if k > 0 {
      PartSumIsSlicesSum(g, d, m, n, k - 1);
    }
  }

  /** The slices of all blocks together are the whole K range. */
  lemma AllSlices(d: Element, dks: nat)
    requires d.Valid() && dks >= 1
    ensures SlicesSum(d, dks, dks) == GroupSum(d, 0, |d.s|)
  {
    SlicesTile(d, dks, dks);
    SlabsCovered(|d.s|, dks);
  }

  lemma PartSumIsTotal(p: Problem, dks: nat, dtm: nat, total: Cell -> real, val: Cell -> real, cell: Cell)
    requires p.Valid() && dks >= 2 && cell.m < p.M && cell.n < p.N && Totals(p, total, val)
    ensures PartSum(LaunchOf(p, dks, dtm), cell.m, cell.n, dks) == total(cell)
  {
    PartSumIsSlicesSum(LaunchOf(p, dks, dtm), p.At(cell.m, cell.n), cell.m, cell.n, dks);
    AllSlices(p.At(cell.m, cell.n), dks);
  }

  lemma ResultIsScaled(g: Launch, total: Cell -> real, val: Cell -> real, cell: Cell)
    requires g.Valid() && cell.m < g.rows && Scaled(g.rowScale, total, val)
    requires PartSum(g, cell.m, cell.n, g.dks) == total(cell)
    ensures Result(g, cell) == val(cell)
  {
  }

  /** What the split launch must leave in a cell is the reference. */
  lemma SplitResult(p: Problem, dks: nat, dtm: nat, total: Cell -> real, val: Cell -> real, cell: Cell)
    requires p.Valid() && dks >= 2 && p.M <= 16 * dtm && cell.m < p.M && cell.n < p.N && Totals(p, total, val)
    ensures Result(LaunchOf(p, dks, dtm), cell) == val(cell)
  {
    PartSumIsTotal(p, dks, dtm, total, val, cell);
    ResultIsScaled(LaunchOf(p, dks, dtm), total, val, cell);
  }

  /** The split launch, with tiles tall enough for M: whatever the schedule, the output is the reference. */
  lemma SplitDecodeCorrect(p: Problem, dks: nat, dtm: nat, s: State, acts: seq<Action>, m: nat, n: nat)
    requires p.Valid() && dks >= 2 && p.M <= 16 * dtm && m < p.M && n < p.N
    requires Init(LaunchOf(p, dks, dtm), s) && CanRun(LaunchOf(p, dks, dtm), s, acts)
    requires Final(LaunchOf(p, dks, dtm), Exec(LaunchOf(p, dks, dtm), s, acts))
    ensures Exec(LaunchOf(p, dks, dtm), s, acts).writes(Cell(m, n)) == 1
    ensures Exec(LaunchOf(p, dks, dtm), s, acts).c(Cell(m, n)) == Ref(p.At(m, n)) == FlatSum(p, m, n, p.K)
  {
    var g := LaunchOf(p, dks, dtm);
    LaunchCorrect(g, s, acts);
    FlatSumIs(p, m, n, p.K);
    var total, val := TotalsExist(p);
    SplitResult(p, dks, dtm, total, val, Cell(m, n));
    TotalsAreReference(p, total, val, m, n);
    assert Inside(g, Cell(m, n));
  }

  // ------------------------------------------------------------------ the prefill grid

  lemma PrefillHolds(t: Prefill.Tile, l: Prefill.Lane, v: Vec, rowScale: seq<real>, total: Cell -> real, val: Cell -> real, e: nat)
    requires Scaled(rowScale, total, val) && e < 8 && t.m0 + Prefill.TileRow(l) + e < |rowScale|
    requires v[e] == total(Cell(t.m0 + Prefill.TileRow(l) + e, t.n0 + Prefill.TileCol(t.tn, l)))
    ensures Prefill.Holds(t, l, v, rowScale, e, val)
  {
    hide Prefill.TileRow, Prefill.TileCol;
    var cell := Cell(t.m0 + Prefill.TileRow(l) + e, t.n0 + Prefill.TileCol(t.tn, l));
    assert val(cell) == total(cell) * rowScale[cell.m];
  }

  lemma TileHolds(p: Problem, t: Prefill.Tile, acc: array3<Vec>, elems: Spot -> Elements, total: Cell -> real, val: Cell -> real)
    requires p.Valid() && Family(p, elems) && Totals(p, total, val) && Prefill.Shape(t.tn, acc)
    requires forall l: Prefill.Lane :: Prefill.InTile(t.tn, l) ==>
               acc[l.tid, l.i, l.j] == GroupSums(elems(Prefill.LaneSpot(t, l)), 0, p.Groups())
    ensures Prefill.AllHold(t, acc, p.As, p.N, val)
  {
    hide GroupSums, Prefill.Holds;
    forall l: Prefill.Lane, e: nat |
      Prefill.InTile(t.tn, l) && e < 8 && t.m0 + Prefill.TileRow(l) + e < |p.As| && t.n0 + Prefill.TileCol(t.tn, l) < p.N
      ensures Prefill.Holds(t, l, acc[l.tid, l.i, l.j], p.As, e, val)
    {
      SpotTotal(p, Prefill.LaneSpot(t, l), acc[l.tid, l.i, l.j], elems, total, val, e);
      PrefillHolds(t, l, acc[l.tid, l.i, l.j], p.As, total, val, e);
    }
  }

  method PrefillBlock(p: Problem, t: Prefill.Tile, imajor: bool, C: array2<real>, ghost total: Cell -> real, ghost val: Cell -> real)
    requires p.Valid() && Totals(p, total, val) && t.m0 < p.M && t.n0 < p.N && t.tn >= 2 && t.tn % 2 == 0
    requires C.Length0 == p.M && C.Length1 == p.N
    modifies C
    ensures forall m: nat, n: nat {:trigger C[m, n]} :: m < C.Length0 && n < C.Length1 ==>
              C[m, n] == if Prefill.CellInTile(t, m, n) then val(Cell(m, n)) else old(C[m, n])
  {
    ghost var elems := FamilyExists(p);
    var acc := Prefill.PrefillTile(p, t, imajor, elems);
    TileHolds(p, t, acc, elems, total, val);
    Prefill.StoreTile(t, acc, p.As, C, val);
  }

  method PrefillRow(p: Problem, m0: nat, tn: nat, imajor: bool, C: array2<real>, ghost total: Cell -> real, ghost val: Cell -> real)
    requires p.Valid() && Totals(p, total, val) && m0 < p.M && tn >= 2 && tn % 2 == 0
    requires C.Length0 == p.M && C.Length1 == p.N
    modifies C
    ensures forall m: nat, n: nat {:trigger C[m, n]} :: m < C.Length0 && n < C.Length1 ==>
              C[m, n] == if m0 <= m < m0 + Prefill.BMF then val(Cell(m, n)) else old(C[m, n])
  {
    var n0 := 0;
    while n0 < p.N
      invariant forall m: nat, n: nat {:trigger C[m, n]} :: m < C.Length0 && n < C.Length1 ==>
                  C[m, n] == if m0 <= m < m0 + Prefill.BMF && n < n0 then val(Cell(m, n)) else old(C[m, n])
    {
      PrefillBlock(p, Prefill.Tile(m0, n0, tn), imajor, C, total, val);
      n0 := n0 + 32 * tn;
    }
  }

  /** The prefill launch, for every even tile width and both folding arms: the output is the reference. */
  method PrefillGemm(p: Problem, tn: nat, imajor: bool) returns (C: array2<real>)
    requires p.Valid() && tn >= 2 && tn % 2 == 0
    ensures fresh(C) && C.Length0 == p.M && C.Length1 == p.N
    ensures forall m: nat, n: nat :: m < p.M && n < p.N ==> C[m, n] == Ref(p.At(m, n)) == FlatSum(p, m, n, p.K)
  {
    ghost var total, val := TotalsExist(p);
    C := new real[p.M, p.N];
    var m0 := 0;
    while m0 < p.M
      invariant forall m: nat, n: nat {:trigger C[m, n]} :: m < p.M && n < p.N && m < m0 ==> C[m, n] == val(Cell(m, n))
    {
      PrefillRow(p, m0, tn, imajor, C, total, val);
      m0 := m0 + Prefill.BMF;
    }
    forall m: nat, n: nat | m < p.M && n < p.N ensures C[m, n] == Ref(p.At(m, n)) == FlatSum(p, m, n, p.K) {
      FlatSumIs(p, m, n, p.K);
      TotalsAreReference(p, total, val, m, n);
    }
  }

  // ------------------------------------------------------------------ which kernel a call takes

  datatype Kernel = DecodeKernel(ks: nat, tm: nat) | PrefillKernel(tn: nat)

  /** How far to split K, without the measurement override. */
  function SplitKFor(nblk: nat, M: nat, K: nat): nat {
    if M > 64 then
      if nblk >= 48 then 1 else if M <= 112 then 2 else if K >= 6144 then 4 else 1
    else
      var ks := if nblk >= 128 then 1 else if nblk >= 64 then 2 else 4;
      if M > 48 && ks > 1 then ks / 2 else ks
  }

  /** scratchFloats is the size of the registered partial buffer, None if none is registered. */
  function Route(M: nat, N: nat, K: nat, decodeMaxM: nat, tn4MinM: nat, scratchFloats: Option<nat>): Kernel {
    var ks := SplitKFor(CeilDiv(N, BND), M, K);
    var haveScratch := scratchFloats.Some? && ks * M * N <= scratchFloats.value;
    if 0 < M <= decodeMaxM && M <= 128 && N <= 32768 && (ks == 1 || haveScratch) then DecodeKernel(ks, CeilDiv(M, 16))
    else if M >= tn4MinM && N >= 128 then PrefillKernel(4)
    else PrefillKernel(2)
  }

  /** The launcher's own steps: choose a split, see whether it can be served, else fall through to prefill. */
  method ChooseSplit(nblk: nat, M: nat, K: nat) returns (ks: nat)
    ensures ks == SplitKFor(nblk, M, K)
  {
    if M > 64 {
      if nblk >= 48 {
        return 1;
      }
      if M <= 112 {
        return 2;
      }
      return if K >= 6144 then 4 else 1;
    }
    ks := 4;
    if nblk >= 128 {
      ks := 1;
    } else if nblk >= 64 {
      ks := 2;
    }
    if M > 48 && ks > 1 {
      ks := ks / 2;
    }
  }

  method RouteCall(M: nat, N: nat, K: nat, decodeMaxM: nat, tn4MinM: nat, scratchFloats: Option<nat>) returns (kernel: Kernel)
    ensures kernel == Route(M, N, K, decodeMaxM, tn4MinM, scratchFloats)
  {
    var ks := ChooseSplit((N + 127) / 128, M, K);
    var haveScratch := scratchFloats.Some? && ks * M * N <= scratchFloats.value;
    if M > 0 && M <= decodeMaxM && M <= 128 && N <= 32768 && (ks == 1 || haveScratch) {
      return DecodeKernel(ks, (M + 15) / 16);
    }
    if M >= tn4MinM && N >= 128 {
      return PrefillKernel(4);
    }
    return PrefillKernel(2);
  }

  /** Every call is routed to an instantiated kernel whose domain it meets: the decode tile covers M, a
      split has slots for every partial and one of the 264 zeroed counters for every range, and the
      prefill tile width is even. */
  lemma RouteInDomain(M: nat, N: nat, K: nat, decodeMaxM: nat, tn4MinM: nat, scratch: Option<nat>, a: Slot)
    requires M >= 1 && N >= 1
    ensures match Route(M, N, K, decodeMaxM, tn4MinM, scratch)
            case DecodeKernel(ks, tm) =>
              && ks in {1, 2, 4} && 1 <= tm <= 8 && M <= 16 * tm
              && (ks > 1 ==> CeilDiv(N, BND) <= 264 && scratch.Some?)
              && (ks > 1 && a.ks < ks && a.m < M && a.n < N ==> SlotIndex(M, N, a) < scratch.value)
            case PrefillKernel(tn) => tn % 2 == 0
  {
    match Route(M, N, K, decodeMaxM, tn4MinM, scratch) {
      case DecodeKernel(ks, tm) =>
        if a.ks < ks && a.m < M && a.n < N {
          SlotIndexInjective(M, N, ks, a, a);
        }
      case PrefillKernel(_) =>
    }
  }
}
