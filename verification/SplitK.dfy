/** The fused split-K tail of the decode GEMM, as a state machine.

    The grid has, for every 128-wide column range x, DKS blocks of 256 threads.  Every thread
    stores its partial sums, fences, meets its block at a barrier, and thread 0 of each block bumps
    the range's counter.  The block that drew DKS - 1 clears the counter and reduces.

    Stores are weakly ordered: a store first sits in the buffer of the thread that issued it and
    reaches memory at any later time, in any order; only that thread's own fence forces it out.
    Loads of partial sums may be stale: of a place written since the loading thread's last acquire
    they may return anything.
    A schedule is any sequence of enabled actions of any threads.  */
module SplitK {
  import opened Basics

  const BND: nat := 128      // columns of one range, DWN * 16 with DWN = 8
  const THREADS: nat := 256  // threads of one block, DWN * 32

  datatype Slot = Slot(ks: nat, m: nat, n: nat)   // a place in the partial buffer
  datatype Block = Block(x: nat, ks: nat)         // a block of the grid
  datatype Range = Range(x: nat)                  // a column range, DKS blocks share it

  /** One launch: how many slices of K, how many 16-row fragments a tile has, the shape, the partial sum
      each block holds for each cell, and the row scales. */
  datatype Launch = Launch(dks: nat, dtm: nat, rows: nat, cols: nat, part: Slot -> real, rowScale: seq<real>) {
    /** The tile must cover the rows: a block holds nothing for rows from 16 * dtm on. */
    predicate Valid() { dks >= 2 && 1 <= rows <= 16 * dtm && cols >= 1 && |rowScale| == rows }
    function Ranges(): nat { (cols + BND - 1) / BND }
    function Lo(x: nat): nat { x * BND }
    function Hi(x: nat): nat { if x * BND + BND < cols then x * BND + BND else cols }
  }

  /** The ranges cover the columns, and every one of them has some. */
  lemma RangesTile(g: Launch, n: nat)
    requires g.cols >= 1
    ensures n < g.cols ==> n / 128 < g.Ranges() && g.Lo(n / 128) <= n < g.Hi(n / 128)
    ensures n < g.Ranges() ==> g.Lo(n) < g.Hi(n) <= g.cols && g.Hi(n) <= 128 * n + 128
  {
  }

  datatype Tid = Tid(x: nat, ks: nat, i: nat)

  predicate IsThread(g: Launch, t: Tid) {
    t.x < g.Ranges() && t.ks < g.dks && t.i < THREADS
  }

  /** The cells thread t holds in its accumulators and must store: its lane fixes the column and
      which half of each of the dtm 16-row fragments it has. */
  predicate Owns(g: Launch, t: Tid, cell: Cell) {
    && Inside(g, cell) && cell.m < 16 * g.dtm
    && cell.n == t.x * BND + (t.i / 32) * 16 + t.i % 16
    && (t.i % 32) / 16 == (cell.m % 16) / 8
  }

  /** The thread of block (x, ks) that holds a given cell. */
  function Owner(ks: nat, cell: Cell): Tid {
    var rel := cell.n % BND;
    Tid(cell.n / BND, ks, (rel / 16) * 32 + ((cell.m % 16) / 8) * 16 + rel % 16)
  }

  lemma LaneOf(w: nat, h: nat, c: nat)
    requires w < 8 && h < 2 && c < 16
    ensures var i := w * 32 + h * 16 + c; i < THREADS && i / 32 == w && (i % 32) / 16 == h && i % 16 == c
  {
  }

  lemma LaneParts(i: nat)
    requires i < THREADS
    ensures i / 32 < 8 && (i % 32) / 16 < 2
    ensures i == (i / 32) * 32 + ((i % 32) / 16) * 16 + i % 16
  {
  }

  lemma ColumnParts(x: nat, w: nat, c: nat)
    requires w < 8 && c < 16
    ensures var n := x * BND + w * 16 + c; n / BND == x && (n % BND) / 16 == w && (n % BND) % 16 == c
  {
    var n := x * BND + w * 16 + c;
    assert n / BND == x && n % BND == w * 16 + c;
  }

  /** Every cell of the output is held by exactly one thread of every k-slice. */
  lemma OwnerIsUnique(g: Launch, ks: nat, cell: Cell, t: Tid)
    requires g.Valid() && ks < g.dks && Inside(g, cell)
    ensures IsThread(g, Owner(ks, cell)) && Owns(g, Owner(ks, cell), cell)
    ensures IsThread(g, t) && t.ks == ks && Owns(g, t, cell) ==> t == Owner(ks, cell)
  {
    var rel := cell.n % BND;
    LaneOf(rel / 16, (cell.m % 16) / 8, rel % 16);
    assert cell.n == (cell.n / BND) * BND + (rel / 16) * 16 + rel % 16;
    if IsThread(g, t) && t.ks == ks && Owns(g, t, cell) {
      LaneParts(t.i);
      ColumnParts(t.x, t.i / 32, t.i % 16);
    }
  }

  datatype Pc =
    | Storing                                        // issuing partial sums
    | Fenced                                         // past the release fence
    | Synced                                         // past the first barrier
    | Voted                                          // thread 0 has bumped the counter
    | Chosen                                         // past the second barrier, s_last was true
    | Cleared                                        // thread 0 has issued cnt = 0
    | Reducing(nn: nat, m: nat, k: nat, sum: real)   // the three nested loops of the reduction
    | Done
  {
    function Rank(): nat {
      match this
      case Storing => 0
      case Fenced => 1
      case Synced => 2
      case Voted => 3
      case Chosen => 4
      case Cleared => 5
      case Reducing(_, _, _, _) => 6
      case Done => 7
    }
  }

  datatype State = State(
    pc: Tid -> Pc,
    todo: Tid -> set<Cell>,               // partial sums a thread has yet to issue
    buf: Tid -> map<Cell, real>,          // issued, not yet in memory
    p: Slot -> real,           // the partial buffer, (ks, m, n)
    cnt: Range -> int,                      // the counters, one per column range
    last: Block -> bool,             // s_last of block (x, ks)
    resetPending: Block -> bool,     // cnt = 0 issued by block (x, ks), not yet in memory
    c: Cell -> real,                      // the output
    writes: Cell -> int,                  // how often each output cell was written
    clock: int,                           // counts the stores that reached the partial buffer
    stamp: Slot -> int,                   // when each place of it was last written
    acquired: Tid -> int,                 // when each thread last acquired
    arrived: Range -> seq<nat>,             // history: the order in which the blocks of x voted
    cleared: Range -> bool)                 // history: cnt = 0 has reached memory

  datatype Action =
    | Issue(t: Tid, cell: Cell)
    | Drain(t: Tid, cell: Cell)
    | Fence(t: Tid)
    | Barrier1(t: Tid)
    | Vote(t: Tid)
    | Barrier2(t: Tid)
    | Clear(t: Tid)
    | DrainReset(t: Tid)
    | Fence2(t: Tid)
    | Reduce(t: Tid, v: real)                         // v is what the load returns, where there is one

  function Set<K(==), V>(f: K -> V, k: K, v: V): K -> V {
    x => if x == k then v else f(x)
  }

  ghost predicate BlockReached(g: Launch, s: State, t: Tid, rank: nat) {
    forall u {:trigger s.pc(u)} :: IsThread(g, u) && u.x == t.x && u.ks == t.ks ==> s.pc(u).Rank() >= rank
  }

  /** The next step of a reduction loads a partial sum. */
  predicate Loads(g: Launch, t: Tid, pc: Pc) {
    pc.Reducing? && pc.nn < g.Hi(t.x) && pc.m < g.rows && pc.k < g.dks
  }

  function LoadSlot(pc: Pc): Slot
    requires pc.Reducing?
  {
    Slot(pc.k, pc.m, pc.nn)
  }

  /** A load returns what memory holds, or anything if the place was written since the thread's acquire. */
  predicate MayLoad(s: State, t: Tid, a: Slot, v: real) {
    v == s.p(a) || s.stamp(a) >= s.acquired(t)
  }

  ghost predicate Enabled(g: Launch, s: State, a: Action) {
    && IsThread(g, a.t)
    && match a
       case Issue(t, cell) => s.pc(t).Storing? && cell in s.todo(t)
       case Drain(t, cell) => cell in s.buf(t)
       case Fence(t) => s.pc(t).Storing? && s.todo(t) == {} && s.buf(t) == map[]
       case Barrier1(t) => s.pc(t).Fenced? && BlockReached(g, s, t, 1)
       case Vote(t) => s.pc(t).Synced?
       case Barrier2(t) => s.pc(t).Voted? && BlockReached(g, s, t, 3)
       case Clear(t) => s.pc(t).Chosen?
       case DrainReset(t) => t.i == 0 && s.resetPending(Block(t.x, t.ks))
       case Fence2(t) => s.pc(t).Cleared? && (t.i == 0 ==> !s.resetPending(Block(t.x, t.ks)))
       case Reduce(t, v) => s.pc(t).Reducing? && (Loads(g, t, s.pc(t)) ==> MayLoad(s, t, LoadSlot(s.pc(t)), v))
  }

  function ReduceStep(g: Launch, s: State, t: Tid, v: real): State
    requires g.Valid() && s.pc(t).Reducing?
  {
    var Reducing(nn, m, k, sum) := s.pc(t);
    if nn >= g.Hi(t.x) then
      s.(pc := Set(s.pc, t, Done))
    else if m >= g.rows then
      s.(pc := Set(s.pc, t, Reducing(nn + THREADS, 0, 0, 0.0)))
    else if k < g.dks then
      s.(pc := Set(s.pc, t, Reducing(nn, m, k + 1, sum + v)))
    else
      s.(pc := Set(s.pc, t, Reducing(nn, m + 1, 0, 0.0)),
         c := Set(s.c, Cell(m, nn), sum * g.rowScale[m]),
         writes := Set(s.writes, Cell(m, nn), s.writes(Cell(m, nn)) + 1))
  }

  ghost function Apply(g: Launch, s: State, a: Action): State
    requires g.Valid() && Enabled(g, s, a)
  {
    match a
    case Issue(t, cell) =>
      s.(todo := Set(s.todo, t, s.todo(t) - {cell}),
         buf := Set(s.buf, t, s.buf(t)[cell := g.part(Slot(t.ks, cell.m, cell.n))]))
    case Drain(t, cell) =>
      s.(p := Set(s.p, Slot(t.ks, cell.m, cell.n), s.buf(t)[cell]),
         stamp := Set(s.stamp, Slot(t.ks, cell.m, cell.n), s.clock), clock := s.clock + 1,
         buf := Set(s.buf, t, s.buf(t) - {cell}))
    case Fence(t) => s.(pc := Set(s.pc, t, Fenced))
    case Barrier1(t) => s.(pc := Set(s.pc, t, Synced))
    case Vote(t) =>
      if t.i != 0 then s.(pc := Set(s.pc, t, Voted))
      else
        s.(pc := Set(s.pc, t, Voted),
           last := Set(s.last, Block(t.x, t.ks), s.cnt(Range(t.x)) == g.dks - 1),
           cnt := Set(s.cnt, Range(t.x), s.cnt(Range(t.x)) + 1),
           arrived := Set(s.arrived, Range(t.x), s.arrived(Range(t.x)) + [t.ks]))
    case Barrier2(t) => s.(pc := Set(s.pc, t, if s.last(Block(t.x, t.ks)) then Chosen else Done))
    case Clear(t) =>
      if t.i != 0 then s.(pc := Set(s.pc, t, Cleared))
      else s.(pc := Set(s.pc, t, Cleared), resetPending := Set(s.resetPending, Block(t.x, t.ks), true))
    case DrainReset(t) =>
      s.(cnt := Set(s.cnt, Range(t.x), 0),
         resetPending := Set(s.resetPending, Block(t.x, t.ks), false),
         cleared := Set(s.cleared, Range(t.x), true))
    case Fence2(t) => s.(pc := Set(s.pc, t, Reducing(g.Lo(t.x) + t.i, 0, 0, 0.0)), acquired := Set(s.acquired, t, s.clock))
    case Reduce(t, v) => ReduceStep(g, s, t, v)
  }

  predicate Inside(g: Launch, cell: Cell) {
    cell.m < g.rows && cell.n < g.cols
  }

  ghost function OwnCells(g: Launch, t: Tid): set<Cell> {
    set m: nat, n: nat | m < g.rows && n < g.cols && Owns(g, t, Cell(m, n)) :: Cell(m, n)
  }

  /** A launch starts with whatever an earlier one left in the partial buffer, in the output, in the
      counters and in the blocks' shared memory. */
  ghost predicate Boot(g: Launch, s: State) {
    && (forall t {:trigger s.pc(t)} :: s.pc(t) == Storing)
    && (forall t {:trigger s.todo(t)} :: s.todo(t) == OwnCells(g, t))
    && (forall t {:trigger s.buf(t)} :: s.buf(t) == map[])
    && (forall b {:trigger s.resetPending(b)} :: !s.resetPending(b))
    && (forall cell {:trigger s.writes(cell)} :: s.writes(cell) == 0)
    && (forall r {:trigger s.arrived(r)} :: s.arrived(r) == [])
    && (forall r {:trigger s.cleared(r)} :: !s.cleared(r))
    && ClockInv(s)
  }

  /** Nothing was written later than now. */
  ghost predicate ClockInv(s: State) {
    forall a {:trigger s.stamp(a)} :: s.stamp(a) < s.clock
  }

  ghost predicate CountersZero(s: State) {
    forall r {:trigger s.cnt(r)} :: s.cnt(r) == 0
  }

  ghost predicate Init(g: Launch, s: State) {
    Boot(g, s) && CountersZero(s)
  }

  /** A launch is over when every thread has returned; the end of a kernel drains nothing here,
      because no thread returns with a store in flight (see Inv). */
  ghost predicate Final(g: Launch, s: State) {
    forall t {:trigger s.pc(t)} :: IsThread(g, t) ==> s.pc(t).Done?
  }

  // ------------------------------------------------------------------ what the launch must compute

  ghost function PartSum(g: Launch, m: nat, n: nat, k: nat): real {
    if k == 0 then 0.0 else PartSum(g, m, n, k - 1) + g.part(Slot(k - 1, m, n))
  }

  ghost function Result(g: Launch, cell: Cell): real
    requires g.Valid() && cell.m < g.rows
  {
    PartSum(g, cell.m, cell.n, g.dks) * g.rowScale[cell.m]
  }

  // ------------------------------------------------------------------ the invariant

  ghost predicate StoresOk(g: Launch, s: State, t: Tid) {
    && (forall cell :: cell in s.todo(t) ==> Owns(g, t, cell))
    && (forall cell :: cell in s.buf(t) ==> Owns(g, t, cell) && s.buf(t)[cell] == g.part(Slot(t.ks, cell.m, cell.n)))
    && (forall cell :: Owns(g, t, cell) ==>
          cell in s.todo(t) || cell in s.buf(t) || s.p(Slot(t.ks, cell.m, cell.n)) == g.part(Slot(t.ks, cell.m, cell.n)))
    && (s.pc(t).Rank() >= 1 ==> s.todo(t) == {} && s.buf(t) == map[])
  }

  ghost predicate StoreInv(g: Launch, s: State) {
    forall t {:trigger s.todo(t)} {:trigger s.buf(t)} {:trigger s.pc(t)} :: IsThread(g, t) ==> StoresOk(g, s, t)
  }

  ghost predicate BarrierInv(g: Launch, s: State) {
    forall t {:trigger s.pc(t)} :: IsThread(g, t) ==>
      && (s.pc(t).Rank() >= 2 ==> BlockReached(g, s, t, 1))
      && (s.pc(t).Rank() >= 4 ==> BlockReached(g, s, t, 3))
  }

  ghost predicate Full(g: Launch, s: State, x: nat) {
    |s.arrived(Range(x))| == g.dks
  }

  ghost predicate IsReducer(g: Launch, s: State, x: nat, ks: nat) {
    Full(g, s, x) && g.dks >= 1 && s.arrived(Range(x))[g.dks - 1] == ks
  }

  ghost predicate ArrivedOk(g: Launch, s: State, x: nat) {
    && |s.arrived(Range(x))| <= g.dks
    && Distinct(s.arrived(Range(x)))
    && (forall i :: 0 <= i < |s.arrived(Range(x))| ==> s.arrived(Range(x))[i] < g.dks)
    && (forall ks: nat {:trigger Tid(x, ks, 0)} :: ks < g.dks ==>
          (ks in s.arrived(Range(x)) <==> s.pc(Tid(x, ks, 0)).Rank() >= 3))
  }

  ghost predicate CounterInv(g: Launch, s: State) {
    && (forall x: nat {:trigger s.arrived(Range(x))} {:trigger s.cnt(Range(x))} :: x < g.Ranges() ==>
          && ArrivedOk(g, s, x)
          && (s.cleared(Range(x)) ==> Full(g, s, x))
          && s.cnt(Range(x)) == if s.cleared(Range(x)) then 0 else |s.arrived(Range(x))|)
    && (forall x: nat {:trigger s.cnt(Range(x))} :: x >= g.Ranges() ==> s.cnt(Range(x)) == 0)
  }

  ghost predicate BlockOk(g: Launch, s: State, x: nat, ks: nat) {
    var pc0 := s.pc(Tid(x, ks, 0));
    && (pc0.Rank() >= 3 ==> (s.last(Block(x, ks)) <==> IsReducer(g, s, x, ks)))
    && (s.resetPending(Block(x, ks)) ==> pc0.Cleared?)
    && (pc0.Cleared? ==> s.resetPending(Block(x, ks)) || s.cleared(Range(x)))
    && (pc0.Rank() >= 6 && IsReducer(g, s, x, ks) ==> s.cleared(Range(x)))
  }

  ghost predicate BlockInv(g: Launch, s: State) {
    forall x: nat, ks: nat {:trigger Tid(x, ks, 0)} {:trigger s.last(Block(x, ks))} {:trigger s.resetPending(Block(x, ks))} ::
      x < g.Ranges() && ks < g.dks ==> BlockOk(g, s, x, ks)
  }

  ghost predicate ReduceOk(g: Launch, s: State, t: Tid) {
    && (4 <= s.pc(t).Rank() <= 6 ==> IsReducer(g, s, t.x, t.ks))
    && (s.pc(t).Reducing? ==>
          var Reducing(nn, m, k, sum) := s.pc(t);
          && (nn == g.Lo(t.x) + t.i || (nn == g.Lo(t.x) + t.i + THREADS && m == 0))
          && m <= g.rows && k <= g.dks
          && (m == g.rows ==> k == 0)
          && (nn < g.Hi(t.x) ==> sum == PartSum(g, m, nn, k)))
  }

  ghost predicate ReduceInv(g: Launch, s: State) {
    forall t {:trigger s.pc(t)} :: IsThread(g, t) ==> ReduceOk(g, s, t)
  }

  /** How often a cell has been written, read off the position of the one thread that writes it. */
  ghost function Written(g: Launch, s: State, cell: Cell): int
    requires g.Valid()
  {
    var x := cell.n / BND;
    if !Full(g, s, x) then 0
    else
      match s.pc(Tid(x, s.arrived(Range(x))[g.dks - 1], cell.n % BND))
      case Reducing(nn, m, _, _) => if nn > cell.n || (nn == cell.n && m > cell.m) then 1 else 0
      case Done => 1
      case _ => 0
  }

  ghost predicate CellOk(g: Launch, s: State, cell: Cell)
    requires g.Valid() && cell.m < g.rows
  {
    && s.writes(cell) == Written(g, s, cell)
    && (s.writes(cell) == 1 ==> s.c(cell) == Result(g, cell))
  }

  ghost predicate OutputInv(g: Launch, s: State)
    requires g.Valid()
  {
    forall cell: Cell {:trigger s.writes(cell)} {:trigger s.c(cell)} ::
      Inside(g, cell) ==> CellOk(g, s, cell)
  }

  /** Thread t has acquired every partial sum of its range. */
  ghost predicate SeesAll(g: Launch, s: State, t: Tid) {
    forall a: Slot {:trigger s.stamp(a)} :: InRange(g, a, t.x) ==> s.stamp(a) < s.acquired(t)
  }

  /** A place of column range x that this launch uses. */
  predicate InRange(g: Launch, a: Slot, x: nat) { a.ks < g.dks && a.m < g.rows && a.n < g.cols && a.n / BND == x }

  ghost predicate AcquireInv(g: Launch, s: State) {
    && ClockInv(s)
    && forall t {:trigger s.acquired(t)} {:trigger s.pc(t)} :: IsThread(g, t) && s.pc(t).Reducing? ==> SeesAll(g, s, t)
  }

  ghost predicate Inv(g: Launch, s: State)
    requires g.Valid()
  {
    AcquireInv(g, s) && StoreInv(g, s) && BarrierInv(g, s) && CounterInv(g, s) && BlockInv(g, s) && ReduceInv(g, s) && OutputInv(g, s)
  }

  // ------------------------------------------------------------------ preservation

  lemma InitInv(g: Launch, s: State)
    requires g.Valid() && Init(g, s)
    ensures Inv(g, s)
  {
    forall t | IsThread(g, t) ensures StoresOk(g, s, t) {
    }
    forall x: nat | x < g.Ranges() ensures ArrivedOk(g, s, x) {
    }
    forall x: nat, ks: nat | x < g.Ranges() && ks < g.dks ensures BlockOk(g, s, x, ks) {
    }
    forall cell: Cell | Inside(g, cell) ensures CellOk(g, s, cell) {
      assert s.arrived(Range(cell.n / BND)) == [];
    }
  }

  lemma StorePreserved(g: Launch, s: State, a: Action)
    requires g.Valid() && Inv(g, s) && Enabled(g, s, a)
    ensures StoreInv(g, Apply(g, s, a))
  {
    var s' := Apply(g, s, a);
    forall t | IsThread(g, t) ensures StoresOk(g, s', t) {
      assert StoresOk(g, s, t) && StoresOk(g, s, a.t);
    }
  }

  lemma RanksGrow(g: Launch, s: State, a: Action, t: Tid)
    requires g.Valid() && Enabled(g, s, a)
    ensures Apply(g, s, a).pc(t).Rank() >= s.pc(t).Rank()
    ensures t != a.t ==> Apply(g, s, a).pc(t) == s.pc(t)
  {
  }

  lemma BarrierPreserved(g: Launch, s: State, a: Action)
    requires g.Valid() && BarrierInv(g, s) && Enabled(g, s, a)
    ensures BarrierInv(g, Apply(g, s, a))
  {
    var s' := Apply(g, s, a);
    forall t, u | IsThread(g, t) && IsThread(g, u) && u.x == t.x && u.ks == t.ks
      ensures s'.pc(t).Rank() >= 2 ==> s'.pc(u).Rank() >= 1
      ensures s'.pc(t).Rank() >= 4 ==> s'.pc(u).Rank() >= 3
    {
      RanksGrow(g, s, a, t);
      RanksGrow(g, s, a, u);
      assert s.pc(t).Rank() >= 2 ==> BlockReached(g, s, t, 1);
      assert s.pc(t).Rank() >= 4 ==> BlockReached(g, s, t, 3);
    }
  }

  /** The only step that changes who has voted in range x. */
  predicate VotesIn(a: Action, x: nat) {
    a.Vote? && a.t.i == 0 && a.t.x == x
  }

  lemma VoteStep(g: Launch, s: State, a: Action, x: nat)
    requires g.Valid() && CounterInv(g, s) && Enabled(g, s, a) && x < g.Ranges()
    ensures !VotesIn(a, x) ==> Apply(g, s, a).arrived(Range(x)) == s.arrived(Range(x))
    ensures VotesIn(a, x) ==> !Full(g, s, x) && a.t.ks !in s.arrived(Range(x))
    ensures VotesIn(a, x) ==> Apply(g, s, a).arrived(Range(x)) == s.arrived(Range(x)) + [a.t.ks]
  {
    assert ArrivedOk(g, s, x);
    if VotesIn(a, x) {
      assert a.t == Tid(x, a.t.ks, 0);
      assert a.t.ks !in s.arrived(Range(x));
      Pigeonhole(s.arrived(Range(x)), g.dks);
    }
  }

  lemma RankCrossesThree(g: Launch, s: State, a: Action, t: Tid)
    requires g.Valid() && Enabled(g, s, a) && !(a.Vote? && a.t == t)
    ensures Apply(g, s, a).pc(t).Rank() >= 3 <==> s.pc(t).Rank() >= 3
  {
  }

  lemma ArrivedPreserved(g: Launch, s: State, a: Action, x: nat)
    requires g.Valid() && CounterInv(g, s) && Enabled(g, s, a) && x < g.Ranges()
    ensures ArrivedOk(g, Apply(g, s, a), x)
  {
    var s' := Apply(g, s, a);
    assert ArrivedOk(g, s, x);
    VoteStep(g, s, a, x);
    var before, after := s.arrived(Range(x)), s'.arrived(Range(x));
    forall ks: nat | ks < g.dks ensures ks in after <==> s'.pc(Tid(x, ks, 0)).Rank() >= 3 {
      if VotesIn(a, x) && ks == a.t.ks {
        assert a.t == Tid(x, ks, 0);
        assert after[|before|] == ks;
      } else {
        RankCrossesThree(g, s, a, Tid(x, ks, 0));
        assert ks in after <==> ks in before;
      }
    }
  }

  lemma CounterPreserved(g: Launch, s: State, a: Action)
    requires g.Valid() && CounterInv(g, s) && BlockInv(g, s) && ReduceInv(g, s) && Enabled(g, s, a)
    ensures CounterInv(g, Apply(g, s, a))
  {
    var s' := Apply(g, s, a);
    forall x: nat | x < g.Ranges()
      ensures ArrivedOk(g, s', x)
      ensures s'.cleared(Range(x)) ==> Full(g, s', x)
      ensures s'.cnt(Range(x)) == if s'.cleared(Range(x)) then 0 else |s'.arrived(Range(x))|
    {
      ArrivedPreserved(g, s, a, x);
      VoteStep(g, s, a, x);
      assert ArrivedOk(g, s, x);
      if a.DrainReset? && a.t.x == x {
        assert BlockOk(g, s, x, a.t.ks);
        assert ReduceOk(g, s, Tid(x, a.t.ks, 0));
      }
    }
  }

  lemma BlockPreserved(g: Launch, s: State, a: Action)
    requires g.Valid() && CounterInv(g, s) && BlockInv(g, s) && ReduceInv(g, s) && Enabled(g, s, a)
    ensures BlockInv(g, Apply(g, s, a))
  {
    var s' := Apply(g, s, a);
    forall x: nat, ks: nat | x < g.Ranges() && ks < g.dks ensures BlockOk(g, s', x, ks) {
      assert BlockOk(g, s, x, ks);
      assert ArrivedOk(g, s, x);
      VoteStep(g, s, a, x);
      var t0 := Tid(x, ks, 0);
      assert ReduceOk(g, s, t0);
      if VotesIn(a, x) {
        if ks == a.t.ks {
          assert a.t == t0;
        } else if s.pc(t0).Rank() >= 3 {
          assert ks in s.arrived(Range(x));
          assert !IsReducer(g, s', x, ks);
        }
      } else {
        assert a.t == t0 || s'.pc(t0) == s.pc(t0);
      }
    }
  }

  /** In a range whose reduction may start, every partial sum of this launch is in memory. */
  lemma PartialsArrived(g: Launch, s: State, x: nat, k: nat, m: nat, n: nat)
    requires g.Valid() && StoreInv(g, s) && BarrierInv(g, s) && CounterInv(g, s) && x < g.Ranges() && Full(g, s, x)
    requires k < g.dks && m < g.rows && n < g.cols && n / BND == x
    ensures s.p(Slot(k, m, n)) == g.part(Slot(k, m, n))
  {
    assert ArrivedOk(g, s, x);
    Pigeonhole(s.arrived(Range(x)), g.dks);
    var t0 := Tid(x, k, 0);
    assert s.pc(t0).Rank() >= 3;
    var t := Owner(k, Cell(m, n));
    OwnerIsUnique(g, k, Cell(m, n), t);
    assert BlockReached(g, s, t0, 1);
    assert s.pc(t).Rank() >= 1;
    assert StoresOk(g, s, t);
  }

  lemma FullMeansFenced(g: Launch, s: State, t: Tid)
    requires g.Valid() && BarrierInv(g, s) && CounterInv(g, s) && IsThread(g, t) && Full(g, s, t.x)
    ensures s.pc(t).Rank() >= 1
  {
    assert ArrivedOk(g, s, t.x);
    Pigeonhole(s.arrived(Range(t.x)), g.dks);
    var t0 := Tid(t.x, t.ks, 0);
    assert s.pc(t0).Rank() >= 3;
    assert BlockReached(g, s, t0, 1);
  }

  /** A thread that still has a store in flight keeps its range from being complete. */
  lemma DrainBeforeFull(g: Launch, s: State, t: Tid, cell: Cell)
    requires g.Valid() && StoreInv(g, s) && BarrierInv(g, s) && CounterInv(g, s) && IsThread(g, t) && cell in s.buf(t)
    ensures cell.n / BND == t.x && !Full(g, s, t.x)
  {
    assert StoresOk(g, s, t);
    LaneParts(t.i);
    ColumnParts(t.x, t.i / 32, t.i % 16);
    if Full(g, s, t.x) {
      FullMeansFenced(g, s, t);
    }
  }

  lemma AcquirePreserved(g: Launch, s: State, a: Action)
    requires g.Valid() && AcquireInv(g, s) && StoreInv(g, s) && BarrierInv(g, s) && CounterInv(g, s) && ReduceInv(g, s)
    requires Enabled(g, s, a)
    ensures AcquireInv(g, Apply(g, s, a))
  {
    hide StoreInv, BarrierInv, CounterInv;
    var s' := Apply(g, s, a);
    forall t | IsThread(g, t) && s'.pc(t).Reducing? ensures SeesAll(g, s', t) {
      if !(a.Fence2? && a.t == t) {
        assert s.pc(t).Reducing? && SeesAll(g, s, t) && ReduceOk(g, s, t);
        if a.Drain? {
          DrainBeforeFull(g, s, a.t, a.cell);
        }
      }
    }
  }

  /** So a reducing thread's loads return what memory holds. */
  lemma LoadIsCurrent(g: Launch, s: State, t: Tid, v: real)
    requires g.Valid() && AcquireInv(g, s) && ReduceOk(g, s, t) && IsThread(g, t) && Enabled(g, s, Reduce(t, v)) && Loads(g, t, s.pc(t))
    ensures v == s.p(LoadSlot(s.pc(t)))
  {
    assert SeesAll(g, s, t);
    RangeOfColumn(g, t.x, s.pc(t).nn, t.i);
    assert InRange(g, LoadSlot(s.pc(t)), t.x);
  }

  lemma RangeOfColumn(g: Launch, x: nat, nn: nat, i: nat)
    requires (nn == g.Lo(x) + i || nn == g.Lo(x) + i + THREADS) && nn < g.Hi(x)
    ensures nn / BND == x && nn < g.cols
  {
  }

  lemma ReduceStepOk(g: Launch, s: State, t: Tid, v: real)
    requires g.Valid() && StoreInv(g, s) && BarrierInv(g, s) && CounterInv(g, s) && IsThread(g, t)
    requires AcquireInv(g, s) && ReduceOk(g, s, t) && Enabled(g, s, Reduce(t, v))
    ensures ReduceOk(g, ReduceStep(g, s, t, v), t)
  {
    var Reducing(nn, m, k, sum) := s.pc(t);
    if nn < g.Hi(t.x) && m < g.rows && k < g.dks {
      LoadIsCurrent(g, s, t, v);
      PartialsArrived(g, s, t.x, k, m, nn);
    }
  }

  lemma ReducePreserved(g: Launch, s: State, a: Action)
    requires g.Valid() && AcquireInv(g, s) && StoreInv(g, s) && BarrierInv(g, s) && CounterInv(g, s) && BlockInv(g, s) && ReduceInv(g, s)
    requires Enabled(g, s, a)
    ensures ReduceInv(g, Apply(g, s, a))
  {
    var s' := Apply(g, s, a);
    forall t | IsThread(g, t) ensures ReduceOk(g, s', t) {
      assert ReduceOk(g, s, t);
      VoteStep(g, s, a, t.x);
      if a.t == t {
        if a.Reduce? {
          ReduceStepOk(g, s, t, a.v);
        } else if a.Barrier2? {
          assert s.pc(Tid(t.x, t.ks, 0)).Rank() >= 3;
          assert BlockOk(g, s, t.x, t.ks);
        }
      } else {
        RanksGrow(g, s, a, t);
      }
    }
  }

  /** The thread that writes a cell, once its range has a reducer. */
  ghost function Writer(g: Launch, s: State, cell: Cell): Tid
    requires g.Valid() && Full(g, s, cell.n / BND)
  {
    Tid(cell.n / BND, s.arrived(Range(cell.n / BND))[g.dks - 1], cell.n % BND)
  }

  /** A vote can complete a range, but then nobody has started to reduce it. */
  lemma CellVote(g: Launch, s: State, a: Action, cell: Cell)
    requires g.Valid() && Inside(g, cell) && BarrierInv(g, s) && CounterInv(g, s) && CellOk(g, s, cell)
    requires Enabled(g, s, a) && VotesIn(a, cell.n / BND)
    ensures CellOk(g, Apply(g, s, a), cell)
  {
    var x, s' := cell.n / BND, Apply(g, s, a);
    assert ArrivedOk(g, s, x);
    VoteStep(g, s, a, x);
    if Full(g, s', x) {
      var u := Writer(g, s', cell);
      assert u.ks == a.t.ks && IsThread(g, u);
      assert s.pc(u).Rank() < 4;
      RanksGrow(g, s, a, u);
    }
  }

  lemma CellReduce(g: Launch, s: State, a: Action, cell: Cell)
    requires g.Valid() && Inside(g, cell) && CounterInv(g, s) && ReduceInv(g, s) && CellOk(g, s, cell)
    requires Enabled(g, s, a) && a.Reduce?
    ensures CellOk(g, Apply(g, s, a), cell)
  {
    var x := cell.n / BND;
    assert ArrivedOk(g, s, x);
    VoteStep(g, s, a, x);
    assert ReduceOk(g, s, a.t);
    if Full(g, s, x) {
      RanksGrow(g, s, a, Writer(g, s, cell));
    }
  }

  lemma CellPreserved(g: Launch, s: State, a: Action, cell: Cell)
    requires g.Valid() && Inside(g, cell) && BarrierInv(g, s) && CounterInv(g, s) && BlockInv(g, s) && ReduceInv(g, s)
    requires CellOk(g, s, cell) && Enabled(g, s, a)
    ensures CellOk(g, Apply(g, s, a), cell)
  {
    var x := cell.n / BND;
    if VotesIn(a, x) {
      CellVote(g, s, a, cell);
    } else if a.Reduce? {
      CellReduce(g, s, a, cell);
    } else if Full(g, s, x) {
      VoteStep(g, s, a, x);
      assert ArrivedOk(g, s, x);
      var u := Writer(g, s, cell);
      RanksGrow(g, s, a, u);
      if a.t == u && a.Barrier2? {
        assert s.pc(Tid(x, u.ks, 0)).Rank() >= 3;
        assert BlockOk(g, s, x, u.ks);
      }
    } else {
      VoteStep(g, s, a, x);
    }
  }

  lemma OutputPreserved(g: Launch, s: State, a: Action)
    requires g.Valid() && Inv(g, s) && Enabled(g, s, a)
    ensures OutputInv(g, Apply(g, s, a))
  {
    forall cell: Cell | Inside(g, cell) ensures CellOk(g, Apply(g, s, a), cell) {
      CellPreserved(g, s, a, cell);
    }
  }

  lemma InvPreserved(g: Launch, s: State, a: Action)
    requires g.Valid() && Inv(g, s) && Enabled(g, s, a)
    ensures Inv(g, Apply(g, s, a))
  {
    AcquirePreserved(g, s, a);
    StorePreserved(g, s, a);
    BarrierPreserved(g, s, a);
    CounterPreserved(g, s, a);
    BlockPreserved(g, s, a);
    ReducePreserved(g, s, a);
    OutputPreserved(g, s, a);
  }

  // ------------------------------------------------------------------ whole launches

  ghost predicate CanRun(g: Launch, s: State, acts: seq<Action>)
    requires g.Valid()
    decreases |acts|
  {
    acts != [] ==> Enabled(g, s, acts[0]) && CanRun(g, Apply(g, s, acts[0]), acts[1..])
  }

  ghost function Exec(g: Launch, s: State, acts: seq<Action>): State
    requires g.Valid() && CanRun(g, s, acts)
    decreases |acts|
  {
    if acts == [] then s else Exec(g, Apply(g, s, acts[0]), acts[1..])
  }

  lemma {:induction false} RunKeepsInv(g: Launch, s: State, acts: seq<Action>)
    requires g.Valid() && Inv(g, s) && CanRun(g, s, acts)
    ensures Inv(g, Exec(g, s, acts))
    ensures forall cell: Cell :: !Inside(g, cell) ==>
              Exec(g, s, acts).c(cell) == s.c(cell) && Exec(g, s, acts).writes(cell) == s.writes(cell)
    decreases |acts|
  {
    if acts != [] {
      InvPreserved(g, s, acts[0]);
      RunKeepsInv(g, Apply(g, s, acts[0]), acts[1..]);
    }
  }

  /** At the end of a launch every range has exactly one block that reduced, and its counter is 0. */
  lemma RangeSettled(g: Launch, s: State, x: nat)
    requires g.Valid() && Inv(g, s) && Final(g, s) && x < g.Ranges()
    ensures Full(g, s, x) && s.cnt(Range(x)) == 0
    ensures var r := s.arrived(Range(x))[g.dks - 1];
            r < g.dks && forall ks: nat :: ks < g.dks ==> (s.last(Block(x, ks)) <==> ks == r)
  {
    assert ArrivedOk(g, s, x);
    forall ks: nat | ks < g.dks ensures ks in s.arrived(Range(x)) {
      assert s.pc(Tid(x, ks, 0)).Done?;
    }
    Pigeonhole(s.arrived(Range(x)), g.dks);
    forall ks: nat | ks < g.dks
      ensures s.last(Block(x, ks)) <==> ks == s.arrived(Range(x))[g.dks - 1]
    {
      assert s.pc(Tid(x, ks, 0)).Done?;
      assert BlockOk(g, s, x, ks);
    }
    assert BlockOk(g, s, x, s.arrived(Range(x))[g.dks - 1]);
  }

  ghost predicate Correct(g: Launch, s: State, s': State)
    requires g.Valid()
  {
    && (forall cell: Cell {:trigger s'.c(cell)} {:trigger s'.writes(cell)} ::
          if Inside(g, cell) then s'.writes(cell) == 1 && s'.c(cell) == Result(g, cell)
          else s'.writes(cell) == 0 && s'.c(cell) == s.c(cell))
    && CountersZero(s')
    && (forall x: nat {:trigger s'.arrived(Range(x))} :: x < g.Ranges() ==>
          |s'.arrived(Range(x))| == g.dks &&
          forall ks: nat :: ks < g.dks ==> (s'.last(Block(x, ks)) <==> ks == s'.arrived(Range(x))[g.dks - 1]))
  }

  /** The main result.  In every schedule that runs a launch to its end, each output cell is written
      exactly once with the sum of all dks partials of this launch, nothing else is written, exactly
      one block per range reduced, and every counter is back at zero. */
  lemma LaunchCorrect(g: Launch, s: State, acts: seq<Action>)
    requires g.Valid() && Init(g, s) && CanRun(g, s, acts) && Final(g, Exec(g, s, acts))
    ensures Correct(g, s, Exec(g, s, acts))
    ensures forall m: nat, n: nat {:trigger Cell(m, n)} :: m >= g.rows || n >= g.cols ==>
              Exec(g, s, acts).writes(Cell(m, n)) == 0 && Exec(g, s, acts).c(Cell(m, n)) == s.c(Cell(m, n))
  {
    InitInv(g, s);
    RunKeepsInv(g, s, acts);
    var s' := Exec(g, s, acts);
    forall cell: Cell
      ensures if Inside(g, cell) then s'.writes(cell) == 1 && s'.c(cell) == Result(g, cell)
              else s'.writes(cell) == 0 && s'.c(cell) == s.c(cell)
    {
      if Inside(g, cell) {
        RangeSettled(g, s', cell.n / BND);
        assert CellOk(g, s', cell);
        assert s'.pc(Writer(g, s', cell)).Done?;
      }
    }
    forall x: nat | x < g.Ranges()
      ensures |s'.arrived(Range(x))| == g.dks && s'.cnt(Range(x)) == 0
      ensures forall ks: nat :: ks < g.dks ==> (s'.last(Block(x, ks)) <==> ks == s'.arrived(Range(x))[g.dks - 1])
    {
      RangeSettled(g, s', x);
    }
    forall r ensures s'.cnt(r) == 0 {
      assert r == Range(r.x);
    }
  }

  /** The output does not depend on the schedule, nor on what the memory held before. */
  lemma OrderIrrelevant(g: Launch, s1: State, acts1: seq<Action>, s2: State, acts2: seq<Action>, cell: Cell)
    requires g.Valid() && Init(g, s1) && CanRun(g, s1, acts1) && Final(g, Exec(g, s1, acts1))
    requires Init(g, s2) && CanRun(g, s2, acts2) && Final(g, Exec(g, s2, acts2))
    requires Inside(g, cell)
    ensures Exec(g, s1, acts1).c(cell) == Exec(g, s2, acts2).c(cell)
  {
    LaunchCorrect(g, s1, acts1);
    LaunchCorrect(g, s2, acts2);
  }

  /** No schedule gets stuck: until every thread has returned, some action is enabled. */
  lemma NeverStuck(g: Launch, s: State) returns (a: Action)
    requires g.Valid() && Inv(g, s) && !Final(g, s)
    ensures Enabled(g, s, a)
  {
    var t :| IsThread(g, t) && !s.pc(t).Done?;
    if s.pc(t).Fenced? && !BlockReached(g, s, t, 1) {
      t :| IsThread(g, t) && s.pc(t).Rank() < 1;
    } else if s.pc(t).Voted? && !BlockReached(g, s, t, 3) {
      var u :| IsThread(g, u) && u.x == t.x && u.ks == t.ks && s.pc(u).Rank() < 3;
      assert s.pc(t).Rank() >= 2 && BlockReached(g, s, t, 1);
      t := u;
    }
    match s.pc(t) {
      case Storing =>
        if s.todo(t) != {} {
          var cell :| cell in s.todo(t);
          a := Issue(t, cell);
        } else if s.buf(t) != map[] {
          var cell :| cell in s.buf(t);
          a := Drain(t, cell);
        } else {
          a := Fence(t);
        }
      case Fenced => a := Barrier1(t);
      case Synced => a := Vote(t);
      case Voted => a := Barrier2(t);
      case Chosen => a := Clear(t);
      case Cleared =>
        if t.i == 0 && s.resetPending(Block(t.x, t.ks)) {
          a := DrainReset(t);
        } else {
          a := Fence2(t);
        }
      case Reducing(_, _, _, _) => a := Reduce(t, if Loads(g, t, s.pc(t)) then s.p(LoadSlot(s.pc(t))) else 0.0);
      case Done =>
    }
  }

  // ------------------------------------------------------------------ every schedule ends

  /** Steps thread t has ahead of it at a program point, stores aside. */
  function PcLeft(g: Launch, t: Tid, pc: Pc): nat {
    match pc
    case Storing => ReduceSteps(g) + 8
    case Fenced => ReduceSteps(g) + 7
    case Synced => ReduceSteps(g) + 6
    case Voted => ReduceSteps(g) + 5
    case Chosen => ReduceSteps(g) + 4
    case Cleared => ReduceSteps(g) + 2
    case Reducing(nn, m, k, _) =>
      if nn >= g.Hi(t.x) then 1
      else 2 + Max(0, Offset(Max(0, g.rows - m), g.dks + 1) - k)
    case Done => 0
  }

  /** The most steps a reduction takes: every row adds up dks partials and stores, then the column and
      the loop end. */
  function ReduceSteps(g: Launch): nat { 2 + Offset(g.rows, g.dks + 1) }

  /** Steps thread t has ahead of it: each store is issued and drained, and a counter reset drains. */
  function LeftOf(g: Launch, s: State, t: Tid): nat {
    2 * |s.todo(t)| + |s.buf(t)| + PcLeft(g, t, s.pc(t)) + if t.i == 0 && s.resetPending(Block(t.x, t.ks)) then 1 else 0
  }

  lemma ReduceUsesUp(g: Launch, s: State, t: Tid, v: real)
    requires g.Valid() && s.pc(t).Reducing? && ReduceOk(g, s, t)
    ensures PcLeft(g, t, ReduceStep(g, s, t, v).pc(t)) < PcLeft(g, t, s.pc(t))
  {
    var Reducing(nn, m, k, sum) := s.pc(t);
    if nn < g.Hi(t.x) && m < g.rows {
      OffsetStep(g.rows - m, g.dks + 1);
    }
  }

  lemma OffsetStep(n: nat, stride: nat)
    requires n > 0
    ensures Offset(n, stride) == Offset(n - 1, stride) + stride
  {
  }

  lemma IssueShrinks(todo: set<Cell>, buf: map<Cell, real>, cell: Cell, v: real)
    requires cell in todo
    ensures 2 * |todo - {cell}| + |buf[cell := v]| < 2 * |todo| + |buf|
  {
    assert |todo| == |todo - {cell}| + 1;
    if cell in buf {
      assert buf[cell := v].Keys == buf.Keys;
      assert |buf[cell := v]| == |buf|;
    } else {
      assert buf[cell := v].Keys == buf.Keys + {cell};
    }
  }

  lemma DrainShrinks(buf: map<Cell, real>, cell: Cell)
    requires cell in buf
    ensures |buf - {cell}| < |buf|
  {
    assert (buf - {cell}).Keys == buf.Keys - {cell};
  }

  /** A step uses up work of its own thread and adds none to the others. */
  lemma StepUsesUp(g: Launch, s: State, a: Action, t: Tid)
    requires g.Valid() && ReduceInv(g, s) && Enabled(g, s, a) && IsThread(g, t)
    ensures LeftOf(g, Apply(g, s, a), t) <= LeftOf(g, s, t)
    ensures t == a.t ==> LeftOf(g, Apply(g, s, a), t) < LeftOf(g, s, t)
  {
    hide LeftOf, Apply;
    if t != a.t {
      OthersKeepWork(g, s, a, t);
    } else if a.Issue? || a.Drain? {
      StoreUsesUp(g, s, a);
    } else if a.Reduce? {
      assert ReduceOk(g, s, t);
      ReductionUsesUp(g, s, a);
    } else {
      ProtocolUsesUp(g, s, a);
    }
  }

  lemma StoreUsesUp(g: Launch, s: State, a: Action)
    requires g.Valid() && Enabled(g, s, a) && (a.Issue? || a.Drain?)
    ensures LeftOf(g, Apply(g, s, a), a.t) < LeftOf(g, s, a.t)
  {
    hide PcLeft;
    var t := a.t;
    match a {
      case Issue(_, cell) => IssueShrinks(s.todo(t), s.buf(t), cell, g.part(Slot(t.ks, cell.m, cell.n)));
      case Drain(_, cell) => DrainShrinks(s.buf(t), cell);
    }
  }

  lemma ReductionUsesUp(g: Launch, s: State, a: Action)
    requires g.Valid() && Enabled(g, s, a) && a.Reduce? && ReduceOk(g, s, a.t)
    ensures LeftOf(g, Apply(g, s, a), a.t) < LeftOf(g, s, a.t)
  {
    hide PcLeft, ReduceOk;
    ReduceUsesUp(g, s, a.t, a.v);
    ReduceKeepsRest(g, s, a.t, a.v);
  }

  lemma ReduceKeepsRest(g: Launch, s: State, t: Tid, v: real)
    requires g.Valid() && s.pc(t).Reducing?
    ensures var s' := ReduceStep(g, s, t, v); s'.todo == s.todo && s'.buf == s.buf && s'.resetPending == s.resetPending
  {
  }

  lemma ProtocolUsesUp(g: Launch, s: State, a: Action)
    requires g.Valid() && Enabled(g, s, a) && !a.Issue? && !a.Drain? && !a.Reduce?
    ensures LeftOf(g, Apply(g, s, a), a.t) < LeftOf(g, s, a.t)
  {
    hide Offset, ReduceSteps, BlockReached;
    ReduceStarts(g, a.t, g.Lo(a.t.x) + a.t.i);
  }

  lemma ReduceStarts(g: Launch, t: Tid, nn: nat)
    ensures PcLeft(g, t, Reducing(nn, 0, 0, 0.0)) <= ReduceSteps(g)
  {
  }

  lemma OthersKeepWork(g: Launch, s: State, a: Action, t: Tid)
    requires g.Valid() && Enabled(g, s, a) && IsThread(g, t) && t != a.t
    ensures LeftOf(g, Apply(g, s, a), t) == LeftOf(g, s, t)
  {
    hide Offset, PcLeft;
    if t.i == 0 && a.t.i == 0 {
      assert Block(t.x, t.ks) != Block(a.t.x, a.t.ks);
    }
  }

  /** The threads of the grid, numbered. */
  function ThreadAt(g: Launch, n: nat): Tid
    requires g.dks > 0
  {
    Tid(n / THREADS / g.dks, n / THREADS % g.dks, n % THREADS)
  }

  function ThreadCount(g: Launch): nat { g.Ranges() * g.dks * THREADS }

  lemma EveryThreadNumbered(g: Launch, t: Tid) returns (n: nat)
    requires g.Valid() && IsThread(g, t)
    ensures n < ThreadCount(g) && ThreadAt(g, n) == t
  {
    var b := t.x * g.dks + t.ks;
    n := b * THREADS + t.i;
    QuotientUnique(b, t.i, THREADS);
    QuotientUnique(t.x, t.ks, g.dks);
    MixedRadixBound(t.x, t.ks, g.dks, g.Ranges());
    MixedRadixBound(b, t.i, THREADS, g.Ranges() * g.dks);
  }

  lemma NumberedThreads(g: Launch, n: nat)
    requires g.Valid() && n < ThreadCount(g)
    ensures IsThread(g, ThreadAt(g, n))
  {
    var b := n / THREADS;
    assert n == b * THREADS + n % THREADS;
    var x := b / g.dks;
    assert b == x * g.dks + b % g.dks;
    if x > g.Ranges() {
      MulGap(g.Ranges(), x, g.dks);
    }
  }

  /** The steps left in the whole launch. */
  function Left(g: Launch, s: State, n: nat): nat
    requires g.dks > 0
  {
    if n == 0 then 0 else Left(g, s, n - 1) + LeftOf(g, s, ThreadAt(g, n - 1))
  }

  lemma {:induction false} LeftShrinks(g: Launch, s: State, a: Action, n: nat)
    requires g.Valid() && ReduceInv(g, s) && Enabled(g, s, a) && n <= ThreadCount(g)
    ensures Left(g, Apply(g, s, a), n) <= Left(g, s, n)
    ensures (exists k :: 0 <= k < n && ThreadAt(g, k) == a.t) ==> Left(g, Apply(g, s, a), n) < Left(g, s, n)
  {
    hide ReduceInv, Apply, LeftOf, ThreadAt, Enabled, ThreadCount;
    if n > 0 {
      LeftShrinks(g, s, a, n - 1);
      NumberedThreads(g, n - 1);
      StepUsesUp(g, s, a, ThreadAt(g, n - 1));
    }
  }

  function Work(g: Launch, s: State): nat
    requires g.dks > 0
  {
    Left(g, s, ThreadCount(g))
  }

  lemma WorkShrinks(g: Launch, s: State, a: Action)
    requires g.Valid() && Inv(g, s) && Enabled(g, s, a)
    ensures Work(g, Apply(g, s, a)) < Work(g, s)
  {
    hide ReduceInv, Apply, LeftOf, Left, ThreadAt, ThreadCount;
    var k := EveryThreadNumbered(g, a.t);
    LeftShrinks(g, s, a, ThreadCount(g));
  }

  /** No schedule is longer than the work left. */
  lemma {:induction false} RunsAreBounded(g: Launch, s: State, acts: seq<Action>)
    requires g.Valid() && Inv(g, s) && CanRun(g, s, acts)
    ensures |acts| <= Work(g, s)
    decreases |acts|
  {
    hide Inv, Apply, Enabled, Work;
    if acts != [] {
      WorkShrinks(g, s, acts[0]);
      InvPreserved(g, s, acts[0]);
      RunsAreBounded(g, Apply(g, s, acts[0]), acts[1..]);
    }
  }

  /** From every state a launch can be in some schedule finishes it: with the bound, every schedule that
      keeps going finishes. */
  lemma {:induction false} CanFinish(g: Launch, s: State) returns (acts: seq<Action>)
    requires g.Valid() && Inv(g, s)
    ensures CanRun(g, s, acts) && Final(g, Exec(g, s, acts))
    decreases Work(g, s)
  {
    hide Inv, Apply, Enabled, Work, Final;
    if Final(g, s) {
      acts := [];
    } else {
      var a := NeverStuck(g, s);
      WorkShrinks(g, s, a);
      InvPreserved(g, s, a);
      var rest := CanFinish(g, Apply(g, s, a));
      acts := [a] + rest;
      assert acts[1..] == rest;
    }
  }

  /** A launch can always be run to its end, and whichever way it is run the result is the same. */
  lemma LaunchFinishes(g: Launch, s: State) returns (acts: seq<Action>)
    requires g.Valid() && Init(g, s)
    ensures CanRun(g, s, acts) && Final(g, Exec(g, s, acts)) && Correct(g, s, Exec(g, s, acts))
  {
    InitInv(g, s);
    acts := CanFinish(g, s);
    LaunchCorrect(g, s, acts);
  }

  // ------------------------------------------------------------------ sequences of launches

  datatype Episode = Episode(g: Launch, s: State, acts: seq<Action>)

  ghost predicate Session(eps: seq<Episode>) {
    && (forall i :: 0 <= i < |eps| ==>
          && eps[i].g.Valid() && Boot(eps[i].g, eps[i].s)
          && CanRun(eps[i].g, eps[i].s, eps[i].acts)
          && Final(eps[i].g, Exec(eps[i].g, eps[i].s, eps[i].acts)))
    && (forall i :: 0 < i < |eps| ==>
          forall r :: eps[i].s.cnt(r) == Exec(eps[i - 1].g, eps[i - 1].s, eps[i - 1].acts).cnt(r))
  }

  /** The scratch counters are zeroed once; every launch of every later sequence of launches, of any
      shapes and splits, is still correct. */
  lemma {:induction false} EveryLaunchCorrect(eps: seq<Episode>, i: nat)
    requires Session(eps) && i < |eps|
    requires CountersZero(eps[0].s)
    ensures Correct(eps[i].g, eps[i].s, Exec(eps[i].g, eps[i].s, eps[i].acts))
  {
    var e := eps[i];
    if i > 0 {
      EveryLaunchCorrect(eps, i - 1);
    }
    LaunchCorrect(e.g, e.s, e.acts);
  }

  // ------------------------------------------------------------------ the flat partial buffer

  function SlotIndex(rows: nat, cols: nat, a: Slot): nat {
    (a.ks * rows + a.m) * cols + a.n
  }

  /** The flat index of the partial buffer separates the slots, and the size the launcher checks
      for, dks * M * N floats, holds them all. */
  lemma SlotIndexInjective(rows: nat, cols: nat, dks: nat, a: Slot, b: Slot)
    requires a.m < rows && a.n < cols && b.m < rows && b.n < cols && a.ks < dks
    ensures SlotIndex(rows, cols, a) == SlotIndex(rows, cols, b) <==> a == b
    ensures SlotIndex(rows, cols, a) < dks * rows * cols
  {
    if SlotIndex(rows, cols, a) == SlotIndex(rows, cols, b) {
      MixedRadix(a.ks * rows + a.m, a.n, b.ks * rows + b.m, b.n, cols);
      MixedRadix(a.ks, a.m, b.ks, b.m, rows);
    }
    MixedRadixBound(a.ks, a.m, rows, dks);
    MixedRadixBound(a.ks * rows + a.m, a.n, cols, dks * rows);
  }
}
