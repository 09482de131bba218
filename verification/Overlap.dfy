/** The pipelined linear: GEMM slices on one stream, their all-reduces on another, over scratch buffers
    that every call shares.  Streams run their own work in order; only events order them against each
    other. */
module Overlap {
  import opened Basics

  /** One call: an M x K input against N outputs.  x is the quantised input by element; gemm computes an
      output element from its row of the quantised input; reduce is the all-reduce of an element with
      the other ranks' elements.  Buffers are flat, rows one after the other. */
  datatype Call<!V> = Call(M: nat, N: nat, K: nat, x: nat -> V, gemm: (nat, seq<V>) -> V, reduce: (nat, V) -> V) {
    /** The row of the quantised input that output element e needs. */
    function Row(x8: nat -> V, e: nat): seq<V>
      requires N > 0
    {
      seq(K, k requires 0 <= k => x8(e / N * K + k))
    }

    /** Element e of the product, given what is in the input scratch. */
    function Product(x8: nat -> V, e: nat): V
      requires N > 0
    {
      gemm(e, Row(x8, e))
    }

    /** What the unsliced operation returns. */
    function Unsliced(e: nat): V
      requires N > 0
    {
      reduce(e, Product(x, e))
    }
  }

  datatype Setup<!V> = Setup(calls: seq<Call<V>>, minM: nat, slices: nat) {
    ghost predicate Valid() {
      slices > 0 && forall c :: 0 <= c < |calls| ==> calls[c].N > 0
    }

    predicate Sliced(c: nat)
      requires c < |calls|
    {
      calls[c].M >= minM
    }

    /** The first sliced call from c on. */
    function NextSliced(c: nat): (r: nat)
      requires c <= |calls|
      ensures c <= r <= |calls|
      ensures r < |calls| ==> Sliced(r)
      ensures forall k :: c <= k < r ==> !Sliced(k)
      decreases |calls| - c
    {
      if c == |calls| || Sliced(c) then c else NextSliced(c + 1)
    }

    /** Where slice i of call c starts, in rows. */
    function Bound(c: nat, i: nat): nat
      requires c < |calls| && slices > 0
    {
      i * calls[c].M / slices
    }

    /** And in elements of the product. */
    function Edge(c: nat, i: nat): nat
      requires c < |calls| && slices > 0
    {
      Bound(c, i) * calls[c].N
    }
  }

  /** The slices tile the rows. */
  lemma SlicesTile<V>(p: Setup<V>, c: nat, i: nat, j: nat)
    requires p.Valid() && c < |p.calls| && i <= j <= p.slices
    ensures p.Bound(c, 0) == 0 && p.Bound(c, p.slices) == p.calls[c].M
    ensures p.Bound(c, i) <= p.Bound(c, j) <= p.calls[c].M
    ensures p.Edge(c, 0) == 0 && p.Edge(c, i) <= p.Edge(c, j) <= p.calls[c].M * p.calls[c].N
    ensures p.Edge(c, p.slices) == p.calls[c].M * p.calls[c].N
  {
    var m, s := p.calls[c].M, p.slices;
    QuotientUnique(m, 0, s);
    assert s * m == m * s + 0;
    DivMono(i * m, j * m, s) by {
      MulMono(i, j, m);
    }
    DivMono(j * m, s * m, s) by {
      MulMono(j, s, m);
    }
    MulMono(p.Bound(c, i), p.Bound(c, j), p.calls[c].N);
    MulMono(p.Bound(c, j), m, p.calls[c].N);
  }

  lemma DivMono(a: nat, b: nat, d: nat)
    requires a <= b && d > 0
    ensures a / d <= b / d
  {
    if a / d > b / d {
      MulGap(b / d, a / d, d);
    }
  }

  // ----- what the host issues -----------------------------------------------------

  datatype Event = Ready(call: nat) | Done(call: nat, slice: nat)

  datatype Op = Direct | Quantise | Gemm(slice: nat) | AllReduce(slice: nat) | Record(e: Event) | Wait(e: Event)

  /** Position k of the main stream's work for a sliced call: quantise, tell the other stream, then
      all-reduce each slice once its GEMM is done. */
  function MainOp(c: nat, k: nat): Op {
    if k == 0 then Quantise
    else if k == 1 then Record(Ready(c))
    else if k % 2 == 0 then Wait(Done(c, (k - 2) / 2))
    else AllReduce((k - 3) / 2)
  }

  /** Position k of the second stream's work. */
  function CommOp(c: nat, k: nat): Op {
    if k == 0 then Wait(Ready(c))
    else if k % 2 == 1 then Gemm((k - 1) / 2)
    else Record(Done(c, (k - 2) / 2))
  }

  function MainLen<V>(p: Setup<V>, c: nat): nat
    requires c < |p.calls|
  {
    if p.Sliced(c) then 2 + 2 * p.slices else 1
  }

  function CommLen<V>(p: Setup<V>): nat { 1 + 2 * p.slices }

  function MainAt<V>(p: Setup<V>, c: nat, k: nat): Op
    requires c < |p.calls|
  {
    if p.Sliced(c) then MainOp(c, k) else Direct
  }

  /** The scratch buffers' capacities: grown when a call needs more, never shrunk. */
  class Scratch {
    var x8: nat
    var y: nat

    constructor ()
      ensures x8 == 0 && y == 0
    {
      x8, y := 0, 0;
    }

    method Grow(cap: nat, numel: nat) returns (r: nat)
      ensures r == Max(cap, numel)
    {
      r := if cap < numel then numel else cap;
    }

    /** The host side of one call: work appended to the two streams, in the order it is issued. */
    method Issue<V>(p: Setup<V>, c: nat) returns (main: seq<Op>, comm: seq<Op>)
      requires p.Valid() && c < |p.calls|
      modifies this
      ensures |main| == MainLen(p, c) && forall k :: 0 <= k < |main| ==> main[k] == MainAt(p, c, k)
      ensures if p.Sliced(c) then |comm| == CommLen(p) && forall k :: 0 <= k < |comm| ==> comm[k] == CommOp(c, k) else comm == []
      ensures p.Sliced(c) ==> x8 >= p.calls[c].M * p.calls[c].K && y >= p.calls[c].M * p.calls[c].N
      ensures x8 >= old(x8) && y >= old(y)
    {
      var call := p.calls[c];
      if call.M < p.minM {
        return [Direct], [];
      }
      x8 := Grow(x8, call.M * call.K);
      y := Grow(y, call.M * call.N);
      main := [Quantise, Record(Ready(c))];
      comm := [Wait(Ready(c))];
      var evs: seq<Event> := [];
      for i := 0 to p.slices
        invariant |evs| == i && forall j :: 0 <= j < i ==> evs[j] == Done(c, j)
        invariant |comm| == 1 + 2 * i && forall k :: 0 <= k < |comm| ==> comm[k] == CommOp(c, k)
      {
        comm := comm + [Gemm(i), Record(Done(c, i))];
        evs := evs + [Done(c, i)];
      }
      for i := 0 to p.slices
        invariant |main| == 2 + 2 * i && forall k :: 0 <= k < |main| ==> main[k] == MainOp(c, k)
      {
        main := main + [Wait(evs[i]), AllReduce(i)];
      }
    }
  }

  // ----- execution -------------------------------------------------------------------

  /** How far a stream has got: which call, which position in it, and whether that operation is running. */
  datatype Pos = Pos(call: nat, k: nat, busy: bool)

  /** The memory is the worst case: every call's buffers at the same addresses.  outs(c, e) is element e
      of call c's result. */
  datatype State<!V> = State(main: Pos, comm: Pos, events: set<Event>, x8: nat -> V, y: nat -> V, outs: (nat, nat) -> V)

  datatype Action = StartMain | FinishMain | StartComm | FinishComm

  predicate Started(op: Op, events: set<Event>) {
    op.Wait? ==> op.e in events
  }

  predicate Enabled<V>(p: Setup<V>, s: State<V>, a: Action) {
    match a
    case StartMain => s.main.call < |p.calls| && !s.main.busy && Started(MainAt(p, s.main.call, s.main.k), s.events)
    case FinishMain => s.main.call < |p.calls| && s.main.busy
    case StartComm => s.comm.call < |p.calls| && !s.comm.busy && Started(CommOp(s.comm.call, s.comm.k), s.events)
    case FinishComm => s.comm.call < |p.calls| && s.comm.busy
  }

  function MainNext<V>(p: Setup<V>, m: Pos): Pos
    requires m.call < |p.calls|
  {
    if m.k + 1 < MainLen(p, m.call) then Pos(m.call, m.k + 1, false) else Pos(m.call + 1, 0, false)
  }

  function CommNext<V>(p: Setup<V>, m: Pos): Pos
    requires m.call < |p.calls|
  {
    if m.k + 1 < CommLen(p) then Pos(m.call, m.k + 1, false) else Pos(p.NextSliced(m.call + 1), 0, false)
  }

  /** Memory with [lo, hi) overwritten. */
  function Overwrite<V>(mem: nat -> V, lo: nat, hi: nat, val: nat -> V): nat -> V {
    (e: nat) => if lo <= e < hi then val(e) else mem(e)
  }

  function Store<V>(outs: (nat, nat) -> V, c: nat, lo: nat, hi: nat, val: nat -> V): (nat, nat) -> V {
    (c': nat, e: nat) => if c' == c && lo <= e < hi then val(e) else outs(c', e)
  }

  /** The effect of an operation of call c when it completes. */
  function Effect<V>(p: Setup<V>, s: State<V>, c: nat, op: Op): (r: State<V>)
    requires p.Valid() && c < |p.calls|
    ensures r.main == s.main && r.comm == s.comm
  {
    var call := p.calls[c];
    match op
    case Direct => s.(outs := Store(s.outs, c, 0, call.M * call.N, e => call.Unsliced(e)))
    case Quantise => s.(x8 := Overwrite(s.x8, 0, call.M * call.K, call.x))
    case Gemm(i) => s.(y := Overwrite(s.y, p.Edge(c, i), p.Edge(c, i + 1), e => call.Product(s.x8, e)))
    case AllReduce(i) => s.(outs := Store(s.outs, c, p.Edge(c, i), p.Edge(c, i + 1), e => call.reduce(e, s.y(e))))
    case Record(e) => s.(events := s.events + {e})
    case Wait(_) => s
  }

  function Apply<V>(p: Setup<V>, s: State<V>, a: Action): State<V>
    requires p.Valid() && Enabled(p, s, a)
  {
    match a
    case StartMain => s.(main := s.main.(busy := true))
    case StartComm => s.(comm := s.comm.(busy := true))
    case FinishMain => Effect(p, s, s.main.call, MainAt(p, s.main.call, s.main.k)).(main := MainNext(p, s.main))
    case FinishComm => Effect(p, s, s.comm.call, CommOp(s.comm.call, s.comm.k)).(comm := CommNext(p, s.comm))
  }

  /** Nothing has run; the memory holds anything. */
  ghost predicate Init<V>(p: Setup<V>, s: State<V>) {
    s.main == Pos(0, 0, false) && s.comm == Pos(p.NextSliced(0), 0, false) && s.events == {}
  }

  ghost predicate Final<V>(p: Setup<V>, s: State<V>) {
    s.main.call == |p.calls| && s.comm.call == |p.calls|
  }

  // ----- the invariant --------------------------------------------------------------------

  /** The second stream works on the main stream's call, or is done with it and waits in front of the
      next sliced one. */
  ghost predicate Lockstep<V>(p: Setup<V>, s: State<V>) {
    var m, q := s.main, s.comm;
    && m.call <= |p.calls|
    && (m.call == |p.calls| ==> m.k == 0 && !m.busy && q == Pos(|p.calls|, 0, false))
    && (m.call < |p.calls| ==>
          && m.k < MainLen(p, m.call)
          && (q.call == m.call || q == Pos(p.NextSliced(m.call + 1), 0, false))
          && (q.call == m.call ==> p.Sliced(m.call) && q.k < CommLen(p))
          && (p.Sliced(m.call) && m.k < 2 ==> q == Pos(m.call, 0, false)))
  }

  /** How many of call c's GEMM slices are finished. */
  function GemmsDone<V>(p: Setup<V>, q: Pos, c: nat): nat {
    if q.call == c then q.k / 2 else p.slices
  }

  /** How many of them have been announced. */
  function GemmsAnnounced<V>(p: Setup<V>, q: Pos, c: nat): nat {
    if q.call == c then (if q.k == 0 then 0 else (q.k - 1) / 2) else p.slices
  }

  function ReducesDone(k: nat): nat {
    if k < 2 then 0 else (k - 2) / 2
  }

  /** An event has happened exactly if its recorder is past it. */
  ghost predicate EventsTrue<V>(p: Setup<V>, s: State<V>) {
    && (forall c: nat :: Ready(c) in s.events <==> c < |p.calls| && p.Sliced(c) && (c < s.main.call || (c == s.main.call && s.main.k >= 2)))
    && (forall c: nat, i: nat :: Done(c, i) in s.events <==>
          c < |p.calls| && p.Sliced(c) && i < p.slices && (c < s.comm.call || (c == s.comm.call && s.comm.k >= 3 + 2 * i)))
  }

  /** The all-reduces done, and the one whose event has been waited for, had their GEMMs announced. */
  ghost predicate Justified<V>(p: Setup<V>, s: State<V>) {
    && (s.main.call < |p.calls| && p.Sliced(s.main.call) && s.main.k >= 2 ==>
          GemmsAnnounced(p, s.comm, s.main.call) >= ReducesDone(s.main.k) + (if s.main.k % 2 == 1 || s.main.busy then 1 else 0))
  }

  /** The scratch buffers hold what the current call has put there so far. */
  ghost predicate ScratchTrue<V>(p: Setup<V>, s: State<V>)
    requires p.Valid()
  {
    var c := s.main.call;
    c < |p.calls| && p.Sliced(c) && s.main.k >= 1 ==>
      && (forall e: nat :: e < p.calls[c].M * p.calls[c].K ==> s.x8(e) == p.calls[c].x(e))
      && (forall e: nat :: e < p.Edge(c, GemmsDone(p, s.comm, c)) ==> s.y(e) == p.calls[c].Product(p.calls[c].x, e))
  }

  ghost predicate OutTrue<V>(p: Setup<V>, outs: (nat, nat) -> V, c: nat, hi: nat)
    requires p.Valid() && c < |p.calls|
  {
    forall e: nat :: e < hi ==> outs(c, e) == p.calls[c].Unsliced(e)
  }

  ghost predicate OutsTrue<V>(p: Setup<V>, s: State<V>)
    requires p.Valid()
  {
    && (forall c: nat :: c < |p.calls| && c < s.main.call ==> OutTrue(p, s.outs, c, p.calls[c].M * p.calls[c].N))
    && (s.main.call < |p.calls| && p.Sliced(s.main.call) ==>
          OutTrue(p, s.outs, s.main.call, p.Edge(s.main.call, ReducesDone(s.main.k))))
  }

  ghost predicate Inv<V>(p: Setup<V>, s: State<V>) {
    p.Valid() && Lockstep(p, s) && EventsTrue(p, s) && Justified(p, s) && ScratchTrue(p, s) && OutsTrue(p, s)
  }

  // ----- preservation ---------------------------------------------------------------------

  lemma InitInv<V>(p: Setup<V>, s: State<V>)
    requires p.Valid() && Init(p, s)
    ensures Inv(p, s)
  {
    if 0 < |p.calls| {
      SlicesTile(p, 0, 0, 0);
    }
  }

  lemma StartKeepsInv<V>(p: Setup<V>, s: State<V>, a: Action)
    requires Inv(p, s) && Enabled(p, s, a) && (a.StartMain? || a.StartComm?)
    ensures Inv(p, Apply(p, s, a))
  {
  }

  /** The second stream only moves within the main stream's current call. */
  lemma CommIsCurrent<V>(p: Setup<V>, s: State<V>)
    requires Inv(p, s) && s.comm.busy
    ensures s.main.call < |p.calls| && p.Sliced(s.main.call) && s.comm.call == s.main.call && s.main.k >= 2
    ensures s.comm.k < CommLen(p)
  {
  }

  lemma CommLockstep<V>(p: Setup<V>, s: State<V>)
    requires Inv(p, s) && s.comm.busy && s.comm.call < |p.calls|
    ensures var t := Apply(p, s, FinishComm);
            Lockstep(p, t) && EventsTrue(p, t) && Justified(p, t)
  {
    hide ScratchTrue, OutsTrue;
  }

  lemma GemmFills<V>(p: Setup<V>, s: State<V>, i: nat)
    requires Inv(p, s) && s.comm.busy && s.comm.call < |p.calls| && s.comm.k == 1 + 2 * i && i < p.slices
    ensures ScratchTrue(p, Apply(p, s, FinishComm))
  {
    hide EventsTrue, OutsTrue, Justified;
    var c := s.comm.call;
    CommIsCurrent(p, s);
    var t := Apply(p, s, FinishComm);
    assert GemmsDone(p, s.comm, c) == i && GemmsDone(p, t.comm, c) == i + 1;
    SlicesTile(p, c, i, i + 1);
    forall e: nat | e < p.Edge(c, i + 1) ensures t.y(e) == p.calls[c].Product(p.calls[c].x, e) {
      if e >= p.Edge(c, i) {
        SlicesTile(p, c, i + 1, p.slices);
        SameInput(p.calls[c], s.x8, p.calls[c].x, e);
      }
    }
  }

  /** row is the m-th row of K entries of a flat input. */
  ghost predicate IsRow<V>(x8: nat -> V, K: nat, m: nat, row: seq<V>) {
    |row| == K && forall k: nat :: k < K ==> row[k] == x8(m * K + k)
  }

  /** Output element n of row m needs the m-th row of the input. */
  lemma RowReads<V>(call: Call<V>, x8: nat -> V, m: nat, n: nat)
    requires n < call.N
    ensures IsRow(x8, call.K, m, call.Row(x8, m * call.N + n))
  {
    QuotientUnique(m, n, call.N);
  }

  /** So it is the same for inputs that have that row in common, whatever they hold elsewhere. */
  lemma SameRow<V>(call: Call<V>, x8: nat -> V, y8: nat -> V, m: nat, n: nat, row: seq<V>)
    requires n < call.N && IsRow(x8, call.K, m, row) && IsRow(y8, call.K, m, row)
    ensures call.Product(x8, m * call.N + n) == call.Product(y8, m * call.N + n)
  {
    RowReads(call, x8, m, n);
    RowReads(call, y8, m, n);
    assert call.Row(x8, m * call.N + n) == row == call.Row(y8, m * call.N + n);
  }

  /** Every element of the product has its row inside the input. */
  lemma SameInput<V>(call: Call<V>, x8: nat -> V, y8: nat -> V, e: nat)
    requires e < call.M * call.N && forall d: nat :: d < call.M * call.K ==> x8(d) == y8(d)
    ensures call.N > 0 && call.Product(x8, e) == call.Product(y8, e)
  {
    var r := e / call.N;
    assert e == r * call.N + e % call.N;
    if r >= call.M {
      MulMono(call.M, r, call.N);
      assert false;
    }
    var row := call.Row(y8, e);
    RowReads(call, y8, r, e % call.N);
    forall k: nat | k < call.K ensures row[k] == x8(r * call.K + k) {
      MixedRadixBound(r, k, call.K, call.M);
    }
    SameRow(call, x8, y8, r, e % call.N, row);
  }

  lemma CommScratch<V>(p: Setup<V>, s: State<V>)
    requires Inv(p, s) && s.comm.busy && s.comm.call < |p.calls|
    ensures ScratchTrue(p, Apply(p, s, FinishComm)) && OutsTrue(p, Apply(p, s, FinishComm))
  {
    hide EventsTrue, Justified, OutTrue;
    CommIsCurrent(p, s);
    if s.comm.k % 2 == 1 {
      GemmFills(p, s, (s.comm.k - 1) / 2);
    }
  }

  lemma FinishCommKeepsInv<V>(p: Setup<V>, s: State<V>)
    requires Inv(p, s) && Enabled(p, s, FinishComm)
    ensures Inv(p, Apply(p, s, FinishComm))
  {
    hide Lockstep, EventsTrue, Justified, OutsTrue, ScratchTrue;
    CommLockstep(p, s);
    CommScratch(p, s);
  }

  lemma MainLockstep<V>(p: Setup<V>, s: State<V>)
    requires Inv(p, s) && s.main.busy && s.main.call < |p.calls|
    ensures var t := Apply(p, s, FinishMain);
            Lockstep(p, t) && EventsTrue(p, t) && Justified(p, t)
  {
    hide ScratchTrue, OutsTrue;
  }

  lemma MainScratch<V>(p: Setup<V>, s: State<V>)
    requires Inv(p, s) && s.main.busy && s.main.call < |p.calls|
    ensures ScratchTrue(p, Apply(p, s, FinishMain))
  {
    hide EventsTrue, OutsTrue, Justified;
    SlicesTile(p, s.main.call, 0, 0);
  }

  /** An all-reduce reads elements the GEMM has written. */
  lemma ReduceStores<V>(p: Setup<V>, s: State<V>, i: nat)
    requires Inv(p, s) && s.main.busy && s.main.call < |p.calls| && p.Sliced(s.main.call) && s.main.k == 3 + 2 * i
    ensures OutTrue(p, Apply(p, s, FinishMain).outs, s.main.call, p.Edge(s.main.call, i + 1))
  {
    hide EventsTrue, Lockstep;
    var c, t := s.main.call, Apply(p, s, FinishMain);
    assert MainAt(p, c, s.main.k) == AllReduce(i);
    JustifiedReduce(p, s, i);
    SlicesTile(p, c, i + 1, GemmsDone(p, s.comm, c));
    forall e: nat | e < p.Edge(c, i + 1) ensures t.outs(c, e) == p.calls[c].Unsliced(e) {
      if e < p.Edge(c, i) {
        assert s.outs(c, e) == p.calls[c].Unsliced(e);
      } else {
        assert s.y(e) == p.calls[c].Product(p.calls[c].x, e);
      }
    }
  }

  lemma JustifiedReduce<V>(p: Setup<V>, s: State<V>, i: nat)
    requires Inv(p, s) && s.main.call < |p.calls| && p.Sliced(s.main.call) && s.main.k == 3 + 2 * i
    ensures i + 1 <= GemmsDone(p, s.comm, s.main.call) <= p.slices
  {
    hide EventsTrue, ScratchTrue, OutsTrue;
  }

  /** What completing one main-stream operation does to the results. */
  lemma OutsFrame<V>(p: Setup<V>, s: State<V>)
    requires Inv(p, s) && s.main.busy && s.main.call < |p.calls|
    ensures var t := Apply(p, s, FinishMain);
            && (forall c: nat :: c < s.main.call ==> OutTrue(p, t.outs, c, p.calls[c].M * p.calls[c].N))
            && (p.Sliced(s.main.call) && !(s.main.k >= 3 && s.main.k % 2 == 1) ==> t.outs == s.outs)
            && (!p.Sliced(s.main.call) ==> OutTrue(p, t.outs, s.main.call, p.calls[s.main.call].M * p.calls[s.main.call].N))
  {
    hide EventsTrue, Lockstep, Justified, ScratchTrue;
    var t := Apply(p, s, FinishMain);
    forall c: nat | c < s.main.call ensures OutTrue(p, t.outs, c, p.calls[c].M * p.calls[c].N) {
      assert OutTrue(p, s.outs, c, p.calls[c].M * p.calls[c].N);
    }
  }

  lemma MainOuts<V>(p: Setup<V>, s: State<V>)
    requires Inv(p, s) && s.main.busy && s.main.call < |p.calls|
    ensures OutsTrue(p, Apply(p, s, FinishMain))
  {
    hide EventsTrue, Justified, ScratchTrue, OutTrue, Effect;
    var c, k := s.main.call, s.main.k;
    OutsFrame(p, s);
    SlicesTile(p, c, 0, 0);
    if c + 1 < |p.calls| {
      SlicesTile(p, c + 1, 0, 0);
      NothingOut(p, Apply(p, s, FinishMain).outs, c + 1);
    }
    if p.Sliced(c) && k >= 3 && k % 2 == 1 {
      ReduceStores(p, s, (k - 3) / 2);
    }
  }

  lemma NothingOut<V>(p: Setup<V>, outs: (nat, nat) -> V, c: nat)
    requires p.Valid() && c < |p.calls|
    ensures OutTrue(p, outs, c, 0)
  {
  }

  lemma FinishMainKeepsInv<V>(p: Setup<V>, s: State<V>)
    requires Inv(p, s) && Enabled(p, s, FinishMain)
    ensures Inv(p, Apply(p, s, FinishMain))
  {
    MainLockstep(p, s);
    MainScratch(p, s);
    MainOuts(p, s);
  }

  // ----- whole runs -------------------------------------------------------------------------

  /** A schedule: any interleaving in which streams keep their order and waits wait. */
  ghost predicate CanRun<V>(p: Setup<V>, s: State<V>, run: seq<Action>)
    requires p.Valid()
    decreases |run|
  {
    run == [] || (Enabled(p, s, run[0]) && CanRun(p, Apply(p, s, run[0]), run[1..]))
  }

  ghost function Exec<V>(p: Setup<V>, s: State<V>, run: seq<Action>): State<V>
    requires p.Valid() && CanRun(p, s, run)
    decreases |run|
  {
    if run == [] then s else Exec(p, Apply(p, s, run[0]), run[1..])
  }

  lemma StepKeepsInv<V>(p: Setup<V>, s: State<V>, a: Action)
    requires Inv(p, s) && Enabled(p, s, a)
    ensures Inv(p, Apply(p, s, a))
  {
    hide Inv, Enabled, Apply;
    match a
    case StartMain => StartKeepsInv(p, s, a);
    case StartComm => StartKeepsInv(p, s, a);
    case FinishMain => FinishMainKeepsInv(p, s);
    case FinishComm => FinishCommKeepsInv(p, s);
  }

  lemma {:induction false} RunKeepsInv<V>(p: Setup<V>, s: State<V>, run: seq<Action>)
    requires Inv(p, s) && CanRun(p, s, run)
    ensures Inv(p, Exec(p, s, run))
    decreases |run|
  {
    if run != [] {
      StepKeepsInv(p, s, run[0]);
      RunKeepsInv(p, Apply(p, s, run[0]), run[1..]);
    }
  }

  /** What an operation of call c reads or writes: a range of the input scratch, a range of the product
      scratch, and whether it writes them. */
  datatype Footprint = Footprint(x8Hi: nat, x8Write: bool, yLo: nat, yHi: nat, yWrite: bool)

  function Touches<V>(p: Setup<V>, c: nat, op: Op): Footprint
    requires p.Valid() && c < |p.calls|
  {
    var call := p.calls[c];
    match op
    case Quantise => Footprint(call.M * call.K, true, 0, 0, false)
    case Gemm(i) => Footprint(call.M * call.K, false, p.Edge(c, i), p.Edge(c, i + 1), true)
    case AllReduce(i) => Footprint(0, false, p.Edge(c, i), p.Edge(c, i + 1), false)
    case _ => Footprint(0, false, 0, 0, false)
  }

  predicate Conflict(a: Footprint, b: Footprint) {
    || (a.x8Hi > 0 && b.x8Hi > 0 && (a.x8Write || b.x8Write))
    || ((a.yWrite || b.yWrite) && Max(a.yLo, b.yLo) < Min(a.yHi, b.yHi))
  }

  /** There is an entry of a scratch buffer that both use and one of them writes. */
  ghost predicate Clash(a: Footprint, b: Footprint) {
    || (exists e: nat :: UsesX8(a, e) && UsesX8(b, e) && (a.x8Write || b.x8Write))
    || (exists e: nat :: UsesY(a, e) && UsesY(b, e) && (a.yWrite || b.yWrite))
  }

  predicate UsesX8(a: Footprint, e: nat) { e < a.x8Hi }

  predicate UsesY(a: Footprint, e: nat) { a.yLo <= e < a.yHi }

  lemma ConflictIff(a: Footprint, b: Footprint)
    ensures Conflict(a, b) <==> Clash(a, b)
  {
    if a.x8Hi > 0 && b.x8Hi > 0 {
      assert UsesX8(a, 0) && UsesX8(b, 0);
    }
    var lo: nat := Max(a.yLo, b.yLo);
    if lo < Min(a.yHi, b.yHi) {
      assert UsesY(a, lo) && UsesY(b, lo);
    }
  }

  /** An operation writes nothing outside its footprint and its own part of its call's result. */
  lemma EffectWithin<V(!new)>(p: Setup<V>, s: State<V>, c: nat, op: Op)
    requires p.Valid() && c < |p.calls|
    ensures var t, f := Effect(p, s, c, op), Touches(p, c, op);
            && (forall e: nat :: t.x8(e) != s.x8(e) ==> f.x8Write && UsesX8(f, e))
            && (forall e: nat :: t.y(e) != s.y(e) ==> f.yWrite && UsesY(f, e))
            && (forall k: nat, e: nat :: t.outs(k, e) != s.outs(k, e) ==>
                  k == c && ((op.Direct? && e < p.calls[c].M * p.calls[c].N) || (op.AllReduce? && UsesY(f, e))))
  {
  }

  /** And reads nothing outside it: where two memories agree on the footprint, it writes the same to both. */
  lemma EffectReads<V(!new)>(p: Setup<V>, s: State<V>, s': State<V>, c: nat, op: Op)
    requires p.Valid() && c < |p.calls| && (op.Gemm? ==> op.slice < p.slices)
    requires forall e: nat :: UsesX8(Touches(p, c, op), e) ==> s'.x8(e) == s.x8(e)
    requires forall e: nat :: UsesY(Touches(p, c, op), e) ==> s'.y(e) == s.y(e)
    requires s'.outs == s.outs
    ensures var t, t', f := Effect(p, s, c, op), Effect(p, s', c, op), Touches(p, c, op);
            && (forall e: nat :: UsesX8(f, e) ==> t'.x8(e) == t.x8(e))
            && (forall e: nat :: UsesY(f, e) ==> t'.y(e) == t.y(e))
            && (forall k: nat, e: nat :: t'.outs(k, e) == t.outs(k, e))
  {
    if op.Gemm? {
      SlicesTile(p, c, op.slice + 1, p.slices);
      forall e: nat | UsesY(Touches(p, c, op), e) ensures Effect(p, s', c, op).y(e) == Effect(p, s, c, op).y(e) {
        SameInput(p.calls[c], s.x8, s'.x8, e);
      }
    }
  }

  /** In every reachable state the two running operations touch disjoint memory, or only read it. */
  lemma NoRace<V>(p: Setup<V>, s: State<V>)
    requires Inv(p, s) && s.main.busy && s.comm.busy
    ensures s.main.call < |p.calls| && s.comm.call < |p.calls|
    ensures !Clash(Touches(p, s.main.call, MainAt(p, s.main.call, s.main.k)),
                      Touches(p, s.comm.call, CommOp(s.comm.call, s.comm.k)))
  {
    CommIsCurrent(p, s);
    ConflictIff(Touches(p, s.main.call, MainAt(p, s.main.call, s.main.k)), Touches(p, s.comm.call, CommOp(s.comm.call, s.comm.k)));
    var c := s.main.call;
    if s.main.k % 2 == 1 && s.comm.k % 2 == 1 {
      var i, j := (s.main.k - 3) / 2, (s.comm.k - 1) / 2;
      assert i + 1 <= j;
      SlicesTile(p, c, i + 1, j);
      assert MainAt(p, c, s.main.k) == AllReduce(i) && CommOp(c, s.comm.k) == Gemm(j);
    }
  }

  /** The main theorem: every schedule of every list of calls, from any memory contents, ends with each
      call's result equal to the unsliced operation's; on the way no two running operations conflict. */
  lemma EveryScheduleCorrect<V(!new)>(p: Setup<V>, s: State<V>, run: seq<Action>)
    requires p.Valid() && Init(p, s) && CanRun(p, s, run)
    ensures var t := Exec(p, s, run);
            && (t.main.busy && t.comm.busy ==>
                  t.main.call < |p.calls| && t.comm.call < |p.calls| &&
                  !Clash(Touches(p, t.main.call, MainAt(p, t.main.call, t.main.k)), Touches(p, t.comm.call, CommOp(t.comm.call, t.comm.k))))
            && (Final(p, t) ==> forall c: nat :: c < |p.calls| ==>
                  OutTrue(p, t.outs, c, p.calls[c].M * p.calls[c].N) && RowByRow(p.calls[c], (e: nat) => t.outs(c, e)))
  {
    InitInv(p, s);
    RunKeepsInv(p, s, run);
    var t := Exec(p, s, run);
    if t.main.busy && t.comm.busy {
      NoRace(p, t);
    }
    if Final(p, t) {
      forall c: nat | c < |p.calls| ensures RowByRow(p.calls[c], (e: nat) => t.outs(c, e)) {
        UnslicedRows(p.calls[c], (e: nat) => t.outs(c, e));
      }
    }
  }

  /** Element n of row m of a result is the all-reduced product of row m of the input. */
  ghost predicate RowByRow<V(!new)>(call: Call<V>, out: nat -> V) {
    forall m: nat, n: nat, row: seq<V> :: m < call.M && n < call.N && IsRow(call.x, call.K, m, row) ==> FromRow(call, out, m, n, row)
  }

  ghost predicate FromRow<V>(call: Call<V>, out: nat -> V, m: nat, n: nat, row: seq<V>) {
    out(m * call.N + n) == call.reduce(m * call.N + n, call.gemm(m * call.N + n, row))
  }

  lemma UnslicedRows<V(!new)>(call: Call<V>, out: nat -> V)
    requires call.N > 0 && forall e: nat :: e < call.M * call.N ==> out(e) == call.Unsliced(e)
    ensures RowByRow(call, out)
  {
    forall m: nat, n: nat, row: seq<V> | m < call.M && n < call.N && IsRow(call.x, call.K, m, row) ensures FromRow(call, out, m, n, row) {
      RowReads(call, call.x, m, n);
      assert row == call.Row(call.x, m * call.N + n);
      MixedRadixBound(m, n, call.N, call.M);
    }
  }

  /** A state that is not final can always move on: events cannot deadlock the streams. */
  lemma NeverStuck<V>(p: Setup<V>, s: State<V>)
    requires Inv(p, s) && !Final(p, s)
    ensures exists a :: Enabled(p, s, a)
  {
    if s.main.busy {
      assert Enabled(p, s, FinishMain);
    } else if s.comm.busy {
      CommIsCurrent(p, s);
      assert Enabled(p, s, FinishComm);
    } else if Started(MainAt(p, s.main.call, s.main.k), s.events) {
      assert Enabled(p, s, StartMain);
    } else {
      WaitingMeansBehind(p, s);
      assert Enabled(p, s, StartComm);
    }
  }

  /** When the main stream waits, the second stream has work it may start. */
  lemma WaitingMeansBehind<V>(p: Setup<V>, s: State<V>)
    requires Inv(p, s) && s.main.call < |p.calls| && !Started(MainAt(p, s.main.call, s.main.k), s.events)
    ensures s.comm.call == s.main.call && Started(CommOp(s.comm.call, s.comm.k), s.events)
  {
    var i := (s.main.k - 2) / 2;
    assert MainAt(p, s.main.call, s.main.k) == Wait(Done(s.main.call, i));
    assert i < p.slices;
  }

  /** Steps the streams have ahead of them from call c on. */
  function MainLeft<V>(p: Setup<V>, c: nat): nat
    requires c <= |p.calls|
    decreases |p.calls| - c
  {
    if c == |p.calls| then 0 else 2 * MainLen(p, c) + MainLeft(p, c + 1)
  }

  function CommLeft<V>(p: Setup<V>, c: nat): nat
    requires c <= |p.calls|
    decreases |p.calls| - c
  {
    if c == |p.calls| then 0 else (if p.Sliced(c) then 2 * CommLen(p) else 0) + CommLeft(p, c + 1)
  }

  lemma {:induction false} CommLeftSkips<V>(p: Setup<V>, c: nat)
    requires c <= |p.calls|
    ensures CommLeft(p, p.NextSliced(c)) == CommLeft(p, c)
    decreases |p.calls| - c
  {
    if c < |p.calls| && !p.Sliced(c) {
      CommLeftSkips(p, c + 1);
    }
  }

  function Used(m: Pos): nat { 2 * m.k + if m.busy then 1 else 0 }

  ghost function Left<V>(p: Setup<V>, s: State<V>): int
    requires Lockstep(p, s)
  {
    MainLeft(p, s.main.call) - Used(s.main) + (if s.comm.call <= |p.calls| then CommLeft(p, s.comm.call) else 0) - Used(s.comm)
  }

  lemma StepUsesUp<V>(p: Setup<V>, s: State<V>, a: Action)
    requires Inv(p, s) && Enabled(p, s, a)
    ensures Lockstep(p, Apply(p, s, a)) && Left(p, Apply(p, s, a)) == Left(p, s) - 1
  {
    StepKeepsInv(p, s, a);
    hide EventsTrue, Justified, ScratchTrue, OutsTrue, Effect, Started;
    if a.FinishComm? {
      CommIsCurrent(p, s);
      CommLeftSkips(p, s.comm.call + 1);
    }
  }

  lemma LeftNonNegative<V>(p: Setup<V>, s: State<V>)
    requires Inv(p, s)
    ensures Left(p, s) >= 0
  {
    hide EventsTrue, Justified, ScratchTrue, OutsTrue;
  }

  /** From any reachable state some schedule reaches the end, and no schedule is longer than the work
      left: with NeverStuck, every schedule that keeps going ends. */
  lemma {:induction false} CanFinish<V>(p: Setup<V>, s: State<V>) returns (run: seq<Action>)
    requires Inv(p, s)
    ensures CanRun(p, s, run) && Final(p, Exec(p, s, run)) && |run| == Left(p, s)
    decreases Left(p, s)
  {
    LeftNonNegative(p, s);
    if Final(p, s) {
      run := [];
    } else {
      NeverStuck(p, s);
      var a :| Enabled(p, s, a);
      StepKeepsInv(p, s, a);
      StepUsesUp(p, s, a);
      LeftNonNegative(p, Apply(p, s, a));
      var rest := CanFinish(p, Apply(p, s, a));
      run := [a] + rest;
      assert run[1..] == rest;
    }
  }

  lemma {:induction false} RunsAreBounded<V>(p: Setup<V>, s: State<V>, run: seq<Action>)
    requires Inv(p, s) && CanRun(p, s, run)
    ensures |run| <= Left(p, s)
    decreases |run|
  {
    if run == [] {
      LeftNonNegative(p, s);
    } else {
      StepKeepsInv(p, s, run[0]);
      StepUsesUp(p, s, run[0]);
      RunsAreBounded(p, Apply(p, s, run[0]), run[1..]);
    }
  }
}
