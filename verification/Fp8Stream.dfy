/** The fp8-stream rewrite of a decoder stack: layers hand each other unreduced sums and quantised
    pairs, arranged by flags that installation flips layer by layer. */
module Fp8Stream {
  import opened Basics

  // ----- what installation looks at ---------------------------------------------

  /** Who reduces a row-parallel product: the layer, the kernel itself (the overlapped form), or nobody. */
  datatype Reduction = ByLayer | InKernel | Absent

  /** How a linear is run.  Loading leaves a row reference on every linear of ours: one entry per row on a
      folded one, two on one forced onto the per-block path, one on one that falls back to aiter. */
  datatype Route = Foreign | Aiter | PerBlock | Folded {
    /** It has a row reference, which is all that installation tests. */
    predicate Marked() { !Foreign? }
    /** Our kernel runs it on a plain tensor, quantising it first; so for tensors of any height, as
        RADIANCE_MXFP4_W4A8_MIN_M is taken to be at most 0. */
    predicate OnKernel() { Folded? || PerBlock? }
    /** It can be handed a (q, scale) pair: the launch for pairs passes the row reference on as it is, and
        the kernel reads one entry per row. */
    predicate TakesPair() { Folded? }
  }

  /** The route loading gives one of our linears whose input is width wide: the kernel takes multiples of
      64, unless a bisection knob deselects the shape or forces the per-block path. */
  function LoadedRoute(width: nat, selected: bool, forced: bool): Route {
    if width % 64 != 0 || !selected then Aiter else if forced then PerBlock else Folded
  }

  /** A row-parallel linear: its route, whether it has a bias, how it is reduced, and how wide its input is
      on this rank. */
  datatype RowLinear = RowLinear(route: Route, bias: bool, reduction: Reduction, width: nat) {
    predicate Reduces() { reduction.ByLayer? }
    predicate Overlapped() { reduction.InKernel? }
    /** The overlapped form takes plain tensors only. */
    predicate TakesPair() { route.TakesPair() && !Overlapped() }
  }

  /** What reads the attention block's input: a merged linear-attention projection, quantised (its joined
      row references complete or not) or plain, an unmerged one, or a qkv projection. */
  datatype AttnInput = MergedQuant(folded: bool) | MergedPlain | Unmerged | Qkv(route: Route) {
    predicate Linear() { !Qkv? }
    predicate OnKernel() { if MergedQuant? then folded else Qkv? && route.OnKernel() }
    predicate TakesPair() { if MergedQuant? then folded else Qkv? && route.TakesPair() }
  }

  datatype Config = Config(attn: AttnInput, row: RowLinear, gateUp: Route, down: RowLinear,
                           expertGate: bool, layerScale: bool, seqParallel: bool, normOk: bool)

  /** What installation leaves on a layer. */
  datatype Flags = Flags(rowReduces: bool, downReduces: bool, fp8In: bool, fp8Mid: bool,
                         quantAct: bool, quantNorm: bool)

  predicate LeftStock(c: Config) { c.layerScale || c.seqParallel || c.expertGate }

  predicate ConsumersOk(c: Config) {
    (if c.attn.Linear() then !c.attn.Unmerged? else c.attn.route.Marked()) && c.gateUp.Marked()
  }

  predicate NormQuantOk(c: Config) { c.normOk && c.row.route.Marked() && !c.row.bias && c.row.width % 128 == 0 }

  predicate MidOk(c: Config) { ConsumersOk(c) && c.row.route.Marked() && !c.row.bias && c.row.Reduces() }

  predicate DownOk(cs: seq<Config>, i: nat)
    requires i < |cs|
  {
    && i + 1 < |cs| && cs[i].down.route.Marked() && !cs[i].down.bias && cs[i].down.Reduces()
    && ConsumersOk(cs[i + 1]) && !cs[i + 1].layerScale && !cs[i + 1].seqParallel
  }

  /** Layer i stops reducing its mlp output. */
  predicate Streams(cs: seq<Config>, i: nat)
    requires i < |cs|
  {
    !LeftStock(cs[i]) && DownOk(cs, i)
  }

  /** The flags of layer i, from the configuration alone. */
  function FlagsOf(cs: seq<Config>, gnq: bool, i: nat): Flags
    requires i < |cs|
  {
    var c, live := cs[i], !LeftStock(cs[i]);
    Flags(c.row.Reduces() && !(live && MidOk(c)),
          c.down.Reduces() && !Streams(cs, i),
          live && i > 0 && Streams(cs, i - 1),
          live && MidOk(c),
          live && c.down.route.Marked() && c.down.width % 8 == 0,
          live && gnq && c.attn.Linear() && NormQuantOk(c))
  }

  /** The flags in the loaded model's own terms.  A layer with a layer scale, sequence parallelism or an expert
      gate is left stock; a layer streams into the next one that can be handed a pair. */
  lemma FlagsMean(cs: seq<Config>, gnq: bool, i: nat)
    requires i < |cs|
    ensures var c, f := cs[i], FlagsOf(cs, gnq, i);
            var live := !c.layerScale && !c.seqParallel && !c.expertGate;
            && (f.fp8Mid <==> live && c.row.route != Foreign && !c.row.bias && c.row.reduction == ByLayer && TakesStream(c))
            && (f.quantAct <==> live && c.down.route != Foreign && c.down.width % 8 == 0)
            && (f.quantNorm <==> live && gnq && !c.attn.Qkv? && c.normOk && c.row.route != Foreign && !c.row.bias && c.row.width % 128 == 0)
            && (f.rowReduces <==> c.row.reduction == ByLayer && !f.fp8Mid)
            && (f.downReduces <==> c.down.reduction == ByLayer && !HandsOn(cs, i))
            && (f.fp8In <==> live && i > 0 && HandsOn(cs, i - 1))
  {
  }

  /** What reads the two norms' outputs is ours. */
  predicate TakesStream(c: Config) { c.attn != Unmerged && c.attn != Qkv(Foreign) && c.gateUp != Foreign }

  /** Layer i passes its sum on unreduced. */
  predicate HandsOn(cs: seq<Config>, i: nat)
    requires i < |cs|
  {
    var c := cs[i];
    && !c.layerScale && !c.seqParallel && !c.expertGate
    && c.down.route != Foreign && !c.down.bias && c.down.reduction == ByLayer
    && i + 1 < |cs| && TakesStream(cs[i + 1]) && !cs[i + 1].layerScale && !cs[i + 1].seqParallel
  }

  /** Multiples of 64 are ours unless deselected, and folded unless forced. */
  lemma RouteMeans(width: nat, selected: bool, forced: bool)
    ensures LoadedRoute(width, selected, forced) != Foreign
    ensures LoadedRoute(width, selected, forced) == Aiter <==> width % 64 > 0 || !selected
    ensures LoadedRoute(width, selected, forced) == PerBlock <==> width % 64 == 0 && selected && forced
  {
  }

  // ----- what a layer computes -----------------------------------------------------

  /** The norms of a stack: a layer's first, in front of its attention, and its second, in front of its mlp. */
  datatype Site = Input(layer: nat) | PostAttention(layer: nat)

  /** The operations of a layer on all ranks' tensors at once; only allReduce mixes ranks.  The Q forms
      take a quantised activation, the V forms a plain one. */
  datatype Ops<!V, !Q> = Ops(
    add: (V, V) -> V, norm: (Site, V) -> V, quant: V -> Q, allReduce: V -> V,
    attnQ: (nat, Q) -> V, attnV: (nat, V) -> V, headNorm: (nat, V) -> V,
    rowQ: (nat, Q) -> V, rowV: (nat, V) -> V, upQ: (nat, Q) -> V, upV: (nat, V) -> V,
    silu: V -> V, downQ: (nat, Q) -> V, downV: (nat, V) -> V, gate: (nat, V, V) -> V)

  /** On one rank an all-reduce does nothing. */
  ghost predicate Lawful<V(!new), Q>(ops: Ops<V, Q>, tp: nat) {
    tp <= 1 ==> forall v: V :: ops.allReduce(v) == v
  }

  /** What is passed to a linear: a plain tensor or a (q, scale) pair. */
  datatype Arg<V, Q> = Plain(v: V) | Pair(q: Q)

  /** The attention block up to its output projection. */
  function Attend<V, Q>(ops: Ops<V, Q>, c: Config, i: nat, a: Arg<V, Q>): Option<V> {
    if a.Pair? then (if c.attn.TakesPair() then Some(ops.attnQ(i, a.q)) else None)
    else Some(if c.attn.OnKernel() then ops.attnQ(i, ops.quant(a.v)) else ops.attnV(i, a.v))
  }

  /** A row-parallel linear before its reduction.  A pair it cannot take is an error: the launch refuses the
      shape, or the kernel reads past the row reference. */
  function RowGemm<V, Q>(ops: Ops<V, Q>, lin: RowLinear, gq: (nat, Q) -> V, gv: (nat, V) -> V, i: nat, a: Arg<V, Q>): Option<V> {
    if a.Pair? then (if lin.TakesPair() then Some(gq(i, a.q)) else None)
    else Some(if lin.route.OnKernel() then gq(i, ops.quant(a.v)) else gv(i, a.v))
  }

  function Reduce<V, Q>(ops: Ops<V, Q>, reduces: bool, overlapped: bool, y: V): V {
    if reduces || overlapped then ops.allReduce(y) else y
  }

  /** Attention output projection, gated norm included where the layer has one. */
  function Project<V, Q>(ops: Ops<V, Q>, c: Config, f: Flags, i: nat, core: V): Option<V> {
    var x := if c.attn.Linear() then ops.headNorm(i, core) else core;
    var y := RowGemm(ops, c.row, ops.rowQ, ops.rowV, i, if f.quantNorm then Pair(ops.quant(x)) else Plain(x));
    if y.None? then None else Some(Reduce(ops, f.rowReduces, c.row.Overlapped(), y.value))
  }

  function Mlp<V, Q>(ops: Ops<V, Q>, c: Config, f: Flags, i: nat, a: Arg<V, Q>): Option<V> {
    if a.Pair? && (!c.gateUp.TakesPair() || c.expertGate) then None
    else
      var up := if a.Pair? then ops.upQ(i, a.q) else if c.gateUp.OnKernel() then ops.upQ(i, ops.quant(a.v)) else ops.upV(i, a.v);
      var act := ops.silu(up);
      var y := RowGemm(ops, c.down, ops.downQ, ops.downV, i, if f.quantAct then Pair(ops.quant(act)) else Plain(act));
      if y.None? then None
      else
        var out := Reduce(ops, f.downReduces, c.down.Overlapped(), y.value);
        Some(if c.expertGate then ops.gate(i, a.v, out) else out)
  }

  /** What layers hand each other: hidden states, and the residual once there is one. */
  datatype Hidden<V> = Hidden(h: V, residual: Option<V>)

  /** The fused epilogue: all-reduce, residual add, norm and quantisation in one. */
  function Epilogue<V, Q>(ops: Ops<V, Q>, site: Site, y: V, residual: V): (Q, V) {
    var r := ops.add(ops.allReduce(y), residual);
    (ops.quant(ops.norm(site, r)), r)
  }

  /** The patched forward up to the second norm: what the output projection gives, and the residual. */
  function AttentionHalf<V, Q>(ops: Ops<V, Q>, c: Config, f: Flags, i: nat, s: Hidden<V>): Option<(V, V)> {
    var (a, r) :=
      if s.residual.Some? && f.fp8In then
        var e := Epilogue(ops, Input(i), s.h, s.residual.value);
        (Pair(e.0), e.1)
      else
        var r := if s.residual.None? then s.h else ops.add(s.h, s.residual.value);
        (Plain(ops.norm(Input(i), r)), r);
    var core := Attend(ops, c, i, a);
    if core.None? then None
    else
      var y := Project(ops, c, f, i, core.value);
      if y.None? then None else Some((y.value, r))
  }

  /** And from there on. */
  function MlpHalf<V, Q>(ops: Ops<V, Q>, c: Config, f: Flags, i: nat, y: V, r: V): Option<Hidden<V>> {
    var (b, r') :=
      if f.fp8Mid then
        var e := Epilogue(ops, PostAttention(i), y, r);
        (Pair(e.0), e.1)
      else
        var r' := ops.add(y, r);
        (Plain(ops.norm(PostAttention(i), r')), r');
    var out := Mlp(ops, c, f, i, b);
    if out.None? then None else Some(Hidden(out.value, Some(r')))
  }

  /** The patched forward of a layer. */
  function StreamLayer<V, Q>(ops: Ops<V, Q>, c: Config, f: Flags, i: nat, s: Hidden<V>): Option<Hidden<V>> {
    var half := AttentionHalf(ops, c, f, i, s);
    if half.None? then None else MlpHalf(ops, c, f, i, half.value.0, half.value.1)
  }

  /** The stock forward: norm and attention, then norm and mlp, every linear on a plain tensor. */
  function StockAttention<V, Q>(ops: Ops<V, Q>, c: Config, i: nat, s: Hidden<V>): (V, V) {
    var r := if s.residual.None? then s.h else ops.add(s.h, s.residual.value);
    var x := ops.norm(Input(i), r);
    var core := if c.attn.OnKernel() then ops.attnQ(i, ops.quant(x)) else ops.attnV(i, x);
    var p := if c.attn.Linear() then ops.headNorm(i, core) else core;
    var y := if c.row.route.OnKernel() then ops.rowQ(i, ops.quant(p)) else ops.rowV(i, p);
    (Reduce(ops, c.row.Reduces(), c.row.Overlapped(), y), r)
  }

  function StockMlp<V, Q>(ops: Ops<V, Q>, c: Config, i: nat, y: V, r: V): Hidden<V> {
    var r' := ops.add(y, r);
    var x := ops.norm(PostAttention(i), r');
    var act := ops.silu(if c.gateUp.OnKernel() then ops.upQ(i, ops.quant(x)) else ops.upV(i, x));
    var y' := if c.down.route.OnKernel() then ops.downQ(i, ops.quant(act)) else ops.downV(i, act);
    var d := Reduce(ops, c.down.Reduces(), c.down.Overlapped(), y');
    Hidden(if c.expertGate then ops.gate(i, x, d) else d, Some(r'))
  }

  function StockLayer<V, Q>(ops: Ops<V, Q>, c: Config, i: nat, s: Hidden<V>): Hidden<V> {
    var half := StockAttention(ops, c, i, s);
    StockMlp(ops, c, i, half.0, half.1)
  }

  /** The first n layers. */
  function Stock<V, Q>(ops: Ops<V, Q>, cs: seq<Config>, x: V, n: nat): Hidden<V>
    requires n <= |cs|
  {
    if n == 0 then Hidden(x, None) else StockLayer(ops, cs[n - 1], n - 1, Stock(ops, cs, x, n - 1))
  }

  function Streamed<V, Q>(ops: Ops<V, Q>, cs: seq<Config>, gnq: bool, x: V, n: nat): Option<Hidden<V>>
    requires n <= |cs|
  {
    if n == 0 then Some(Hidden(x, None))
    else
      var s := Streamed(ops, cs, gnq, x, n - 1);
      if s.None? then None else StreamLayer(ops, cs[n - 1], FlagsOf(cs, gnq, n - 1), n - 1, s.value)
  }

  // ----- what the stock stack computes ---------------------------------------------------

  /** Operations that spell out their order: each appends its digit to what it is given, and only layer i's
      do so. */
  function Spelling(i: nat): Ops<int, int> {
    Ops((a, b) => a + b, (s, v) => if s == Input(i) then 10 * v + 1 else if s == PostAttention(i) then 10 * v + 4 else 0,
        v => v, v => v, (k, v) => Digit(i, k, v, 2), (k, v) => Digit(i, k, v, 2), (k, v) => Digit(i, k, v, 9),
        (k, v) => Digit(i, k, v, 3), (k, v) => Digit(i, k, v, 3), (k, v) => Digit(i, k, v, 5), (k, v) => Digit(i, k, v, 5),
        v => 10 * v + 6, (k, v) => Digit(i, k, v, 7), (k, v) => Digit(i, k, v, 7), (k, x, d) => Digit(i, k, d, 8) + x)
  }

  function Digit(i: nat, k: nat, v: int, d: int): int { if k == i then 10 * v + d else 0 }

  /** Residual add, first norm, attention, head norm in a linear-attention layer, output projection, residual
      add, second norm, up, activation, down, and the expert gate on what the mlp was given. */
  lemma StockOrder(c: Config, i: nat, s: Hidden<int>)
    ensures var r := s.h + if s.residual.Some? then s.residual.value else 0;
            var a := r + if c.attn.Linear() then 10000 * r + 1293 else 1000 * r + 123;
            StockLayer(Spelling(i), c, i, s)
            == Hidden(if c.expertGate then 100000 * a + 45678 + (10 * a + 4) else 10000 * a + 4567, Some(a))
  {
  }

  /** ops and other differ in the norm of one site alone. */
  ghost predicate DifferAt<V(!new), Q>(ops: Ops<V, Q>, other: Ops<V, Q>, site: Site) {
    other == ops.(norm := other.norm) && forall s: Site, v: V :: s != site ==> other.norm(s, v) == ops.norm(s, v)
  }

  lemma AttentionHalfSame<V(!new), Q>(ops: Ops<V, Q>, other: Ops<V, Q>, site: Site, c: Config, f: Flags, i: nat, s: Hidden<V>)
    requires DifferAt(ops, other, site) && site != Input(i)
    ensures AttentionHalf(other, c, f, i, s) == AttentionHalf(ops, c, f, i, s)
  {
    forall v: V ensures other.norm(Input(i), v) == ops.norm(Input(i), v) {
    }
  }

  lemma MlpHalfSame<V(!new), Q>(ops: Ops<V, Q>, other: Ops<V, Q>, site: Site, c: Config, f: Flags, i: nat, y: V, r: V)
    requires DifferAt(ops, other, site)
    ensures site != PostAttention(i) ==> MlpHalf(other, c, f, i, y, r) == MlpHalf(ops, c, f, i, y, r)
    ensures var a, b := MlpHalf(ops, c, f, i, y, r), MlpHalf(other, c, f, i, y, r);
            a.Some? && b.Some? ==> b.value.residual == a.value.residual
  {
  }

  lemma StockParts<V(!new), Q>(ops: Ops<V, Q>, other: Ops<V, Q>, site: Site, c: Config, i: nat, s: Hidden<V>)
    requires DifferAt(ops, other, site) && site != Input(i)
    ensures StockLayer(other, c, i, s).residual == StockLayer(ops, c, i, s).residual
    ensures site != PostAttention(i) ==> StockLayer(other, c, i, s) == StockLayer(ops, c, i, s)
  {
  }

  lemma StreamParts<V(!new), Q>(ops: Ops<V, Q>, other: Ops<V, Q>, site: Site, c: Config, f: Flags, i: nat, s: Hidden<V>)
    requires DifferAt(ops, other, site) && site != Input(i)
    ensures var a, b := StreamLayer(ops, c, f, i, s), StreamLayer(other, c, f, i, s);
            && (site != PostAttention(i) ==> b == a)
            && (a.Some? && b.Some? ==> b.value.residual == a.value.residual)
  {
    hide AttentionHalf, MlpHalf, DifferAt;
    AttentionHalfSame(ops, other, site, c, f, i, s);
    var half := AttentionHalf(ops, c, f, i, s);
    if half.Some? {
      MlpHalfSame(ops, other, site, c, f, i, half.value.0, half.value.1);
    }
  }

  /** A layer's norms do not reach the layers before it. */
  lemma {:induction false} EarlierLayersSame<V(!new), Q>(ops: Ops<V, Q>, other: Ops<V, Q>, site: Site, cs: seq<Config>, gnq: bool, x: V, n: nat)
    requires DifferAt(ops, other, site) && n <= |cs| && n <= site.layer
    ensures Stock(other, cs, x, n) == Stock(ops, cs, x, n) && Streamed(other, cs, gnq, x, n) == Streamed(ops, cs, gnq, x, n)
  {
    hide FlagsOf, StockLayer, StreamLayer, DifferAt;
    if n > 0 {
      EarlierLayersSame(ops, other, site, cs, gnq, x, n - 1);
      StockParts(ops, other, site, cs[n - 1], n - 1, Stock(ops, cs, x, n - 1));
      var s := Streamed(ops, cs, gnq, x, n - 1);
      if s.Some? {
        StreamParts(ops, other, site, cs[n - 1], FlagsOf(cs, gnq, n - 1), n - 1, s.value);
      }
    }
  }

  /** Nor does its second norm reach its attention: the residual after attention is as before. */
  lemma AttentionSame<V(!new), Q>(ops: Ops<V, Q>, other: Ops<V, Q>, c: Config, f: Flags, i: nat, s: Hidden<V>)
    requires DifferAt(ops, other, PostAttention(i))
    ensures StockLayer(other, c, i, s).residual == StockLayer(ops, c, i, s).residual
    ensures var a, b := StreamLayer(ops, c, f, i, s), StreamLayer(other, c, f, i, s);
            a.Some? && b.Some? ==> b.value.residual == a.value.residual
  {
    hide StockLayer, StreamLayer, DifferAt;
    StockParts(ops, other, PostAttention(i), c, i, s);
    StreamParts(ops, other, PostAttention(i), c, f, i, s);
  }

  /** Each of the two norms matters by itself, in every layer: with another one in its place the layer's
      output, and for the first norm its residual too, is another one. */
  lemma NormsMatter(c: Config, i: nat, s: Hidden<int>)
    ensures var ops := Spelling(i);
            var first := ops.(norm := (t, v) => if t == Input(i) then 10 * v + 2 else ops.norm(t, v));
            var second := ops.(norm := (t, v) => if t == PostAttention(i) then 10 * v + 5 else ops.norm(t, v));
            && DifferAt(ops, first, Input(i)) && StockLayer(first, c, i, s).residual != StockLayer(ops, c, i, s).residual
            && DifferAt(ops, second, PostAttention(i)) && StockLayer(second, c, i, s).h != StockLayer(ops, c, i, s).h
  {
  }

  // ----- when the rewrite is sound -----------------------------------------------------

  /** Layer i's sum is left partial, but the next layer, having an expert gate, was left stock and does
      not finish it. */
  predicate Leaks(cs: seq<Config>, i: nat)
    requires i < |cs|
  {
    Streams(cs, i) && cs[i + 1].expertGate
  }

  /** A (q, scale) pair reaches something in layer i that cannot take one: a merged projection that is not
      quantised, a linear that has a row reference but not a folded one, or one that owns its all-reduce. */
  predicate PairMisplaced(cs: seq<Config>, gnq: bool, i: nat)
    requires i < |cs|
  {
    var f, c := FlagsOf(cs, gnq, i), cs[i];
    || (f.fp8In && !c.attn.TakesPair())
    || (f.fp8Mid && !c.gateUp.TakesPair())
    || (f.quantNorm && !c.row.TakesPair())
    || (f.quantAct && !c.down.TakesPair())
  }

  predicate SafeAt(cs: seq<Config>, gnq: bool, tp: nat, i: nat)
    requires i < |cs|
  {
    !PairMisplaced(cs, gnq, i) && (tp >= 2 ==> !Leaks(cs, i))
  }

  ghost predicate Safe(cs: seq<Config>, gnq: bool, tp: nat) {
    forall i :: 0 <= i < |cs| ==> SafeAt(cs, gnq, tp, i)
  }

  /** The branches the patched forward does not have. */
  ghost predicate InDomain(cs: seq<Config>) {
    forall i :: 0 <= i < |cs| ==> !cs[i].layerScale && !cs[i].seqParallel
  }

  /** How the two runs' states compare in front of layer n: the same, except that where layer n is to
      finish a partial sum, reducing the streamed value gives the stock one. */
  ghost predicate Agree<V, Q>(ops: Ops<V, Q>, cs: seq<Config>, gnq: bool, n: nat, a: Hidden<V>, b: Hidden<V>)
    requires n <= |cs|
  {
    && a.residual == b.residual
    && (n > 0 ==> a.residual.Some?)
    && if n < |cs| && FlagsOf(cs, gnq, n).fp8In then ops.allReduce(a.h) == b.h else a.h == b.h
  }

  /** In the middle of layer i: the same, or a partial sum that the second norm's epilogue is to finish. */
  ghost predicate AgreeMid<V, Q>(ops: Ops<V, Q>, f: Flags, a: (V, V), b: (V, V)) {
    a.1 == b.1 && if f.fp8Mid then ops.allReduce(a.0) == b.0 else a.0 == b.0
  }

  lemma AttentionAgrees<V(!new), Q>(ops: Ops<V, Q>, cs: seq<Config>, gnq: bool, tp: nat, i: nat, a: Hidden<V>, b: Hidden<V>)
    requires i < |cs| && Lawful(ops, tp) && SafeAt(cs, gnq, tp, i) && InDomain(cs)
    requires Agree(ops, cs, gnq, i, a, b)
    ensures var f := FlagsOf(cs, gnq, i);
            var half := AttentionHalf(ops, cs[i], f, i, a);
            half.Some? && AgreeMid(ops, f, half.value, StockAttention(ops, cs[i], i, b))
  {
  }

  lemma MlpAgrees<V(!new), Q>(ops: Ops<V, Q>, cs: seq<Config>, gnq: bool, tp: nat, i: nat, a: (V, V), b: (V, V))
    requires i < |cs| && Lawful(ops, tp) && SafeAt(cs, gnq, tp, i) && InDomain(cs)
    requires AgreeMid(ops, FlagsOf(cs, gnq, i), a, b)
    ensures var out := MlpHalf(ops, cs[i], FlagsOf(cs, gnq, i), i, a.0, a.1);
            out.Some? && Agree(ops, cs, gnq, i + 1, out.value, StockMlp(ops, cs[i], i, b.0, b.1))
  {
  }

  lemma LayerAgrees<V(!new), Q>(ops: Ops<V, Q>, cs: seq<Config>, gnq: bool, tp: nat, i: nat, a: Hidden<V>, b: Hidden<V>)
    requires i < |cs| && Lawful(ops, tp) && SafeAt(cs, gnq, tp, i) && InDomain(cs)
    requires Agree(ops, cs, gnq, i, a, b)
    ensures var a' := StreamLayer(ops, cs[i], FlagsOf(cs, gnq, i), i, a);
            a'.Some? && Agree(ops, cs, gnq, i + 1, a'.value, StockLayer(ops, cs[i], i, b))
  {
    hide AttentionHalf, MlpHalf, StockAttention, StockMlp, FlagsOf, Agree, SafeAt, InDomain, AgreeMid;
    AttentionAgrees(ops, cs, gnq, tp, i, a, b);
    var half := AttentionHalf(ops, cs[i], FlagsOf(cs, gnq, i), i, a);
    MlpAgrees(ops, cs, gnq, tp, i, half.value, StockAttention(ops, cs[i], i, b));
  }

  /** In the sound cases the streamed stack computes what the stock stack does, for every list of
      layers and every mix of eligible and ineligible linears. */
  lemma {:induction false} StreamPreserves<V(!new), Q>(ops: Ops<V, Q>, cs: seq<Config>, gnq: bool, tp: nat, x: V, n: nat)
    requires n <= |cs| && Lawful(ops, tp) && Safe(cs, gnq, tp) && InDomain(cs)
    ensures Streamed(ops, cs, gnq, x, n).Some?
    ensures Agree(ops, cs, gnq, n, Streamed(ops, cs, gnq, x, n).value, Stock(ops, cs, x, n))
    ensures n == |cs| ==> Streamed(ops, cs, gnq, x, n) == Some(Stock(ops, cs, x, n))
  {
    hide StreamLayer, StockLayer;
    if n > 0 {
      StreamPreserves(ops, cs, gnq, tp, x, n - 1);
      LayerAgrees(ops, cs, gnq, tp, n - 1, Streamed(ops, cs, gnq, x, n - 1).value, Stock(ops, cs, x, n - 1));
    }
  }

  // ----- when it is not -------------------------------------------------------------------

  /** An interpretation that counts unreduced sums: each row-parallel product is one, an all-reduce over
      two or more ranks settles it, and the residual adds them up. */
  function Counting(tp: nat): Ops<int, int> {
    Ops((a, b) => a + b, (_, _) => 0, _ => 0, v => if tp <= 1 then v else 0, (_, _) => 0, (_, _) => 0, (_, _) => 0,
        (_, _) => 1, (_, _) => 1, (_, _) => 0, (_, _) => 0, _ => 0, (_, _) => 1, (_, _) => 1, (_, _, y) => y)
  }

  /** Leaks among the first n layers. */
  function LeakCount(cs: seq<Config>, n: nat): nat
    requires n <= |cs|
  {
    if n == 0 then 0 else LeakCount(cs, n - 1) + if Leaks(cs, n - 1) then 1 else 0
  }

  lemma {:induction false} LeakCounted(cs: seq<Config>, i: nat, n: nat)
    requires i < n <= |cs| && Leaks(cs, i)
    ensures LeakCount(cs, n) > 0
  {
    if i < n - 1 {
      LeakCounted(cs, i, n - 1);
    }
  }

  /** Each leak puts one more unreduced sum into the streamed residual than the stock one has. */
  ghost predicate CountsAgree(cs: seq<Config>, n: nat, a: Hidden<int>, b: Hidden<int>)
    requires n <= |cs|
  {
    if n == 0 then a == b && a.residual.None?
    else
      && a.residual.Some? && b.residual.Some?
      && a.residual.value == b.residual.value + LeakCount(cs, n - 1)
      && if Streams(cs, n - 1) then a.h == 1 && b.h == 0 else a.h == b.h
  }

  lemma LayerCounts(cs: seq<Config>, gnq: bool, tp: nat, i: nat, a: Hidden<int>, b: Hidden<int>)
    requires i < |cs| && tp >= 2 && InDomain(cs) && !PairMisplaced(cs, gnq, i) && CountsAgree(cs, i, a, b)
    ensures var a' := StreamLayer(Counting(tp), cs[i], FlagsOf(cs, gnq, i), i, a);
            a'.Some? && CountsAgree(cs, i + 1, a'.value, StockLayer(Counting(tp), cs[i], i, b))
  {
  }

  lemma {:induction false} RunCounts(cs: seq<Config>, gnq: bool, tp: nat, x: int, n: nat)
    requires n <= |cs| && tp >= 2 && InDomain(cs) && forall i :: 0 <= i < n ==> !PairMisplaced(cs, gnq, i)
    ensures var a := Streamed(Counting(tp), cs, gnq, x, n);
            a.Some? && CountsAgree(cs, n, a.value, Stock(Counting(tp), cs, x, n))
  {
    if n > 0 {
      RunCounts(cs, gnq, tp, x, n - 1);
      LayerCounts(cs, gnq, tp, n - 1, Streamed(Counting(tp), cs, gnq, x, n - 1).value, Stock(Counting(tp), cs, x, n - 1));
    }
  }

  lemma LayerRejects<V, Q>(ops: Ops<V, Q>, cs: seq<Config>, gnq: bool, i: nat, s: Hidden<V>)
    requires i < |cs| && PairMisplaced(cs, gnq, i) && (s.residual.Some? || i == 0)
    ensures StreamLayer(ops, cs[i], FlagsOf(cs, gnq, i), i, s).None?
  {
  }

  /** A misplaced pair stops the run, whatever the layers compute. */
  lemma {:induction false} RunRejects<V, Q>(ops: Ops<V, Q>, cs: seq<Config>, gnq: bool, x: V, i: nat, n: nat)
    requires i < n <= |cs| && PairMisplaced(cs, gnq, i)
    ensures Streamed(ops, cs, gnq, x, n).None?
  {
    hide StreamLayer, FlagsOf, PairMisplaced;
    if i < n - 1 {
      RunRejects(ops, cs, gnq, x, i, n - 1);
    } else {
      var s := Streamed(ops, cs, gnq, x, i);
      if s.Some? {
        ResidualSet(ops, cs, gnq, x, i);
        LayerRejects(ops, cs, gnq, i, s.value);
      }
    }
  }

  lemma ResidualSet<V, Q>(ops: Ops<V, Q>, cs: seq<Config>, gnq: bool, x: V, n: nat)
    requires n <= |cs| && Streamed(ops, cs, gnq, x, n).Some?
    ensures n == 0 || Streamed(ops, cs, gnq, x, n).value.residual.Some?
  {
    hide FlagsOf;
  }

  /** The rewrite changes nothing, whatever the layers compute. */
  ghost predicate Equivalent(cs: seq<Config>, gnq: bool, tp: nat) {
    forall ops: Ops<int, int>, x: int :: Lawful(ops, tp) ==> Streamed(ops, cs, gnq, x, |cs|) == Some(Stock(ops, cs, x, |cs|))
  }

  /** The exact condition: the rewrite changes nothing if and only if no layer leaks (on two or more
      ranks) and no pair is misplaced. */
  lemma EquivalentIffSafe(cs: seq<Config>, gnq: bool, tp: nat)
    requires InDomain(cs)
    ensures Equivalent(cs, gnq, tp) <==> Safe(cs, gnq, tp)
  {
    if Safe(cs, gnq, tp) {
      forall ops: Ops<int, int>, x: int | Lawful(ops, tp)
        ensures Streamed(ops, cs, gnq, x, |cs|) == Some(Stock(ops, cs, x, |cs|))
      {
        StreamPreserves(ops, cs, gnq, tp, x, |cs|);
      }
    } else {
      var ops, n := Counting(tp), |cs|;
      assert Lawful(ops, tp);
      if i :| 0 <= i < n && PairMisplaced(cs, gnq, i) {
        RunRejects(ops, cs, gnq, 0, i, n);
      } else {
        var i :| 0 <= i < n && !SafeAt(cs, gnq, tp, i);
        assert Leaks(cs, i);
        LeakCounted(cs, i, n - 1);
        RunCounts(cs, gnq, tp, 0, n);
      }
      assert Streamed(ops, cs, gnq, 0, n) != Some(Stock(ops, cs, 0, n));
    }
  }

  /** Every linear that installation takes for ours can be handed a pair. */
  ghost predicate AllServed(c: Config) {
    && !c.attn.MergedPlain? && (c.attn.MergedQuant? ==> c.attn.folded) && (c.attn.Qkv? && c.attn.route.Marked() ==> c.attn.TakesPair())
    && (c.row.route.Marked() ==> c.row.TakesPair()) && (c.gateUp.Marked() ==> c.gateUp.TakesPair())
    && (c.down.route.Marked() ==> c.down.TakesPair())
  }

  /** The guards the rewrite documents are enough; installation does not enforce all of them. */
  lemma GuardsSuffice(cs: seq<Config>, gnq: bool, tp: nat)
    requires InDomain(cs) && forall i :: 0 <= i < |cs| ==> !cs[i].expertGate && AllServed(cs[i])
    ensures Safe(cs, gnq, tp) && Equivalent(cs, gnq, tp)
  {
    EquivalentIffSafe(cs, gnq, tp);
  }

  /** A two-layer stack that installation accepts and breaks: the second layer has an expert gate. */
  lemma ExpertGateAfterStreamLeaks()
    ensures var lin := RowLinear(Folded, false, ByLayer, 128);
            var c := Config(Qkv(Folded), lin, Folded, lin, false, false, false, true);
            !Equivalent([c, c.(expertGate := true)], false, 2)
  {
    var lin := RowLinear(Folded, false, ByLayer, 128);
    var c := Config(Qkv(Folded), lin, Folded, lin, false, false, false, true);
    var cs := [c, c.(expertGate := true)];
    assert Leaks(cs, 0);
    assert !SafeAt(cs, false, 2, 0);
    EquivalentIffSafe(cs, false, 2);
  }

  /** A layer whose down projection is a multiple of 32 but not of 64 wide on a rank falls back to aiter
      there, and every other linear is ours: installation hands the down projection a pair it cannot take.
      The stock layer runs. */
  lemma FallbackIsHandedAPair(width: nat, tp: nat)
    requires width % 64 == 32
    ensures var c := Config(Qkv(Folded), RowLinear(Folded, false, ByLayer, 128), Folded,
                            RowLinear(LoadedRoute(width, true, false), false, ByLayer, width), false, false, false, true);
            FlagsOf([c], false, 0).quantAct && !Equivalent([c], false, tp)
  {
    var c := Config(Qkv(Folded), RowLinear(Folded, false, ByLayer, 128), Folded,
                    RowLinear(LoadedRoute(width, true, false), false, ByLayer, width), false, false, false, true);
    assert PairMisplaced([c], false, 0);
    assert !SafeAt([c], false, tp, 0);
    EquivalentIffSafe([c], false, tp);
  }

  /** The same for the middle of a layer: a gate-up projection forced onto the per-block path is handed the
      epilogue's pair. */
  lemma PerBlockIsHandedAPair(width: nat, tp: nat)
    requires width % 64 == 0
    ensures var lin := RowLinear(Folded, false, ByLayer, 128);
            var c := Config(Qkv(Folded), lin, LoadedRoute(width, true, true), lin, false, false, false, true);
            FlagsOf([c], false, 0).fp8Mid && !Equivalent([c], false, tp)
  {
    var lin := RowLinear(Folded, false, ByLayer, 128);
    var c := Config(Qkv(Folded), lin, LoadedRoute(width, true, true), lin, false, false, false, true);
    assert PairMisplaced([c], false, 0);
    assert !SafeAt([c], false, tp, 0);
    EquivalentIffSafe([c], false, tp);
  }

  // ----- bookkeeping of reductions ----------------------------------------------------------

  /** How often layer i's attention output and mlp output are all-reduced: by the linear, by its kernel,
      or by an epilogue. */
  function RowReductions(cs: seq<Config>, gnq: bool, i: nat): nat
    requires i < |cs|
  {
    var f := FlagsOf(cs, gnq, i);
    (if f.rowReduces then 1 else 0) + (if cs[i].row.Overlapped() then 1 else 0) + (if f.fp8Mid then 1 else 0)
  }

  function DownReductions(cs: seq<Config>, gnq: bool, i: nat): nat
    requires i < |cs|
  {
    var f := FlagsOf(cs, gnq, i);
    (if f.downReduces then 1 else 0) + (if cs[i].down.Overlapped() then 1 else 0)
    + (if i + 1 < |cs| && FlagsOf(cs, gnq, i + 1).fp8In then 1 else 0)
  }

  /** Every sum that used to be reduced still is, exactly once, unless it leaks; and between layers a sum
      that the mlp's layer no longer reduces is in flight exactly when the next layer is flagged to
      finish it, unless it leaks. */
  lemma ReducedOnce(cs: seq<Config>, gnq: bool, i: nat)
    requires i < |cs| && InDomain(cs)
    ensures RowReductions(cs, gnq, i) == if cs[i].row.reduction.Absent? then 0 else 1
    ensures !Leaks(cs, i) ==> DownReductions(cs, gnq, i) == if cs[i].down.reduction.Absent? then 0 else 1
    ensures Leaks(cs, i) ==> DownReductions(cs, gnq, i) == 0
    ensures i + 1 < |cs| ==>
              (FlagsOf(cs, gnq, i + 1).fp8In <==> (cs[i].down.Reduces() && !FlagsOf(cs, gnq, i).downReduces && !Leaks(cs, i)))
    ensures i + 1 == |cs| ==> FlagsOf(cs, gnq, i).downReduces == cs[i].down.Reduces()
  {
  }

  // ----- installation -------------------------------------------------------------------------

  class DecoderLayer {
    const config: Config
    var rowReduces: bool
    var downReduces: bool
    var fp8In: Option<bool>
    var fp8Mid: Option<bool>
    var quantAct: bool
    var quantNorm: bool
    var patched: bool

    constructor (c: Config)
      ensures config == c && Fresh()
    {
      config := c;
      rowReduces, downReduces := c.row.Reduces(), c.down.Reduces();
      fp8In, fp8Mid := None, None;
      quantAct, quantNorm, patched := false, false, false;
    }

    /** As loaded: no flags, both linears as configured. */
    predicate Fresh()
      reads this
    {
      && rowReduces == config.row.Reduces() && downReduces == config.down.Reduces()
      && fp8In.None? && fp8Mid.None? && !quantAct && !quantNorm && !patched
    }

    function Set(o: Option<bool>): bool { o == Some(true) }

    function Installed(): Flags
      reads this
    {
      Flags(rowReduces, downReduces, Set(fp8In), Set(fp8Mid), quantAct, quantNorm)
    }

    /** The forward method currently bound. */
    function Forward<V, Q>(ops: Ops<V, Q>, i: nat, s: Hidden<V>): Option<Hidden<V>>
      reads this
    {
      if patched then StreamLayer(ops, config, Installed(), i, s) else Some(StockLayer(ops, config, i, s))
    }
  }

  ghost predicate Loaded(layers: seq<DecoderLayer>, cs: seq<Config>)
    reads layers
  {
    |layers| == |cs| && Distinct(layers) && forall i :: 0 <= i < |cs| ==> layers[i].config == cs[i]
  }

  /** Layer i of n while installation is at layer at: done below, marked or fresh at, fresh above. */
  ghost predicate Progress(l: DecoderLayer, cs: seq<Config>, gnq: bool, i: nat, at: nat)
    requires i < |cs|
    reads l
  {
    if i < at then
      l.patched && l.fp8In.Some? && l.fp8Mid.Some? && l.Installed() == FlagsOf(cs, gnq, i)
    else
      && l.rowReduces == cs[i].row.Reduces() && l.downReduces == cs[i].down.Reduces()
      && l.fp8Mid.None? && !l.quantAct && !l.quantNorm
      && l.fp8In == if i == at && i > 0 && Streams(cs, i - 1) then Some(true) else None
  }

  /** The two all-reduces an eligible layer can stop doing. */
  method StopReducing(layer: DecoderLayer, nxt: DecoderLayer?)
    requires layer.rowReduces == layer.config.row.Reduces() && layer.downReduces == layer.config.down.Reduces() && nxt != layer
    modifies layer, if nxt == null then {} else {nxt}
    ensures var c := layer.config;
            var down := nxt != null && DownOk([c, nxt.config], 0);
            && layer.rowReduces == (c.row.Reduces() && !MidOk(c)) && layer.fp8Mid == Some(MidOk(c))
            && layer.downReduces == (c.down.Reduces() && !down)
            && (nxt != null ==> nxt.fp8In == if down then Some(true) else old(nxt.fp8In))
    ensures unchanged(layer`fp8In, layer`quantAct, layer`quantNorm, layer`patched)
    ensures nxt != null ==> unchanged(nxt`rowReduces, nxt`downReduces, nxt`fp8Mid, nxt`quantAct, nxt`quantNorm, nxt`patched)
  {
    hide ConsumersOk;
    var c := layer.config;
    if ConsumersOk(c) && c.row.route.Marked() && !c.row.bias && layer.rowReduces {
      layer.rowReduces := false;
      layer.fp8Mid := Some(true);
    } else {
      layer.fp8Mid := Some(false);
    }
    if && nxt != null && c.down.route.Marked() && !c.down.bias && layer.downReduces && ConsumersOk(nxt.config)
       && !nxt.config.layerScale && !nxt.config.seqParallel {
      layer.downReduces := false;
      nxt.fp8In := Some(true);
    }
  }

  /** The activation and the gated norm that can quantise their own output. */
  method FuseQuantisation(layer: DecoderLayer, gnq: bool)
    requires !layer.quantAct && !layer.quantNorm
    modifies layer`quantAct, layer`quantNorm
    ensures var c := layer.config;
            && layer.quantAct == (c.down.route.Marked() && c.down.width % 8 == 0)
            && layer.quantNorm == (gnq && c.attn.Linear() && NormQuantOk(c))
  {
    var c := layer.config;
    if c.down.route.Marked() && c.down.width % 8 == 0 {
      layer.quantAct := true;
    }
    if gnq && c.attn.Linear() && NormQuantOk(c) {
      layer.quantNorm := true;
    }
  }

  /** One pass of the installation loop. */
  method InstallLayer(layer: DecoderLayer, nxt: DecoderLayer?, gnq: bool, ghost cs: seq<Config>, ghost i: nat)
    requires i < |cs| && layer.config == cs[i] && nxt != layer
    requires if i + 1 < |cs| then nxt != null && nxt.config == cs[i + 1] && Progress(nxt, cs, gnq, i + 1, i) else nxt == null
    requires Progress(layer, cs, gnq, i, i)
    modifies layer, if nxt == null then {} else {nxt}
    ensures Progress(layer, cs, gnq, i, i + 1)
    ensures nxt != null ==> Progress(nxt, cs, gnq, i + 1, i + 1)
  {
    hide ConsumersOk, NormQuantOk, RowLinear.Reduces, AttnInput.Linear, MidOk;
    var c := layer.config;
    if c.layerScale || c.seqParallel || c.expertGate {
      layer.fp8In, layer.fp8Mid := Some(false), Some(false);
      layer.patched := true;
      return;
    }
    StopReducing(layer, nxt);
    FuseQuantisation(layer, gnq);
    layer.patched := true;
    if layer.fp8In.None? {
      layer.fp8In := Some(false);
    }
  }

  /** Flip the flags of every layer.  They end up as the configuration alone determines. */
  method Install(layers: seq<DecoderLayer>, gnq: bool, ghost cs: seq<Config>)
    requires Loaded(layers, cs) && forall i :: 0 <= i < |cs| ==> layers[i].Fresh()
    modifies layers
    ensures Loaded(layers, cs)
    ensures forall i :: 0 <= i < |cs| ==> layers[i].patched && layers[i].Installed() == FlagsOf(cs, gnq, i)
  {
    for at := 0 to |layers|
      invariant forall i :: 0 <= i < |cs| ==> Progress(layers[i], cs, gnq, i, at)
    {
      InstallLayer(layers[at], if at + 1 < |layers| then layers[at + 1] else null, gnq, cs, at);
    }
  }

  /** Run the stack with whatever forwards are bound. */
  method RunStack<V(!new), Q>(layers: seq<DecoderLayer>, ops: Ops<V, Q>, x: V, gnq: bool, ghost cs: seq<Config>) returns (out: Option<Hidden<V>>)
    requires Loaded(layers, cs)
    requires forall i :: 0 <= i < |cs| ==> layers[i].patched && layers[i].Installed() == FlagsOf(cs, gnq, i)
    ensures out == Streamed(ops, cs, gnq, x, |cs|)
  {
    hide StreamLayer, StockLayer, FlagsOf;
    out := Some(Hidden(x, None));
    for i := 0 to |layers|
      invariant out == Streamed(ops, cs, gnq, x, i)
    {
      if out.Some? {
        out := layers[i].Forward(ops, i, out.value);
      }
    }
  }

  /** Install on a freshly loaded stack, then run it: the output is the stock stack's. */
  method InstallAndRun<V(!new), Q>(layers: seq<DecoderLayer>, gnq: bool, ghost tp: nat, ops: Ops<V, Q>, x: V, ghost cs: seq<Config>)
    returns (out: Option<Hidden<V>>)
    requires Loaded(layers, cs) && forall i :: 0 <= i < |cs| ==> layers[i].Fresh()
    requires InDomain(cs) && Safe(cs, gnq, tp) && Lawful(ops, tp)
    modifies layers
    ensures out == Some(Stock(ops, cs, x, |cs|))
  {
    Install(layers, gnq, cs);
    out := RunStack(layers, ops, x, gnq, cs);
    StreamPreserves(ops, cs, gnq, tp, x, |cs|);
  }
}
