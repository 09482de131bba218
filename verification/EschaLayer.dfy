/** A coded linear from creation to output: the loaders keep a rank's part of every source, the checks
    accept or refuse it, and the kernels write the output side by side. */
module EschaLayer {
  import opened Basics
  import opened Escha

  function Mapped<A, B>(f: A -> B, s: seq<A>): (r: seq<B>)
    ensures |r| == |s| && forall i :: 0 <= i < |r| ==> r[i] == f(s[i])
  {
    seq(|s|, i requires 0 <= i < |s| => f(s[i]))
  }

  /** A code tensor: its tile columns, each rows tiles deep, words per tile, and whether it is int16. */
  datatype Code<T> = Code(rows: nat, tiles: seq<seq<T>>, words: nat, int16: bool)

  /** A source tensor of the checkpoint with its four scale vectors. */
  datatype Source<T, C> = Source(code: Code<T>, rin: seq<C>, rout: seq<C>, sIn: seq<C>, sOut: seq<C>)

  datatype Suffix = Rin | Rout | SIn | SOut {
    predicate OutSide() { Rout? || SOut? }
  }

  /** A layer as the model builds it: ranks, which axis is sharded, bits per source, input width per rank,
      output widths per rank, and the sources' whole output widths. */
  datatype Setup = Setup(tp: nat, rank: nat, row: bool, kbits: seq<nat>, ic: nat, parts: seq<nat>, out: seq<nat>) {
    predicate Valid() { rank < tp && |out| == |kbits| }

    /** The widths the sources contribute per rank: a row-parallel layer shards the input instead. */
    function Widths(): (ws: seq<nat>)
      requires Valid()
      ensures |ws| == |out| && forall i :: 0 <= i < |out| ==> ws[i] == PerRank(out[i])
    {
      seq(|out|, i requires 0 <= i < |out| => PerRank(out[i]))
    }

    function PerRank(w: nat): nat
      requires Valid()
    {
      w / if row then 1 else tp
    }
  }

  /** The code tensor a rank keeps of a source covering the partitions g. */
  function LoadedCode<T>(s: Setup, g: seq<nat>, t: Code<T>): Option<Code<T>>
    requires s.Valid()
  {
    if s.tp == 1 then Some(t)
    else if s.row then Some(NarrowRows(s, t))
    else if g == [] then None
    else
      var tiles := Slice(g, s.tp, s.rank, TILE, t.tiles, 0);
      if tiles.None? then None else Some(t.(tiles := tiles.value))
  }

  /** Rank r's rows: the tile rows of every tile column. */
  function NarrowRows<T>(s: Setup, t: Code<T>): Code<T>
    requires s.Valid()
  {
    var per := t.rows / s.tp;
    t.(rows := per, tiles := Mapped((c: seq<T>) => Cut(c, s.rank * per, per), t.tiles))
  }

  function Cut<T>(c: seq<T>, start: nat, len: nat): seq<T> {
    if start + len <= |c| then c[start..start + len] else []
  }

  /** The scale vector a rank keeps. */
  function LoadedVector<C>(s: Setup, g: seq<nat>, suffix: Suffix, v: seq<C>): Option<seq<C>>
    requires s.Valid()
  {
    if s.tp == 1 || suffix.OutSide() == s.row then Some(v)
    else if s.row then Narrow(v, s.rank * (|v| / s.tp), |v| / s.tp)
    else if g == [] then None
    else Slice(g, s.tp, s.rank, 1, v, 0)
  }

  /** What the loader has collected for one source. */
  datatype Raw<T, C> = Raw(code: Option<Code<T>>, rin: Option<seq<C>>, rout: Option<seq<C>>, sIn: Option<seq<C>>, sOut: Option<seq<C>>) {
    predicate Complete() { code.Some? && rout.Some? && sOut.Some? && rin.Some? && sIn.Some? }

    function Vector(suffix: Suffix): Option<seq<C>> {
      match suffix case Rin => rin case Rout => rout case SIn => sIn case SOut => sOut
    }

    function With(suffix: Suffix, v: seq<C>): (r: Raw<T, C>)
      ensures r.code == code && r.Vector(suffix) == Some(v)
      ensures forall t: Suffix :: t != suffix ==> r.Vector(t) == Vector(t)
    {
      match suffix
      case Rin => this.(rin := Some(v))
      case Rout => this.(rout := Some(v))
      case SIn => this.(sIn := Some(v))
      case SOut => this.(sOut := Some(v))
    }
  }

  function Width<T>(c: Code<T>): nat { |c.tiles| * TILE }

  function TotalWidth<T>(cs: seq<Code<T>>): nat {
    if cs == [] then 0 else TotalWidth(cs[..|cs| - 1]) + Width(cs[|cs| - 1])
  }

  /** A row-parallel layer takes the sources' widths whole, any other one its part of each. */
  lemma WidthsMean(s: Setup, i: nat)
    requires s.Valid() && i < |s.out|
    ensures s.Widths()[i] == if s.row then s.out[i] else s.out[i] / s.tp
  {
  }

  /** What one source's code must satisfy to be served. */
  predicate CodeOk<T>(c: Code<T>, kbits: nat, ic: nat) {
    c.int16 && c.words / 16 == kbits && c.rows * TILE == ic && Width(c) % HAD == 0
  }

  predicate ShardOk<T, C>(raw: Raw<T, C>, kbits: nat, ic: nat) {
    raw.Complete() && CodeOk(raw.code.value, kbits, ic)
  }

  /** What the kernel of one source is given. */
  datatype Shard<T, C> = Shard(code: Code<T>, rin: seq<C>, rout: seq<C>, sIn: seq<C>, sOut: seq<C>, kbits: nat)

  function ShardOf<T, C>(raw: Raw<T, C>, kbits: nat): Shard<T, C>
    requires raw.Complete()
  {
    Shard(raw.code.value, raw.rin.value, raw.rout.value, raw.sIn.value, raw.sOut.value, kbits)
  }

  /** The kernel is told the width in bits that its code has, and given all that was loaded. */
  lemma ShardGiven<T, C>(raw: Raw<T, C>, kbits: nat, ic: nat)
    requires ShardOk(raw, kbits, ic)
    ensures var sh := ShardOf(raw, kbits);
            && sh.kbits == kbits == sh.code.words / 16 && raw.code == Some(sh.code)
            && raw.rin == Some(sh.rin) && raw.rout == Some(sh.rout) && raw.sIn == Some(sh.sIn) && raw.sOut == Some(sh.sOut)
  {
  }

  /** What rank keeps of a source once everything of it has been loaded; none if the loader fails on it. */
  function LoadedRaw<T, C>(s: Setup, g: seq<nat>, t: Source<T, C>): Option<Raw<T, C>>
    requires s.Valid()
  {
    var r := Raw(LoadedCode(s, g, t.code), LoadedVector(s, g, Rin, t.rin), LoadedVector(s, g, Rout, t.rout),
                 LoadedVector(s, g, SIn, t.sIn), LoadedVector(s, g, SOut, t.sOut));
    if r.Complete() then Some(r) else None
  }

  /** A coded linear. */
  class CodedLinear<T(!new), C(!new)> {
    const setup: Setup
    var srcW: seq<nat>
    var groups: seq<seq<nat>>
    var raw: seq<Raw<T, C>>
    var shards: seq<Shard<T, C>>

    constructor (setup: Setup)
      requires setup.Valid()
      ensures this.setup == setup
    {
      this.setup := setup;
      srcW, groups, raw, shards := [], [], [], [];
    }

    method CreateWeights() returns (ok: bool)
      requires setup.Valid()
      modifies this`srcW, this`groups, this`raw
      ensures ok <==> setup.ic % HAD == 0 && Fits(setup.Widths(), setup.parts)
      ensures ok ==>
                && srcW == setup.Widths() && Group(srcW, setup.parts) == Some(groups) && |raw| == |groups| == |setup.kbits|
                && forall i :: 0 <= i < |raw| ==> raw[i] == Raw(None, None, None, None, None)
    {
      GroupIff(setup.Widths(), setup.parts);
      if setup.ic % HAD != 0 {
        return false;
      }
      srcW := setup.Widths();
      var g := CreateGroups(srcW, setup.parts);
      if g.None? {
        return false;
      }
      groups := g.value;
      raw := seq(|setup.kbits|, _ => Raw(None, None, None, None, None));
      ok := true;
    }

    /** The loader, for a source's code tensor. */
    method LoadCode(i: nat, t: Code<T>) returns (ok: bool)
      requires setup.Valid() && i < |groups| == |raw|
      modifies this`raw
      ensures ok <==> LoadedCode(setup, groups[i], t).Some?
      ensures raw == if ok then old(raw)[i := old(raw)[i].(code := LoadedCode(setup, groups[i], t))] else old(raw)
    {
      var kept := Some(t);
      if setup.tp > 1 {
        if setup.row {
          kept := Some(NarrowRows(setup, t));
        } else if groups[i] == [] {
          return false;
        } else {
          var tiles := LoadColumns(groups[i], setup.tp, setup.rank, TILE, t.tiles);
          kept := if tiles.None? then None else Some(t.(tiles := tiles.value));
        }
      }
      if kept.None? {
        return false;
      }
      raw := raw[i := raw[i].(code := kept)];
      ok := true;
    }

    /** The loader, for one of a source's scale vectors. */
    method LoadVector(i: nat, suffix: Suffix, v: seq<C>) returns (ok: bool)
      requires setup.Valid() && i < |groups| == |raw|
      modifies this`raw
      ensures ok <==> LoadedVector(setup, groups[i], suffix, v).Some?
      ensures raw == if ok then old(raw)[i := old(raw)[i].With(suffix, LoadedVector(setup, groups[i], suffix, v).value)] else old(raw)
    {
      var kept := Some(v);
      if setup.tp > 1 {
        if setup.row {
          if !suffix.OutSide() {
            var per := |v| / setup.tp;
            kept := Narrow(v, setup.rank * per, per);
          }
        } else if suffix.OutSide() {
          if groups[i] == [] {
            return false;
          }
          kept := LoadColumns(groups[i], setup.tp, setup.rank, 1, v);
        }
      }
      if kept.None? {
        return false;
      }
      raw := raw[i := raw[i].With(suffix, kept.value)];
      ok := true;
    }

    /** The checks after loading, and the lists the kernels are called with. */
    method Process() returns (ok: bool)
      requires |raw| == |setup.kbits|
      modifies this`shards, this`raw
      ensures ok <==>
                && (forall i :: 0 <= i < |old(raw)| ==> ShardOk(old(raw)[i], setup.kbits[i], setup.ic))
                && TotalWidth(Codes(old(raw))) == Sum(setup.parts)
      ensures ok ==> raw == [] && |shards| == |setup.kbits| && forall i :: 0 <= i < |shards| ==> shards[i] == ShardOf(old(raw)[i], setup.kbits[i])
    {
      hide CodeOk, Width, Codes, TotalWidth;
      var list: seq<Shard<T, C>>, got, loaded := [], 0, raw;
      NoCodes<T, C>();
      assert loaded[..0] == [];
      for i := 0 to |loaded|
        invariant forall k :: 0 <= k < i ==> ShardOk(loaded[k], setup.kbits[k], setup.ic)
        invariant |list| == i && forall k :: 0 <= k < i ==> list[k] == ShardOf(loaded[k], setup.kbits[k])
        invariant got == TotalWidth(Codes(loaded[..i]))
      {
        if !ShardOk(loaded[i], setup.kbits[i], setup.ic) {
          return false;
        }
        OneMoreCode(loaded[..i + 1]);
        assert loaded[..i + 1][..i] == loaded[..i];
        list := list + [ShardOf(loaded[i], setup.kbits[i])];
        got := got + Width(loaded[i].code.value);
      }
      assert loaded[..|loaded|] == loaded;
      if got != Sum(setup.parts) {
        return false;
      }
      shards, raw := list, [];
      ok := true;
    }

    /** Each source's kernel writes its own columns of one output buffer, one after the other. */
    method Apply<V(0)>(linear: Shard<T, C> -> seq<V>) returns (out: array<V>)
      requires forall i :: 0 <= i < |shards| ==> |linear(shards[i])| == Width(shards[i].code)
      requires Sum(setup.parts) == |Flatten(Mapped(linear, shards))|
      ensures fresh(out) && out.Length == Sum(setup.parts) && out[..] == Flatten(Mapped(linear, shards))
    {
      hide Flatten, Sum;
      out := new V[Sum(setup.parts)];
      var col := 0;
      ghost var ys := Mapped(linear, shards);
      assert ys[0..] == ys && out[..0] == [];
      for i := 0 to |shards|
        invariant 0 <= col <= out.Length && out.Length == col + |Flatten(ys[i..])|
        invariant out[..col] + Flatten(ys[i..]) == Flatten(ys)
      {
        FlattenAt(ys, i, out[..col]);
        WriteInto(out, col, linear(shards[i]));
        assert out[..col + |ys[i]|] == out[..col] + ys[i];
        col := col + |shards[i].code.tiles| * TILE;
      }
      assert ys[|ys|..] == [];
      FlattenNothing<V>();
      assert out[..col] == out[..];
    }

    /** Everything a checkpoint holds for the layer, source by source. */
    method Load(sources: seq<Source<T, C>>) returns (ok: bool)
      requires setup.Valid() && |sources| == |groups| == |raw|
      modifies this`raw
      ensures ok <==> AllLoad(setup, groups, sources)
      ensures ok ==> raw == AllRaw(setup, groups, sources)
    {
      hide LoadedCode, LoadedVector;
      for i := 0 to |sources|
        invariant |raw| == |groups|
        invariant forall k :: 0 <= k < i ==> LoadedRaw(setup, groups[k], sources[k]) == Some(raw[k])
      {
        var t := sources[i];
        var c := LoadCode(i, t.code);
        if !c { return false; }
        c := LoadVector(i, Rin, t.rin);
        if !c { return false; }
        c := LoadVector(i, Rout, t.rout);
        if !c { return false; }
        c := LoadVector(i, SIn, t.sIn);
        if !c { return false; }
        c := LoadVector(i, SOut, t.sOut);
        if !c { return false; }
      }
      ok := true;
    }

    /** A layer's whole life: create it, load every source, check it, and compute one output row.  It
        fails exactly when the layer is not accepted. */
    method Serve<V(0)>(sources: seq<Source<T, C>>, linear: Shard<T, C> -> seq<V>) returns (ok: bool, y: seq<V>)
      requires setup.Valid() && |sources| == |setup.kbits|
      requires forall sh: Shard<T, C> :: |linear(sh)| == Width(sh.code)
      modifies this
      ensures ok <==> Accepts(setup, sources)
      ensures ok ==> y == Flatten(Mapped(linear, Shards(setup, sources))) && |y| == Sum(setup.parts)
    {
      hide Accepts, Shards, AllLoad, Fits, Group, TotalWidth, Codes;
      y := [];
      GroupIff(setup.Widths(), setup.parts);
      AcceptsIff(setup, sources);
      ok := CreateWeights();
      if !ok {
        return;
      }
      ok := Load(sources);
      if !ok {
        return;
      }
      ghost var loaded := raw;
      ok := Process();
      if !ok {
        return;
      }
      ShardsAre(setup, sources, loaded, shards);
      TotalIsFlat(shards, Codes(loaded), linear);
      var out := Apply(linear);
      y := out[..];
    }
  }

  lemma FlattenAt<V>(ys: seq<seq<V>>, i: nat, front: seq<V>)
    requires i < |ys|
    ensures |Flatten(ys[i..])| == |ys[i]| + |Flatten(ys[i + 1..])|
    ensures front + Flatten(ys[i..]) == (front + ys[i]) + Flatten(ys[i + 1..])
  {
    assert ys[i..][0] == ys[i] && ys[i..][1..] == ys[i + 1..];
    assert front + (ys[i] + Flatten(ys[i + 1..])) == (front + ys[i]) + Flatten(ys[i + 1..]);
  }

  lemma FlattenNothing<V>()
    ensures Flatten<V>([]) == []
  {
  }

  method WriteInto<V>(out: array<V>, col: nat, y: seq<V>)
    requires col + |y| <= out.Length
    modifies out
    ensures out[..col] == old(out[..col]) && out[col..col + |y|] == y
  {
    for k := 0 to |y|
      invariant out[..col] == old(out[..col])
      invariant out[col..col + k] == y[..k]
    {
      out[col + k] := y[k];
    }
  }

  lemma NoCodes<T, C>()
    ensures Codes<T, C>([]) == [] && TotalWidth<T>([]) == 0
  {
  }

  lemma {:induction false} OneMoreCode<T, C>(raw: seq<Raw<T, C>>)
    requires raw != [] && raw[|raw| - 1].code.Some?
    ensures TotalWidth(Codes(raw)) == TotalWidth(Codes(raw[..|raw| - 1])) + Width(raw[|raw| - 1].code.value)
  {
    var front, c := Codes(raw[..|raw| - 1]), raw[|raw| - 1].code.value;
    assert (front + [c])[..|front|] == front;
  }

  /** The code tensors collected, in source order. */
  function Codes<T, C>(raw: seq<Raw<T, C>>): (cs: seq<Code<T>>)
    ensures (forall i :: 0 <= i < |raw| ==> raw[i].code.Some?) ==> |cs| == |raw| && forall i :: 0 <= i < |raw| ==> cs[i] == raw[i].code.value
  {
    if raw == [] then []
    else
      var n := |raw| - 1;
      Codes(raw[..n]) + if raw[n].code.Some? then [raw[n].code.value] else []
  }


  // ----- the accepted layers ---------------------------------------------------------------------------

  predicate AllLoad<T, C>(s: Setup, groups: seq<seq<nat>>, sources: seq<Source<T, C>>)
    requires s.Valid() && |groups| == |sources|
  {
    forall i :: 0 <= i < |sources| ==> LoadedRaw(s, groups[i], sources[i]).Some?
  }

  function AllRaw<T, C>(s: Setup, groups: seq<seq<nat>>, sources: seq<Source<T, C>>): (raw: seq<Raw<T, C>>)
    requires s.Valid() && |groups| == |sources| && AllLoad(s, groups, sources)
    ensures |raw| == |sources| && forall i :: 0 <= i < |raw| ==> raw[i] == LoadedRaw(s, groups[i], sources[i]).value && raw[i].Complete()
  {
    seq(|sources|, i requires 0 <= i < |sources| => LoadedRaw(s, groups[i], sources[i]).value)
  }

  /** A rank loads these sources and passes every check. */
  predicate Accepts<T, C>(s: Setup, sources: seq<Source<T, C>>)
    requires s.Valid() && |sources| == |s.kbits|
  {
    && s.ic % HAD == 0 && Group(s.Widths(), s.parts).Some?
    && var groups := Group(s.Widths(), s.parts).value;
    && AllLoad(s, groups, sources)
    && var raw := AllRaw(s, groups, sources);
    && (forall i :: 0 <= i < |raw| ==> CodeOk(raw[i].code.value, s.kbits[i], s.ic))
    && TotalWidth(Codes(raw)) == Sum(s.parts)
  }

  lemma AcceptsIff<T, C>(s: Setup, sources: seq<Source<T, C>>)
    requires s.Valid() && |sources| == |s.kbits|
    ensures var g := Group(s.Widths(), s.parts);
            if s.ic % HAD != 0 || g.None? || !AllLoad(s, g.value, sources) then !Accepts(s, sources)
            else
              var raw := AllRaw(s, g.value, sources);
              Accepts(s, sources) <==> (forall i :: 0 <= i < |raw| ==> ShardOk(raw[i], s.kbits[i], s.ic)) && TotalWidth(Codes(raw)) == Sum(s.parts)
  {
    hide Group, TotalWidth, Codes, AllLoad, CodeOk;
  }

  lemma ShardsAre<T, C>(s: Setup, sources: seq<Source<T, C>>, raw: seq<Raw<T, C>>, shards: seq<Shard<T, C>>)
    requires s.Valid() && |sources| == |s.kbits| && Accepts(s, sources)
    requires raw == AllRaw(s, Group(s.Widths(), s.parts).value, sources) && |shards| == |raw|
    requires forall i :: 0 <= i < |shards| ==> shards[i] == ShardOf(raw[i], s.kbits[i])
    ensures shards == Shards(s, sources)
  {
  }

  /** What the kernels of an accepted layer are called with. */
  function Shards<T, C>(s: Setup, sources: seq<Source<T, C>>): (r: seq<Shard<T, C>>)
    requires s.Valid() && |sources| == |s.kbits| && Accepts(s, sources)
    ensures |r| == |sources|
  {
    var raw := AllRaw(s, Group(s.Widths(), s.parts).value, sources);
    seq(|raw|, i requires 0 <= i < |raw| => ShardOf(raw[i], s.kbits[i]))
  }

  /** The columns covered by the sources' slices. */
  lemma {:induction false} TotalIsCovered<T>(groups: seq<seq<nat>>, cs: seq<Code<T>>)
    requires |cs| == |groups| && forall i :: 0 <= i < |cs| ==> Width(cs[i]) == Covered(groups[i])
    ensures TotalWidth(cs) == Covered(Flatten(groups))
  {
    if groups != [] {
      var n := |groups| - 1;
      TotalIsCovered(groups[..n], cs[..n]);
      FlattenSnoc(groups);
      CoveredConcat(Flatten(groups[..n]), groups[n]);
    }
  }

  lemma NarrowMapped<A, B>(f: A -> B, t: seq<A>, start: nat, len: nat)
    ensures var p := Narrow(t, start, len); Narrow(Mapped(f, t), start, len) == if p.None? then None else Some(Mapped(f, p.value))
  {
    if start + len <= |t| {
      assert Mapped(f, t)[start..start + len] == Mapped(f, t[start..start + len]);
    }
  }

  lemma MappedConcat<A, B>(f: A -> B, a: seq<A>, b: seq<A>)
    ensures Mapped(f, a + b) == Mapped(f, a) + Mapped(f, b)
  {
  }

  /** Slicing commutes with encoding entry by entry. */
  lemma {:induction false} SliceMapped<A, B>(g: seq<nat>, tp: nat, r: nat, unit: nat, f: A -> B, t: seq<A>, off: nat)
    requires unit > 0
    ensures var s := Slice(g, tp, r, unit, t, off);
            Slice(g, tp, r, unit, Mapped(f, t), off) == if s.None? then None else Some(Mapped(f, s.value))
  {
    hide Slice;
    if g == [] {
      SliceEnd(tp, r, unit, t, off);
      SliceEnd(tp, r, unit, Mapped(f, t), off);
    } else {
      SliceCases(g, tp, r, unit, t, off);
      SliceCases(g, tp, r, unit, Mapped(f, t), off);
      NarrowMapped(f, t, (off + r * g[0]) / unit, g[0] / unit);
      var next := off + g[0] * tp;
      SliceMapped(g[1..], tp, r, unit, f, t, next);
      var piece, rest := Narrow(t, (off + r * g[0]) / unit, g[0] / unit), Slice(g[1..], tp, r, unit, t, next);
      if piece.Some? && rest.Some? {
        MappedConcat(f, piece.value, rest.value);
      }
    }
  }

  /** How source i is encoded: tile column j of its code encodes its columns 16 * j to 16 * j + 15. */
  ghost predicate Encodes<W, T>(enc: seq<W> -> seq<T>, columns: seq<W>, code: Code<T>) {
    code.tiles == Mapped(enc, Blocks(columns, TILE))
  }

  /** The columns of source i that this rank is to compute. */
  ghost function OwnColumns<W>(s: Setup, i: nat, columns: seq<W>): Option<seq<W>>
    requires s.Valid() && Group(s.Widths(), s.parts).Some? && i < |s.out|
  {
    Slice(Group(s.Widths(), s.parts).value[i], s.tp, s.rank, 1, columns, 0)
  }

  lemma ProductFloor(w: nat, d: nat)
    requires d > 0
    ensures w / d * d <= w
  {
    assert w == w / d * d + w % d;
  }

  lemma GroupWidth(s: Setup, i: nat)
    requires s.Valid() && Group(s.Widths(), s.parts).Some? && i < |s.out| && !s.row
    ensures var g := Group(s.Widths(), s.parts).value[i]; Sum(g) == s.out[i] / s.tp && Sum(g) * s.tp <= s.out[i]
  {
    hide Sum;
    GroupStart(s.Widths(), s.parts, i);
    ProductFloor(s.out[i], s.tp);
  }

  lemma AcceptedWidths<T, C>(s: Setup, sources: seq<Source<T, C>>)
    requires s.Valid() && |sources| == |s.kbits| && !s.row && s.tp > 1 && Accepts(s, sources)
    ensures Multiples(s.parts, TILE) && Sum(s.Widths()) == Sum(s.parts)
  {
    hide Slice, Group, CodeOk, Sum;
    var groups := Group(s.Widths(), s.parts).value;
    var raw := AllRaw(s, groups, sources);
    var cs := Codes(raw);
    forall i | 0 <= i < |cs| ensures Width(cs[i]) == Covered(groups[i]) {
      assert cs[i] == LoadedCode(s, groups[i], sources[i].code).value;
      SliceSize(groups[i], s.tp, s.rank, sources[i].code.tiles, 0);
    }
    TotalIsCovered(groups, cs);
    CheckForcesTiles(s.Widths(), s.parts);
  }

  /** The main theorem for a column-parallel layer at tp > 1.  If a rank accepts it, every output
      partition is a whole number of tiles, the sources' widths add up to the partitions', and each code
      slice encodes exactly the columns that the source's scale vectors were sliced to, as many as its
      partitions have. */
  lemma LoadedExactly<W, T, C>(s: Setup, sources: seq<Source<T, C>>, enc: seq<W> -> seq<T>, columns: seq<seq<W>>, i: nat)
    requires s.Valid() && |sources| == |s.kbits| == |columns| && !s.row && s.tp > 1 && Accepts(s, sources)
    requires i < |columns| && |columns[i]| == s.out[i] && Encodes(enc, columns[i], sources[i].code)
    ensures Multiples(s.parts, TILE) && Sum(s.Widths()) == Sum(s.parts)
    ensures var own, sh := OwnColumns(s, i, columns[i]), Shards(s, sources)[i];
            && own.Some? && |own.value| == s.Widths()[i] == Width(sh.code) && Encodes(enc, own.value, sh.code)
            && Some(sh.rout) == OwnColumns(s, i, sources[i].rout) && Some(sh.sOut) == OwnColumns(s, i, sources[i].sOut)
            && sh.rin == sources[i].rin && sh.sIn == sources[i].sIn
  {
    hide Slice, Blocks, Group, CodeOk, Sum, Codes, TotalWidth, Multiples;
    var groups := Group(s.Widths(), s.parts).value;
    var g, v := groups[i], columns[i];
    AcceptedWidths(s, sources);
    GroupWidth(s, i);
    GroupMultiples(s, i);
    NoOffset(TILE);
    SlicesAreBlocks(g, s.tp, s.rank, TILE, v, 0);
    SliceMapped(g, s.tp, s.rank, TILE, enc, Blocks(v, TILE), 0);
    var own := Slice(g, s.tp, s.rank, 1, v, 0).value;
    assert Shards(s, sources)[i].code.tiles == Mapped(enc, Blocks(own, TILE));
    WholeTiles(own, g);
  }

  lemma GroupMultiples(s: Setup, i: nat)
    requires s.Valid() && Group(s.Widths(), s.parts).Some? && i < |s.out| && Multiples(s.parts, TILE)
    ensures Multiples(Group(s.Widths(), s.parts).value[i], TILE)
  {
    hide Group;
    var groups := Group(s.Widths(), s.parts).value;
    GroupsInOrder(s.Widths(), s.parts);
    forall k | 0 <= k < |groups[i]| ensures groups[i][k] % TILE == 0 {
      FlattenHas(groups, i, k);
    }
  }

  /** Columns of whole tiles are as many as their tiles have. */
  lemma WholeTiles<W>(own: seq<W>, g: seq<nat>)
    requires |own| == Sum(g) && Multiples(g, TILE)
    ensures |Blocks(own, TILE)| * TILE == |own|
  {
    hide Sum, Blocks;
    SumMultiple(g, TILE);
    WholeBlocks(|own|, TILE);
    BlocksSize(own, TILE, |own| / TILE);
  }

  lemma {:induction false} SumMultiple(g: seq<nat>, unit: nat)
    requires unit > 0 && Multiples(g, unit)
    ensures Sum(g) % unit == 0
  {
    if g != [] {
      SumMultiple(g[1..], unit);
      MultiplesAdd(g[0], Sum(g[1..]), unit);
    }
  }

  lemma MultiplesAdd(a: nat, b: nat, unit: nat)
    requires unit > 0 && a % unit == 0 && b % unit == 0
    ensures (a + b) % unit == 0
  {
    var p, q := a / unit, b / unit;
    assert a == p * unit && b == q * unit;
    assert (p + q) * unit == p * unit + q * unit;
    QuotientUnique(p + q, 0, unit);
  }

  /** Output parts side by side: each stands where the widths before it end. */
  lemma {:induction false} PartPlaced<V>(ys: seq<seq<V>>, ws: seq<nat>, i: nat)
    requires |ys| == |ws| && i < |ys| && forall k :: 0 <= k < |ys| ==> |ys[k]| == ws[k]
    ensures Sum(ws[..i]) + ws[i] <= |Flatten(ys)| == Sum(ws)
    ensures Flatten(ys)[Sum(ws[..i])..Sum(ws[..i]) + ws[i]] == ys[i]
  {
    FlattenSize(ys, ws);
    if i == 0 {
      assert ws[..0] == [];
    } else {
      PartPlaced(ys[1..], ws[1..], i - 1);
      assert ws[..i][1..] == ws[1..][..i - 1];
    }
  }

  lemma {:induction false} FlattenSize<V>(ys: seq<seq<V>>, ws: seq<nat>)
    requires |ys| == |ws| && forall k :: 0 <= k < |ys| ==> |ys[k]| == ws[k]
    ensures |Flatten(ys)| == Sum(ws)
  {
    if ys != [] {
      FlattenSize(ys[1..], ws[1..]);
    }
  }

  lemma {:induction false} TotalIsFlat<T, C, V>(shards: seq<Shard<T, C>>, cs: seq<Code<T>>, linear: Shard<T, C> -> seq<V>)
    requires |cs| == |shards|
    requires forall i :: 0 <= i < |shards| ==> shards[i].code == cs[i] && |linear(shards[i])| == Width(cs[i])
    ensures |Flatten(Mapped(linear, shards))| == TotalWidth(cs)
  {
    if shards != [] {
      var n := |shards| - 1;
      TotalIsFlat(shards[..n], cs[..n], linear);
      FlattenSnoc(Mapped(linear, shards));
      assert Mapped(linear, shards)[..n] == Mapped(linear, shards[..n]);
    }
  }

  /** Every output column of an accepted column-parallel layer comes from the one source that holds its
      partition: source i fills the columns of its own group of partitions. */
  lemma EveryColumnOnce<T, C, V>(s: Setup, sources: seq<Source<T, C>>, linear: Shard<T, C> -> seq<V>, i: nat)
    requires s.Valid() && |sources| == |s.kbits| && !s.row && s.tp > 1 && Accepts(s, sources) && i < |sources|
    requires forall k :: 0 <= k < |sources| ==> |linear(Shards(s, sources)[k])| == Width(Shards(s, sources)[k].code)
    ensures var y, groups := Flatten(Mapped(linear, Shards(s, sources))), Group(s.Widths(), s.parts).value;
            && |y| == Sum(s.parts) && Starts(groups, i) <= Starts(groups, i + 1) <= |s.parts|
            && var lo, hi := Sum(s.parts[..Starts(groups, i)]), Sum(s.parts[..Starts(groups, i + 1)]);
            && lo <= hi <= |y| && y[lo..hi] == linear(Shards(s, sources)[i])
  {
    hide Slice, Group, CodeOk, Sum, Codes, TotalWidth, Starts;
    var ws, groups := s.Widths(), Group(s.Widths(), s.parts).value;
    AcceptedWidths(s, sources);
    forall k | 0 <= k < |sources| ensures Width(Shards(s, sources)[k].code) == ws[k] {
      GroupStart(ws, s.parts, k);
      GroupMultiples(s, k);
      SliceSize(groups[k], s.tp, s.rank, sources[k].code.tiles, 0);
      CoverageIff(groups[k]);
    }
    GroupStart(ws, s.parts, i);
    GroupStart(ws, s.parts, i + 1);
    StartsMono(groups, i, i + 1);
    SumPrefix(ws, i, i + 1);
    SumOne(ws[i]);
    assert ws[i..i + 1] == [ws[i]];
    PartPlaced(Mapped(linear, Shards(s, sources)), ws, i);
  }

  // ----- the transform's blocks -----------------------------------------------------------------------

  /** What a rank of a column-parallel layer keeps of a vector over a source's output columns. */
  function Kept<C>(g: seq<nat>, tp: nat, r: nat, v: seq<C>): Option<seq<C>> {
    if tp <= 1 then Some(v) else Slice(g, tp, r, 1, v, 0)
  }

  /** No rank's slice cuts a 128-wide block of the source: each of its blocks is one of the source's. */
  ghost predicate Uncut<C(!new)>(g: seq<nat>, tp: nat, v: seq<C>) {
    forall r: nat :: r < tp ==>
      var k := Kept(g, tp, r, v);
      k.Some? && forall b :: b in Blocks(k.value, HAD) ==> b in Blocks(v, HAD)
  }

  lemma {:induction false} SliceOfBlocks<C>(g: seq<nat>, tp: nat, r: nat, unit: nat, t: seq<C>, off: nat)
    requires unit > 0 && Slice(g, tp, r, unit, t, off).Some?
    ensures forall b :: b in Slice(g, tp, r, unit, t, off).value ==> b in t
  {
    hide Slice;
    if g == [] {
      SliceEnd(tp, r, unit, t, off);
    } else {
      SliceCases(g, tp, r, unit, t, off);
      SliceOfBlocks(g[1..], tp, r, unit, t, off + g[0] * tp);
    }
  }

  lemma MultiplesUncut<C(!new)>(g: seq<nat>, tp: nat, v: seq<C>)
    requires Multiples(g, HAD) && Sum(g) * tp <= |v|
    ensures Uncut(g, tp, v)
  {
    hide Slice, Blocks, Sum, Multiples;
    NoOffset(HAD);
    if tp > 1 {
      forall r: nat | r < tp
        ensures Slice(g, tp, r, 1, v, 0).Some?
        ensures forall b :: b in Blocks(Slice(g, tp, r, 1, v, 0).value, HAD) ==> b in Blocks(v, HAD)
      {
        SlicesAreBlocks(g, tp, r, HAD, v, 0);
        SliceOfBlocks(g, tp, r, HAD, Blocks(v, HAD), 0);
      }
    }
  }

  lemma {:induction false} BlockAt<C>(v: seq<C>, unit: nat, k: nat)
    requires unit > 0 && Offset(k, unit) + unit <= |v|
    ensures k < |Blocks(v, unit)| && Blocks(v, unit)[k] == v[Offset(k, unit)..Offset(k, unit) + unit]
  {
    hide Blocks, Offset;
    OffsetIsProduct(1, unit);
    BlocksOfRange(v, unit, k, 1);
    OneBlock(v[Offset(k, unit)..Offset(k, unit) + unit], unit);
    assert Blocks(v, unit)[k..k + 1][0] == Blocks(v, unit)[k];
  }

  lemma OneBlock<C>(v: seq<C>, unit: nat)
    requires unit > 0 && |v| == unit
    ensures Blocks(v, unit) == [v]
  {
    assert v[..unit] == v && v[unit..] == [];
  }

  /** Neighbours in a block are neighbours in the vector. */
  lemma {:induction false} BlockRuns<C>(v: seq<C>, unit: nat, b: seq<C>, j: nat)
    requires unit > 0 && b in Blocks(v, unit) && j + 1 < |b|
    ensures exists x: nat :: x + 1 < |v| && v[x] == b[j] && v[x + 1] == b[j + 1]
  {
    assert unit <= |v|;
    if b == v[..unit] {
      assert j + 1 < |v| && v[j] == b[j] && v[j + 1] == b[j + 1];
    } else {
      BlockRuns(v[unit..], unit, b, j);
      var x: nat :| x + 1 < |v[unit..]| && v[unit..][x] == b[j] && v[unit..][x + 1] == b[j + 1];
      assert v[x + unit] == b[j] && v[x + unit + 1] == b[j + 1];
    }
  }

  /** The first column rank 0 keeps of some partitions is their first. */
  lemma {:induction false} FirstKept<C>(g: seq<nat>, tp: nat, v: seq<C>, off: nat)
    requires Sum(g) > 0 && off + Sum(g) * tp <= |v| && tp > 0
    ensures var s := Slice(g, tp, 0, 1, v, off); s.Some? && |s.value| == Sum(g) && s.value[0] == v[off]
  {
    hide Slice;
    PieceFits(off, 0, tp, g[0], Sum(g[1..]));
    SliceCases(g, tp, 0, 1, v, off);
    KeptSize(g[1..], tp, v, off + g[0] * tp);
    if g[0] == 0 {
      FirstKept(g[1..], tp, v, off);
    }
  }

  lemma {:induction false} KeptSize<C>(g: seq<nat>, tp: nat, v: seq<C>, off: nat)
    requires off + Sum(g) * tp <= |v| && tp > 0
    ensures Slice(g, tp, 0, 1, v, off).Some? && |Slice(g, tp, 0, 1, v, off).value| == Sum(g)
  {
    hide Slice;
    if g == [] {
      SliceEnd(tp, 0, 1, v, off);
    } else {
      PieceFits(off, 0, tp, g[0], Sum(g[1..]));
      SliceCases(g, tp, 0, 1, v, off);
      KeptSize(g[1..], tp, v, off + g[0] * tp);
    }
  }

  /** A first partition of a width that is no multiple of 128 leaves rank 0 a block in which the last of
      its own columns stands next to the first of a later one's. */
  lemma {:induction false} MixedBlock<C>(g: seq<nat>, tp: nat, v: seq<C>, off: nat)
    requires tp > 1 && g != [] && g[0] % HAD != 0 && Sum(g) % HAD == 0 && off + Sum(g) * tp <= |v|
    ensures Slice(g, tp, 0, 1, v, off).Some? && 0 < off + g[0] <= |v| && off + g[0] * tp < |v|
    ensures exists b :: b in Blocks(Slice(g, tp, 0, 1, v, off).value, HAD) &&
              g[0] % HAD < |b| && b[g[0] % HAD - 1] == v[off + g[0] - 1] && b[g[0] % HAD] == v[off + g[0] * tp]
  {
    hide Slice, Blocks, Sum;
    var w := g[0];
    SumCons(g);
    StartsNext(g, tp, v, off);
    BlockAround(Slice(g, tp, 0, 1, v, off).value, w);
  }

  /** Rank 0 keeps a first partition's columns and then the first column of the next. */
  lemma {:induction false} StartsNext<C>(g: seq<nat>, tp: nat, v: seq<C>, off: nat)
    requires tp > 1 && g != [] && g[0] > 0 && Sum(g) > g[0] && off + Sum(g) * tp <= |v|
    ensures Slice(g, tp, 0, 1, v, off).Some? && |Slice(g, tp, 0, 1, v, off).value| == Sum(g)
    ensures off + g[0] <= |v| && off + g[0] * tp < |v|
    ensures var s := Slice(g, tp, 0, 1, v, off).value; s[g[0] - 1] == v[off + g[0] - 1] && s[g[0]] == v[off + g[0] * tp]
  {
    hide Slice, Sum;
    var w, rest := g[0], g[1..];
    SumCons(g);
    PieceFits(off, 0, tp, w, Sum(rest));
    MulGap(0, Sum(rest), tp);
    FirstKept(rest, tp, v, off + w * tp);
    SliceCases(g, tp, 0, 1, v, off);
    assert (off + 0 * w) / 1 == off && w / 1 == w;
  }

  /** The block of s that holds place w, when w does not start one. */
  lemma {:induction false} BlockAround<C>(s: seq<C>, w: nat)
    requires w % HAD != 0 && w < |s| && |s| % HAD == 0
    ensures exists b :: b in Blocks(s, HAD) && w % HAD < |b| && b[w % HAD - 1] == s[w - 1] && b[w % HAD] == s[w]
  {
    hide Blocks;
    var q := w / HAD;
    OffsetIsProduct(q, HAD);
    var lo := Offset(q, HAD);
    assert w == lo + w % HAD && lo + HAD <= |s|;
    BlockAt(s, HAD, q);
    var b := s[lo..lo + HAD];
    assert b[w % HAD - 1] == s[w - 1] && b[w % HAD] == s[w];
    assert b in Blocks(s, HAD);
  }

  lemma {:induction false} UncutOnlyIf<C>(g: seq<nat>, tp: nat, v: seq<C>, off: nat)
    requires tp > 1 && Sum(g) % HAD == 0 && off + Sum(g) * tp <= |v| && Distinct(v)
    requires Slice(g, tp, 0, 1, v, off).Some?
    requires forall b :: b in Blocks(Slice(g, tp, 0, 1, v, off).value, HAD) ==> b in Blocks(v, HAD)
    ensures Multiples(g, HAD)
  {
    hide Slice, Blocks, Sum, Distinct;
    if g != [] {
      var w, s := g[0], Slice(g, tp, 0, 1, v, off).value;
      SumCons(g);
      if w % HAD != 0 {
        MixedBlock(g, tp, v, off);
        var b :| b in Blocks(s, HAD) && w % HAD < |b| && b[w % HAD - 1] == v[off + w - 1] && b[w % HAD] == v[off + w * tp];
        BlockRuns(v, HAD, b, w % HAD - 1);
        var x: nat :| x + 1 < |v| && v[x] == b[w % HAD - 1] && v[x + 1] == b[w % HAD];
        NotNeighbours(v, x, off, w, tp);
      } else {
        PieceFits(off, 0, tp, w, Sum(g[1..]));
        SliceCases(g, tp, 0, 1, v, off);
        KeptSize(g[1..], tp, v, off + w * tp);
        WholeBlocks(w, HAD);
        BlocksDrop(s, HAD, w / HAD);
        assert s[w..] == Slice(g[1..], tp, 0, 1, v, off + w * tp).value;
        ModDifference(w, Sum(g[1..]));
        UncutOnlyIf(g[1..], tp, v, off + w * tp);
        forall i | 0 <= i < |g| ensures g[i] % HAD == 0 {
          assert i > 0 ==> g[i] == g[1..][i - 1];
        }
      }
    }
  }

  lemma NotNeighbours<C>(v: seq<C>, x: nat, off: nat, w: nat, tp: nat)
    requires Distinct(v) && tp > 1 && w > 0 && off + w * tp < |v| && x + 1 < |v|
    requires v[x] == v[off + w - 1]
    ensures v[x + 1] != v[off + w * tp]
  {
    MulGap(1, tp, w);
    assert x == off + w - 1;
  }

  lemma ModDifference(a: nat, w: nat)
    requires a % HAD == 0 && (a + w) % HAD == 0
    ensures w % HAD == 0
  {
    var p, q := a / HAD, (a + w) / HAD;
    assert w == (q - p) * HAD;
    QuotientUnique(q - p, 0, HAD);
  }

  /** The load check asks that a source's width per rank be a multiple of 128, so that no block of the
      output transform is cut.  With that check passed, none is cut, on any rank, exactly when the tensor
      is not sliced at all or each of its partitions is a multiple of 128. */
  lemma TransformUncutIff<C(!new)>(g: seq<nat>, tp: nat, v: seq<C>)
    requires tp > 0 && Sum(g) % HAD == 0 && Sum(g) * tp <= |v| && Distinct(v)
    ensures Uncut(g, tp, v) <==> tp == 1 || Multiples(g, HAD)
  {
    hide Slice, Blocks, Sum, Multiples, Distinct;
    if Multiples(g, HAD) {
      MultiplesUncut(g, tp, v);
    }
    if Uncut(g, tp, v) && tp > 1 {
      assert Kept(g, tp, 0, v).Some?;
      UncutOnlyIf(g, tp, v, 0);
    }
  }

  lemma RankZero(off: nat, w: nat, unit: nat)
    requires unit > 0
    ensures (off + 0 * w) / unit == off / unit && 0 / unit == 0
  {
  }

  /** Rank 0's first piece, with the divisions done. */
  lemma FirstPiece<C>(g: seq<nat>, tp: nat, unit: nat, t: seq<C>, off: nat, lo: nat, len: nat)
    requires unit > 0 && g != [] && lo == off / unit && len == g[0] / unit && lo + len <= |t|
    ensures Slice(g, tp, 0, unit, t, off) == After(t[lo..lo + len], Slice(g[1..], tp, 0, unit, t, off + g[0] * tp))
  {
    hide Slice;
    RankZero(off, g[0], unit);
    SliceCases(g, tp, 0, unit, t, off);
  }

  lemma SliceTwo<C>(a: nat, b: nat, tp: nat, unit: nat, t: seq<C>)
    requires unit > 0 && a / unit <= |t| && a * tp / unit + b / unit <= |t|
    ensures Slice([a, b], tp, 0, unit, t, 0) == Some(t[..a / unit] + t[a * tp / unit..a * tp / unit + b / unit])
  {
    hide Slice;
    var len, lo, len' := a / unit, a * tp / unit, b / unit;
    RankZero(0, 0, unit);
    FirstPiece([a, b], tp, unit, t, 0, 0, len);
    FirstPiece([b], tp, unit, t, a * tp, lo, len');
    SliceEnd(tp, 0, unit, t, a * tp + b * tp);
    JoinTwo(a, b, tp, unit, t, t[0..len], t[lo..lo + len']);
  }

  lemma JoinTwo<C>(a: nat, b: nat, tp: nat, unit: nat, t: seq<C>, p: seq<C>, q: seq<C>)
    requires unit > 0 && Slice([a, b], tp, 0, unit, t, 0) == After(p, Slice([a, b][1..], tp, 0, unit, t, 0 + a * tp))
    requires Slice([b], tp, 0, unit, t, a * tp) == After(q, Slice([b][1..], tp, 0, unit, t, a * tp + b * tp))
    requires Slice([], tp, 0, unit, t, a * tp + b * tp) == Some([])
    ensures Slice([a, b], tp, 0, unit, t, 0) == Some(p + q)
  {
    hide Slice;
    assert [a, b][1..] == [b] && [b][1..] == [];
    assert q + [] == q;
  }

  lemma GroupTwo(a: nat, b: nat)
    requires a > 0 && b > 0
    ensures Group([a + b], [a, b]) == Some([[a, b]])
  {
    assert [a, b][1..] == [b];
    assert Sum([a, b]) == a + Sum([b]);
    TakeIs([a, b], a + b, 2) by {
      assert [a, b][..0] == [] && [a, b][..1] == [a] && [a, b][..2] == [a, b];
    }
    var none: seq<seq<nat>> := [];
    assert [a, b][..2] == [a, b] && [a, b][2..] == [] && [a + b][1..] == [];
    assert Group([], []) == Some(none);
    assert [[a, b]] + none == [[a, b]];
  }

  /** Two 64-wide partitions in one source, on two ranks: every check passes, and rank 0's scale vector is
      one block made of halves of two blocks of the source. */
  lemma WidthCheckIsNotEnough() returns (s: Setup, source: Source<int, int>)
    ensures s.Valid() && s.tp == 2 && |s.kbits| == 1 && Accepts(s, [source])
    ensures |source.rout| == s.out[0] == 2 * HAD
    ensures var kept := Shards(s, [source])[0].rout; kept in Blocks(kept, HAD) && kept !in Blocks(source.rout, HAD)
  {
    hide Slice, Group, Blocks;
    var v := seq(256, k => k);
    var tiles: seq<seq<int>> := seq(16, _ => []);
    s := Setup(2, 0, false, [2], 128, [64, 64], [256]);
    source := Source(Code(8, tiles, 32, true), [], v, [], v);
    assert s.Widths() == [128];
    GroupTwo(64, 64);
    SliceTwo(64, 64, 2, TILE, tiles);
    SliceTwo(64, 64, 2, 1, v);
    var raw := AllRaw(s, [[64, 64]], [source]);
    assert raw[..0] == [];
    OneMoreCode(raw);
    NoCodes<int, int>();
    assert Sum([64, 64]) == 64 + Sum([64]) && [64, 64][1..] == [64];
    var kept := v[..64] + v[128..192];
    OneBlock(kept, HAD);
    if kept in Blocks(v, HAD) {
      BlockRuns(v, HAD, kept, 63);
    }
  }

  // ----- row-parallel layers ------------------------------------------------------------------------------

  lemma RowsPerRank(rows: nat, tp: nat, ic: nat)
    requires tp > 0 && ic % HAD == 0 && rows * TILE == tp * ic
    ensures rows / tp == ic / TILE && (tp * ic) / tp == ic
  {
    TilesPerBlock(ic);
    var b := ic / TILE;
    assert ic == b * TILE;
    assert rows * TILE == (tp * b) * TILE;
    Commute(tp, b);
    QuotientUnique(b, 0, tp);
    Commute(tp, ic);
    QuotientUnique(ic, 0, tp);
  }

  function Times(a: nat, b: nat): nat { a * b }

  /** sh holds the inputs of one rank: the same ones in the tile rows as in the input-side vectors, with tile
      columns and output-side vectors whole. */
  ghost predicate InputsOf<T, C>(s: Setup, src: Source<T, C>, sh: Shard<T, C>) {
    var start, rows := Times(s.rank, s.ic), s.ic / TILE;
    var row := Times(s.rank, rows);
    && start == row * TILE && s.ic == rows * TILE && |sh.code.tiles| == |src.code.tiles|
    && (forall j :: 0 <= j < |src.code.tiles| ==> Some(sh.code.tiles[j]) == Narrow(src.code.tiles[j], row, rows))
    && Some(sh.rin) == Narrow(src.rin, start, s.ic) && Some(sh.sIn) == Narrow(src.sIn, start, s.ic)
    && sh.rout == src.rout && sh.sOut == src.sOut
  }

  /** A source whose tensors all have the whole layer's inputs. */
  ghost predicate InputShaped<T, C>(s: Setup, src: Source<T, C>) {
    && src.code.rows * TILE == |src.rin| == |src.sIn| == Times(s.tp, s.ic)
    && forall j :: 0 <= j < |src.code.tiles| ==> |src.code.tiles[j]| == src.code.rows
  }

  /** An accepted row-parallel layer at tp > 1: code and input-side vectors are cut at the same inputs, the
      rank's own. */
  lemma RowLoadedExactly<T, C>(s: Setup, sources: seq<Source<T, C>>, i: nat)
    requires s.Valid() && |sources| == |s.kbits| && s.row && s.tp > 1 && Accepts(s, sources)
    requires i < |sources| && InputShaped(s, sources[i])
    ensures InputsOf(s, sources[i], Shards(s, sources)[i])
  {
    hide Group, CodeOk, Codes, TotalWidth, AllLoad;
    var src, b := sources[i], s.ic / TILE;
    RowsPerRank(src.code.rows, s.tp, s.ic);
    TilesPerBlock(s.ic);
    MulGap(s.rank, s.tp, s.ic);
    var raw := AllRaw(s, Group(s.Widths(), s.parts).value, sources);
    assert raw[i].code == Some(NarrowRows(s, src.code));
    RankRows(s, b, src.code.rows);
  }

  /** In numbers: inputs rank * ic up to rank * ic + ic, sixteen to a tile row. */
  lemma InputsAre<T, C>(s: Setup, src: Source<T, C>, sh: Shard<T, C>, j: nat)
    requires s.Valid() && InputShaped(s, src) && InputsOf(s, src, sh) && j < |src.code.tiles|
    ensures 0 <= s.rank * s.ic <= s.rank * s.ic + s.ic <= |src.rin| == |src.sIn|
    ensures sh.rin == src.rin[s.rank * s.ic..s.rank * s.ic + s.ic] && sh.sIn == src.sIn[s.rank * s.ic..s.rank * s.ic + s.ic]
    ensures sh.rout == src.rout && sh.sOut == src.sOut && |sh.code.tiles| == |src.code.tiles|
    ensures forall lo: nat :: lo * 16 == s.rank * s.ic ==>
              lo + s.ic / 16 <= |src.code.tiles[j]| && sh.code.tiles[j] == src.code.tiles[j][lo..lo + s.ic / 16]
  {
    assert Some(sh.code.tiles[j]) == Narrow(src.code.tiles[j], Times(s.rank, s.ic / TILE), s.ic / TILE);
  }

  lemma RankRows(s: Setup, b: nat, rows: nat)
    requires s.Valid() && s.ic == b * TILE && rows * TILE == s.tp * s.ic
    ensures s.rank * s.ic == s.rank * b * TILE && s.rank * b + b <= rows
  {
    assert rows * TILE == (s.tp * b) * TILE;
    MulGap(s.rank, s.tp, b);
  }
}
