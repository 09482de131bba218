/** Loading a coded linear under tensor parallelism: grouping a layer's output partitions into the source
    tensors that hold them, finding a shard's source, cutting each rank's slices, and writing each
    shard's columns of the output. */
module Escha {
  import opened Basics

  const HAD := 128
  const TILE := 16

  function Sum(s: seq<nat>): nat {
    if s == [] then 0 else s[0] + Sum(s[1..])
  }

  lemma SumEmpty()
    ensures Sum([]) == 0
  {
  }

  lemma SumOne(x: nat)
    ensures Sum([x]) == x
  {
  }

  lemma {:induction false} SumConcat(a: seq<nat>, b: seq<nat>)
    ensures Sum(a + b) == Sum(a) + Sum(b)
  {
    if a == [] {
      assert a + b == b;
    } else {
      SumConcat(a[1..], b);
      assert (a + b)[1..] == a[1..] + b;
    }
  }

  lemma SumPrefix(s: seq<nat>, i: nat, j: nat)
    requires i <= j <= |s|
    ensures Sum(s[..j]) == Sum(s[..i]) + Sum(s[i..j]) <= Sum(s)
  {
    hide Sum;
    SumConcat(s[..i], s[i..j]);
    SumConcat(s[..j], s[j..]);
    assert s[..i] + s[i..j] == s[..j] && s[..j] + s[j..] == s;
  }

  // ----- grouping ------------------------------------------------------------------

  /** n partitions reach w columns, or are all there are; fewer do not. */
  ghost predicate Shortest(parts: seq<nat>, w: nat, n: nat) {
    && n <= |parts|
    && (n < |parts| ==> Sum(parts[..n]) >= w)
    && forall k: nat :: k < n ==> Sum(parts[..k]) < w
  }

  /** How many leading partitions a source of width w takes: until it has w columns, or none are left. */
  function Take(parts: seq<nat>, w: nat): (n: nat)
    ensures Shortest(parts, w, n)
  {
    if w == 0 || parts == [] then 0
    else
      var d := if parts[0] < w then w - parts[0] else 0;
      var m := Take(parts[1..], d);
      TakeStep(parts, w, m);
      m + 1
  }

  lemma TakeStep(parts: seq<nat>, w: nat, m: nat)
    requires parts != [] && w > 0 && m < |parts|
    ensures Sum(parts[..m + 1]) == parts[0] + Sum(parts[1..][..m])
    ensures forall k: nat :: 0 < k <= m ==> Sum(parts[..k]) == parts[0] + Sum(parts[1..][..k - 1])
  {
    assert parts[..m + 1][1..] == parts[1..][..m];
    forall k: nat | 0 < k <= m ensures Sum(parts[..k]) == parts[0] + Sum(parts[1..][..k - 1]) {
      assert parts[..k][1..] == parts[1..][..k - 1];
    }
  }

  /** One group of partitions per source tensor; none when the widths do not fit. */
  function Group(ws: seq<nat>, parts: seq<nat>): (r: Option<seq<seq<nat>>>)
    ensures r.Some? ==> |r.value| == |ws|
  {
    if ws == [] then Some([])
    else
      var n := Take(parts, ws[0]);
      if Sum(parts[..n]) != ws[0] then None
      else
        var rest := Group(ws[1..], parts[n..]);
        Prepend([parts[..n]], rest)
  }

  /** The loop that builds the groups. */
  method CreateGroups(ws: seq<nat>, parts: seq<nat>) returns (r: Option<seq<seq<nat>>>)
    ensures r == Group(ws, parts)
  {
    hide Sum, Take;
    var groups: seq<seq<nat>>, j := [], 0;
    assert ws[0..] == ws && parts[0..] == parts;
    PrependStep([], [], Group(ws, parts));
    for i := 0 to |ws|
      invariant j <= |parts| && |groups| == i
      invariant Group(ws, parts) == Prepend(groups, Group(ws[i..], parts[j..]))
    {
      var w, g, acc := ws[i], [], 0;
      SumEmpty();
      ghost var from := j;
      while acc < w && j < |parts|
        invariant from <= j <= |parts| && g == parts[from..j] && acc == Sum(g)
        invariant forall k: nat :: k < |g| ==> Sum(g[..k]) < w
      {
        SumConcat(g, [parts[j]]);
        SumOne(parts[j]);
        Shorter(g, parts[j], w);
        g := g + [parts[j]];
        acc := acc + parts[j];
        j := j + 1;
      }
      assert parts[from..][..|g|] == g && parts[from..][|g|..] == parts[j..];
      forall k: nat | k < |g| ensures Sum(parts[from..][..k]) < w {
        assert parts[from..][..k] == g[..k];
      }
      TakeIs(parts[from..], w, |g|);
      assert ws[i..][1..] == ws[i + 1..];
      if acc != w {
        return None;
      }
      PrependStep(groups, g, Group(ws[i + 1..], parts[j..]));
      groups := groups + [g];
    }
    assert ws[|ws|..] == [] && groups + [] == groups;
    r := Some(groups);
  }

  function Prepend(groups: seq<seq<nat>>, rest: Option<seq<seq<nat>>>): Option<seq<seq<nat>>> {
    if rest.None? then None else Some(groups + rest.value)
  }

  lemma PrependStep(groups: seq<seq<nat>>, g: seq<nat>, rest: Option<seq<seq<nat>>>)
    ensures Prepend(groups, Prepend([g], rest)) == Prepend(groups + [g], rest)
    ensures Prepend([], rest) == rest
  {
    if rest.Some? {
      assert groups + ([g] + rest.value) == groups + [g] + rest.value;
      assert [] + rest.value == rest.value;
    }
  }

  lemma Shorter(g: seq<nat>, x: nat, w: nat)
    requires Sum(g) < w && forall k: nat :: k < |g| ==> Sum(g[..k]) < w
    ensures forall k: nat :: k < |g + [x]| ==> Sum((g + [x])[..k]) < w
  {
    forall k: nat | k < |g + [x]| ensures Sum((g + [x])[..k]) < w {
      assert (g + [x])[..k] == g[..k];
      if k == |g| {
        assert g[..k] == g;
      }
    }
  }

  lemma TakeIs(parts: seq<nat>, w: nat, n: nat)
    requires n <= |parts| && (n == |parts| || Sum(parts[..n]) >= w)
    requires forall k: nat :: k < n ==> Sum(parts[..k]) < w
    ensures Take(parts, w) == n
  {
    hide Sum, Take;
    var m := Take(parts, w);
  }

  /** total is a running total of the partitions. */
  ghost predicate Reached(parts: seq<nat>, total: nat) {
    exists j: nat :: j <= |parts| && Sum(parts[..j]) == total
  }

  /** Source widths can be grouped exactly when each of their running totals is a running total of the
      partitions. */
  ghost predicate Fits(ws: seq<nat>, parts: seq<nat>) {
    forall i: nat :: i <= |ws| ==> Reached(parts, Sum(ws[..i]))
  }

  lemma {:induction false} GroupIff(ws: seq<nat>, parts: seq<nat>)
    ensures Group(ws, parts).Some? <==> Fits(ws, parts)
  {
    if ws == [] {
      assert ws[..0] == [] && parts[..0] == [];
      assert Sum(parts[..0]) == 0;
      assert Fits(ws, parts);
    } else {
      var w, n := ws[0], Take(parts, ws[0]);
      GroupIff(ws[1..], parts[n..]);
      if Sum(parts[..n]) == w {
        forall i: nat | i < |ws| ensures Sum(ws[..i + 1]) == w + Sum(ws[1..][..i]) {
          assert ws[..i + 1][1..] == ws[1..][..i];
        }
        if Fits(ws[1..], parts[n..]) {
          FitsLonger(ws, parts, n);
        }
        if Fits(ws, parts) {
          FitsShorter(ws, parts, n);
        }
      } else if Fits(ws, parts) {
        assert ws[..1] == [w] && Sum(ws[..1]) == w;
        assert Reached(parts, w);
        var j: nat :| j <= |parts| && Sum(parts[..j]) == w;
        GreedyHits(parts, w, j);
      }
    }
  }

  /** Taking greedily stops at the first running total there is. */
  lemma GreedyHits(parts: seq<nat>, w: nat, j: nat)
    requires j <= |parts| && Sum(parts[..j]) >= w
    ensures Take(parts, w) <= j
    ensures Sum(parts[..j]) == w ==> Sum(parts[..Take(parts, w)]) == w
  {
    hide Sum, Take;
    var n := Take(parts, w);
    assert n <= j;
    SumPrefix(parts, n, j);
  }

  lemma {:induction false} FitsLonger(ws: seq<nat>, parts: seq<nat>, n: nat)
    requires ws != [] && n <= |parts| && Sum(parts[..n]) == ws[0] && Fits(ws[1..], parts[n..])
    ensures Fits(ws, parts)
  {
    forall i: nat | i <= |ws| ensures Reached(parts, Sum(ws[..i])) {
      if i == 0 {
        assert parts[..0] == [] && ws[..0] == [];
        assert Sum(parts[..0]) == 0;
      } else {
        assert ws[..i][1..] == ws[1..][..i - 1];
        assert Reached(parts[n..], Sum(ws[1..][..i - 1]));
        var j: nat :| j <= |parts[n..]| && Sum(parts[n..][..j]) == Sum(ws[1..][..i - 1]);
        SumPrefix(parts, n, n + j);
        assert parts[n..][..j] == parts[n..n + j];
      }
    }
  }

  lemma {:induction false} FitsShorter(ws: seq<nat>, parts: seq<nat>, n: nat)
    requires ws != [] && n == Take(parts, ws[0]) && Sum(parts[..n]) == ws[0] && Fits(ws, parts)
    ensures Fits(ws[1..], parts[n..])
  {
    forall i: nat | i <= |ws[1..]| ensures Reached(parts[n..], Sum(ws[1..][..i])) {
      assert Reached(parts, Sum(ws[..i + 1]));
      var j: nat :| j <= |parts| && Sum(parts[..j]) == Sum(ws[..i + 1]);
      SumPrefix(ws, 1, i + 1);
      SumOne(ws[0]);
      assert ws[..1] == [ws[0]] && ws[1..i + 1] == ws[1..][..i];
      GreedyHits(parts, ws[0], j);
      SumPrefix(parts, n, j);
      var k: nat := j - n;
      assert parts[n..][..k] == parts[n..j];
      assert k <= |parts[n..]| && Sum(parts[n..][..k]) == Sum(ws[1..][..i]);
    }
  }

  // ----- which source a shard belongs to -----------------------------------------------

  /** The source whose span contains a column. */
  function SourceOf(ws: seq<nat>, off: nat): Option<nat> {
    if ws == [] then None
    else if off < ws[0] then Some(0)
    else
      var r := SourceOf(ws[1..], off - ws[0]);
      if r.None? then None else Some(r.value + 1)
  }

  /** How many partitions the first i groups hold. */
  function Starts(groups: seq<seq<nat>>, i: nat): nat
    requires i <= |groups|
  {
    if i == 0 then 0 else |groups[0]| + Starts(groups[1..], i - 1)
  }

  /** The loop over the sources, for a shard id naming its partitions by number. */
  method ShardIndex(ws: seq<nat>, parts: seq<nat>, ids: set<nat>, first: nat) returns (r: Option<nat>)
    requires first in ids && (forall k :: k in ids ==> first <= k) && first <= |parts|
    ensures r == SourceOf(ws, Sum(parts[..first]))
  {
    var off, acc := Sum(parts[..first]), 0;
    for i := 0 to |ws|
      invariant acc <= off
      invariant SourceOf(ws, off) == Shifted(SourceOf(ws[i..], off - acc), i)
    {
      if off < acc + ws[i] {
        return Some(i);
      }
      assert ws[i..][1..] == ws[i + 1..];
      acc := acc + ws[i];
    }
    r := None;
  }

  function Shifted(r: Option<nat>, i: nat): Option<nat> {
    if r.None? then None else Some(r.value + i)
  }

  /** Every grouped partition is found in the source whose group holds it. */
  lemma {:induction false} SourceHoldsPartition(ws: seq<nat>, parts: seq<nat>, first: nat)
    requires Group(ws, parts).Some? && first < Starts(Group(ws, parts).value, |ws|)
    ensures first < |parts|
    ensures var groups := Group(ws, parts).value;
            var r := SourceOf(ws, Sum(parts[..first]));
            && r.Some? && r.value < |ws|
            && Starts(groups, r.value) <= first < Starts(groups, r.value + 1)
  {
    hide Sum, Take;
    if ws != [] {
      var groups := Group(ws, parts).value;
      var n := Take(parts, ws[0]);
      assert groups[1..] == Group(ws[1..], parts[n..]).value;
      if first < n {
        assert Sum(parts[..first]) < ws[0];
        assert Starts(groups, 1) == n;
      } else {
        SourceHoldsPartition(ws[1..], parts[n..], first - n);
        SumPrefix(parts, n, first);
        assert parts[n..][..first - n] == parts[n..first];
      }
    }
  }

  /** Group i starts at the column where the sources before it end. */
  lemma {:induction false} GroupStart(ws: seq<nat>, parts: seq<nat>, i: nat)
    requires Group(ws, parts).Some? && i <= |ws|
    ensures var k := Starts(Group(ws, parts).value, i); k <= |parts| && Sum(ws[..i]) == Sum(parts[..k])
    ensures i < |ws| ==> Sum(Group(ws, parts).value[i]) == ws[i]
  {
    hide Sum, Take;
    if i == 0 {
      assert ws[..0] == [] && parts[..0] == [];
      if ws != [] {
        assert Sum(Group(ws, parts).value[0]) == ws[0];
      }
    } else {
      var n := Take(parts, ws[0]);
      var groups := Group(ws, parts).value;
      assert groups[1..] == Group(ws[1..], parts[n..]).value;
      GroupStart(ws[1..], parts[n..], i - 1);
      var k := Starts(groups[1..], i - 1);
      SumPrefix(ws, 1, i);
      SumOne(ws[0]);
      assert ws[..1] == [ws[0]] && ws[1..i] == ws[1..][..i - 1];
      SumPrefix(parts, n, n + k);
      assert parts[n..][..k] == parts[n..n + k];
    }
  }

  lemma {:induction false} StartsMono(groups: seq<seq<nat>>, i: nat, j: nat)
    requires i <= j <= |groups|
    ensures Starts(groups, i) <= Starts(groups, j)
    decreases i
  {
    if i > 0 {
      StartsMono(groups[1..], i - 1, j - 1);
    }
  }

  /** And that source is the only one: any partition of group k leads to source k. */
  lemma ShardIndexExact(ws: seq<nat>, parts: seq<nat>, first: nat, k: nat)
    requires Group(ws, parts).Some? && k < |ws|
    requires Starts(Group(ws, parts).value, k) <= first < Starts(Group(ws, parts).value, k + 1)
    ensures first < |parts| && SourceOf(ws, Sum(parts[..first])) == Some(k)
  {
    var groups := Group(ws, parts).value;
    StartsMono(groups, k + 1, |ws|);
    SourceHoldsPartition(ws, parts, first);
    var r := SourceOf(ws, Sum(parts[..first])).value;
    if r < k {
      StartsMono(groups, r + 1, k);
    } else if r > k {
      StartsMono(groups, k + 1, r);
    }
  }

  // ----- slicing ---------------------------------------------------------------------------

  /** Tensor.narrow: none when the range leaves the axis. */
  function Narrow<T>(t: seq<T>, start: nat, len: nat): Option<seq<T>> {
    if start + len <= |t| then Some(t[start..start + len]) else None
  }

  /** Rank r's pieces of a source tensor, one per output partition it holds, put together.  g holds the
      partitions' widths per rank, off is where the first of them starts; the axis counts units. */
  function Slice<T>(g: seq<nat>, tp: nat, r: nat, unit: nat, t: seq<T>, off: nat): Option<seq<T>>
    requires unit > 0
  {
    if g == [] then Some([])
    else
      var piece := Narrow(t, (off + r * g[0]) / unit, g[0] / unit);
      var rest := Slice(g[1..], tp, r, unit, t, off + g[0] * tp);
      if piece.None? || rest.None? then None else Some(piece.value + rest.value)
  }

  lemma SliceCases<T>(g: seq<nat>, tp: nat, r: nat, unit: nat, t: seq<T>, off: nat)
    requires unit > 0 && g != []
    ensures var piece := Narrow(t, (off + r * g[0]) / unit, g[0] / unit);
            Slice(g, tp, r, unit, t, off) == if piece.None? then None else After(piece.value, Slice(g[1..], tp, r, unit, t, off + g[0] * tp))
  {
  }

  /** The loader's loop over a source's partitions. */
  method LoadColumns<T>(g: seq<nat>, tp: nat, r: nat, unit: nat, t: seq<T>) returns (s: Option<seq<T>>)
    requires unit > 0 && g != []
    ensures s == Slice(g, tp, r, unit, t, 0)
  {
    hide Slice;
    var off: nat, pieces: seq<T> := 0, [];
    assert g[0..] == g;
    AfterNothing(Slice(g, tp, r, unit, t, 0));
    for i := 0 to |g|
      invariant Slice(g, tp, r, unit, t, 0) == After(pieces, Slice(g[i..], tp, r, unit, t, off))
    {
      var w := g[i];
      var piece := Narrow(t, (off + r * w) / unit, w / unit);
      SliceCases(g[i..], tp, r, unit, t, off);
      assert g[i..][1..] == g[i + 1..];
      if piece.None? {
        return None;
      }
      AfterStep(pieces, piece.value, Slice(g[i + 1..], tp, r, unit, t, off + w * tp));
      pieces := pieces + piece.value;
      off := off + w * tp;
    }
    SliceEnd(tp, r, unit, t, off);
    assert g[|g|..] == [] && pieces + [] == pieces;
    s := Some(pieces);
  }

  lemma SliceEnd<T>(tp: nat, r: nat, unit: nat, t: seq<T>, off: nat)
    requires unit > 0
    ensures Slice([], tp, r, unit, t, off) == Some([])
  {
  }

  lemma AfterNothing<T>(rest: Option<seq<T>>)
    ensures After([], rest) == rest
  {
    if rest.Some? {
      assert [] + rest.value == rest.value;
    }
  }

  function After<T>(front: seq<T>, rest: Option<seq<T>>): Option<seq<T>> {
    if rest.None? then None else Some(front + rest.value)
  }

  lemma AfterStep<T>(front: seq<T>, piece: seq<T>, rest: Option<seq<T>>)
    ensures After(front, After(piece, rest)) == After(front + piece, rest)
  {
    if rest.Some? {
      assert front + (piece + rest.value) == front + piece + rest.value;
    }
  }

  /** A vector cut into blocks of unit entries. */
  function Blocks<T>(v: seq<T>, unit: nat): seq<seq<T>>
    requires unit > 0
  {
    if |v| < unit then [] else [v[..unit]] + Blocks(v[unit..], unit)
  }

  lemma {:induction false} BlocksSize<T>(v: seq<T>, unit: nat, n: nat)
    requires unit > 0 && |v| == Offset(n, unit)
    ensures |Blocks(v, unit)| == n
  {
    if n > 0 {
      BlocksSize(v[unit..], unit, n - 1);
    }
  }

  lemma {:induction false} BlocksConcat<T>(a: seq<T>, b: seq<T>, unit: nat, n: nat)
    requires unit > 0 && |a| == Offset(n, unit)
    ensures Blocks(a + b, unit) == Blocks(a, unit) + Blocks(b, unit)
  {
    if n == 0 {
      assert a + b == b;
    } else {
      BlocksConcat(a[unit..], b, unit, n - 1);
      assert (a + b)[..unit] == a[..unit] && (a + b)[unit..] == a[unit..] + b;
    }
  }

  lemma {:induction false} BlocksDrop<T>(v: seq<T>, unit: nat, a: nat)
    requires unit > 0 && Offset(a, unit) <= |v|
    ensures a <= |Blocks(v, unit)| && Blocks(v, unit)[a..] == Blocks(v[Offset(a, unit)..], unit)
  {
    if a > 0 {
      BlocksDrop(v[unit..], unit, a - 1);
      assert v[unit..][Offset(a - 1, unit)..] == v[Offset(a, unit)..];
    }
  }

  lemma {:induction false} BlocksTake<T>(v: seq<T>, unit: nat, n: nat)
    requires unit > 0 && Offset(n, unit) <= |v|
    ensures n <= |Blocks(v, unit)| && Blocks(v, unit)[..n] == Blocks(v[..Offset(n, unit)], unit)
  {
    if n > 0 {
      BlocksTake(v[unit..], unit, n - 1);
      assert v[..Offset(n, unit)][unit..] == v[unit..][..Offset(n - 1, unit)];
      assert v[..Offset(n, unit)][..unit] == v[..unit];
    }
  }

  /** Cutting on block boundaries commutes with cutting into blocks. */
  lemma {:induction false} BlocksOfRange<T>(v: seq<T>, unit: nat, a: nat, n: nat)
    requires unit > 0 && Offset(a, unit) + Offset(n, unit) <= |v|
    ensures a + n <= |Blocks(v, unit)|
    ensures Blocks(v[Offset(a, unit)..Offset(a, unit) + Offset(n, unit)], unit) == Blocks(v, unit)[a..a + n]
  {
    hide Blocks, Offset;
    var x, y := Offset(a, unit), Offset(n, unit);
    BlocksDrop(v, unit, a);
    BlocksTake(v[x..], unit, n);
    TakeOfDrop(v, x, y);
    Chain(Blocks(v, unit), Blocks(v[x..], unit), Blocks(v[x..][..y], unit), a, n);
  }

  lemma Chain<T>(whole: seq<T>, tail: seq<T>, middle: seq<T>, a: nat, n: nat)
    requires a <= |whole| && whole[a..] == tail && n <= |tail| && tail[..n] == middle
    ensures a + n <= |whole| && whole[a..a + n] == middle
  {
  }

  lemma TakeOfDrop<T>(v: seq<T>, x: nat, y: nat)
    requires x + y <= |v|
    ensures v[x..][..y] == v[x..x + y]
  {
  }

  ghost predicate Multiples(g: seq<nat>, unit: nat)
    requires unit > 0
  {
    forall i :: 0 <= i < |g| ==> g[i] % unit == 0
  }

  lemma WholeBlocks(w: nat, unit: nat)
    requires unit > 0 && w % unit == 0
    ensures Offset(w / unit, unit) == w
  {
    OffsetIsProduct(w / unit, unit);
  }

  /** Stepping r times by b blocks from block a. */
  lemma {:induction false} StepBlocks(a: nat, b: nat, r: nat, unit: nat)
    ensures Offset(a, unit) + r * Offset(b, unit) == Offset(a + r * b, unit)
  {
    if r > 0 {
      StepBlocks(a, b, r - 1, unit);
      OffsetAdd(a + (r - 1) * b, b, unit);
      assert r * b == (r - 1) * b + b;
      assert r * Offset(b, unit) == (r - 1) * Offset(b, unit) + Offset(b, unit);
    }
  }

  lemma {:induction false} OffsetAdd(a: nat, b: nat, unit: nat)
    ensures Offset(a + b, unit) == Offset(a, unit) + Offset(b, unit)
  {
    if b > 0 {
      OffsetAdd(a, b - 1, unit);
    }
  }

  lemma OffsetOver(a: nat, unit: nat)
    requires unit > 0
    ensures Offset(a, unit) / unit == a
  {
    OffsetIsProduct(a, unit);
    QuotientUnique(a, 0, unit);
  }

  /** Where rank r's piece of a partition of b blocks lies when the partition starts at block a. */
  lemma PieceBlocks(a: nat, b: nat, r: nat, unit: nat)
    requires unit > 0
    ensures (Offset(a, unit) + r * Offset(b, unit)) / unit == a + r * b
    ensures Offset(b, unit) / unit == b
    ensures (Offset(a, unit) + r * Offset(b, unit)) / 1 == Offset(a + r * b, unit)
  {
    StepBlocks(a, b, r, unit);
    OffsetOver(a + r * b, unit);
    OffsetOver(b, unit);
  }

  /** When every partition is a whole number of blocks, slicing the tensor of blocks is slicing the
      columns: block k of the slice holds exactly the columns of block k of the column slice. */
  lemma {:induction false} SlicesAreBlocks<T>(g: seq<nat>, tp: nat, r: nat, unit: nat, v: seq<T>, a: nat)
    requires unit > 0 && Multiples(g, unit) && r < tp
    requires Offset(a, unit) + Sum(g) * tp <= |v|
    ensures var off := Offset(a, unit);
            && Slice(g, tp, r, 1, v, off).Some? && |Slice(g, tp, r, 1, v, off).value| == Sum(g)
            && Slice(g, tp, r, unit, Blocks(v, unit), off) == Some(Blocks(Slice(g, tp, r, 1, v, off).value, unit))
  {
    hide Slice, Blocks, Offset, Sum;
    if g == [] {
      SliceEnd(tp, r, unit, Blocks(v, unit), Offset(a, unit));
      SliceEnd(tp, r, 1, v, Offset(a, unit));
      NoBlocks<T>(unit);
      SumEmpty();
    } else {
      var w, b, off := g[0], g[0] / unit, Offset(a, unit);
      SumCons(g);
      WholeBlocks(w, unit);
      PieceFits(off, r, tp, w, Sum(g[1..]));
      PieceBlocks(a, b, r, unit);
      StepBlocks(a, b, tp, unit);
      Commute(w, tp);
      SlicesAreBlocks(g[1..], tp, r, unit, v, a + tp * b);
      StepBlocks(a, b, r, unit);
      ConsSlices(g, tp, r, unit, v, off, a + r * b, b);
    }
  }

  lemma Commute(a: nat, b: nat)
    ensures a * b == b * a
  {
  }

  lemma SumCons(g: seq<nat>)
    requires g != []
    ensures Sum(g) == g[0] + Sum(g[1..])
  {
  }

  /** Adding a piece of b blocks, starting at block lo, in front of slices that agree. */
  lemma {:induction false} ConsSlices<T>(g: seq<nat>, tp: nat, r: nat, unit: nat, v: seq<T>, off: nat, lo: nat, b: nat)
    requires unit > 0 && g != [] && g[0] == Offset(b, unit) && g[0] / unit == b
    requires off + r * g[0] == Offset(lo, unit) && (off + r * g[0]) / unit == lo && off + r * g[0] + g[0] <= |v|
    requires var next := off + g[0] * tp;
             && Slice(g[1..], tp, r, 1, v, next).Some?
             && Slice(g[1..], tp, r, unit, Blocks(v, unit), next) == Some(Blocks(Slice(g[1..], tp, r, 1, v, next).value, unit))
    ensures var rest := Slice(g[1..], tp, r, 1, v, off + g[0] * tp).value;
            && Slice(g, tp, r, 1, v, off).Some? && |Slice(g, tp, r, 1, v, off).value| == g[0] + |rest|
            && Slice(g, tp, r, unit, Blocks(v, unit), off) == Some(Blocks(Slice(g, tp, r, 1, v, off).value, unit))
  {
    hide Slice, Blocks, Offset;
    var start, w := off + r * g[0], g[0];
    BlocksOfRange(v, unit, lo, b);
    SliceCases(g, tp, r, 1, v, off);
    SliceCases(g, tp, r, unit, Blocks(v, unit), off);
    BlocksConcat(v[start..start + w], Slice(g[1..], tp, r, 1, v, off + w * tp).value, unit, b);
  }

  lemma NoBlocks<T>(unit: nat)
    requires unit > 0
    ensures Blocks<T>([], unit) == []
  {
  }

  lemma PieceFits(off: nat, r: nat, tp: nat, w: nat, rest: nat)
    requires r < tp
    ensures off + r * w + w <= off + w * tp <= off + (w + rest) * tp
    ensures off + w * tp + rest * tp == off + (w + rest) * tp
  {
    MulGap(r, tp, w);
  }

  /** Rank r's piece of one partition of width w per rank, starting at off. */
  function Piece<T>(t: seq<T>, off: nat, w: nat, r: nat): seq<T>
    requires off + r * w + w <= |t|
  {
    t[off + r * w..off + r * w + w]
  }

  /** All ranks' pieces of one partition, in rank order. */
  function Gathered<T>(t: seq<T>, off: nat, w: nat, n: nat): seq<T>
    requires off + n * w <= |t|
    decreases n
  {
    if n == 0 then []
    else
      MulGap(n - 1, n, w);
      Gathered(t, off, w, n - 1) + Piece(t, off, w, n - 1)
  }

  /** The ranks' pieces tile the partition: put together they are its columns, each once, in order. */
  lemma {:induction false} PiecesTile<T>(t: seq<T>, off: nat, w: nat, n: nat)
    requires off + n * w <= |t|
    ensures Gathered(t, off, w, n) == t[off..off + n * w]
  {
    if n > 0 {
      MulGap(n - 1, n, w);
      PiecesTile(t, off, w, n - 1);
      assert n * w == (n - 1) * w + w;
    }
  }

  /** And a rank's slice is its pieces of the source's partitions, in the partitions' order. */
  lemma SliceIsPieces<T>(g: seq<nat>, tp: nat, r: nat, t: seq<T>, off: nat)
    requires g != [] && r < tp && off + Sum(g) * tp <= |t|
    ensures off + r * g[0] + g[0] <= |t|
    ensures Slice(g, tp, r, 1, t, off) == After(Piece(t, off, g[0], r), Slice(g[1..], tp, r, 1, t, off + g[0] * tp))
  {
    PieceFits(off, r, tp, g[0], Sum(g[1..]));
  }

  // ----- the load checks -----------------------------------------------------------------------

  /** Columns the code slices of these partitions cover: each width cut down to whole tiles. */
  function Covered(parts: seq<nat>): nat {
    if parts == [] then 0 else parts[0] / TILE * TILE + Covered(parts[1..])
  }

  lemma {:induction false} CoveredConcat(a: seq<nat>, b: seq<nat>)
    ensures Covered(a + b) == Covered(a) + Covered(b)
  {
    if a == [] {
      assert a + b == b;
    } else {
      CoveredConcat(a[1..], b);
      assert (a + b)[1..] == a[1..] + b;
    }
  }

  /** The total of the columns covered equals the total of the partitions only if every partition is a
      whole number of tiles. */
  lemma {:induction false} CoverageIff(parts: seq<nat>)
    ensures Covered(parts) <= Sum(parts)
    ensures Covered(parts) == Sum(parts) <==> Multiples(parts, TILE)
  {
    if parts != [] {
      CoverageIff(parts[1..]);
      var w := parts[0];
      assert w == w / TILE * TILE + w % TILE;
      if Multiples(parts, TILE) {
        assert forall i :: 0 <= i < |parts[1..]| ==> parts[1..][i] == parts[i + 1];
      }
      if Multiples(parts[1..], TILE) && w % TILE == 0 {
        forall i | 0 <= i < |parts| ensures parts[i] % TILE == 0 {
          assert i > 0 ==> parts[i] == parts[1..][i - 1];
        }
      }
      if !Multiples(parts[1..], TILE) {
        var i :| 0 <= i < |parts[1..]| && parts[1..][i] % TILE != 0;
        assert parts[i + 1] % TILE != 0;
      }
    }
  }

  function Flatten<T>(gs: seq<seq<T>>): seq<T> {
    if gs == [] then [] else gs[0] + Flatten(gs[1..])
  }

  /** The groups are the partitions in order, less those after the last source. */
  lemma {:induction false} GroupsInOrder(ws: seq<nat>, parts: seq<nat>)
    requires Group(ws, parts).Some?
    ensures var f := Flatten(Group(ws, parts).value); |f| <= |parts| && f == parts[..|f|]
    ensures Sum(Flatten(Group(ws, parts).value)) == Sum(ws)
  {
    if ws != [] {
      var n := Take(parts, ws[0]);
      GroupsInOrder(ws[1..], parts[n..]);
      var rest := Group(ws[1..], parts[n..]).value;
      assert Group(ws, parts).value == [parts[..n]] + rest;
      assert ([parts[..n]] + rest)[1..] == rest;
      SumConcat(parts[..n], Flatten(rest));
    }
  }

  /** A column-parallel layer at tp > 1 passes the total-width check only if every output partition is
      cut on whole 16-column tiles. */
  lemma CheckForcesTiles(ws: seq<nat>, parts: seq<nat>)
    requires Group(ws, parts).Some? && Covered(Flatten(Group(ws, parts).value)) == Sum(parts)
    ensures Multiples(parts, TILE)
    ensures Sum(ws) == Sum(parts)
  {
    var f := Flatten(Group(ws, parts).value);
    GroupsInOrder(ws, parts);
    var tail := parts[|f|..];
    assert parts == f + tail;
    CoveredConcat(f, tail);
    SumConcat(f, tail);
    CoverageIff(f);
    CoverageIff(tail);
    CoverageIff(parts);
  }

  lemma NothingCovered()
    ensures Covered([]) == 0
  {
  }

  lemma CoveredCons(g: seq<nat>)
    requires g != []
    ensures Covered(g) == g[0] / TILE * TILE + Covered(g[1..])
  {
  }

  lemma {:induction false} SliceSize<T>(g: seq<nat>, tp: nat, r: nat, t: seq<T>, off: nat)
    requires Slice(g, tp, r, TILE, t, off).Some?
    ensures |Slice(g, tp, r, TILE, t, off).value| * TILE == Covered(g)
  {
    hide Slice, Covered;
    if g == [] {
      SliceEnd(tp, r, TILE, t, off);
      NothingCovered();
    } else {
      var next := off + g[0] * tp;
      SliceCases(g, tp, r, TILE, t, off);
      SliceSize(g[1..], tp, r, t, next);
      CoveredCons(g);
      var piece := Narrow(t, (off + r * g[0]) / TILE, g[0] / TILE);
      assert |piece.value| == g[0] / TILE;
    }
  }

  lemma {:induction false} FlattenSnoc<T>(gs: seq<seq<T>>)
    requires gs != []
    ensures Flatten(gs) == Flatten(gs[..|gs| - 1]) + gs[|gs| - 1]
  {
    if |gs| > 1 {
      FlattenSnoc(gs[1..]);
      assert gs[1..][..|gs| - 2] == gs[..|gs| - 1][1..];
    }
  }

  lemma {:induction false} FlattenHas<T>(gs: seq<seq<T>>, i: nat, k: nat)
    requires i < |gs| && k < |gs[i]|
    ensures gs[i][k] in Flatten(gs)
  {
    if i > 0 {
      FlattenHas(gs[1..], i - 1, k);
    }
  }

  // ----- row-parallel layers ------------------------------------------------------------------------------

  /** A row-parallel layer narrows the input axis: the ranks' rows tile the tensor. */
  lemma RowsTile<T>(v: seq<T>, tp: nat, ic: nat, r: nat)
    requires |v| == tp * ic && r < tp
    ensures |v| / tp == ic && r * ic + ic <= |v|
    ensures Gathered(v, 0, ic, tp) == v
  {
    Commute(tp, ic);
    QuotientUnique(ic, 0, tp);
    MulGap(r, tp, ic);
    PiecesTile(v, 0, ic, tp);
  }

  /** Tile rows and per-input-channel vectors are cut at the same places. */
  lemma {:induction false} RowTilesMatch<T>(v: seq<T>, tp: nat, ic: nat, r: nat)
    requires ic % HAD == 0 && |v| == tp * ic && r < tp
    ensures |Blocks(v, TILE)| / tp == ic / TILE && r * ic + ic <= |v|
    ensures Narrow(Blocks(v, TILE), r * (ic / TILE), ic / TILE) == Some(Blocks(v[r * ic..r * ic + ic], TILE))
  {
    hide Blocks, Offset;
    var b := ic / TILE;
    TilesPerBlock(ic);
    WholeBlocks(ic, TILE);
    NoOffset(TILE);
    StepBlocks(0, b, r, TILE);
    StepBlocks(0, b, tp, TILE);
    RowsTile(v, tp, ic, r);
    TileRange(v, tp, r, b, r * b, tp * b, r * ic, ic);
  }

  lemma {:induction false} TileRange<T>(v: seq<T>, tp: nat, r: nat, b: nat, lo: nat, all: nat, start: nat, len: nat)
    requires r < tp && lo == r * b && all == tp * b && |v| == Offset(all, TILE)
    requires start == Offset(lo, TILE) && len == Offset(b, TILE) && start + len <= |v|
    ensures |Blocks(v, TILE)| / tp == b
    ensures Narrow(Blocks(v, TILE), lo, b) == Some(Blocks(v[start..start + len], TILE))
  {
    hide Blocks, Offset;
    BlocksSize(v, TILE, all);
    BlocksOfRange(v, TILE, lo, b);
    Commute(tp, b);
    QuotientUnique(b, 0, tp);
  }

  lemma NoOffset(unit: nat)
    ensures Offset(0, unit) == 0
  {
  }

  lemma TilesPerBlock(ic: nat)
    requires ic % HAD == 0
    ensures ic % TILE == 0
  {
    var q := ic / HAD;
    QuotientUnique(8 * q, 0, TILE);
  }
}
