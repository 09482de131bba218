/** Merging a layer's two input projections into one: the weights under each other, one product, two slices
    of it. */
module ProjectionMerge {
  import opened Basics
  import opened FragmentOrder

  /** A linear's weight storage: packed four-bit bytes in checkpoint or fragment order, or plain values. */
  datatype Dtype = Packed4 | Bf16

  class Linear<T(!new)> {
    var weight: seq<T>
    var rows: nat
    var cols: nat
    const dtype: Dtype
    const ok: bool
    var scale: seq<seq<nat>>
    var wref: Option<seq<nat>>

    constructor (weight: seq<T>, rows: nat, cols: nat, dtype: Dtype, ok: bool, scale: seq<seq<nat>>, wref: Option<seq<nat>>)
      ensures this.weight == weight && this.rows == rows && this.cols == cols && this.dtype == dtype && this.ok == ok
      ensures this.scale == scale && this.wref == wref
    {
      this.weight, this.rows, this.cols, this.dtype, this.ok := weight, rows, cols, dtype, ok;
      this.scale, this.wref := scale, wref;
    }
  }

  // ----- what a projection computes -----------------------------------------------------

  /** Row n of a row-major matrix. */
  function RowOf<T>(w: seq<T>, cols: nat, n: nat): seq<T>
    requires n * cols + cols <= |w|
  {
    w[n * cols..n * cols + cols]
  }

  ghost predicate Matrix<T>(w: seq<T>, rows: nat, cols: nat) { |w| == rows * cols }

  /** Column n of a scale table of rows of n entries. */
  function ColumnOf(scale: seq<seq<nat>>, n: nat): seq<nat>
    requires forall i :: 0 <= i < |scale| ==> n < |scale[i]|
  {
    seq(|scale|, i requires 0 <= i < |scale| => scale[i][n])
  }

  ghost predicate Table(scale: seq<seq<nat>>, rows: nat) { forall i :: 0 <= i < |scale| ==> |scale[i]| == rows }

  /** The largest scale of each output row. */
  function MaxOf(c: seq<nat>): nat {
    if c == [] then 0 else Max(MaxOf(c[..|c| - 1]), c[|c| - 1])
  }

  lemma {:induction false} MaxOfIs(c: seq<nat>)
    ensures forall i :: 0 <= i < |c| ==> c[i] <= MaxOf(c)
    ensures if c == [] then MaxOf(c) == 0 else MaxOf(c) in c
  {
    if c != [] {
      MaxOfIs(c[..|c| - 1]);
    }
  }

  /** Row n's reference is the largest of its scales. */
  lemma RowRefIsMaximum(scale: seq<seq<nat>>, rows: nat, n: nat)
    requires Table(scale, rows) && n < rows
    ensures forall b :: 0 <= b < |scale| ==> scale[b][n] <= MakeRowRef(scale, rows)[n]
    ensures scale != [] ==> exists b :: 0 <= b < |scale| && scale[b][n] == MakeRowRef(scale, rows)[n]
  {
    var c := ColumnOf(scale, n);
    MaxOfIs(c);
    forall b | 0 <= b < |scale| ensures scale[b][n] <= MaxOf(c) {
      assert c[b] == scale[b][n];
    }
    if scale != [] {
      var b :| 0 <= b < |c| && c[b] == MaxOf(c);
    }
  }

  function MakeRowRef(scale: seq<seq<nat>>, rows: nat): (r: seq<nat>)
    requires Table(scale, rows)
    ensures |r| == rows && forall n :: 0 <= n < rows ==> r[n] == MaxOf(ColumnOf(scale, n))
  {
    seq(rows, n requires 0 <= n < rows => MaxOf(ColumnOf(scale, n)))
  }

  /** torch.cat of two tables along their columns. */
  function CatColumns(a: seq<seq<nat>>, b: seq<seq<nat>>): (r: seq<seq<nat>>)
    requires |a| == |b|
    ensures |r| == |a| && forall i :: 0 <= i < |r| ==> r[i] == a[i] + b[i]
  {
    seq(|a|, i requires 0 <= i < |a| => a[i] + b[i])
  }

  /** Row references may be computed before or after joining the tables. */
  lemma RowRefOfCat(a: seq<seq<nat>>, b: seq<seq<nat>>, n1: nat, n2: nat)
    requires |a| == |b| && Table(a, n1) && Table(b, n2)
    ensures Table(CatColumns(a, b), n1 + n2)
    ensures MakeRowRef(CatColumns(a, b), n1 + n2) == MakeRowRef(a, n1) + MakeRowRef(b, n2)
  {
    var c := CatColumns(a, b);
    forall n | 0 <= n < n1 + n2
      ensures ColumnOf(c, n) == if n < n1 then ColumnOf(a, n) else ColumnOf(b, n - n1)
    {
    }
  }

  /** A quantised product by output element: an activation row, a weight row, the row's scales and its
      reference, 0 where the kernel is given none. */
  type RowKernel<!X, !T, !Y> = (X, seq<T>, seq<nat>, nat) -> Y

  /** The product kernels: ours on the folded path and on the per-block path, aiter's, and the plain one. */
  datatype Kernels<!X, !T, !Y> =
    Kernels(folded: RowKernel<X, T, Y>, perBlock: RowKernel<X, T, Y>, aiter: RowKernel<X, T, Y>, plain: (X, seq<T>) -> Y)

  /** Output row for one token. */
  function Quantised<X, T, Y>(f: RowKernel<X, T, Y>, x: X, w: seq<T>, rows: nat, cols: nat, scale: seq<seq<nat>>, wref: seq<nat>): (y: seq<Y>)
    requires Matrix(w, rows, cols) && Table(scale, rows) && |wref| == rows
    ensures |y| == rows
  {
    RowsFit(rows, cols);
    seq(rows, n requires 0 <= n < rows && n * cols + cols <= |w| => f(x, RowOf(w, cols, n), ColumnOf(scale, n), wref[n]))
  }

  function Plain<X, T, Y>(k: Kernels<X, T, Y>, x: X, w: seq<T>, rows: nat, cols: nat): (y: seq<Y>)
    requires Matrix(w, rows, cols)
    ensures |y| == rows
  {
    RowsFit(rows, cols);
    seq(rows, n requires 0 <= n < rows && n * cols + cols <= |w| => k.plain(x, RowOf(w, cols, n)))
  }

  lemma RowsFit(rows: nat, cols: nat)
    ensures forall n :: 0 <= n < rows ==> n * cols + cols <= rows * cols
  {
    forall n | 0 <= n < rows ensures n * cols + cols <= rows * cols {
      MulGap(n, rows, cols);
    }
  }

  lemma RowOfCat<T>(w: seq<T>, v: seq<T>, n1: nat, n2: nat, cols: nat, n: nat)
    requires Matrix(w, n1, cols) && Matrix(v, n2, cols) && n < n1 + n2
    ensures Matrix(w + v, n1 + n2, cols) && n * cols + cols <= |w + v|
    ensures n < n1 ==> n * cols + cols <= |w| && RowOf(w + v, cols, n) == RowOf(w, cols, n)
    ensures n >= n1 ==> (n - n1) * cols + cols <= |v| && RowOf(w + v, cols, n) == RowOf(v, cols, n - n1)
  {
    CatArithmetic(n1, n2, cols, n);
    RowAt(w + v, cols, n, n * cols);
    if n < n1 {
      RowAt(w, cols, n, n * cols);
    } else {
      RowAt(v, cols, n - n1, (n - n1) * cols);
    }
    SliceOfCat(w, v, n * cols, cols);
  }

  lemma RowAt<T>(w: seq<T>, cols: nat, n: nat, lo: nat)
    requires lo == n * cols && lo + cols <= |w|
    ensures n * cols + cols <= |w| && RowOf(w, cols, n) == w[lo..lo + cols]
  {
  }

  lemma CatArithmetic(n1: nat, n2: nat, cols: nat, n: nat)
    requires n < n1 + n2
    ensures (n1 + n2) * cols == n1 * cols + n2 * cols && n * cols + cols <= (n1 + n2) * cols
    ensures n < n1 ==> n * cols + cols <= n1 * cols
    ensures n >= n1 ==> (n - n1) * cols + cols <= n2 * cols && n * cols == n1 * cols + (n - n1) * cols
  {
    MulGap(n, n1 + n2, cols);
    if n < n1 {
      MulGap(n, n1, cols);
    } else {
      MulGap(n - n1, n2, cols);
    }
  }

  lemma SliceOfCat<T>(w: seq<T>, v: seq<T>, lo: nat, len: nat)
    requires lo + len <= |w| || |w| <= lo <= lo + len <= |w| + |v|
    ensures lo + len <= |w| ==> (w + v)[lo..lo + len] == w[lo..lo + len]
    ensures lo >= |w| ==> (w + v)[lo..lo + len] == v[lo - |w|..lo - |w| + len]
  {
  }

  lemma ColumnOfCat(a: seq<seq<nat>>, b: seq<seq<nat>>, n1: nat, n2: nat, n: nat)
    requires |a| == |b| && Table(a, n1) && Table(b, n2) && n < n1 + n2
    ensures ColumnOf(CatColumns(a, b), n) == if n < n1 then ColumnOf(a, n) else ColumnOf(b, n - n1)
  {
  }

  /** The merged product of one kernel is the two products side by side. */
  lemma QuantisedCat<X, T, Y>(f: RowKernel<X, T, Y>, x: X, w: seq<T>, v: seq<T>, n1: nat, n2: nat, cols: nat,
                              s: seq<seq<nat>>, t: seq<seq<nat>>, p: seq<nat>, q: seq<nat>)
    requires Matrix(w, n1, cols) && Matrix(v, n2, cols) && |s| == |t| && Table(s, n1) && Table(t, n2) && |p| == n1 && |q| == n2
    ensures Matrix(w + v, n1 + n2, cols) && Table(CatColumns(s, t), n1 + n2)
    ensures Quantised(f, x, w + v, n1 + n2, cols, CatColumns(s, t), p + q)
            == Quantised(f, x, w, n1, cols, s, p) + Quantised(f, x, v, n2, cols, t, q)
  {
    assert (n1 + n2) * cols == n1 * cols + n2 * cols;
    forall n | 0 <= n < n1 + n2
      ensures Quantised(f, x, w + v, n1 + n2, cols, CatColumns(s, t), p + q)[n]
              == (Quantised(f, x, w, n1, cols, s, p) + Quantised(f, x, v, n2, cols, t, q))[n]
    {
      RowOfCat(w, v, n1, n2, cols, n);
      ColumnOfCat(s, t, n1, n2, n);
    }
  }

  lemma PlainCat<X, T, Y>(k: Kernels<X, T, Y>, x: X, w: seq<T>, v: seq<T>, n1: nat, n2: nat, cols: nat)
    requires Matrix(w, n1, cols) && Matrix(v, n2, cols)
    ensures Matrix(w + v, n1 + n2, cols)
    ensures Plain(k, x, w + v, n1 + n2, cols) == Plain(k, x, w, n1, cols) + Plain(k, x, v, n2, cols)
  {
    assert (n1 + n2) * cols == n1 * cols + n2 * cols;
    forall n | 0 <= n < n1 + n2
      ensures Plain(k, x, w + v, n1 + n2, cols)[n] == (Plain(k, x, w, n1, cols) + Plain(k, x, v, n2, cols))[n]
    {
      RowOfCat(w, v, n1, n2, cols, n);
    }
  }

  // ----- layouts -----------------------------------------------------------------------------

  /** A weight the kernels can read: whole 16-row tiles and 8-byte steps where it is in fragment order. */
  ghost predicate Readable<T>(w: seq<T>, rows: nat, cols: nat, perm: bool) {
    Matrix(w, rows, cols) && (perm ==> rows % 16 == 0 && cols % 8 == 0 && cols > 0)
  }

  lemma PackedSize<T>(w: seq<T>, rows: nat, cols: nat)
    requires Matrix(w, rows, cols) && rows % 16 == 0 && cols % 8 == 0 && cols > 0
    ensures Packed(w, rows / 16, cols / 8)
  {
    var nt, ks := rows / 16, cols / 8;
    SameInner(ks);
    assert rows * cols == (16 * nt) * (8 * ks) == nt * (128 * ks);
  }

  /** The weight in checkpoint order, whichever order it is stored in. */
  function InRows<T>(w: seq<T>, rows: nat, cols: nat, perm: bool): (r: seq<T>)
    requires Readable(w, rows, cols, perm)
    ensures Matrix(r, rows, cols)
  {
    if perm then
      PackedSize(w, rows, cols);
      UnpermuteW(w, rows / 16, cols / 8)
    else w
  }

  lemma InRowsCat<T>(w: seq<T>, v: seq<T>, n1: nat, n2: nat, cols: nat, perm: bool)
    requires Readable(w, n1, cols, perm) && Readable(v, n2, cols, perm)
    ensures Readable(w + v, n1 + n2, cols, perm)
    ensures InRows(w + v, n1 + n2, cols, perm) == InRows(w, n1, cols, perm) + InRows(v, n2, cols, perm)
  {
    assert (n1 + n2) * cols == n1 * cols + n2 * cols;
    if perm {
      PackedSize(w, n1, cols);
      PackedSize(v, n2, cols);
      UnpermuteConcat(w, v, n1 / 16, n2 / 16, cols / 8);
      assert (n1 + n2) / 16 == n1 / 16 + n2 / 16;
    }
  }

  // ----- which kernel runs ----------------------------------------------------------------------

  datatype Path = Folded | PerBlock | Aiter

  /** The number of row references says which kernel runs; for few tokens it is always aiter. */
  function PathOf(refs: nat, rows: nat, few: bool): Path {
    if few then Aiter else if refs == rows then Folded else if refs == 2 then PerBlock else Aiter
  }

  /** The operands of a quantised product, the weight as it is stored. */
  datatype Operands<T> = Operands(weight: seq<T>, rows: nat, cols: nat, scale: seq<seq<nat>>, wref: seq<nat>) {
    ghost predicate Valid(perm: bool) { Readable(weight, rows, cols, perm) && Table(scale, rows) }

    function Path(few: bool): Path { PathOf(|wref|, rows, few) }

    /** One reference per row. */
    predicate Full() { |wref| == rows }

    /** As loading leaves a linear of ours: one reference per row, or two if forced onto the per-block path. */
    ghost predicate Loaded(perm: bool) { Valid(perm) && (Full() || |wref| == 2) }

    function Cat(b: Operands<T>): Operands<T>
      requires |scale| == |b.scale|
    {
      Operands(weight + b.weight, rows + b.rows, cols, CatColumns(scale, b.scale), wref + b.wref)
    }
  }

  /** The whole quantised product of one token.  Our kernels read the weight in either order, aiter only as it
      is stored; only the folded path is given the references. */
  function Served<X, T, Y>(k: Kernels<X, T, Y>, x: X, few: bool, a: Operands<T>, perm: bool): (y: seq<Y>)
    requires a.Valid(perm)
    ensures |y| == a.rows
  {
    match a.Path(few)
    case Folded => Quantised(k.folded, x, InRows(a.weight, a.rows, a.cols, perm), a.rows, a.cols, a.scale, a.wref)
    case PerBlock => Quantised(k.perBlock, x, InRows(a.weight, a.rows, a.cols, perm), a.rows, a.cols, a.scale, NoRefs(a.rows))
    case Aiter => Quantised(k.aiter, x, a.weight, a.rows, a.cols, a.scale, NoRefs(a.rows))
  }

  function NoRefs(n: nat): (r: seq<nat>)
    ensures |r| == n && forall i :: 0 <= i < n ==> r[i] == 0
  {
    seq(n, _ => 0)
  }

  lemma CatValid<T>(a: Operands<T>, b: Operands<T>, perm: bool)
    requires a.Valid(perm) && b.Valid(perm) && a.cols == b.cols && |a.scale| == |b.scale|
    ensures a.Cat(b).Valid(perm)
  {
    InRowsCat(a.weight, b.weight, a.rows, b.rows, a.cols, perm);
  }

  /** Where both linears and their join run the same kernel, the merged product is the two side by side. */
  lemma ServedCat<X, T, Y>(k: Kernels<X, T, Y>, x: X, few: bool, a: Operands<T>, b: Operands<T>, perm: bool)
    requires a.Valid(perm) && b.Valid(perm) && a.cols == b.cols && |a.scale| == |b.scale|
    requires few || (a.Full() && b.Full())
    ensures a.Cat(b).Valid(perm)
    ensures Served(k, x, few, a.Cat(b), perm) == Served(k, x, few, a, perm) + Served(k, x, few, b, perm)
  {
    hide Quantised, InRows, Readable;
    CatValid(a, b, perm);
    InRowsCat(a.weight, b.weight, a.rows, b.rows, a.cols, perm);
    assert NoRefs(a.rows + b.rows) == NoRefs(a.rows) + NoRefs(b.rows);
    assert Matrix(a.weight, a.rows, a.cols) && Matrix(b.weight, b.rows, b.cols) by { ReadableMatrix(a, perm); ReadableMatrix(b, perm); }
    if few {
      QuantisedCat(k.aiter, x, a.weight, b.weight, a.rows, b.rows, a.cols, a.scale, b.scale, NoRefs(a.rows), NoRefs(b.rows));
    } else {
      QuantisedCat(k.folded, x, InRows(a.weight, a.rows, a.cols, perm), InRows(b.weight, b.rows, b.cols, perm),
                   a.rows, b.rows, a.cols, a.scale, b.scale, a.wref, b.wref);
    }
  }

  lemma ReadableMatrix<T>(a: Operands<T>, perm: bool)
    requires Readable(a.weight, a.rows, a.cols, perm)
    ensures Matrix(a.weight, a.rows, a.cols)
  {
  }

  /** The merge gives back both products, whatever the kernels and the token. */
  ghost predicate Exact<T(!new)>(a: Operands<T>, b: Operands<T>, few: bool, perm: bool)
    requires a.Valid(perm) && b.Valid(perm) && |a.scale| == |b.scale| && a.Cat(b).Valid(perm)
  {
    forall k: Kernels<int, T, int>, x: int ::
      Served(k, x, few, a.Cat(b), perm) == Served(k, x, few, a, perm) + Served(k, x, few, b, perm)
  }

  /** A join with a linear of two references has neither one per row nor two, and goes to aiter. */
  lemma JoinedPath<T>(a: Operands<T>, b: Operands<T>)
    requires a.rows > 0 && b.rows > 0 && a.rows % 16 == 0 && b.rows % 16 == 0 && |a.scale| == |b.scale|
    requires (a.Full() || |a.wref| == 2) && (b.Full() || |b.wref| == 2)
    ensures a.Path(false) == if a.Full() then Folded else PerBlock
    ensures b.Path(false) == if b.Full() then Folded else PerBlock
    ensures a.Cat(b).Path(false) == if a.Full() && b.Full() then Folded else Aiter
  {
  }

  /** For two linears of ours that can be merged, the merge is exact if and only if both run the folded path,
      or so few tokens are served that everything is aiter's. */
  lemma MergeExactIff<T(!new)>(a: Operands<T>, b: Operands<T>, few: bool, perm: bool)
    requires a.Loaded(perm) && b.Loaded(perm) && a.cols == b.cols && |a.scale| == |b.scale|
    requires a.rows > 0 && b.rows > 0 && a.rows % 16 == 0 && b.rows % 16 == 0
    ensures a.Cat(b).Valid(perm)
    ensures Exact(a, b, few, perm) <==> few || (a.Full() && b.Full())
  {
    CatValid(a, b, perm);
    if few || (a.Full() && b.Full()) {
      forall k: Kernels<int, T, int>, x: int
        ensures Served(k, x, few, a.Cat(b), perm) == Served(k, x, few, a, perm) + Served(k, x, few, b, perm)
      {
        ServedCat(k, x, few, a, b, perm);
      }
    } else {
      var k := TellTale<T>();
      JoinedPath(a, b);
      assert Served(k, 0, few, a.Cat(b), perm)[0] == 1;
      assert (Served(k, 0, few, a, perm) + Served(k, 0, few, b, perm))[0] == 0;
    }
  }

  /** Two linears of 16 rows and 64 packed inputs, both forced onto the per-block path: merging them changes
      what they give. */
  lemma PerBlockMergeChanges()
    ensures var a := Operands(NoRefs(512), 16, 32, [NoRefs(16), NoRefs(16)], NoRefs(2));
            a.Loaded(false) && a.Cat(a).Valid(false) && !Exact(a, a, false, false)
  {
    var a := Operands(NoRefs(512), 16, 32, [NoRefs(16), NoRefs(16)], NoRefs(2));
    MergeExactIff(a, a, false, false);
  }

  /** Kernels whose outputs tell whether aiter ran. */
  function TellTale<T>(): Kernels<int, T, int> {
    Kernels((_: int, _: seq<T>, _: seq<nat>, _: nat) => 0, (_: int, _: seq<T>, _: seq<nat>, _: nat) => 0,
            (_: int, _: seq<T>, _: seq<nat>, _: nat) => 1, (_: int, _: seq<T>) => 0)
  }

  // ----- the merge ------------------------------------------------------------------------------

  /** A loaded linear: a matrix, and if it is quantised its scales and row references, as many as its route
      needs. */
  ghost predicate Loaded<T(!new)>(lin: Linear<T>, perm: bool)
    reads lin
  {
    && Readable(lin.weight, lin.rows, lin.cols, perm && lin.ok)
    && (lin.ok ==> lin.wref.Some? && (|lin.wref.value| == lin.rows || |lin.wref.value| == 2))
    && (!lin.ok && lin.wref.Some? ==> |lin.wref.value| == 1)
    && (lin.wref.Some? ==> Table(lin.scale, lin.rows))
  }

  function OperandsOf<T(!new)>(lin: Linear<T>): Operands<T>
    requires lin.wref.Some?
    reads lin
  {
    Operands(lin.weight, lin.rows, lin.cols, lin.scale, lin.wref.value)
  }

  /** One linear on its own. */
  function Alone<X, T(!new), Y>(k: Kernels<X, T, Y>, x: X, few: bool, lin: Linear<T>, perm: bool): seq<Y>
    requires Loaded(lin, perm)
    reads lin
  {
    if lin.wref.Some? then Served(k, x, few, OperandsOf(lin), perm && lin.ok)
    else Plain(k, x, lin.weight, lin.rows, lin.cols)
  }

  class GdnModule<T(!new)> {
    const qkvz: Linear<T>
    const ba: Linear<T>
    var merged: bool
    var quant: bool
    var n1: nat
    var rows: nat
    var cols: nat
    var w: seq<T>
    var ws: seq<seq<nat>>
    var wref: seq<nat>

    constructor (qkvz: Linear<T>, ba: Linear<T>)
      ensures this.qkvz == qkvz && this.ba == ba && !merged
    {
      this.qkvz, this.ba := qkvz, ba;
      merged, quant, n1, rows, cols := false, false, 0, 0, 0;
      w, ws, wref := [], [], [];
    }

    /** Both on our kernel, or both plain; equal inputs; whole 16-row tiles. */
    predicate Mergeable()
      reads qkvz, ba
    {
      var rad := qkvz.ok && ba.ok;
      var unq := !rad && qkvz.wref.None? && ba.wref.None? && qkvz.dtype.Bf16? && ba.dtype.Bf16?;
      (rad || unq) && qkvz.cols == ba.cols && qkvz.rows % 16 == 0 && ba.rows % 16 == 0
    }

    /** Both linears as loaded, scale tables of the same height. */
    ghost predicate Ready(perm: bool)
      reads this, qkvz, ba
    {
      && qkvz != ba && Loaded(qkvz, perm) && Loaded(ba, perm)
      && (qkvz.ok && ba.ok && qkvz.cols == ba.cols ==> |qkvz.scale| == |ba.scale|)
    }

    /** The merged weights are the two linears' as they were. */
    twostate predicate HoldsBoth()
      reads this
    {
      && merged && n1 == old(qkvz.rows) && rows == old(qkvz.rows) + old(ba.rows) && cols == old(qkvz.cols)
      && w == old(qkvz.weight) + old(ba.weight) && quant == (qkvz.ok && ba.ok)
      && (quant ==> old(|qkvz.scale| == |ba.scale| && qkvz.wref.Some? && ba.wref.Some?)
                    && ws == CatColumns(old(qkvz.scale), old(ba.scale))
                    && wref == old(qkvz.wref).value + old(ba.wref).value)
    }

    /** Build the merged weights and release the originals.  A pair that cannot be merged is left alone. */
    method MergeOne(ghost perm: bool) returns (ok: bool)
      requires Ready(perm)
      modifies this, qkvz, ba
      ensures ok == old(Mergeable())
      ensures !ok ==> unchanged(this) && unchanged(qkvz) && unchanged(ba)
      ensures ok ==> HoldsBoth() && qkvz.weight == [] && ba.weight == []
      ensures ok ==> qkvz.scale == (if quant then [] else old(qkvz.scale)) && ba.scale == (if quant then [] else old(ba.scale))
    {
      var rad := qkvz.ok && ba.ok;
      var unq := !rad && qkvz.wref.None? && ba.wref.None? && qkvz.dtype == Bf16 && ba.dtype == Bf16;
      if !(rad || unq) {
        return false;
      }
      if qkvz.cols != ba.cols {
        return false;
      }
      if qkvz.rows % 16 != 0 || ba.rows % 16 != 0 {
        return false;
      }
      w := qkvz.weight + ba.weight;
      if rad {
        ws := CatColumns(qkvz.scale, ba.scale);
        wref := qkvz.wref.value + ba.wref.value;
      }
      quant, n1, rows, cols := rad, qkvz.rows, qkvz.rows + ba.rows, qkvz.cols;
      qkvz.weight, ba.weight := [], [];
      if rad {
        qkvz.scale, ba.scale := [], [];
      }
      merged := true;
      ok := true;
    }

    ghost predicate Usable(perm: bool)
      reads this
    {
      && merged && n1 <= rows && Readable(w, rows, cols, perm && quant) && (quant ==> Table(ws, rows))
    }

    /** The merged forward's projections: one product, cut in two. */
    method Forward<X, Y>(k: Kernels<X, T, Y>, x: X, few: bool, perm: bool) returns (qkvzOut: seq<Y>, baOut: seq<Y>)
      requires Usable(perm)
      ensures |qkvzOut| == n1
      ensures qkvzOut + baOut == if quant then Served(k, x, few, Operands(w, rows, cols, ws, wref), perm) else Plain(k, x, w, rows, cols)
    {
      var out := if quant then Served(k, x, few, Operands(w, rows, cols, ws, wref), perm) else Plain(k, x, w, rows, cols);
      qkvzOut, baOut := out[..n1], out[n1..];
    }

    /** Merge, then run.  The outputs are the joined operands' product cut at the first linear's rows: in
        either layout each is what its own linear gave before the merge, if the two are plain, or both have
        a reference for every row, or few tokens are served. */
    method MergeThenForward<X, Y>(k: Kernels<X, T, Y>, x: X, few: bool, perm: bool) returns (qkvzOut: seq<Y>, baOut: seq<Y>)
      requires Ready(perm) && Mergeable()
      modifies this, qkvz, ba
      ensures |qkvzOut| == old(qkvz.rows)
      ensures qkvz.ok ==> old(OperandsOf(qkvz).Cat(OperandsOf(ba)).Valid(perm))
                          && qkvzOut + baOut == old(Served(k, x, few, OperandsOf(qkvz).Cat(OperandsOf(ba)), perm))
      ensures !qkvz.ok || few || old(OperandsOf(qkvz).Full() && OperandsOf(ba).Full()) ==>
                qkvzOut == old(Alone(k, x, few, qkvz, perm)) && baOut == old(Alone(k, x, few, ba, perm))
    {
      hide Served, Plain, InRows;
      ghost var a, b := Alone(k, x, few, qkvz, perm), Alone(k, x, few, ba, perm);
      ghost var exact := !qkvz.ok || few || (OperandsOf(qkvz).Full() && OperandsOf(ba).Full());
      if qkvz.ok {
        CatValid(OperandsOf(qkvz), OperandsOf(ba), perm);
        if exact {
          ServedCat(k, x, few, OperandsOf(qkvz), OperandsOf(ba), perm);
        }
      } else {
        PlainCat(k, x, qkvz.weight, ba.weight, qkvz.rows, ba.rows, qkvz.cols);
      }
      var ok := MergeOne(perm);
      qkvzOut, baOut := Forward(k, x, few, perm);
      if exact {
        SplitEqual(qkvzOut, baOut, a, b);
      }
    }
  }

  lemma SplitEqual<Y>(a: seq<Y>, b: seq<Y>, c: seq<Y>, d: seq<Y>)
    requires a + b == c + d && |a| == |c|
    ensures a == c && b == d
  {
    assert a == (a + b)[..|a|] && c == (c + d)[..|c|];
    assert b == (a + b)[|a|..] && d == (c + d)[|c|..];
  }
}
