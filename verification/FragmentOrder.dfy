/** The fragment order of packed weights: views of a flat buffer in five axes, two of them exchanged. */
module FragmentOrder {
  import opened Basics

  function Over(x: nat, d: nat): nat
    requires d > 0
  {
    x / d
  }

  function Rest(x: nat, d: nat): nat
    requires d > 0
  {
    x % d
  }

  /** A place in a five-axis view. */
  datatype At = At(a: nat, b: nat, c: nat, d: nat, e: nat)

  /** The axes' extents, less the outermost. */
  datatype Shape = Shape(b: nat, c: nat, d: nat, e: nat) {
    predicate Valid() { b > 0 && c > 0 && d > 0 && e > 0 }

    predicate Holds(i: At) { i.b < b && i.c < c && i.d < d && i.e < e }

    /** Row-major position of a place. */
    function Flat(i: At): nat { (((i.a * b + i.b) * c + i.c) * d + i.d) * e + i.e }

    /** The place at a position. */
    function Place(x: nat): At
      requires Valid()
    {
      var q1 := Over(x, e);
      var q2 := Over(q1, d);
      var q3 := Over(q2, c);
      At(Over(q3, b), Rest(q3, b), Rest(q2, c), Rest(q1, d), Rest(x, e))
    }

    /** Elements under one index of the outermost axis. */
    function Inner(): nat { b * c * d * e }
  }

  lemma PlaceOfFlat(s: Shape, i: At)
    requires s.Valid() && s.Holds(i)
    ensures s.Place(s.Flat(i)) == i
  {
    QuotientUnique(i.a, i.b, s.b);
    var q3 := i.a * s.b + i.b;
    QuotientUnique(q3, i.c, s.c);
    var q2 := q3 * s.c + i.c;
    QuotientUnique(q2, i.d, s.d);
    var q1 := q2 * s.d + i.d;
    QuotientUnique(q1, i.e, s.e);
  }

  lemma FlatOfPlace(s: Shape, x: nat)
    requires s.Valid()
    ensures s.Holds(s.Place(x)) && s.Flat(s.Place(x)) == x
  {
    Split(x, s.e);
    Split(x / s.e, s.d);
    Split(x / s.e / s.d, s.c);
    Split(x / s.e / s.d / s.c, s.b);
  }

  lemma Split(x: nat, d: nat)
    requires d > 0
    ensures x / d * d + x % d == x && x % d < d
  {
  }

  /** Moving along the outermost axis moves by whole inner blocks. */
  lemma FlatShift(s: Shape, i: At, k: nat)
    ensures s.Flat(i.(a := i.a + k)) == s.Flat(i) + k * s.Inner()
  {
    var y3, q3, p3 := k * s.b, i.a * s.b + i.b, (i.a + k) * s.b + i.b;
    Distribute(i.a + k, i.a, k, s.b, i.b);
    var y2, q2, p2 := y3 * s.c, q3 * s.c + i.c, p3 * s.c + i.c;
    Distribute(p3, q3, y3, s.c, i.c);
    var y1, q1, p1 := y2 * s.d, q2 * s.d + i.d, p2 * s.d + i.d;
    Distribute(p2, q2, y2, s.d, i.d);
    Distribute(p1, q1, y1, s.e, i.e);
    Associate(k, s.b, s.c, s.d, s.e);
  }

  lemma Distribute(z: nat, x: nat, y: nat, d: nat, r: nat)
    requires z == x + y
    ensures z * d + r == (x * d + r) + y * d
  {
  }

  lemma Associate(k: nat, b: nat, c: nat, d: nat, e: nat)
    ensures k * b * c * d * e == k * (b * c * d * e)
  {
    assert k * b * c == k * (b * c);
    assert k * (b * c) * d == k * (b * c * d);
  }

  lemma FlatBelow(s: Shape, i: At, n: nat)
    requires s.Holds(i)
    ensures i.a < n <==> s.Flat(i) < n * s.Inner()
  {
    FlatShift(s, i.(a := 0), i.a);
    var x := s.Flat(i.(a := 0));
    InnerBound(s, i);
    if i.a < n {
      MulGap(i.a, n, s.Inner());
    } else {
      MulMono(n, i.a, s.Inner());
    }
  }

  lemma InnerBound(s: Shape, i: At)
    requires s.Holds(i)
    ensures s.Flat(i.(a := 0)) < s.Inner()
  {
    MixedRadixBound(i.b, i.c, s.c, s.b);
    MixedRadixBound(i.b * s.c + i.c, i.d, s.d, s.b * s.c);
    MixedRadixBound((i.b * s.c + i.c) * s.d + i.d, i.e, s.e, s.b * s.c * s.d);
  }

  // ----- the two orders -------------------------------------------------------------

  /** Checkpoint order: n-tile, row, k-step, half, byte; and fragment order, row moved inward. */
  function Rows(ks: nat): Shape { Shape(16, ks, 2, 4) }
  function Fragments(ks: nat): Shape { Shape(ks, 2, 16, 4) }

  /** permute(0, 2, 3, 1, 4) on a place, and permute(0, 3, 1, 2, 4) back. */
  function ToFragment(i: At): At { At(i.a, i.c, i.d, i.b, i.e) }
  function ToRow(i: At): At { At(i.a, i.d, i.b, i.c, i.e) }

  /** Bytes of a packed N x K/2 weight of nt tiles of 16 rows and ks steps of 16 columns. */
  ghost predicate Packed<T>(w: seq<T>, nt: nat, ks: nat) { ks > 0 && |w| == nt * Rows(ks).Inner() }

  lemma SameInner(ks: nat)
    ensures Rows(ks).Inner() == Fragments(ks).Inner() == 128 * ks
  {
  }

  /** Where fragment position x comes from, and where checkpoint position x goes. */
  function From(ks: nat, x: nat): nat
    requires ks > 0
  {
    Rows(ks).Flat(ToRow(Fragments(ks).Place(x)))
  }

  function Into(ks: nat, x: nat): nat
    requires ks > 0
  {
    Fragments(ks).Flat(ToFragment(Rows(ks).Place(x)))
  }

  /** From and Into are inverse, and stay inside the buffer. */
  lemma FromInto(nt: nat, ks: nat, x: nat)
    requires ks > 0
    ensures From(ks, Into(ks, x)) == x && Into(ks, From(ks, x)) == x
    ensures x < nt * Rows(ks).Inner() <==> From(ks, x) < nt * Rows(ks).Inner()
    ensures x < nt * Rows(ks).Inner() <==> Into(ks, x) < nt * Rows(ks).Inner()
  {
    var r, f := Rows(ks), Fragments(ks);
    SameInner(ks);
    FlatOfPlace(r, x);
    FlatOfPlace(f, x);
    PlaceOfFlat(f, ToFragment(r.Place(x)));
    PlaceOfFlat(r, ToRow(f.Place(x)));
    FlatBelow(f, f.Place(x), nt);
    FlatBelow(r, ToRow(f.Place(x)), nt);
    FlatBelow(r, r.Place(x), nt);
    FlatBelow(f, ToFragment(r.Place(x)), nt);
  }

  lemma InBounds(nt: nat, ks: nat)
    requires ks > 0
    ensures forall x: nat :: x < nt * Rows(ks).Inner() ==> From(ks, x) < nt * Rows(ks).Inner()
    ensures forall x: nat :: x < nt * Rows(ks).Inner() ==> Into(ks, x) < nt * Rows(ks).Inner()
  {
    forall x: nat ensures x < nt * Rows(ks).Inner() <==> From(ks, x) < nt * Rows(ks).Inner() {
      FromInto(nt, ks, x);
    }
    forall x: nat ensures x < nt * Rows(ks).Inner() <==> Into(ks, x) < nt * Rows(ks).Inner() {
      FromInto(nt, ks, x);
    }
  }

  function PermuteW<T>(w: seq<T>, ghost nt: nat, ks: nat): (p: seq<T>)
    requires Packed(w, nt, ks)
    ensures |p| == |w| && forall x :: 0 <= x < |w| ==> From(ks, x) < |w| && p[x] == w[From(ks, x)]
  {
    InBounds(nt, ks);
    seq(|w|, x requires 0 <= x < |w| && From(ks, x) < |w| => w[From(ks, x)])
  }

  function UnpermuteW<T>(p: seq<T>, ghost nt: nat, ks: nat): (w: seq<T>)
    requires Packed(p, nt, ks)
    ensures |w| == |p| && forall x :: 0 <= x < |p| ==> Into(ks, x) < |p| && w[x] == p[Into(ks, x)]
  {
    InBounds(nt, ks);
    seq(|p|, x requires 0 <= x < |p| && Into(ks, x) < |p| => p[Into(ks, x)])
  }

  /** In numbers: byte b of half h of row r, in k-step k of the n-tile t of sixteen rows, moves from row
      16 * t + r of the checkpoint, whose rows are eight bytes per k-step, to where the k-step's halves stand
      one after the other, each with its sixteen rows of four bytes. */
  lemma FragmentByte<T>(w: seq<T>, nt: nat, ks: nat, t: nat, k: nat, h: nat, r: nat, b: nat)
    requires Packed(w, nt, ks) && t < nt && k < ks && h < 2 && r < 16 && b < 4
    ensures 0 <= (t * 16 + r) * (8 * ks) + 8 * k + 4 * h + b < |w| && 0 <= (((t * ks + k) * 2 + h) * 16 + r) * 4 + b < |w|
    ensures PermuteW(w, nt, ks)[(((t * ks + k) * 2 + h) * 16 + r) * 4 + b] == w[(t * 16 + r) * (8 * ks) + 8 * k + 4 * h + b]
  {
    hide Shape.Flat, Shape.Place;
    var i := At(t, k, h, r, b);
    FragmentPlace(ks, t, k, h, r, b);
    SameInner(ks);
    PlaceOfFlat(Fragments(ks), i);
    FlatBelow(Fragments(ks), i, nt);
    FlatBelow(Rows(ks), ToRow(i), nt);
  }

  lemma FragmentPlace(ks: nat, t: nat, k: nat, h: nat, r: nat, b: nat)
    ensures Fragments(ks).Flat(At(t, k, h, r, b)) == (((t * ks + k) * 2 + h) * 16 + r) * 4 + b
    ensures Rows(ks).Flat(At(t, r, k, h, b)) == (t * 16 + r) * (8 * ks) + 8 * k + 4 * h + b
  {
    var q := t * 16 + r;
    assert q * (8 * ks) == 8 * (q * ks);
  }

  /** The two are inverse permutations of the bytes. */
  lemma PermuteRoundTrip<T>(w: seq<T>, nt: nat, ks: nat)
    requires Packed(w, nt, ks)
    ensures UnpermuteW(PermuteW(w, nt, ks), nt, ks) == w
    ensures PermuteW(UnpermuteW(w, nt, ks), nt, ks) == w
  {
    var p, u := PermuteW(w, nt, ks), UnpermuteW(w, nt, ks);
    forall x | 0 <= x < |w| ensures UnpermuteW(p, nt, ks)[x] == w[x] && PermuteW(u, nt, ks)[x] == w[x] {
      FromInto(nt, ks, x);
    }
  }

  lemma FromShift(ks: nat, x: nat, k: nat)
    requires ks > 0
    ensures From(ks, x + k * Rows(ks).Inner()) == From(ks, x) + k * Rows(ks).Inner()
  {
    var r, f := Rows(ks), Fragments(ks);
    SameInner(ks);
    var i := f.Place(x);
    FlatOfPlace(f, x);
    FlatShift(f, i, k);
    PlaceOfFlat(f, i.(a := i.a + k));
    FlatShift(r, ToRow(i), k);
  }

  /** Permuting commutes with putting one weight under another, whole tiles each. */
  lemma PermuteConcat<T>(w: seq<T>, v: seq<T>, nt: nat, mt: nat, ks: nat)
    requires Packed(w, nt, ks) && Packed(v, mt, ks)
    ensures Packed(w + v, nt + mt, ks)
    ensures PermuteW(w + v, nt + mt, ks) == PermuteW(w, nt, ks) + PermuteW(v, mt, ks)
  {
    var inner := Rows(ks).Inner();
    assert (nt + mt) * inner == nt * inner + mt * inner;
    var p, q := PermuteW(w + v, nt + mt, ks), PermuteW(w, nt, ks) + PermuteW(v, mt, ks);
    forall x | 0 <= x < |w + v| ensures p[x] == q[x] {
      if x < |w| {
        FromInto(nt, ks, x);
      } else {
        FromShift(ks, x - |w|, nt);
        FromInto(mt, ks, x - |w|);
      }
    }
  }

  lemma UnpermuteConcat<T>(p: seq<T>, q: seq<T>, nt: nat, mt: nat, ks: nat)
    requires Packed(p, nt, ks) && Packed(q, mt, ks)
    ensures Packed(p + q, nt + mt, ks)
    ensures UnpermuteW(p + q, nt + mt, ks) == UnpermuteW(p, nt, ks) + UnpermuteW(q, mt, ks)
  {
    var w, v := UnpermuteW(p, nt, ks), UnpermuteW(q, mt, ks);
    PermuteRoundTrip(p, nt, ks);
    PermuteRoundTrip(q, mt, ks);
    PermuteConcat(w, v, nt, mt, ks);
    PermuteRoundTrip(w + v, nt + mt, ks);
  }
}
