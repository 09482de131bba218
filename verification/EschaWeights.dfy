/** The weight stream: int8 matrices and their scales arrive in any order, possibly far apart, and leave as
    one dequantised tensor each; everything else passes through. */
module EschaWeights {
  import opened Basics

  /** How a tensor's name is read: half of a pair, with the base name, or anything else. */
  datatype Kind = Int8(base: string) | Scale(base: string) | Other

  function EndsWith(s: string, suffix: string): bool {
    |suffix| <= |s| && s[|s| - |suffix|..] == suffix
  }

  predicate IsTarget(base: string) { EndsWith(base, "embed_tokens") || EndsWith(base, "lm_head") }

  function Classify(name: string): Kind {
    if EndsWith(name, ".weight_int8") then
      var base := name[..|name| - |".weight_int8"|];
      if IsTarget(base) then Int8(base) else Other
    else if EndsWith(name, ".weight_scale") then
      var base := name[..|name| - |".weight_scale"|];
      if IsTarget(base) then Scale(base) else Other
    else Other
  }

  lemma EndsWithIff(s: string, suffix: string)
    ensures EndsWith(s, suffix) <==> exists base: string :: s == base + suffix
  {
    if EndsWith(s, suffix) {
      assert s == s[..|s| - |suffix|] + suffix;
    }
    if base: string :| s == base + suffix {
      assert s[|s| - |suffix|..] == suffix;
    }
  }

  /** A name is half of a pair exactly when it is that of the embedding or of the head, in front of either
      suffix. */
  lemma ClassifyIff(base: string)
    ensures Classify(base + ".weight_int8") == if Named(base) then Int8(base) else Other
    ensures Classify(base + ".weight_scale") == if Named(base) then Scale(base) else Other
  {
    EndsWithIff(base, "embed_tokens");
    EndsWithIff(base, "lm_head");
    var a, b := base + ".weight_int8", base + ".weight_scale";
    assert a[..|base|] == base && a[|base|..] == ".weight_int8";
    assert b[..|base|] == base && b[|base|..] == ".weight_scale";
    assert b[|b| - 1] == 'e';
    EndsWithLast(b, ".weight_int8");
  }

  lemma EndsWithLast(s: string, suffix: string)
    requires s != "" && suffix != ""
    ensures EndsWith(s, suffix) ==> s[|s| - 1] == suffix[|suffix| - 1]
  {
  }

  ghost predicate Named(base: string) {
    (exists front: string :: base == front + "embed_tokens") || exists front: string :: base == front + "lm_head"
  }

  lemma ClassifyOther(name: string)
    requires !(exists base: string :: name == base + ".weight_int8" || name == base + ".weight_scale")
    ensures Classify(name) == Other
  {
    EndsWithIff(name, ".weight_int8");
    EndsWithIff(name, ".weight_scale");
  }

  /** A kind determines the name it came from. */
  lemma ClassifyInjective(a: string, b: string)
    requires Classify(a) == Classify(b) && !Classify(a).Other?
    ensures a == b
  {
    var suffix := if Classify(a).Int8? then ".weight_int8" else ".weight_scale";
    assert a == a[..|a| - |suffix|] + a[|a| - |suffix|..];
    assert b == b[..|b| - |suffix|] + b[|b| - |suffix|..];
  }

  datatype Tensor<V> = Tensor(name: string, v: V)

  /** Checkpoint names are distinct. */
  ghost predicate DistinctNames<V>(s: seq<Tensor<V>>) {
    forall i, j :: 0 <= i < j < |s| ==> s[i].name != s[j].name
  }

  /** Where a kind occurs among the first n tensors. */
  function Find<V>(s: seq<Tensor<V>>, n: nat, k: Kind): (r: Option<nat>)
    requires n <= |s|
    ensures r.Some? ==> r.value < n && Classify(s[r.value].name) == k
    ensures r.None? ==> forall j :: 0 <= j < n ==> Classify(s[j].name) != k
  {
    if n == 0 then None else if Classify(s[n - 1].name) == k then Some(n - 1) else Find(s, n - 1, k)
  }

  /** No half arrives twice. */
  lemma ArrivesOnce<V>(s: seq<Tensor<V>>, n: nat)
    requires DistinctNames(s) && n < |s| && !Classify(s[n].name).Other?
    ensures Find(s, n, Classify(s[n].name)).None?
  {
    hide Classify;
    var j := Find(s, n, Classify(s[n].name));
    if j.Some? {
      ClassifyInjective(s[j.value].name, s[n].name);
    }
  }

  /** What tensor n puts out: itself, or its pair when the partner came before it, or nothing yet. */
  function Step<V>(s: seq<Tensor<V>>, n: nat, combine: (V, V) -> V): seq<Tensor<V>>
    requires n < |s|
  {
    var t := s[n];
    match Classify(t.name)
    case Other => [t]
    case Int8(b) =>
      var j := Find(s, n, Scale(b));
      if j.Some? then [Tensor(b + ".weight", combine(t.v, s[j.value].v))] else []
    case Scale(b) =>
      var j := Find(s, n, Int8(b));
      if j.Some? then [Tensor(b + ".weight", combine(s[j.value].v, t.v))] else []
  }

  function Emitted<V>(s: seq<Tensor<V>>, n: nat, combine: (V, V) -> V): seq<Tensor<V>>
    requires n <= |s|
  {
    if n == 0 then [] else Emitted(s, n - 1, combine) + Step(s, n - 1, combine)
  }

  function Half(int8: bool, b: string): Kind { if int8 then Int8(b) else Scale(b) }

  /** store holds exactly the halves of one kind whose partner has not come in the first n tensors. */
  ghost predicate Waiting<V>(s: seq<Tensor<V>>, n: nat, store: map<string, V>, int8: bool)
    requires n <= |s|
  {
    forall b :: Entry(s, n, store, int8, b)
  }

  ghost predicate Entry<V>(s: seq<Tensor<V>>, n: nat, store: map<string, V>, int8: bool, b: string)
    requires n <= |s|
  {
    && (b in store <==> Find(s, n, Half(int8, b)).Some? && Find(s, n, Half(!int8, b)).None?)
    && (b in store ==> store[b] == s[Find(s, n, Half(int8, b)).value].v)
  }

  lemma {:induction false} OtherPasses<V>(s: seq<Tensor<V>>, n: nat, store: map<string, V>, int8: bool)
    requires n < |s| && Classify(s[n].name).Other? && Waiting(s, n, store, int8)
    ensures Waiting(s, n + 1, store, int8)
  {
    hide Classify, Find;
    var next := n + 1;
    forall c ensures Entry(s, next, store, int8, c) {
      FindNext(s, n, Half(int8, c));
      FindNext(s, n, Half(!int8, c));
      assert Entry(s, n, store, int8, c);
    }
  }

  lemma FindNext<V>(s: seq<Tensor<V>>, n: nat, k: Kind)
    requires n < |s|
    ensures Find(s, n + 1, k) == if Classify(s[n].name) == k then Some(n) else Find(s, n, k)
  {
  }

  /** A half arrives: what that means for one base's entry. */
  lemma {:induction false} EntryNext<V>(s: seq<Tensor<V>>, n: nat, mine: map<string, V>, other: map<string, V>, int8: bool, b: string, c: string)
    requires n < |s| && Classify(s[n].name) == Half(int8, b) && Find(s, n, Half(int8, b)).None?
    requires Entry(s, n, mine, int8, c) && Entry(s, n, other, !int8, c) && Entry(s, n, other, !int8, b)
    ensures b in other ==> Entry(s, n + 1, mine[b := s[n].v] - {b}, int8, c) && Entry(s, n + 1, other - {b}, !int8, c)
    ensures b !in other ==> Entry(s, n + 1, mine[b := s[n].v], int8, c) && Entry(s, n + 1, other, !int8, c)
  {
    hide Classify, Find;
    FindNext(s, n, Half(int8, c));
    FindNext(s, n, Half(!int8, c));
  }

  /** It meets its partner and both are gone, or it waits. */
  lemma {:induction false} HalfArrives<V>(s: seq<Tensor<V>>, n: nat, mine: map<string, V>, other: map<string, V>, int8: bool, b: string)
    requires n < |s| && Classify(s[n].name) == Half(int8, b) && Find(s, n, Half(int8, b)).None?
    requires Waiting(s, n, mine, int8) && Waiting(s, n, other, !int8)
    ensures b !in mine && (b in other <==> Find(s, n, Half(!int8, b)).Some?)
    ensures b in other ==> other[b] == s[Find(s, n, Half(!int8, b)).value].v
    ensures b in other ==> Waiting(s, n + 1, mine[b := s[n].v] - {b}, int8) && Waiting(s, n + 1, other - {b}, !int8)
    ensures b !in other ==> Waiting(s, n + 1, mine[b := s[n].v], int8) && Waiting(s, n + 1, other, !int8)
  {
    hide Classify, Find;
    assert Entry(s, n, mine, int8, b) && Entry(s, n, other, !int8, b);
    hide Entry;
    var next, scale := n + 1, !int8;
    var mine', other' := if b in other then mine[b := s[n].v] - {b} else mine[b := s[n].v], if b in other then other - {b} else other;
    forall c ensures Entry(s, next, mine', int8, c) {
      EntryNext(s, n, mine, other, int8, b, c);
    }
    forall c ensures Entry(s, next, other', scale, c) {
      EntryNext(s, n, mine, other, int8, b, c);
    }
  }

  /** A base whose other half never comes. */
  ghost predicate Unpaired<V>(s: seq<Tensor<V>>, b: string) {
    Find(s, |s|, Int8(b)).Some? != Find(s, |s|, Scale(b)).Some?
  }

  lemma UnpairedIff<V>(s: seq<Tensor<V>>, q: map<string, V>, sc: map<string, V>, b: string)
    requires Waiting(s, |s|, q, true) && Waiting(s, |s|, sc, false)
    ensures Unpaired(s, b) <==> b in q || b in sc
  {
    hide Find;
    assert Entry(s, |s|, q, true, b) && Entry(s, |s|, sc, false, b);
  }

  lemma NothingWaits<V>(s: seq<Tensor<V>>)
    ensures Waiting(s, 0, map[], true) && Waiting(s, 0, map[], false)
  {
  }

  /** The generator.  It fails exactly when some half never meets its partner; otherwise every tensor that
      is no half passes through in place, and each pair comes out once, dequantised with its own scale,
      when its second half arrives, whichever half that is. */
  method GetAllWeights<V>(s: seq<Tensor<V>>, combine: (V, V) -> V) returns (r: Option<seq<Tensor<V>>>)
    requires DistinctNames(s)
    ensures r.None? <==> exists b :: Unpaired(s, b)
    ensures r.Some? ==> r.value == Emitted(s, |s|, combine)
  {
    hide Classify, Find, Entry;
    NothingWaits(s);
    var q: map<string, V>, sc: map<string, V>, out: seq<Tensor<V>> := map[], map[], [];
    for n := 0 to |s|
      invariant Waiting(s, n, q, true) && Waiting(s, n, sc, false)
      invariant out == Emitted(s, n, combine)
    {
      var t := s[n];
      var kind := Classify(t.name);
      if kind.Other? {
        OtherPasses(s, n, q, true);
        OtherPasses(s, n, sc, false);
        out := out + [t];
        continue;
      }
      ArrivesOnce(s, n);
      var b := kind.base;
      if kind.Int8? {
        HalfArrives(s, n, q, sc, true, b);
        q := q[b := t.v];
      } else {
        HalfArrives(s, n, sc, q, false, b);
        sc := sc[b := t.v];
      }
      if b in q && b in sc {
        out := out + [Tensor(b + ".weight", combine(q[b], sc[b]))];
        q, sc := q - {b}, sc - {b};
      }
    }
    if q.Keys != {} || sc.Keys != {} {
      ghost var b :| b in q.Keys + sc.Keys;
      UnpairedIff(s, q, sc, b);
      return None;
    }
    forall b ensures !Unpaired(s, b) {
      UnpairedIff(s, q, sc, b);
    }
    r := Some(out);
  }
}
