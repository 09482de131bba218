/** Choosing the size of the KV cache groups that a hybrid model's layers are cut into. */
module KvGroupSize {
  import opened Basics

  /** How many groups of at most g a bucket of len layers is cut into. */
  function Cut(len: nat, g: nat): nat
    requires g > 0
  {
    CeilDiv(len, g)
  }

  /** Groups each bucket is cut into. */
  function Splits(sizes: seq<nat>, g: nat): (r: seq<nat>)
    requires g > 0
    ensures |r| == |sizes| && forall i :: 0 <= i < |r| ==> r[i] == Cut(sizes[i], g)
  {
    seq(|sizes|, i requires 0 <= i < |sizes| => Cut(sizes[i], g))
  }

  function MaxOf(s: seq<nat>): (r: nat)
    ensures forall i :: 0 <= i < |s| ==> s[i] <= r
    ensures s != [] ==> r in s
  {
    if s == [] then 0
    else
      var m := MaxOf(s[..|s| - 1]);
      assert forall i :: 0 <= i < |s| - 1 ==> s[..|s| - 1][i] == s[i];
      if m < s[|s| - 1] then s[|s| - 1] else m
  }

  function Sum(s: seq<nat>): nat { if s == [] then 0 else Sum(s[..|s| - 1]) + s[|s| - 1] }

  function Weighted(s: seq<nat>, cost: seq<nat>): nat
    requires |s| == |cost|
  {
    if s == [] then 0 else Weighted(s[..|s| - 1], cost[..|s| - 1]) + s[|s| - 1] * cost[|s| - 1]
  }

  ghost predicate NonEmpty(sizes: seq<nat>) { sizes != [] && forall i :: 0 <= i < |sizes| ==> sizes[i] > 0 }

  /** Layers in the largest group when each bucket of L layers is cut evenly into its groups. */
  function Shares(sizes: seq<nat>, g: nat): (r: seq<nat>)
    requires g > 0 && NonEmpty(sizes)
    ensures |r| == |sizes| && forall i :: 0 <= i < |r| ==> Cut(sizes[i], g) > 0 && r[i] == Cut(sizes[i], Cut(sizes[i], g))
  {
    SplitsPositive(sizes, g);
    seq(|sizes|, i requires 0 <= i < |sizes| && Cut(sizes[i], g) > 0 => Cut(sizes[i], Cut(sizes[i], g)))
  }

  lemma SplitsPositive(sizes: seq<nat>, g: nat)
    requires g > 0 && NonEmpty(sizes)
    ensures forall i :: 0 <= i < |sizes| ==> Cut(sizes[i], g) > 0
  {
  }

  /** The size the allocator will see downstream: its largest group. */
  function Effective(sizes: seq<nat>, g: nat): nat
    requires g > 0 && NonEmpty(sizes)
  {
    MaxOf(Shares(sizes, g))
  }

  function Groups(sizes: seq<nat>, g: nat): nat
    requires g > 0
  {
    Sum(Splits(sizes, g))
  }

  /** Blocks a worst-case request reserves. */
  function Blocks(sizes: seq<nat>, cost: seq<nat>, g: nat): nat
    requires g > 0 && |sizes| == |cost|
  {
    Weighted(Splits(sizes, g), cost)
  }

  /** What is minimised, first component first. */
  datatype Key = Key(memory: nat, groups: nat)

  function KeyOf(sizes: seq<nat>, cost: seq<nat>, g: nat): Key
    requires g > 0 && |sizes| == |cost|
  {
    Key(g * Blocks(sizes, cost, g), Groups(sizes, g))
  }

  predicate Less(a: Key, b: Key) { a.memory < b.memory || (a.memory == b.memory && a.groups < b.groups) }

  /** Keys are ordered, each against each. */
  lemma LessIsOrder(a: Key, b: Key, c: Key)
    ensures Less(a, b) || Less(b, a) || a == b
    ensures !(Less(a, b) && Less(b, a)) && (Less(a, b) && Less(b, c) ==> Less(a, c))
    ensures Less(a, b) ==> a.memory <= b.memory
  {
  }

  // ----- canonical sizes ------------------------------------------------------------------

  lemma CeilDivLe(a: nat, b: nat, q: nat)
    requires b > 0 && a <= q * b
    ensures CeilDiv(a, b) <= q
  {
    var r := CeilDiv(a, b);
    if r > q {
      MulGap(q, r, b);
    }
  }

  lemma CeilDivAntitone(a: nat, b: nat, c: nat)
    requires 0 < b <= c
    ensures CeilDiv(a, c) <= CeilDiv(a, b)
  {
    var q := CeilDiv(a, b);
    assert q * b <= q * c;
    CeilDivLe(a, c, q);
  }

  /** Cutting a bucket evenly into as many groups as size g gives makes groups of at most g, and groups of
      any size in between give the same number. */
  lemma EvenSplit(len: nat, g: nat, h: nat)
    requires len > 0 && g > 0
    ensures var k := Cut(len, g);
            k > 0 && 0 < Cut(len, k) <= g && (Cut(len, k) <= h <= g ==> Cut(len, h) == k)
  {
    var k := CeilDiv(len, g);
    var e := CeilDiv(len, k);
    assert k * g == g * k;
    CeilDivLe(len, k, g);
    if e <= h <= g {
      assert e * k == k * e;
      CeilDivLe(len, e, k);
      CeilDivAntitone(len, e, h);
      CeilDivAntitone(len, h, g);
    }
  }

  /** Restricting the search loses nothing: a size that is not its own largest group has a smaller size
      with the same splits, which is. */
  lemma EffectiveIsCanonical(sizes: seq<nat>, g: nat)
    requires g > 0 && NonEmpty(sizes)
    ensures var e := Effective(sizes, g);
            0 < e <= g && Splits(sizes, e) == Splits(sizes, g) && Effective(sizes, e) == e && e <= MaxOf(sizes)
  {
    hide Cut, MaxOf;
    var shares := Shares(sizes, g);
    var e := Effective(sizes, g);
    forall i | 0 <= i < |sizes| ensures 0 < shares[i] <= g {
      EvenSplit(sizes[i], g, g);
    }
    forall i | 0 <= i < |sizes| ensures Cut(sizes[i], e) == Cut(sizes[i], g) {
      EvenSplit(sizes[i], g, e);
    }
    assert Splits(sizes, e) == Splits(sizes, g);
    assert Shares(sizes, e) == shares;
    var i :| 0 <= i < |shares| && shares[i] == e;
    ShareWithin(sizes[i], Cut(sizes[i], g));
  }

  lemma ShareWithin(len: nat, k: nat)
    requires k > 0
    ensures Cut(len, k) <= len
  {
    MulMono(1, k, len);
    CeilDivLe(len, k, len);
  }

  lemma EffectiveKey(sizes: seq<nat>, cost: seq<nat>, g: nat)
    requires g > 0 && NonEmpty(sizes) && |sizes| == |cost|
    ensures var e := Effective(sizes, g);
            e > 0 && Groups(sizes, e) == Groups(sizes, g) && !Less(KeyOf(sizes, cost, g), KeyOf(sizes, cost, e))
  {
    EffectiveIsCanonical(sizes, g);
    MulMono(Effective(sizes, g), g, Blocks(sizes, cost, g));
  }

  // ----- the search ---------------------------------------------------------------------------

  /** g is an allowed size no allowed size of any kind beats. */
  ghost predicate Optimal(sizes: seq<nat>, cost: seq<nat>, maxGroups: int, g: nat)
    requires |sizes| == |cost|
  {
    && g > 0 && Groups(sizes, g) <= maxGroups
    && forall h: nat :: h > 0 && Groups(sizes, h) <= maxGroups ==> !Less(KeyOf(sizes, cost, h), KeyOf(sizes, cost, g))
  }

  /** All optimal sizes cost the same. */
  lemma OptimalUnique(sizes: seq<nat>, cost: seq<nat>, maxGroups: int, g: nat, h: nat)
    requires |sizes| == |cost| && Optimal(sizes, cost, maxGroups, g) && Optimal(sizes, cost, maxGroups, h)
    ensures KeyOf(sizes, cost, g) == KeyOf(sizes, cost, h)
  {
    hide KeyOf, Groups;
    LessIsOrder(KeyOf(sizes, cost, g), KeyOf(sizes, cost, h), KeyOf(sizes, cost, g));
  }

  /** The best of the canonical sizes below n. */
  ghost predicate BestBelow(sizes: seq<nat>, cost: seq<nat>, maxGroups: int, n: nat, best: Option<nat>)
    requires |sizes| == |cost| && NonEmpty(sizes)
  {
    && (best.None? ==> forall h: nat :: 0 < h < n ==> !Allowed(sizes, maxGroups, h))
    && (best.Some? ==> 0 < best.value < n && Allowed(sizes, maxGroups, best.value)
                       && forall h: nat :: 0 < h < n && Allowed(sizes, maxGroups, h) ==> !Less(KeyOf(sizes, cost, h), KeyOf(sizes, cost, best.value)))
  }

  ghost predicate Allowed(sizes: seq<nat>, maxGroups: int, h: nat)
    requires NonEmpty(sizes)
  {
    h > 0 && Effective(sizes, h) == h && Groups(sizes, h) <= maxGroups
  }

  lemma CutIs(len: nat, g: nat)
    requires g > 0
    ensures Cut(len, g) == (len + g - 1) / g
  {
  }

  lemma SumStep(s: seq<nat>, cost: seq<nat>, i: nat)
    requires i < |s| == |cost|
    ensures Sum(s[..i + 1]) == Sum(s[..i]) + s[i]
    ensures Weighted(s[..i + 1], cost[..i + 1]) == Weighted(s[..i], cost[..i]) + s[i] * cost[i]
  {
    assert s[..i + 1][..i] == s[..i] && cost[..i + 1][..i] == cost[..i];
  }

  lemma MaxStep(s: seq<nat>, i: nat)
    requires i < |s|
    ensures MaxOf(s[..i + 1]) == if s[i] > MaxOf(s[..i]) then s[i] else MaxOf(s[..i])
  {
    assert s[..i + 1][..i] == s[..i];
  }

  lemma WholeOf(s: seq<nat>)
    ensures s[..|s|] == s
  {
  }

  lemma NothingYet(s: seq<nat>, cost: seq<nat>)
    ensures Sum(s[..0]) == 0 && Weighted(s[..0], cost[..0]) == 0 && MaxOf(s[..0]) == 0
  {
  }

  /** What one size comes to: its groups, the blocks a request reserves, and its largest group. */
  method Measure(sizes: seq<nat>, cost: seq<nat>, g: nat) returns (groups: nat, blocks: nat, largest: nat)
    requires g > 0 && |sizes| == |cost| && NonEmpty(sizes)
    ensures groups == Groups(sizes, g) && Key(g * blocks, groups) == KeyOf(sizes, cost, g) && largest == Effective(sizes, g)
  {
    ghost var splits, shares := Splits(sizes, g), Shares(sizes, g);
    hide Sum, Weighted, MaxOf, Cut, CeilDiv;
    SplitsPositive(sizes, g);
    NothingYet(splits, cost);
    NothingYet(shares, cost);
    groups, blocks, largest := 0, 0, 0;
    for i := 0 to |sizes|
      invariant groups == Sum(splits[..i]) && blocks == Weighted(splits[..i], cost[..i]) && largest == MaxOf(shares[..i])
    {
      var k := (sizes[i] + g - 1) / g;
      CutIs(sizes[i], g);
      assert k == splits[i] && k > 0;
      var share := (sizes[i] + k - 1) / k;
      CutIs(sizes[i], k);
      assert share == shares[i];
      SumStep(splits, cost, i);
      MaxStep(shares, i);
      groups, blocks := groups + k, blocks + k * cost[i];
      if share > largest {
        largest := share;
      }
    }
    WholeOf(splits);
    WholeOf(shares);
    WholeOf(cost);
  }

  /** The loop over the candidate sizes. */
  method Search(sizes: seq<nat>, cost: seq<nat>, maxGroups: int) returns (best: Option<nat>)
    requires |sizes| == |cost| && NonEmpty(sizes)
    ensures best.None? <==> forall h: nat :: h > 0 ==> Groups(sizes, h) > maxGroups
    ensures best.Some? ==> Optimal(sizes, cost, maxGroups, best.value) && Effective(sizes, best.value) == best.value
  {
    hide Groups, Effective, KeyOf;
    best := None;
    var key := Key(0, 0);
    for g := 1 to MaxOf(sizes) + 1
      invariant BestBelow(sizes, cost, maxGroups, g, best)
      invariant best.Some? ==> key == KeyOf(sizes, cost, best.value)
    {
      var groups, blocks, largest := Measure(sizes, cost, g);
      if largest != g {
        continue;
      }
      if groups > maxGroups {
        continue;
      }
      var k := Key(g * blocks, groups);
      if best.None? || Less(k, key) {
        best, key := Some(g), k;
      }
    }
    EverySizeCovered(sizes, cost, maxGroups, best);
  }

  lemma EverySizeCovered(sizes: seq<nat>, cost: seq<nat>, maxGroups: int, best: Option<nat>)
    requires |sizes| == |cost| && NonEmpty(sizes) && BestBelow(sizes, cost, maxGroups, MaxOf(sizes) + 1, best)
    ensures best.None? <==> forall h: nat :: h > 0 ==> Groups(sizes, h) > maxGroups
    ensures best.Some? ==> Optimal(sizes, cost, maxGroups, best.value)
  {
    hide Groups, Effective, KeyOf;
    forall h: nat | h > 0 && Groups(sizes, h) <= maxGroups
      ensures best.Some? && !Less(KeyOf(sizes, cost, h), KeyOf(sizes, cost, best.value))
    {
      EffectiveIsCanonical(sizes, h);
      EffectiveKey(sizes, cost, h);
      assert Allowed(sizes, maxGroups, Effective(sizes, h));
    }
  }

  // ----- the whole choice -----------------------------------------------------------------------

  /** One cache spec of a bucket: its page size and the memory a worst-case request needs. */
  datatype Spec = Spec(page: nat, memory: nat)

  /** What the environment says: whether to optimise, a forced size, the limit on groups. */
  datatype Knobs = Knobs(optimise: bool, forced: Option<int>, maxGroups: int)

  function LargestPage(specs: seq<seq<Spec>>): nat {
    if specs == [] then 0 else Max(LargestPage(specs[..|specs| - 1]), MaxOf(Pages(specs[|specs| - 1])))
  }

  function Pages(b: seq<Spec>): seq<nat> { seq(|b|, i requires 0 <= i < |b| => b[i].page) }

  /** Blocks one group of each bucket reserves; none when a bucket has no spec or pages have no size. */
  function Costs(specs: seq<seq<Spec>>): (r: Option<seq<nat>>)
    ensures r.Some? ==> |r.value| == |specs|
  {
    var page := LargestPage(specs);
    if page == 0 || exists i :: 0 <= i < |specs| && specs[i] == [] then None
    else Some(seq(|specs|, i requires 0 <= i < |specs| =>
                MaxOf(Needs(specs[i], page))))
  }

  /** Blocks each spec of a bucket needs for a worst-case request. */
  function Needs(b: seq<Spec>, page: nat): seq<nat>
    requires page > 0
  {
    seq(|b|, j requires 0 <= j < |b| => CeilDiv(b[j].memory, page))
  }

  method LargestOf(v: seq<nat>) returns (most: nat)
    ensures most == MaxOf(v)
  {
    hide MaxOf;
    NothingYet(v, v);
    most := 0;
    for j := 0 to |v|
      invariant most == MaxOf(v[..j])
    {
      MaxStep(v, j);
      if v[j] > most {
        most := v[j];
      }
    }
    WholeOf(v);
  }

  /** The largest page of all specs of all buckets. */
  method FindPage(specs: seq<seq<Spec>>) returns (page: nat)
    ensures page == LargestPage(specs)
    ensures forall b, i :: 0 <= b < |specs| && 0 <= i < |specs[b]| ==> specs[b][i].page <= page
    ensures page > 0 ==> exists b, i :: 0 <= b < |specs| && 0 <= i < |specs[b]| && specs[b][i].page == page
  {
    page := 0;
    for b := 0 to |specs|
      invariant page == LargestPage(specs[..b])
      invariant forall c, i :: 0 <= c < b && 0 <= i < |specs[c]| ==> specs[c][i].page <= page
      invariant page > 0 ==> exists c, i :: 0 <= c < b && 0 <= i < |specs[c]| && specs[c][i].page == page
    {
      var pages := Pages(specs[b]);
      assert forall i :: 0 <= i < |specs[b]| ==> specs[b][i].page == pages[i];
      var most := LargestOf(pages);
      assert specs[..b + 1][..b] == specs[..b];
      if most > page {
        page := most;
        assert exists i :: 0 <= i < |specs[b]| && specs[b][i].page == page;
      }
    }
    assert specs[..|specs|] == specs;
  }

  /** The costs, bucket by bucket. */
  method MeasureCosts(specs: seq<seq<Spec>>) returns (cost: Option<seq<nat>>)
    ensures cost == Costs(specs)
  {
    hide MaxOf, CeilDiv, LargestPage;
    var page := FindPage(specs);
    if page == 0 {
      return None;
    }
    var found: seq<nat> := [];
    for i := 0 to |specs|
      invariant |found| == i && forall k :: 0 <= k < i ==> specs[k] != [] && found[k] == MaxOf(Needs(specs[k], page))
    {
      if specs[i] == [] {
        return None;
      }
      var most := LargestOf(Needs(specs[i], page));
      found := found + [most];
    }
    assert Costs(specs).Some? && found == Costs(specs).value;
    cost := Some(found);
  }

  /** The group size.  Left alone, or forced, it is what was asked for.  Otherwise it is optimal among all
      sizes within the limit and is the largest group it leads to; with no such size, the upstream choice. */
  method PickGroupSize(sizes: seq<nat>, specs: seq<seq<Spec>>, haveConfig: bool, knobs: Knobs, upstream: nat) returns (g: nat)
    requires NonEmpty(sizes) && |specs| == |sizes|
    ensures !knobs.optimise ==> g == upstream
    ensures knobs.optimise && knobs.forced.Some? ==> g == Max(1, knobs.forced.value)
    ensures knobs.optimise && knobs.forced.None? && (!haveConfig || Costs(specs).None?) ==> g == upstream
    ensures knobs.optimise && knobs.forced.None? && haveConfig && Costs(specs).Some? ==>
              if forall h: nat :: h > 0 ==> Groups(sizes, h) > knobs.maxGroups then g == upstream
              else Optimal(sizes, Costs(specs).value, knobs.maxGroups, g) && Effective(sizes, g) == g
  {
    hide Groups, Effective, KeyOf, Costs;
    if !knobs.optimise {
      return upstream;
    }
    if knobs.forced.Some? {
      return Max(1, knobs.forced.value);
    }
    if !haveConfig {
      return upstream;
    }
    var cost := MeasureCosts(specs);
    if cost.None? {
      return upstream;
    }
    var best := Search(sizes, cost.value, knobs.maxGroups);
    g := if best.None? then upstream else best.value;
  }

  /** A size that is not its own largest group is strictly worse than that size, whenever a request costs
      anything. */
  lemma NonCanonicalIsWorse(sizes: seq<nat>, cost: seq<nat>, g: nat)
    requires g > 0 && NonEmpty(sizes) && |sizes| == |cost| && Effective(sizes, g) != g && Blocks(sizes, cost, g) > 0
    ensures var e := Effective(sizes, g); e > 0 && Less(KeyOf(sizes, cost, e), KeyOf(sizes, cost, g))
  {
    EffectiveIsCanonical(sizes, g);
    MulGap(Effective(sizes, g), g, Blocks(sizes, cost, g));
  }
}
