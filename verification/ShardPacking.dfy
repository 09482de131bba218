/** Packing an ordered list of tensors into shards: greedy, and as good as any. */
module ShardPacking {
  import opened Basics

  datatype Item = Item(name: string, bytes: nat)

  function Total(s: seq<Item>): nat {
    if s == [] then 0 else Total(s[..|s| - 1]) + s[|s| - 1].bytes
  }

  function Flatten(shards: seq<seq<Item>>): seq<Item> {
    if shards == [] then [] else shards[0] + Flatten(shards[1..])
  }

  /** A shard within the limit, or a single tensor, which cannot be split. */
  predicate Fits(s: seq<Item>, max: nat) { Total(s) <= max || |s| == 1 }

  /** An order-preserving packing: nothing lost, no empty shard, every shard fits. */
  ghost predicate Packing(items: seq<Item>, max: nat, shards: seq<seq<Item>>) {
    && Flatten(shards) == items
    && forall i :: 0 <= i < |shards| ==> shards[i] != [] && Fits(shards[i], max)
  }

  /** How many leading items a greedy shard takes, k of them already in it. */
  function Grow(items: seq<Item>, max: nat, k: nat): (n: nat)
    requires k <= |items|
    ensures k <= n <= |items|
    decreases |items| - k
  {
    if k == |items| || (k > 0 && Total(items[..k]) + items[k].bytes > max) then k else Grow(items, max, k + 1)
  }

  /** The greedy packing. */
  function Greedy(items: seq<Item>, max: nat): seq<seq<Item>>
    decreases |items|
  {
    if items == [] then []
    else
      var n := Grow(items, max, 0);
      GrowTakes(items, max);
      [items[..n]] + Greedy(items[n..], max)
  }

  lemma GrowTakes(items: seq<Item>, max: nat)
    requires items != []
    ensures Grow(items, max, 0) >= 1
  {
  }

  /** The packing loop: a current shard, flushed when the next tensor would push it past the limit. */
  method PackShards(sizes: seq<Item>, maxBytes: nat) returns (shards: seq<seq<Item>>)
    ensures shards == Greedy(sizes, maxBytes)
    ensures Packing(sizes, maxBytes, shards)
  {
    hide Greedy, Grow, Total;
    shards := [];
    var cur, curBytes := [], 0;
    ghost var from := 0;
    TotalNone();
    assert sizes[0..] == sizes;
    for i := 0 to |sizes|
      invariant 0 <= from <= i && (i > 0 ==> from < i)
      invariant cur == sizes[from..i] && curBytes == Total(cur)
      invariant Grow(sizes[from..], maxBytes, 0) == Grow(sizes[from..], maxBytes, |cur|)
      invariant Greedy(sizes, maxBytes) == shards + Greedy(sizes[from..], maxBytes)
    {
      var nb := sizes[i].bytes;
      assert sizes[from..][..|cur|] == cur;
      if cur != [] && curBytes + nb > maxBytes {
        GrowStops(sizes[from..], maxBytes, |cur|);
        GreedyStep(sizes[from..], maxBytes);
        assert sizes[from..][|cur|..] == sizes[i..];
        assert shards + ([cur] + Greedy(sizes[i..], maxBytes)) == shards + [cur] + Greedy(sizes[i..], maxBytes);
        shards := shards + [cur];
        cur, curBytes := [], 0;
        from := i;
      }
      assert sizes[from..][..|cur|] == cur;
      GrowContinues(sizes[from..], maxBytes, |cur|);
      TotalSnoc(cur, sizes[i]);
      cur := cur + [sizes[i]];
      curBytes := curBytes + nb;
    }
    if cur != [] {
      assert sizes[from..] == cur;
      GrowEnds(cur, maxBytes);
      GreedyStep(cur, maxBytes);
      GreedyNone(maxBytes);
      assert cur[..|cur|] == cur && cur[|cur|..] == [];
      assert shards + ([cur] + []) == shards + [cur];
      shards := shards + [cur];
    } else {
      GreedyNone(maxBytes);
      assert shards + [] == shards;
    }
    GreedyPacks(sizes, maxBytes);
  }

  lemma TotalNone()
    ensures Total([]) == 0
  {
  }

  lemma TotalSnoc(s: seq<Item>, x: Item)
    ensures Total(s + [x]) == Total(s) + x.bytes
  {
    assert (s + [x])[..|s|] == s;
  }

  lemma GrowStops(items: seq<Item>, max: nat, k: nat)
    requires 0 < k < |items| && Total(items[..k]) + items[k].bytes > max
    ensures Grow(items, max, k) == k
  {
  }

  lemma GrowContinues(items: seq<Item>, max: nat, k: nat)
    requires k < |items| && (k == 0 || Total(items[..k]) + items[k].bytes <= max)
    ensures Grow(items, max, k) == Grow(items, max, k + 1)
  {
  }

  lemma GrowEnds(items: seq<Item>, max: nat)
    ensures Grow(items, max, |items|) == |items|
  {
  }

  lemma GreedyStep(items: seq<Item>, max: nat)
    requires items != []
    ensures var n := Grow(items, max, 0); Greedy(items, max) == [items[..n]] + Greedy(items[n..], max)
  {
  }

  lemma GreedyNone(max: nat)
    ensures Greedy([], max) == []
  {
  }

  /** A greedy shard fits, and it is the longest prefix that does. */
  lemma {:induction false} GrowFits(items: seq<Item>, max: nat, k: nat)
    requires k <= |items| && items != [] && (k == 0 || Fits(items[..k], max))
    ensures Fits(items[..Grow(items, max, k)], max)
    ensures forall j: nat :: Grow(items, max, k) < j <= |items| && j > k ==> !Fits(items[..j], max)
    decreases |items| - k
  {
    if k < |items| {
      assert items[..k + 1][..k] == items[..k];
      if k > 0 && Total(items[..k]) + items[k].bytes > max {
        forall j: nat | k < j <= |items| ensures !Fits(items[..j], max) {
          TotalPrefix(items, k + 1, j);
        }
      } else {
        GrowFits(items, max, k + 1);
      }
    }
  }

  lemma {:induction false} TotalPrefix(items: seq<Item>, j: nat, k: nat)
    requires j <= k <= |items|
    ensures Total(items[..j]) <= Total(items[..k])
    decreases k - j
  {
    if j < k {
      TotalPrefix(items, j, k - 1);
      assert items[..k][..k - 1] == items[..k - 1];
    }
  }

  /** Order is kept, nothing is lost, and every shard fits or is a single tensor. */
  lemma {:induction false} GreedyPacks(items: seq<Item>, max: nat)
    ensures Packing(items, max, Greedy(items, max))
    decreases |items|
  {
    if items != [] {
      var n := Grow(items, max, 0);
      GrowTakes(items, max);
      GrowFits(items, max, 0);
      GreedyPacks(items[n..], max);
      var shards := Greedy(items, max);
      assert shards[0] == items[..n] && shards[1..] == Greedy(items[n..], max);
      assert items[..n] + items[n..] == items;
    }
  }

  /** A packing with its first k items removed. */
  function Without(shards: seq<seq<Item>>, k: nat): seq<seq<Item>>
    requires k <= |Flatten(shards)|
  {
    if k == 0 then shards
    else if |shards[0]| <= k then Without(shards[1..], k - |shards[0]|)
    else [shards[0][k..]] + shards[1..]
  }

  lemma {:induction false} TotalSuffix(s: seq<Item>, k: nat)
    requires k <= |s|
    ensures Total(s[k..]) <= Total(s)
    decreases |s|
  {
    if k < |s| {
      TotalSuffix(s[..|s| - 1], k);
      assert s[k..][..|s| - k - 1] == s[..|s| - 1][k..];
    }
  }

  lemma {:induction false} WithoutPacks(shards: seq<seq<Item>>, items: seq<Item>, max: nat, k: nat)
    requires Packing(items, max, shards) && k <= |items|
    ensures Packing(items[k..], max, Without(shards, k)) && |Without(shards, k)| <= |shards|
    decreases |shards|
  {
    if k == 0 {
      assert items[0..] == items;
    } else {
      var rest := Flatten(shards[1..]);
      if |shards[0]| <= k {
        WithoutPacks(shards[1..], rest, max, k - |shards[0]|);
        assert items[k..] == rest[k - |shards[0]|..];
      } else {
        var r := Without(shards, k);
        TotalSuffix(shards[0], k);
        assert r[0] == shards[0][k..] && r[1..] == shards[1..];
        assert items[k..] == shards[0][k..] + rest;
      }
    }
  }

  /** No order-preserving packing whose shards fit or are single tensors uses fewer shards. */
  lemma {:induction false} GreedyIsOptimal(items: seq<Item>, max: nat, other: seq<seq<Item>>)
    requires Packing(items, max, other)
    ensures |Greedy(items, max)| <= |other|
    decreases |items|
  {
    if items != [] {
      var n, p := Grow(items, max, 0), |other[0]|;
      GrowTakes(items, max);
      GrowFits(items, max, 0);
      assert items[..p] == other[0];
      assert p <= n;
      var rest := Flatten(other[1..]);
      assert rest == items[p..];
      WithoutPacks(other[1..], rest, max, n - p);
      assert items[n..] == rest[n - p..];
      GreedyIsOptimal(items[n..], max, Without(other[1..], n - p));
    }
  }
}
