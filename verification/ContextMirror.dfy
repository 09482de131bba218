/** The GPU mirror of the requests' token histories.  Rows are reused and reshuffled between batches;
    only the tokens not yet mirrored are copied when a request has stayed on its row. */
module ContextMirror {
  import opened Basics

  /** One batch: the request on each row and its history so far. */
  datatype Batch = Batch(ids: seq<int>, hist: seq<seq<int>>) {
    /** Request ids are distinct, and histories are append-only: whatever batch a request is seen in,
        its history then is a prefix of what it eventually becomes. */
    ghost predicate Valid(rows: nat, width: nat, eventual: int -> seq<int>) {
      && |ids| == |hist| <= rows && Distinct(ids)
      && forall i :: 0 <= i < |ids| ==> |hist[i]| <= width && hist[i] <= eventual(ids[i])
    }
  }

  /** Where a request was mirrored, and how many of its tokens. */
  datatype Seen = Seen(row: nat, count: nat)

  class Mirror {
    const rows: nat
    const width: nat
    ghost const eventual: int -> seq<int>
    const ctx: array2<int>
    var seen: map<int, Seen>

    constructor (rows: nat, width: nat, ghost eventual: int -> seq<int>)
      ensures Valid() && this.rows == rows && this.width == width && this.eventual == eventual && fresh(ctx)
    {
      this.rows, this.width, this.eventual := rows, width, eventual;
      ctx := new int[rows, width]((_, _) => 0);
      seen := map[];
    }

    /** Row i starts with h. */
    ghost predicate RowHolds(i: nat, h: seq<int>)
      reads ctx
    {
      i < ctx.Length0 && |h| <= ctx.Length1 && forall k: nat :: k < |h| ==> ctx[i, k] == h[k]
    }

    /** An entry of the seen table is true of the mirror. */
    ghost predicate EntryTrue(id: int, e: Seen)
      reads ctx
    {
      e.count <= |eventual(id)| && RowHolds(e.row, eventual(id)[..e.count])
    }

    ghost predicate Valid()
      reads this, ctx
    {
      && ctx.Length0 == rows && ctx.Length1 == width
      && (forall id :: id in seen ==> EntryTrue(id, seen[id]))
      && (forall id, id' :: id in seen && id' in seen && id != id' ==> seen[id].row != seen[id'].row)
    }

    /** Copy what row i is missing of request rid's history h, as the seen table has it. */
    method UpdateRow(i: nat, rid: int, h: seq<int>)
      requires i < ctx.Length0 && |h| <= ctx.Length1 && h <= eventual(rid)
      requires rid in seen && seen[rid].row == i ==> EntryTrue(rid, seen[rid])
      modifies this`seen, ctx
      ensures seen == old(seen)[rid := Seen(i, |h|)]
      ensures RowHolds(i, h)
      ensures forall r: nat, k: nat {:trigger ctx[r, k]} :: r < ctx.Length0 && k < ctx.Length1 && r != i ==> ctx[r, k] == old(ctx[r, k])
    {
      var n := |h|;
      var s := if rid in seen && seen[rid].row == i then seen[rid].count else 0;
      if n > s {
        for k := s to n
          invariant seen == old(seen)
          invariant forall k': nat :: k' < k ==> ctx[i, k'] == h[k']
          invariant forall r: nat, k': nat {:trigger ctx[r, k']} :: r < ctx.Length0 && k' < ctx.Length1 && r != i ==>
                      ctx[r, k'] == old(ctx[r, k'])
        {
          ctx[i, k] := h[k];
        }
      }
      seen := seen[rid := Seen(i, n)];
    }

    /** Bring the mirror up to date for one batch.  Afterwards row i holds request i's whole history. */
    method Prepare(b: Batch)
      requires Valid() && b.Valid(rows, width, eventual)
      modifies this`seen, ctx
      ensures Valid()
      ensures forall i :: 0 <= i < |b.ids| ==> RowHolds(i, b.hist[i])
      ensures b.ids == [] ==> seen == old(seen)
      ensures b.ids != [] ==> seen.Keys == Elements(b.ids)
      ensures forall i :: 0 <= i < |b.ids| ==> b.ids[i] in seen && seen[b.ids[i]] == Seen(i, |b.hist[i]|)
    {
      if |b.ids| == 0 {
        return;
      }
      var before := seen;
      for i := 0 to |b.ids|
        invariant forall k :: 0 <= k < i ==> RowHolds(k, b.hist[k])
        invariant forall k :: 0 <= k < i ==> b.ids[k] in seen && seen[b.ids[k]] == Seen(k, |b.hist[k]|)
        invariant forall k :: i <= k < |b.ids| && b.ids[k] in seen ==> b.ids[k] in before && seen[b.ids[k]] == before[b.ids[k]]
        invariant forall id :: id in before && before[id].row >= i ==> EntryTrue(id, before[id])
      {
        ghost var rid := b.ids[i];
        label L:
        UpdateRow(i, b.ids[i], b.hist[i]);
        forall id | id in before && before[id].row >= i + 1 ensures EntryTrue(id, before[id]) {
          assert old@L(EntryTrue(id, before[id]));
        }
        forall k | 0 <= k < i ensures RowHolds(k, b.hist[k]) {
          assert old@L(RowHolds(k, b.hist[k]));
        }
      }
      seen := map id | id in seen && id in b.ids :: seen[id];
      assert seen.Keys == Elements(b.ids);
      EntriesTrue(b);
    }

    /** When the table has the batch's requests, each on its own row, and the rows hold their histories, every
        entry is true. */
    lemma EntriesTrue(b: Batch)
      requires ctx.Length0 == rows && ctx.Length1 == width && b.Valid(rows, width, eventual)
      requires seen.Keys == Elements(b.ids)
      requires forall i :: 0 <= i < |b.ids| ==> RowHolds(i, b.hist[i])
      requires forall i :: 0 <= i < |b.ids| ==> b.ids[i] in seen && seen[b.ids[i]] == Seen(i, |b.hist[i]|)
      ensures Valid()
    {
      forall id | id in seen ensures EntryTrue(id, seen[id]) {
        assert id in Elements(b.ids);
        var k :| 0 <= k < |b.ids| && b.ids[k] == id;
        assert RowHolds(k, b.hist[k]);
        assert eventual(id)[..|b.hist[k]|] == b.hist[k];
      }
      forall id, id' | id in seen && id' in seen && id != id' ensures seen[id].row != seen[id'].row {
        assert id in Elements(b.ids) && id' in Elements(b.ids);
      }
    }

    /** What the matcher reads: the first n tokens of a row. */
    method ReadRow(i: nat, n: nat) returns (t: seq<int>)
      requires i < ctx.Length0 && n <= ctx.Length1
      ensures |t| == n && forall k: nat :: k < n ==> t[k] == ctx[i, k]
    {
      t := [];
      for k := 0 to n
        invariant |t| == k && forall k': nat :: k' < k ==> t[k'] == ctx[i, k']
      {
        t := t + [ctx[i, k]];
      }
    }

    method ReadRows(b: Batch) returns (view: seq<seq<int>>)
      requires |b.ids| == |b.hist| && forall i :: 0 <= i < |b.ids| ==> RowHolds(i, b.hist[i])
      ensures view == b.hist
    {
      view := [];
      for i := 0 to |b.ids|
        invariant view == b.hist[..i]
      {
        assert RowHolds(i, b.hist[i]);
        var t := ReadRow(i, |b.hist[i]|);
        assert t == b.hist[i];
        view := view + [t];
      }
    }

    /** Any run of batches: joins, leaves, row reshuffles, empty batches.  After each batch the matcher
        reads exactly the requests' own histories. */
    method Serve(batches: seq<Batch>) returns (views: seq<seq<seq<int>>>)
      requires Valid() && forall j :: 0 <= j < |batches| ==> batches[j].Valid(rows, width, eventual)
      modifies this`seen, ctx
      ensures Valid() && |views| == |batches|
      ensures forall j :: 0 <= j < |batches| ==> views[j] == batches[j].hist
    {
      views := [];
      for j := 0 to |batches|
        invariant Valid() && |views| == j
        invariant forall j' :: 0 <= j' < j ==> views[j'] == batches[j'].hist
      {
        var b := batches[j];
        Prepare(b);
        var view := ReadRows(b);
        views := views + [view];
      }
    }
  }
}
