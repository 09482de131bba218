/** A whole drafting step: the mirror is brought up to date, the matcher looks every request's history up in
    it, the drafter runs under the gate, and the drafts are put together. */
module DraftPipeline {
  import opened Basics
  import opened ContextMirror
  import opened Matcher
  import opened DraftGate

  /** One batch and what the drafter would say in it: per slot a token and a confidence for every request.
      orders says in which order the matcher's blocks update each request's key. */
  datatype Step = Step(batch: Batch, nspec: nat, tau: real, tok: seq<seq<int>>, conf: seq<seq<real>>, orders: seq<seq<nat>>) {
    ghost predicate Valid() {
      && nspec >= 1 && |tok| == |conf| == nspec && |batch.hist| == |batch.ids| == |orders|
      && (forall j :: 0 <= j < nspec ==> |tok[j]| == |conf[j]| == |batch.ids|)
      && (forall i :: 0 <= i < |batch.ids| ==> |batch.hist[i]| <= Matcher.SPAN + 1)
      && forall i, b: nat :: 0 <= i < |batch.ids| && b < CeilDiv(|batch.hist[i]|, BLOCK) ==> b in orders[i]
    }

    /** The drafter's first n tokens for request i. */
    function Tokens(i: nat, n: nat): (d: seq<int>)
      requires n <= |tok| && forall j :: 0 <= j < n ==> i < |tok[j]|
      ensures |d| == n && forall j :: 0 <= j < n ==> d[j] == tok[j][i]
    {
      seq(n, j requires 0 <= j < n && i < |tok[j]| => tok[j][i])
    }
  }

  /** The longest history of a batch. */
  function LongestHistory(hist: seq<seq<int>>): nat {
    if hist == [] then 0 else Max(LongestHistory(hist[..|hist| - 1]), |hist[|hist| - 1]|)
  }

  /** No history is long enough for anything in it to be matched. */
  ghost predicate AllShort(hist: seq<seq<int>>) {
    forall i :: 0 <= i < |hist| ==> |hist[i]| < 3
  }

  lemma {:induction false} LongestIs(hist: seq<seq<int>>)
    ensures forall i :: 0 <= i < |hist| ==> |hist[i]| <= LongestHistory(hist)
    ensures hist != [] ==> exists i :: 0 <= i < |hist| && |hist[i]| == LongestHistory(hist)
    ensures LongestHistory(hist) < MIN <==> AllShort(hist)
  {
    if hist != [] {
      var n := |hist| - 1;
      LongestIs(hist[..n]);
      assert |hist[n]| <= LongestHistory(hist);
      if n > 0 && |hist[n]| < LongestHistory(hist) {
        var i :| 0 <= i < n && |hist[..n][i]| == LongestHistory(hist[..n]);
        assert |hist[i]| == LongestHistory(hist);
      }
    }
  }

  /** draft is the drafter's first k tokens. */
  ghost predicate IsPrefix(st: Step, i: nat, draft: seq<int>, k: nat)
    requires st.Valid() && i < |st.batch.ids|
  {
    1 <= k <= st.nspec && draft == st.Tokens(i, k)
  }

  /** Position q ends the longest match of the history's own end, something followed it for slot k, and it is
      what the drafter says there. */
  ghost predicate AgreesWith(st: Step, i: nat, k: nat, q: nat, len: nat)
    requires st.Valid() && i < |st.batch.ids| && k < st.nspec
  {
    var h := st.batch.hist[i];
    Best(h, q, len) && k < |h| - 1 - q && h[q + 1 + k] == st.tok[k][i]
  }

  ghost predicate Agrees(st: Step, i: nat, k: nat)
    requires st.Valid() && i < |st.batch.ids| && k < st.nspec
  {
    exists q: nat, len: nat :: AgreesWith(st, i, k, q, len)
  }

  /** draft is the drafter's first k tokens and then what followed the longest match from there on, as much as
      fits. */
  ghost predicate IsContinued(st: Step, i: nat, draft: seq<int>, k: nat, q: nat, len: nat)
    requires st.Valid() && i < |st.batch.ids| && k < st.nspec
  {
    var h := st.batch.hist[i];
    && AgreesWith(st, i, k, q, len)
    && draft == st.Tokens(i, k) + h[q + 1 + k..q + 1 + Min(st.nspec, |h| - 1 - q)]
  }

  /** The product of the confidences of the slots before k. */
  ghost function Product(st: Step, i: nat, k: nat): real
    requires st.Valid() && i < |st.batch.ids| && k <= st.nspec
  {
    if k == 0 then 1.0 else Product(st, i, k - 1) * st.conf[k - 1][i]
  }

  /** Slot k stops request i: its history agrees there, or its confidence has run out. */
  ghost predicate StopsAt(st: Step, i: nat, k: nat)
    requires st.Valid() && i < |st.batch.ids| && k < st.nspec
  {
    Agrees(st, i, k) || Product(st, i, k) < st.tau
  }

  /** Request i's draft when the forwards are capped at cap (0 for no cap): k is the first slot that stops it,
      else the cap or the width.  Where it stopped because its history agreed, the draft goes on with what
      the history says; else it is what was drafted until then, one token at least. */
  ghost predicate ServedAt(st: Step, cap: nat, i: nat, draft: seq<int>, k: nat)
    requires st.Valid() && i < |st.batch.ids| && cap < st.nspec
  {
    var limit := if cap != 0 then cap else st.nspec;
    && k <= limit && (forall j: nat :: j < k ==> !StopsAt(st, i, j)) && (k < limit ==> StopsAt(st, i, k))
    && if k < limit && Agrees(st, i, k) then exists q: nat, len: nat :: IsContinued(st, i, draft, k, q, len)
       else IsPrefix(st, i, draft, Max(k, 1))
  }

  ghost predicate ServedCapped(st: Step, cap: nat, i: nat, draft: seq<int>)
    requires st.Valid() && i < |st.batch.ids| && cap < st.nspec
  {
    exists k: nat :: ServedAt(st, cap, i, draft, k)
  }

  /** Request i's draft: everything the drafter says if no history of the batch is long enough to be matched,
      else what the gate makes of it under the schedule's ceiling. */
  ghost predicate Served(st: Step, schedule: seq<(nat, nat)>, i: nat, draft: seq<int>)
    requires st.Valid() && i < |st.batch.ids|
  {
    if AllShort(st.batch.hist) then IsPrefix(st, i, draft, st.nspec)
    else exists ceil: nat :: CeilingIs(schedule, |st.batch.ids|, ceil) && ServedCapped(st, Cap(st, ceil), i, draft)
  }

  /** The forward cap that a ceiling means. */
  function Cap(st: Step, ceil: nat): nat { if 0 < ceil < st.nspec then ceil else 0 }

  lemma PrefixUnique(st: Step, i: nat, draft: seq<int>, draft': seq<int>, k: nat)
    requires st.Valid() && i < |st.batch.ids| && IsPrefix(st, i, draft, k) && IsPrefix(st, i, draft', k)
    ensures draft == draft'
  {
  }

  lemma ContinuedUnique(st: Step, i: nat, draft: seq<int>, draft': seq<int>, k: nat, q: nat, len: nat, q': nat, len': nat)
    requires st.Valid() && i < |st.batch.ids| && k < st.nspec
    requires IsContinued(st, i, draft, k, q, len) && IsContinued(st, i, draft', k, q', len')
    ensures draft == draft'
  {
    BestUnique(st.batch.hist[i], q, len, q', len');
  }

  /** A request has one stop slot and one draft. */
  lemma ServedAtUnique(st: Step, cap: nat, i: nat, draft: seq<int>, k: nat, draft': seq<int>, k': nat)
    requires st.Valid() && i < |st.batch.ids| && cap < st.nspec && ServedAt(st, cap, i, draft, k) && ServedAt(st, cap, i, draft', k')
    ensures k == k' && draft == draft'
  {
    hide Agrees, StopsAt, IsContinued, IsPrefix;
    var limit := if cap != 0 then cap else st.nspec;
    if k < limit && Agrees(st, i, k) {
      var q: nat, len: nat :| IsContinued(st, i, draft, k, q, len);
      var q': nat, len': nat :| IsContinued(st, i, draft', k, q', len');
      ContinuedUnique(st, i, draft, draft', k, q, len, q', len');
    } else {
      PrefixUnique(st, i, draft, draft', Max(k, 1));
    }
  }

  /** What is said of a draft says all of it: no other draft would be served. */
  lemma ServedUnique(st: Step, schedule: seq<(nat, nat)>, i: nat, draft: seq<int>, draft': seq<int>)
    requires st.Valid() && i < |st.batch.ids| && SortedSchedule(schedule) && Served(st, schedule, i, draft) && Served(st, schedule, i, draft')
    ensures draft == draft'
  {
    hide ServedAt, CeilingIs;
    if AllShort(st.batch.hist) {
      PrefixUnique(st, i, draft, draft', st.nspec);
    } else {
      var c: nat :| CeilingIs(schedule, |st.batch.ids|, c) && ServedCapped(st, Cap(st, c), i, draft);
      var c': nat :| CeilingIs(schedule, |st.batch.ids|, c') && ServedCapped(st, Cap(st, c'), i, draft');
      CeilingUnique(schedule, |st.batch.ids|, c, c');
      var k: nat :| ServedAt(st, Cap(st, c), i, draft, k);
      var k': nat :| ServedAt(st, Cap(st, c), i, draft', k');
      ServedAtUnique(st, Cap(st, c), i, draft, k, draft', k');
    }
  }

  /** The controller's call of a batch whose matches are these. */
  function CallOf(st: Step, cap: nat, cont: seq<seq<int>>, clen: seq<nat>): Call {
    Call(st.nspec, cap, st.tau, st.tok, st.conf, cont, clen)
  }

  ghost predicate Matched(st: Step, cont: seq<seq<int>>, clen: seq<nat>)
    requires st.Valid()
  {
    |cont| == |clen| == |st.batch.ids| &&
    forall i :: 0 <= i < |cont| ==> Continuation(st.batch.hist[i], st.nspec, cont[i], clen[i])
  }

  /** The gate's agreement is agreement with the history. */
  lemma AgreeIff(st: Step, cap: nat, cont: seq<seq<int>>, clen: seq<nat>, i: nat, j: nat)
    requires st.Valid() && Matched(st, cont, clen) && cap < st.nspec && i < |st.batch.ids| && j < st.nspec
    ensures CallOf(st, cap, cont, clen).Valid()
    ensures CallOf(st, cap, cont, clen).Agree(i, j) <==> Agrees(st, i, j)
  {
    hide Best;
    var h := st.batch.hist[i];
    assert forall m :: 0 <= m < |cont| ==> Continuation(st.batch.hist[m], st.nspec, cont[m], clen[m]);
    if j < clen[i] {
      var q: nat, len: nat :| Best(h, q, len);
      TailAt(h, cont[i], q, clen[i], j);
      if cont[i][j] == st.tok[j][i] {
        assert AgreesWith(st, i, j, q, len);
      }
    }
    if Agrees(st, i, j) {
      SameBest(st, i, j, cont[i], clen[i]);
    }
  }

  lemma SameBest(st: Step, i: nat, j: nat, cont: seq<int>, clen: nat)
    requires st.Valid() && i < |st.batch.ids| && j < st.nspec && Agrees(st, i, j)
    requires Continuation(st.batch.hist[i], st.nspec, cont, clen)
    ensures j < clen && cont[j] == st.tok[j][i]
  {
    hide Best;
    var q: nat, len: nat :| AgreesWith(st, i, j, q, len);
    TailAt(st.batch.hist[i], cont, q, clen, j);
  }

  lemma {:induction false} ProductSame(st: Step, cap: nat, cont: seq<seq<int>>, clen: seq<nat>, i: nat, j: nat)
    requires st.Valid() && CallOf(st, cap, cont, clen).Valid() && |clen| == |st.batch.ids| && i < |st.batch.ids| && j <= st.nspec
    ensures CallOf(st, cap, cont, clen).Product(i, j) == Product(st, i, j)
  {
    if j > 0 {
      ProductSame(st, cap, cont, clen, i, j - 1);
    }
  }

  lemma StopsIff(st: Step, cap: nat, cont: seq<seq<int>>, clen: seq<nat>, i: nat, j: nat)
    requires st.Valid() && Matched(st, cont, clen) && cap < st.nspec && i < |st.batch.ids| && j < st.nspec
    ensures CallOf(st, cap, cont, clen).Valid()
    ensures Stops(CallOf(st, cap, cont, clen), i, j) <==> StopsAt(st, i, j)
  {
    hide Agrees, Continuation;
    AgreeIff(st, cap, cont, clen, i, j);
    ProductSame(st, cap, cont, clen, i, j);
  }

  /** Every draft the controller assembles from true matches is as described. */
  lemma AssembledServed(st: Step, cap: nat, cont: seq<seq<int>>, clen: seq<nat>, i: nat)
    requires st.Valid() && Matched(st, cont, clen) && cap < st.nspec && i < |st.batch.ids|
    ensures CallOf(st, cap, cont, clen).Valid()
    ensures ServedCapped(st, cap, i, FinalDraft(CallOf(st, cap, cont, clen), i, st.nspec))
  {
    hide Agrees, Stops, StopsAt, FinalDraft, Continuation;
    var c := CallOf(st, cap, cont, clen);
    AgreeIff(st, cap, cont, clen, i, 0);
    StopSlot(c, i);
    var d, k := FinalDraft(c, i, st.nspec), Run(c, i, st.nspec).sslot;
    forall j: nat | j < c.nspec ensures Stops(c, i, j) <==> StopsAt(st, i, j) {
      StopsIff(st, cap, cont, clen, i, j);
    }
    if k < c.Limit() {
      AgreeIff(st, cap, cont, clen, i, k);
    }
    DraftIs(st, cap, cont, clen, i);
    assert ServedAt(st, cap, i, d, k);
  }

  /** The two shapes of an assembled draft. */
  lemma DraftIs(st: Step, cap: nat, cont: seq<seq<int>>, clen: seq<nat>, i: nat)
    requires st.Valid() && Matched(st, cont, clen) && cap < st.nspec && i < |st.batch.ids| && CallOf(st, cap, cont, clen).Valid()
    ensures var c := CallOf(st, cap, cont, clen);
            var d, r := FinalDraft(c, i, st.nspec), Run(c, i, st.nspec);
            if r.saction == 1 then r.sslot < st.nspec && exists q: nat, len: nat :: IsContinued(st, i, d, r.sslot, q, len)
            else IsPrefix(st, i, d, Max(r.sslot, 1))
  {
    hide Best, FinalDraft, Run;
    var c := CallOf(st, cap, cont, clen);
    assert Continuation(st.batch.hist[i], st.nspec, cont[i], clen[i]);
    DraftShape(c, i);
    StopSlot(c, i);
    var d, k, h := FinalDraft(c, i, st.nspec), Run(c, i, st.nspec).sslot, st.batch.hist[i];
    if Run(c, i, st.nspec).saction == 1 {
      var q: nat, len: nat :| Best(h, q, len);
      TailAt(h, cont[i], q, clen[i], k);
      assert Drafted(c, i, k) == st.Tokens(i, k);
      assert IsContinued(st, i, d, k, q, len);
    } else {
      assert Drafted(c, i, Max(k, 1)) == st.Tokens(i, Max(k, 1));
    }
  }

  lemma TailAt(h: seq<int>, cont: seq<int>, q: nat, n: nat, k: nat)
    requires k < n <= |cont| && q + 1 + n <= |h| && cont[..n] == h[q + 1..q + 1 + n]
    ensures cont[k..n] == h[q + 1 + k..q + 1 + n] && cont[k] == h[q + 1 + k]
  {
    assert cont[..n][k..] == cont[k..n];
    assert h[q + 1..q + 1 + n][k..] == h[q + 1 + k..q + 1 + n];
  }

  /** Without a matcher run every slot's token is kept. */
  method NativeDrafts(st: Step) returns (out: seq<seq<int>>)
    requires st.Valid()
    ensures |out| == |st.batch.ids| && forall i :: 0 <= i < |out| ==> IsPrefix(st, i, out[i], st.nspec)
  {
    out := seq(|st.batch.ids|, i requires 0 <= i < |st.batch.ids| => st.Tokens(i, st.nspec));
  }

  /** The rows the matcher reads, whole. */
  method Rows(mirror: Mirror, b: Batch) returns (rows: seq<seq<int>>)
    requires mirror.Valid() && |b.ids| == |b.hist| && forall i :: 0 <= i < |b.ids| ==> mirror.RowHolds(i, b.hist[i])
    ensures |rows| == |b.ids| && forall i :: 0 <= i < |rows| ==> |b.hist[i]| <= |rows[i]| && rows[i][..|b.hist[i]|] == b.hist[i]
  {
    rows := [];
    for i := 0 to |b.ids|
      invariant |rows| == i && forall k :: 0 <= k < i ==> |b.hist[k]| <= |rows[k]| && rows[k][..|b.hist[k]|] == b.hist[k]
    {
      assert mirror.RowHolds(i, b.hist[i]);
      var row := mirror.ReadRow(i, mirror.ctx.Length1);
      assert row[..|b.hist[i]|] == b.hist[i];
      rows := rows + [row];
    }
  }

  /** The matcher on a mirror that holds the batch. */
  method Match(mirror: Mirror, st: Step) returns (cont: seq<seq<int>>, clen: seq<nat>)
    requires mirror.Valid() && st.Valid() && forall i :: 0 <= i < |st.batch.ids| ==> mirror.RowHolds(i, st.batch.hist[i])
    ensures Matched(st, cont, clen)
  {
    hide Continuation, CeilDiv;
    var b := st.batch;
    var rows := Rows(mirror, b);
    var ns := seq(|b.hist|, i requires 0 <= i < |b.hist| => |b.hist[i]|);
    cont, clen := MatchGpu(rows, ns, st.nspec, st.orders);
    forall i | 0 <= i < |cont| ensures Continuation(b.hist[i], st.nspec, cont[i], clen[i]) {
      assert Continuation(rows[i][..ns[i]], st.nspec, cont[i], clen[i]);
    }
  }

  /** Every draft of the batch is a gated one, under the schedule's ceiling. */
  ghost predicate AllGated(st: Step, schedule: seq<(nat, nat)>, out: seq<seq<int>>)
    requires st.Valid() && |out| == |st.batch.ids|
  {
    forall i :: 0 <= i < |out| ==> exists ceil: nat :: CeilingIs(schedule, |out|, ceil) && ServedCapped(st, Cap(st, ceil), i, out[i])
  }

  lemma NativeServed(st: Step, schedule: seq<(nat, nat)>, out: seq<seq<int>>)
    requires st.Valid() && |out| == |st.batch.ids| && (AllShort(st.batch.hist) || |out| == 0)
    requires forall i :: 0 <= i < |out| ==> IsPrefix(st, i, out[i], st.nspec)
    ensures forall i :: 0 <= i < |out| ==> Served(st, schedule, i, out[i])
    ensures (exists j :: 0 <= j < |st.batch.hist| && |st.batch.hist[j]| >= 3) ==> AllGated(st, schedule, out)
  {
  }

  lemma GatedServed(st: Step, schedule: seq<(nat, nat)>, ceil: nat, out: seq<seq<int>>)
    requires st.Valid() && |out| == |st.batch.ids| && CeilingIs(schedule, |out|, ceil) && !AllShort(st.batch.hist)
    requires forall i :: 0 <= i < |out| ==> ServedCapped(st, Cap(st, ceil), i, out[i])
    ensures forall i :: 0 <= i < |out| ==> Served(st, schedule, i, out[i])
    ensures AllGated(st, schedule, out)
  {
    hide ServedCapped, CeilingIs;
  }

  /** One batch.  Every request is sent the drafter's tokens, and where agreement stopped it, the
      continuation of the longest suffix match in its own history.  One history of three tokens is enough
      for the whole batch to be gated. */
  method DraftBatch(mirror: Mirror, drafter: Drafter, st: Step, schedule: seq<(nat, nat)>) returns (out: seq<seq<int>>)
    requires mirror.Valid() && st.Valid() && st.batch.Valid(mirror.rows, mirror.width, mirror.eventual) && SortedSchedule(schedule)
    modifies mirror`seen, mirror.ctx, drafter
    ensures mirror.Valid()
    ensures |out| == |st.batch.ids| && forall i :: 0 <= i < |out| ==> Served(st, schedule, i, out[i])
    ensures (exists j :: 0 <= j < |st.batch.hist| && |st.batch.hist[j]| >= 3) ==> AllGated(st, schedule, out)
  {
    hide Continuation, FinalDraft, Call.Valid, CeilDiv, ServedCapped, CeilingIs, Served, AllShort, IsPrefix, AllGated, Matched, LongestHistory;
    var b := st.batch;
    var ceil := BatchCeil(schedule, |b.ids|);
    LongestIs(b.hist);
    mirror.Prepare(b);
    if |b.ids| == 0 || LongestHistory(b.hist) < MIN {
      out := NativeDrafts(st);
      NativeServed(st, schedule, out);
      return;
    }
    var cont, clen := Match(mirror, st);
    out := Gated(drafter, st, cont, clen, ceil);
    GatedServed(st, schedule, ceil, out);
  }

  /** The gated drafting of a batch whose matches are known. */
  method Gated(drafter: Drafter, st: Step, cont: seq<seq<int>>, clen: seq<nat>, ceil: nat) returns (out: seq<seq<int>>)
    requires st.Valid() && Matched(st, cont, clen) && |st.batch.ids| > 0
    modifies drafter
    ensures |out| == |st.batch.ids| && forall i :: 0 <= i < |out| ==> ServedCapped(st, Cap(st, ceil), i, out[i])
  {
    hide ServedCapped, Continuation, FinalDraft, Matched;
    var c := CallOf(st, Cap(st, ceil), cont, clen);
    SameBatch(st, cont, clen);
    AssembledServed(st, Cap(st, ceil), cont, clen, 0);
    drafter.cont, drafter.clen := Some(cont), clen;
    out := drafter.ProposeDrafts(c, ceil);
    forall i | 0 <= i < |st.batch.ids| ensures ServedCapped(st, Cap(st, ceil), i, out[i]) {
      AssembledServed(st, Cap(st, ceil), cont, clen, i);
      assert out[i] == FinalDraft(c, i, st.nspec);
    }
  }

  lemma SameBatch(st: Step, cont: seq<seq<int>>, clen: seq<nat>)
    requires st.Valid() && Matched(st, cont, clen)
    ensures |clen| == |st.batch.ids|
  {
  }

  /** Any run of batches, with joins, leaves and reshuffles in between: every draft of every batch is made
      from the drafter's tokens and the request's own history. */
  method ServeBatches(mirror: Mirror, drafter: Drafter, steps: seq<Step>, schedule: seq<(nat, nat)>) returns (outs: seq<seq<seq<int>>>)
    requires mirror.Valid() && SortedSchedule(schedule)
    requires forall j :: 0 <= j < |steps| ==> steps[j].Valid() && steps[j].batch.Valid(mirror.rows, mirror.width, mirror.eventual)
    modifies mirror`seen, mirror.ctx, drafter
    ensures mirror.Valid() && |outs| == |steps|
    ensures forall j :: 0 <= j < |steps| ==>
              |outs[j]| == |steps[j].batch.ids| && forall i :: 0 <= i < |outs[j]| ==> Served(steps[j], schedule, i, outs[j][i])
  {
    hide Served;
    outs := [];
    for j := 0 to |steps|
      invariant mirror.Valid() && |outs| == j
      invariant forall j' :: 0 <= j' < j ==>
                  |outs[j']| == |steps[j'].batch.ids| && forall i :: 0 <= i < |outs[j']| ==> Served(steps[j'], schedule, i, outs[j'][i])
    {
      var out := DraftBatch(mirror, drafter, steps[j], schedule);
      outs := outs + [out];
    }
  }
}
