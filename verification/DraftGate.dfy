/** The draft-depth controller: per request and per draft slot it decides to keep drafting, to take the
    n-gram continuation, or to verify; once every request has decided, the remaining drafter forwards
    are skipped. */
module DraftGate {
  import opened Basics

  // ------------------------------------------------------------------ one request

  /** What the gate keeps per request: the product of confidences, whether it has stopped, the running
      agreement flag, and the slot and action it stopped with (1 = n-gram, 2 = verify). */
  datatype RowState = RowState(cum: real, stopped: bool, allagree: bool, sslot: nat, saction: nat)

  /** One propose call: for every slot the drafter's token and confidence per request, had all nspec
      forwards been run, and the matcher's continuations.  cap is the forward cap, 0 for none. */
  datatype Call = Call(nspec: nat, cap: nat, tau: real, tok: seq<seq<int>>, conf: seq<seq<real>>, cont: seq<seq<int>>, clen: seq<nat>) {
    function B(): nat { |clen| }

    predicate Valid() {
      && nspec >= 1 && cap < nspec && |tok| == |conf| == nspec && |cont| == |clen|
      && (forall j :: 0 <= j < nspec ==> |tok[j]| == |conf[j]| == B())
      && (forall i :: 0 <= i < B() ==> clen[i] <= |cont[i]|)
    }

    /** The n-gram's token for slot j equals the drafter's. */
    predicate Agree(i: nat, j: nat)
      requires Valid() && i < B() && j < nspec
    {
      j < clen[i] && cont[i][j] == tok[j][i]
    }

    /** The product of the confidences of the slots before j. */
    ghost function Product(i: nat, j: nat): real
      requires Valid() && i < B() && j <= nspec
    {
      if j == 0 then 1.0 else Product(i, j - 1) * conf[j - 1][i]
    }

    /** The last slot a decision can fall on: the forward cap, or the draft width. */
    function Limit(): nat { if cap != 0 then cap else nspec }
  }

  function Fresh(nspec: nat): RowState {
    RowState(1.0, false, true, nspec, 2)
  }

  /** One slot of the gate, for one request. */
  function RowStep(cap: nat, tau: real, agree: bool, conf: real, j: nat, r: RowState): RowState {
    var action := if agree then 1 else if r.cum >= tau then 0 else 2;
    var newly := !r.stopped && action != 0;
    var sslot := if newly then j else r.sslot;
    var saction := if newly then action else r.saction;
    var stopped := r.stopped || action != 0;
    var allagree := r.allagree && (agree || stopped);
    var capNew := cap != 0 && j + 1 >= cap && !stopped;
    RowState(r.cum * conf, stopped || capNew, allagree,
             if capNew then j + 1 else sslot,
             if capNew && allagree then 1 else saction)
  }

  /** The state of request i after the first n slots. */
  ghost function Run(c: Call, i: nat, n: nat): RowState
    requires c.Valid() && i < c.B() && n <= c.nspec
  {
    if n == 0 then Fresh(c.nspec)
    else RowStep(c.cap, c.tau, c.Agree(i, n - 1), c.conf[n - 1][i], n - 1, Run(c, i, n - 1))
  }

  // ------------------------------------------------------------------ where a request stops

  /** Slot j makes request i stop: its n-gram agrees, or its confidence has run out. */
  ghost predicate Stops(c: Call, i: nat, j: nat)
    requires c.Valid() && i < c.B() && j < c.nspec
  {
    c.Agree(i, j) || c.Product(i, j) < c.tau
  }

  /** The exact meaning of the state after n slots: k is the first slot below n and below the limit that
      stops the request, if there is one. */
  ghost predicate StateIs(c: Call, i: nat, n: nat, r: RowState)
    requires c.Valid() && i < c.B() && n <= c.nspec
  {
    && r.cum == c.Product(i, n)
    && (r.stopped ==>
          && r.sslot <= n && r.sslot <= c.Limit()
          && (forall j: nat :: j < r.sslot ==> !Stops(c, i, j))
          && (if r.sslot < c.Limit() then Stops(c, i, r.sslot) && r.saction == (if c.Agree(i, r.sslot) then 1 else 2)
              else c.cap != 0 && r.saction == 2))
    && (!r.stopped ==>
          && r.sslot == c.nspec && r.saction == 2 && (c.cap != 0 ==> n < c.cap)
          && (forall j: nat :: j < n ==> !Stops(c, i, j))
          && (n > 0 ==> !r.allagree))
  }

  lemma {:induction false} RunMeans(c: Call, i: nat, n: nat)
    requires c.Valid() && i < c.B() && n <= c.nspec
    ensures StateIs(c, i, n, Run(c, i, n))
  {
    if n > 0 {
      RunMeans(c, i, n - 1);
    }
  }

  /** At the end of a call every request's stop slot is the first slot where its n-gram agrees or the
      product of its earlier confidences is below tau, else the limit; and its action is the n-gram
      exactly when agreement stopped it. */
  lemma StopSlot(c: Call, i: nat)
    requires c.Valid() && i < c.B()
    ensures var r := Run(c, i, c.nspec);
            && r.sslot <= c.Limit()
            && (forall j: nat :: j < r.sslot ==> !Stops(c, i, j))
            && (r.sslot < c.Limit() ==> Stops(c, i, r.sslot))
            && (r.saction == 1 <==> r.sslot < c.Limit() && c.Agree(i, r.sslot))
            && (r.saction == 2 <==> !(r.sslot < c.Limit() && c.Agree(i, r.sslot)))
  {
    RunMeans(c, i, c.nspec);
  }

  /** A request that is still drafting after some slot has its agreement flag down: the arm that would
      let a capped request take the n-gram for free is never reached. */
  lemma DraftingMeansDisagreed(c: Call, i: nat, n: nat)
    requires c.Valid() && i < c.B() && 1 <= n <= c.nspec && !Run(c, i, n).stopped
    ensures !Run(c, i, n).allagree
  {
    RunMeans(c, i, n);
  }

  lemma CapVerifies(c: Call, i: nat)
    requires c.Valid() && i < c.B() && c.cap != 0 && forall j: nat :: j < c.cap ==> !Stops(c, i, j)
    ensures Run(c, i, c.nspec).sslot == c.cap && Run(c, i, c.nspec).saction == 2
  {
    RunMeans(c, i, c.nspec);
  }

  // ------------------------------------------------------------------ skipping forwards

  ghost predicate AllStopped(c: Call, n: nat)
    requires c.Valid() && n <= c.nspec
  {
    forall i :: 0 <= i < c.B() ==> Run(c, i, n).stopped
  }

  /** How many forwards the loop runs when it breaks on the stop flag, having run n already. */
  ghost function ForwardsFrom(c: Call, n: nat): (f: nat)
    requires c.Valid() && n <= c.nspec
    ensures n <= f <= c.nspec
    decreases c.nspec - n
  {
    if n == c.nspec || AllStopped(c, n) then n else ForwardsFrom(c, n + 1)
  }

  ghost function Forwards(c: Call): nat
    requires c.Valid()
  {
    ForwardsFrom(c, 1)
  }

  lemma {:induction false} ForwardsFirst(c: Call, n: nat)
    requires c.Valid() && n <= c.nspec
    ensures ForwardsFrom(c, n) == c.nspec || AllStopped(c, ForwardsFrom(c, n))
    ensures forall k :: n <= k < ForwardsFrom(c, n) ==> !AllStopped(c, k)
    decreases c.nspec - n
  {
    if n != c.nspec && !AllStopped(c, n) {
      ForwardsFirst(c, n + 1);
    }
  }

  /** The loop runs the fewest forwards after which everyone has decided, and never more than the cap. */
  lemma ForwardsLeast(c: Call)
    requires c.Valid()
    ensures 1 <= Forwards(c) <= c.nspec
    ensures Forwards(c) < c.nspec ==> AllStopped(c, Forwards(c))
    ensures forall k :: 1 <= k < Forwards(c) ==> !AllStopped(c, k)
    ensures c.cap != 0 ==> Forwards(c) <= c.cap
  {
    ForwardsFirst(c, 1);
    if c.cap != 0 {
      forall i | 0 <= i < c.B() ensures Run(c, i, c.cap).stopped {
        RunMeans(c, i, c.cap);
      }
      assert AllStopped(c, c.cap);
    }
  }

  /** Once stopped, a request keeps its slot and action whatever later slots hold. */
  lemma {:induction false} StoppedIsFrozen(c: Call, i: nat, n: nat, later: nat)
    requires c.Valid() && i < c.B() && n <= later <= c.nspec && Run(c, i, n).stopped
    ensures var r, r' := Run(c, i, n), Run(c, i, later); r'.stopped && r'.sslot == r.sslot && r'.saction == r.saction
    decreases later
  {
    if n < later {
      StoppedIsFrozen(c, i, n, later - 1);
    }
  }

  // ------------------------------------------------------------------ the assembled draft

  /** The first n drafted tokens of request i. */
  function Drafted(c: Call, i: nat, n: nat): (d: seq<int>)
    requires c.Valid() && i < c.B() && n <= c.nspec
    ensures |d| == n
  {
    seq(n, j requires 0 <= j < n => c.tok[j][i])
  }

  function Assemble(row: seq<int>, sslot: nat, saction: nat, cont: seq<int>, clen: nat, nspec: nat): seq<int>
    requires clen <= |cont|
  {
    var k := Min(sslot, |row|);
    var d := row[..k] + if saction == 1 && k < clen then cont[k..clen] else [];
    var d := if d == [] then row[..Min(1, |row|)] else d;
    d[..Min(nspec, |d|)]
  }

  ghost function FinalDraft(c: Call, i: nat, n: nat): seq<int>
    requires c.Valid() && i < c.B() && n <= c.nspec
  {
    var r := Run(c, i, n);
    Assemble(Drafted(c, i, n), r.sslot, r.saction, c.cont[i], c.clen[i], c.nspec)
  }

  /** Short-circuiting is invisible: the drafts assembled after the break are those of running all
      nspec forwards. */
  lemma ShortCircuitInvisible(c: Call, i: nat)
    requires c.Valid() && i < c.B()
    ensures FinalDraft(c, i, Forwards(c)) == FinalDraft(c, i, c.nspec)
  {
    var f := Forwards(c);
    ForwardsLeast(c);
    if f < c.nspec {
      StoppedIsFrozen(c, i, f, c.nspec);
      RunMeans(c, i, f);
      var k := Run(c, i, f).sslot;
      assert Drafted(c, i, f)[..k] == Drafted(c, i, c.nspec)[..k];
      assert Drafted(c, i, f)[..1] == Drafted(c, i, c.nspec)[..1];
    }
  }

  /** What is sent to verification: the drafter's tokens up to the stop slot, then, if agreement stopped
      the request, the n-gram's tail, whose first token the drafter also guessed.  Never empty, never
      longer than the width. */
  lemma DraftShape(c: Call, i: nat)
    requires c.Valid() && i < c.B() && c.clen[i] <= c.nspec
    ensures var d, k := FinalDraft(c, i, c.nspec), Run(c, i, c.nspec).sslot;
            && 1 <= |d| <= c.nspec && k <= c.nspec
            && (Run(c, i, c.nspec).saction == 1 ==> k < c.clen[i] && d == Drafted(c, i, k) + c.cont[i][k..c.clen[i]] && d[k] == c.tok[k][i])
            && (Run(c, i, c.nspec).saction == 2 ==> d == Drafted(c, i, Max(k, 1)))
  {
    StopSlot(c, i);
    var k := Run(c, i, c.nspec).sslot;
    assert Drafted(c, i, c.nspec)[..k] == Drafted(c, i, k);
    assert Drafted(c, i, c.nspec)[..1] == Drafted(c, i, 1);
  }

  // ------------------------------------------------------------------ the controller object

  /** The controller's fields on the proposer, one array per quantity.  No gate arrays exist until the
      first gated slot of a call has run. */
  class Drafter {
    var slot: nat
    var stop: bool
    var nspec: nat
    var fwdCap: nat
    var cont: Option<seq<seq<int>>>   // None: the matcher did not run for this batch
    var clen: seq<nat>
    var gated: bool
    var cum: seq<real>
    var stopped: seq<bool>
    var allagree: seq<bool>
    var sslot: seq<nat>
    var saction: seq<nat>

    ghost predicate Shaped(b: nat)
      reads this
    {
      |cum| == |stopped| == |allagree| == |sslot| == |saction| == b
    }

    ghost function Row(i: nat): RowState
      requires Shaped(|cum|) && i < |cum|
      reads this
    {
      RowState(cum[i], stopped[i], allagree[i], sslot[i], saction[i])
    }

    /** The fields are those of call c after n gated slots. */
    ghost predicate Tracks(c: Call, n: nat)
      requires c.Valid() && n <= c.nspec
      reads this
    {
      && slot == n && nspec == c.nspec && fwdCap == c.cap && cont == Some(c.cont) && clen == c.clen
      && stop == (n > 0 && AllStopped(c, n))
      && gated == (n > 0)
      && (n > 0 ==> Shaped(c.B()) && forall i :: 0 <= i < c.B() ==> Row(i) == Run(c, i, n))
    }

    method StartGate(b: nat)
      modifies this
      ensures Shaped(b) && gated && forall i :: 0 <= i < b ==> Row(i) == Fresh(nspec)
      ensures slot == old(slot) && stop == old(stop) && nspec == old(nspec) && fwdCap == old(fwdCap)
      ensures cont == old(cont) && clen == old(clen)
    {
      var width := nspec;
      cum, stopped, allagree := seq(b, _ => 1.0), seq(b, _ => false), seq(b, _ => true);
      sslot, saction := seq(b, _ => width), seq(b, _ => 2);
      gated := true;
    }

    /** One slot: token and confidence of every request in, decisions out. */
    method GreedySample(tau: real, tok: seq<int>, conf: seq<real>, ghost c: Call, ghost n: nat)
      requires c.Valid() && n < c.nspec && Tracks(c, n) && tau == c.tau && tok == c.tok[n] && conf == c.conf[n]
      requires n > 0 ==> !AllStopped(c, n)
      modifies this
      ensures Tracks(c, n + 1)
    {
      var j := slot;
      slot := j + 1;
      if j == 0 {
        StartGate(|tok|);
      }
      ghost var next := seq(|tok|, i requires 0 <= i < |tok| => RowStep(c.cap, tau, c.Agree(i, n), conf[i], n, Run(c, i, n)));
      Decide(tau, j, tok, conf, next);
      assert forall i :: 0 <= i < |tok| ==> Row(i) == Run(c, i, n + 1);
    }

    method Decide(tau: real, j: nat, tok: seq<int>, conf: seq<real>, ghost next: seq<RowState>)
      requires cont.Some? && |cont.value| == |clen| == |tok| == |conf| == |next| && Shaped(|tok|)
      requires forall i :: 0 <= i < |tok| ==> clen[i] <= |cont.value[i]|
      requires forall i :: 0 <= i < |tok| ==>
                 next[i] == RowStep(fwdCap, tau, j < clen[i] && cont.value[i][j] == tok[i], conf[i], j, Row(i))
      modifies this`cum, this`stopped, this`allagree, this`sslot, this`saction, this`stop
      ensures Shaped(|tok|) && forall i :: 0 <= i < |tok| ==> Row(i) == next[i]
      ensures stop == (old(stop) || forall i :: 0 <= i < |tok| ==> next[i].stopped)
    {
      var agree := Agreement(j, tok, cont.value, clen);
      cum, stopped, allagree, sslot, saction := GateStep(fwdCap, tau, j, agree, conf, cum, stopped, allagree, sslot, saction);
      assert forall i :: 0 <= i < |tok| ==> Row(i) == next[i] && stopped[i] == next[i].stopped;
      if forall i :: 0 <= i < |stopped| ==> stopped[i] {
        stop := true;
      }
    }

    /** Run the drafter, one forward and one gate slot at a time, until everyone has decided. */
    method Propose(c: Call, batchCeil: nat) returns (draft: seq<seq<int>>)
      requires c.Valid() && cont == Some(c.cont) && clen == c.clen
      requires c.cap == if 0 < batchCeil < c.nspec then batchCeil else 0
      modifies this
      ensures Tracks(c, Forwards(c)) && draft == c.tok[..Forwards(c)]
    {
      hide Run, Call.Agree, AllStopped;
      fwdCap := if 0 < batchCeil < c.nspec then batchCeil else 0;
      slot, stop, nspec, gated := 0, false, c.nspec, false;
      GreedySample(c.tau, c.tok[0], c.conf[0], c, 0);
      draft := [c.tok[0]];
      var index := 0;
      while index < c.nspec - 1
        invariant index <= c.nspec - 1 && Tracks(c, index + 1) && draft == c.tok[..index + 1]
        invariant ForwardsFrom(c, index + 1) == Forwards(c)
      {
        if stop {
          break;
        }
        GreedySample(c.tau, c.tok[index + 1], c.conf[index + 1], c, index + 1);
        draft := draft + [c.tok[index + 1]];
        index := index + 1;
      }
    }

    /** Trim each request to its stop slot and append its n-gram tail. */
    method Postprocess(c: Call, draft: seq<seq<int>>, ghost f: nat) returns (out: seq<seq<int>>)
      requires c.Valid() && 1 <= f <= c.nspec && Tracks(c, f) && draft == c.tok[..f]
      ensures |out| == c.B() && forall i :: 0 <= i < c.B() ==> out[i] == FinalDraft(c, i, f)
    {
      out := [];
      for i := 0 to |sslot|
        invariant |out| == i && forall k :: 0 <= k < i ==> out[k] == FinalDraft(c, k, f)
      {
        var row := seq(|draft|, j requires 0 <= j < |draft| && i < |draft[j]| => draft[j][i]);
        assert row == Drafted(c, i, f) && Row(i) == Run(c, i, f);
        out := out + [Assemble(row, sslot[i], saction[i], cont.value[i], clen[i], nspec)];
      }
    }

    /** A whole call: what comes out is what running all nspec forwards would have given. */
    method ProposeDrafts(c: Call, batchCeil: nat) returns (out: seq<seq<int>>)
      requires c.Valid() && cont == Some(c.cont) && clen == c.clen
      requires c.cap == if 0 < batchCeil < c.nspec then batchCeil else 0
      modifies this
      ensures |out| == c.B() && forall i :: 0 <= i < c.B() ==> out[i] == FinalDraft(c, i, c.nspec)
    {
      ForwardsLeast(c);
      var draft := Propose(c, batchCeil);
      out := Postprocess(c, draft, Forwards(c));
      forall i | 0 <= i < c.B() ensures out[i] == FinalDraft(c, i, c.nspec) {
        ShortCircuitInvisible(c, i);
      }
    }
  }

  /** Where the matcher's token for slot j is the drafter's. */
  function Agreement(j: nat, tok: seq<int>, cont: seq<seq<int>>, clen: seq<nat>): (agree: seq<bool>)
    requires |cont| == |clen| == |tok| && forall i :: 0 <= i < |tok| ==> clen[i] <= |cont[i]|
    ensures |agree| == |tok| && forall i :: 0 <= i < |tok| ==> agree[i] == (j < clen[i] && cont[i][j] == tok[i])
  {
    seq(|tok|, i requires 0 <= i < |tok| => j < clen[i] && cont[i][j] == tok[i])
  }

  /** Agreement in every slot below k says that the drafter's first k tokens are the n-gram's. */
  lemma {:induction false} AgreementMeans(c: Call, i: nat, k: nat)
    requires c.Valid() && i < c.B() && k <= c.nspec
    ensures (forall j: nat :: j < k ==> Agreement(j, c.tok[j], c.cont, c.clen)[i])
            <==> k <= c.clen[i] && Drafted(c, i, k) == c.cont[i][..k]
  {
    if k > 0 {
      AgreementMeans(c, i, k - 1);
      assert Drafted(c, i, k) == Drafted(c, i, k - 1) + [c.tok[k - 1][i]];
      if k <= c.clen[i] {
        assert c.cont[i][..k] == c.cont[i][..k - 1] + [c.cont[i][k - 1]];
      }
      assert (forall j: nat :: j < k ==> Agreement(j, c.tok[j], c.cont, c.clen)[i])
        <==> (forall j: nat :: j < k - 1 ==> Agreement(j, c.tok[j], c.cont, c.clen)[i]) && Agreement(k - 1, c.tok[k - 1], c.cont, c.clen)[i];
    }
  }

  /** Agreement in the slot a request is drafting decides its draft, whatever later slots hold: the
      drafter's tokens up to and with the agreed one, then the rest of the n-gram. */
  lemma AgreedSlotWins(c: Call, i: nat, j: nat)
    requires c.Valid() && i < c.B() && j < c.nspec && c.clen[i] <= c.nspec && !Run(c, i, j).stopped
    ensures Agreement(j, c.tok[j], c.cont, c.clen)[i] <==>
              Run(c, i, c.nspec).saction == 1 && Run(c, i, c.nspec).sslot == j
    ensures Agreement(j, c.tok[j], c.cont, c.clen)[i] ==>
              FinalDraft(c, i, c.nspec) == Drafted(c, i, j + 1) + c.cont[i][j + 1..c.clen[i]]
  {
    RunMeans(c, i, j);
    StopSlot(c, i);
    if Agreement(j, c.tok[j], c.cont, c.clen)[i] {
      RunMeans(c, i, j + 1);
      StoppedIsFrozen(c, i, j + 1, c.nspec);
      DraftShape(c, i);
      assert Drafted(c, i, j + 1) == Drafted(c, i, j) + [c.tok[j][i]];
      assert c.cont[i][j..c.clen[i]] == [c.cont[i][j]] + c.cont[i][j + 1..c.clen[i]];
    }
  }

  /** The arrays of one slot, elementwise; every request takes one RowStep. */
  method GateStep(cap: nat, tau: real, j: nat, agree: seq<bool>, conf: seq<real>, cum: seq<real>, stopped: seq<bool>,
                  allagree: seq<bool>, sslot: seq<nat>, saction: seq<nat>)
    returns (cu: seq<real>, st: seq<bool>, al: seq<bool>, ss: seq<nat>, sa: seq<nat>)
    requires |agree| == |conf| == |cum| == |stopped| == |allagree| == |sslot| == |saction|
    ensures |cu| == |st| == |al| == |ss| == |sa| == |cum|
    ensures forall i :: 0 <= i < |cum| ==>
              RowState(cu[i], st[i], al[i], ss[i], sa[i])
              == RowStep(cap, tau, agree[i], conf[i], j, RowState(cum[i], stopped[i], allagree[i], sslot[i], saction[i]))
  {
    var b := |cum|;
    var action: seq<nat> := seq(b, i requires 0 <= i < b => if agree[i] then 1 else if cum[i] >= tau then 0 else 2);
    var newly := seq(b, i requires 0 <= i < b => !stopped[i] && action[i] != 0);
    ss := seq(b, i requires 0 <= i < b => if newly[i] then j else sslot[i]);
    sa := seq(b, i requires 0 <= i < b => if newly[i] then action[i] else saction[i]);
    st := seq(b, i requires 0 <= i < b => stopped[i] || action[i] != 0);
    cu := seq(b, i requires 0 <= i < b => cum[i] * conf[i]);
    var st1, ss1, sa1 := st, ss, sa;
    al := seq(b, i requires 0 <= i < b => allagree[i] && (agree[i] || st1[i]));
    if cap != 0 && j + 1 >= cap {
      var al1 := al;
      var capNew := seq(b, i requires 0 <= i < b => !st1[i]);
      ss := seq(b, i requires 0 <= i < b => if capNew[i] then j + 1 else ss1[i]);
      sa := seq(b, i requires 0 <= i < b => if capNew[i] && al1[i] then 1 else sa1[i]);
      st := seq(b, i requires 0 <= i < b => st1[i] || capNew[i]);
    }
  }

  // ------------------------------------------------------------------ the batch-size schedule

  ghost predicate SortedSchedule(s: seq<(nat, nat)>) {
    forall i, j :: 0 <= i < j < |s| ==> s[i].0 <= s[j].0
  }

  /** The ceiling a schedule sets at a batch size: the depth of the last entry whose batch size has been
      reached, the first entry's below all of them, at least 1; without a schedule none to speak of. */
  ghost predicate CeilingIs(schedule: seq<(nat, nat)>, requests: nat, d: nat) {
    && (schedule == [] ==> d == 0x4000_0000)
    && (schedule != [] && requests < schedule[0].0 ==> d == Max(1, schedule[0].1))
    && forall i :: 0 <= i < |schedule| && schedule[i].0 <= requests && (i + 1 == |schedule| || requests < schedule[i + 1].0) ==>
         d == Max(1, schedule[i].1)
  }

  /** A sorted schedule has one ceiling for every batch size. */
  lemma CeilingUnique(schedule: seq<(nat, nat)>, requests: nat, d: nat, d': nat)
    requires SortedSchedule(schedule) && CeilingIs(schedule, requests, d) && CeilingIs(schedule, requests, d')
    ensures d == d'
  {
    if schedule != [] && requests >= schedule[0].0 {
      var i := LastReached(schedule, requests, |schedule|);
    }
  }

  lemma LastReached(schedule: seq<(nat, nat)>, requests: nat, n: nat) returns (i: nat)
    requires 0 < n <= |schedule| && schedule[0].0 <= requests && (n == |schedule| || requests < schedule[n].0)
    ensures i < n && schedule[i].0 <= requests && (i + 1 == |schedule| || requests < schedule[i + 1].0)
  {
    if schedule[n - 1].0 <= requests {
      i := n - 1;
    } else {
      i := LastReached(schedule, requests, n - 1);
    }
  }

  /** The loop over the schedule. */
  method BatchCeil(schedule: seq<(nat, nat)>, requests: nat) returns (d: nat)
    requires SortedSchedule(schedule)
    ensures CeilingIs(schedule, requests, d)
  {
    if schedule == [] {
      return 0x4000_0000;
    }
    d := schedule[0].1;
    var k := 0;
    while k < |schedule|
      invariant k <= |schedule|
      invariant k == 0 ==> d == schedule[0].1
      invariant k > 0 ==> schedule[k - 1].0 <= requests && d == schedule[k - 1].1
    {
      if requests >= schedule[k].0 {
        d := schedule[k].1;
      } else {
        break;
      }
      k := k + 1;
    }
    d := Max(1, d);
  }
}
