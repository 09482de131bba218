/** The adaptive verify width: a running average of accepted drafts caps how many are verified next. */
module DynWidth {
  import opened Basics

  /** The knobs: average weight, rows above the average, floor, and the batch size from which caps apply. */
  datatype Knobs = Knobs(alpha: real, margin: int, floor: int, minBatch: nat) {
    ghost predicate Valid() { 0.0 < alpha <= 1.0 }
  }

  function Ceil(x: real): int { -((-x).Floor) }

  lemma CeilIs(x: real)
    ensures Ceil(x) as real - 1.0 < x <= Ceil(x) as real
  {
  }

  // ----- one observation, one cap ----------------------------------------------------

  /** Accepted drafts; one more when every draft was accepted. */
  function Observed(accepted: nat, drafts: nat): real {
    accepted as real + if accepted >= drafts then 1.0 else 0.0
  }

  function Times(a: real, b: real): real { a * b }

  function NextEma(k: Knobs, ema: Option<real>, accepted: nat, drafts: nat): Option<real> {
    if drafts == 0 then ema
    else
      var obs := Observed(accepted, drafts);
      Some(if ema.None? then obs else Times(k.alpha, obs) + Times(1.0 - k.alpha, ema.value))
  }

  /** The width a request is capped to. */
  function CapWidth(k: Knobs, ema: real): int {
    Max(Ceil(ema) + k.margin, k.floor)
  }

  /** Where del ids[w:] cuts a list of len: a negative w counts from the end. */
  function CutAt(len: nat, w: int): int {
    if w >= 0 then Min(len, w) else Max(0, len + w)
  }

  /** What is left is the first w drafts, all if there are no more, and for a negative w all but the last -w. */
  lemma CutAtMeans(len: nat, w: int)
    ensures 0 <= CutAt(len, w) <= len
    ensures 0 <= w <= len ==> CutAt(len, w) == w
    ensures w > len ==> CutAt(len, w) == len
    ensures w < 0 && -w <= len ==> CutAt(len, w) + -w == len
    ensures w < 0 && -w > len ==> CutAt(len, w) == 0
  {
  }

  /** How many of len drafts are verified. */
  function Verified(k: Knobs, ema: Option<real>, running: nat, len: nat): int {
    if running < k.minBatch || ema.None? then len
    else
      var w := CapWidth(k, ema.value);
      if w < len then CutAt(len, w) else len
  }

  lemma VerifiedWithin(k: Knobs, ema: Option<real>, running: nat, len: nat)
    ensures 0 <= Verified(k, ema, running, len) <= len
    ensures len > 0 ==> (Verified(k, ema, running, len) < len <==> running >= k.minBatch && ema.Some? && CapWidth(k, ema.value) < len)
  {
  }

  // ----- the average stays in range -------------------------------------------------------

  ghost predicate InRange(ema: Option<real>, full: nat) {
    ema.Some? ==> 0.0 <= ema.value <= full as real + 1.0
  }

  lemma Mix(a: real, x: real, y: real)
    ensures Times(a, x) + Times(1.0 - a, y) == y + Times(a, x - y)
  {
  }

  lemma TimesOrder(a: real, x: real, y: real)
    requires 0.0 <= a && x <= y
    ensures Times(a, x) <= Times(a, y)
  {
    assert a * (y - x) >= 0.0;
  }

  lemma MulOrder(a: real, b: real, x: real)
    requires a <= b && x >= 0.0
    ensures a * x <= b * x
  {
    if a < b && x > 0.0 {
      assert (b - a) * x > 0.0;
    }
  }

  lemma TimesAtMost(a: real, x: real)
    requires 0.0 <= a <= 1.0 && 0.0 <= x
    ensures 0.0 <= Times(a, x) <= x
  {
    MulOrder(0.0, a, x);
    MulOrder(a, 1.0, x);
  }

  lemma NegTimes(a: real, x: real)
    ensures Times(a, -x) == -Times(a, x)
  {
  }

  lemma EmaStaysInRange(k: Knobs, ema: Option<real>, accepted: nat, drafts: nat, full: nat)
    requires k.Valid() && InRange(ema, full) && accepted <= drafts <= full
    ensures InRange(NextEma(k, ema, accepted, drafts), full)
  {
    hide Times;
    if drafts > 0 && ema.Some? {
      var obs, e := Observed(accepted, drafts), ema.value;
      Mix(k.alpha, obs, e);
      if obs >= e {
        TimesAtMost(k.alpha, obs - e);
      } else {
        TimesAtMost(k.alpha, e - obs);
        NegTimes(k.alpha, e - obs);
        assert obs - e == -(e - obs);
      }
    }
  }

  /** One verification: drafts offered and accepted. */
  datatype Round = Round(drafts: nat, accepted: nat)

  function EmaAfter(k: Knobs, rounds: seq<Round>): Option<real> {
    if rounds == [] then None
    else
      var r := rounds[|rounds| - 1];
      NextEma(k, EmaAfter(k, rounds[..|rounds| - 1]), r.accepted, r.drafts)
  }

  /** Over any history of rounds the average lies in [0, full + 1]. */
  lemma {:induction false} EmaAlwaysInRange(k: Knobs, rounds: seq<Round>, full: nat)
    requires k.Valid() && forall i :: 0 <= i < |rounds| ==> rounds[i].accepted <= rounds[i].drafts <= full
    ensures InRange(EmaAfter(k, rounds), full)
  {
    if rounds != [] {
      var n := |rounds| - 1;
      EmaAlwaysInRange(k, rounds[..n], full);
      EmaStaysInRange(k, EmaAfter(k, rounds[..n]), rounds[n].accepted, rounds[n].drafts, full);
    }
  }

  // ----- recovery -------------------------------------------------------------------------------

  /** n rounds in which everything verified is accepted; busy says in which of them the cap applies. */
  function Recovering(k: Knobs, ema: real, full: nat, busy: seq<nat>): real
    requires k.Valid()
    decreases |busy|
  {
    if busy == [] then ema
    else
      var e := Recovering(k, ema, full, busy[..|busy| - 1]);
      VerifiedWithin(k, Some(e), busy[|busy| - 1], full);
      var w := Verified(k, Some(e), busy[|busy| - 1], full);
      NextEma(k, Some(e), w, w).value
  }

  /** The knobs leave a row to verify at average zero, and lift every width above the average's. */
  predicate KeepsARow(k: Knobs) { k.margin >= 1 || (k.margin == 0 && k.floor >= 1) }

  /** A fully accepted round at less than full width moves the average up by a fixed step; at full width it
      does not move it down. */
  lemma RoundClimbs(k: Knobs, e: real, running: nat, full: nat)
    requires k.Valid() && KeepsARow(k) && 0.0 <= e <= full as real + 1.0 && full > 0
    ensures var w := Verified(k, Some(e), running, full);
            var e' := NextEma(k, Some(e), w, w).value;
            && 0 < w && e <= e' <= full as real + 1.0
            && (CapWidth(k, e) < full ==> e' >= e + Times(k.alpha, (k.margin + 1) as real))
  {
    hide Times;
    CeilIs(e);
    var w := Verified(k, Some(e), running, full);
    var obs := w as real + 1.0;
    assert Observed(w, w) == obs;
    Mix(k.alpha, obs, e);
    EmaStaysInRange(k, Some(e), w, w, full);
    TimesAtMost(k.alpha, if obs >= e then obs - e else 0.0);
    if CapWidth(k, e) < full {
      assert obs - e >= (k.margin + 1) as real;
      TimesOrder(k.alpha, (k.margin + 1) as real, obs - e);
    }
  }

  /** What one fully accepted round below full width adds at least. */
  function Step(k: Knobs): real { Times(k.alpha, (k.margin + 1) as real) }

  lemma CapMono(k: Knobs, a: real, b: real)
    requires a <= b
    ensures CapWidth(k, a) <= CapWidth(k, b)
  {
    CeilIs(a);
    CeilIs(b);
  }

  lemma {:induction false} Climbs(k: Knobs, ema: real, full: nat, busy: seq<nat>)
    requires k.Valid() && KeepsARow(k) && full > 0 && 0.0 <= ema <= full as real + 1.0
    ensures var e := Recovering(k, ema, full, busy);
            && 0.0 <= e <= full as real + 1.0
            && (CapWidth(k, e) >= full || e >= Times(|busy| as real, Step(k)))
  {
    hide Times, CapWidth, Verified, NextEma, Step;
    if busy == [] {
      TimesZero(Step(k));
    } else {
      var n := |busy| - 1;
      Climbs(k, ema, full, busy[..n]);
      var e := Recovering(k, ema, full, busy[..n]);
      RoundClimbs(k, e, busy[n], full);
      StepIs(k);
      var e' := Recovering(k, ema, full, busy);
      CapMono(k, e, e');
      OneMore(n, Step(k));
    }
  }

  lemma StepIs(k: Knobs)
    ensures Step(k) == Times(k.alpha, (k.margin + 1) as real)
  {
  }

  lemma TimesZero(x: real)
    ensures Times(0.0, x) == 0.0
  {
  }

  lemma OneMore(n: nat, x: real)
    ensures Times((n + 1) as real, x) == Times(n as real, x) + x
  {
  }

  /** Rounds that certainly suffice: the full width over the step, rounded up. */
  function Enough(k: Knobs, full: nat): int
    requires k.Valid() && k.margin >= 0
  {
    StepPositive(k);
    Ceil(full as real / Step(k))
  }

  lemma StepPositive(k: Knobs)
    requires k.Valid() && k.margin >= 0
    ensures Step(k) > 0.0
  {
    assert k.alpha * (k.margin + 1) as real > 0.0;
  }

  lemma EnoughSteps(k: Knobs, full: nat, n: nat)
    requires k.Valid() && k.margin >= 0 && n >= Enough(k, full)
    ensures Times(n as real, Step(k)) >= full as real
  {
    StepPositive(k);
    var x := full as real / Step(k);
    CeilIs(x);
    assert x * Step(k) == full as real;
    MulOrder(x, n as real, Step(k));
  }

  /** Recovery: from any average, after that many fully accepted rounds, whether the cap applied in them or
      not, requests are verified at full width again, and stay so as long as everything is accepted. */
  lemma Recovers(k: Knobs, ema: real, full: nat, busy: seq<nat>, running: nat)
    requires k.Valid() && KeepsARow(k) && full > 0 && 0.0 <= ema <= full as real + 1.0
    requires |busy| >= Enough(k, full)
    ensures Verified(k, Some(Recovering(k, ema, full, busy)), running, full) == full
  {
    hide Times, Step, Enough;
    Climbs(k, ema, full, busy);
    EnoughSteps(k, full, |busy|);
    var e := Recovering(k, ema, full, busy);
    CeilIs(e);
  }

  /** Without margin and floor a request whose average reached zero is offered nothing while the cap applies,
      observes nothing, and never recovers. */
  lemma {:induction false} StuckAtZero(k: Knobs, full: nat, busy: seq<nat>)
    requires k.Valid() && k.margin == 0 && k.floor <= 0 && forall i :: 0 <= i < |busy| ==> busy[i] >= k.minBatch
    ensures Recovering(k, 0.0, full, busy) == 0.0
    ensures forall running :: running >= k.minBatch ==> Verified(k, Some(0.0), running, full) == 0
  {
    CeilIs(0.0);
    if busy != [] {
      StuckAtZero(k, full, busy[..|busy| - 1]);
    }
  }

  /** With a margin of -1 the observation above a capped width only reaches the average's own ceiling: an
      average of exactly the full width stays where it is, one row short. */
  lemma {:induction false} StuckBelowFull(k: Knobs, full: nat, busy: seq<nat>)
    requires k.Valid() && k.margin == -1 && full > 0 && k.floor < full && forall i :: 0 <= i < |busy| ==> busy[i] >= k.minBatch
    ensures Recovering(k, full as real, full, busy) == full as real
  {
    CeilIs(full as real);
    if busy != [] {
      StuckBelowFull(k, full, busy[..|busy| - 1]);
      var e, w := full as real, Verified(k, Some(full as real), busy[|busy| - 1], full);
      assert w == full - 1;
      Mix(k.alpha, e, e);
      TimesZeroRight(k.alpha);
    }
  }

  lemma TimesZeroRight(a: real)
    ensures Times(a, 0.0) == 0.0
  {
  }

  lemma {:induction false} RecoveringInRange(k: Knobs, ema: real, full: nat, busy: seq<nat>)
    requires k.Valid() && 0.0 <= ema <= full as real + 1.0
    ensures 0.0 <= Recovering(k, ema, full, busy) <= full as real + 1.0
  {
    if busy != [] {
      var n := |busy| - 1;
      RecoveringInRange(k, ema, full, busy[..n]);
      var e := Recovering(k, ema, full, busy[..n]);
      VerifiedWithin(k, Some(e), busy[n], full);
      EmaStaysInRange(k, Some(e), Verified(k, Some(e), busy[n], full), Verified(k, Some(e), busy[n], full), full);
    }
  }

  /** Full width is certain after n fully accepted rounds, whichever of them the cap applied in. */
  ghost predicate RecoveredBy(k: Knobs, full: nat, n: nat)
    requires k.Valid()
  {
    forall ema: real, busy: seq<nat>, running: nat ::
      0.0 <= ema <= full as real + 1.0 && |busy| >= n ==> Verified(k, Some(Recovering(k, ema, full, busy)), running, full) == full
  }

  ghost predicate AlwaysRecovers(k: Knobs, full: nat)
    requires k.Valid()
  {
    exists n: nat :: RecoveredBy(k, full, n)
  }

  /** For any n there is a history of n rounds that does not end at full width. */
  lemma NeverRecovered(k: Knobs, full: nat, n: nat)
    requires k.Valid() && full > 0 && k.floor < full && !KeepsARow(k)
    ensures !RecoveredBy(k, full, n)
  {
    hide Recovering;
    var busy := seq(n, _ => k.minBatch);
    var ema := if k.margin == -1 then full as real else 0.0;
    if k.margin == 0 {
      StuckAtZero(k, full, busy);
    } else if k.margin == -1 {
      StuckBelowFull(k, full, busy);
      CeilIs(ema);
    } else {
      RecoveringInRange(k, ema, full, busy);
      CeilIs(Recovering(k, ema, full, busy));
    }
    assert Verified(k, Some(Recovering(k, ema, full, busy)), k.minBatch, full) != full;
  }

  /** Recovery is certain exactly when the floor is the full width already, or the knobs leave a row to
      verify at average zero and the margin is not negative. */
  lemma RecoversIff(k: Knobs, full: nat)
    requires k.Valid() && full > 0
    ensures AlwaysRecovers(k, full) <==> k.floor >= full || KeepsARow(k)
  {
    hide Enough, Recovering, Verified;
    if KeepsARow(k) {
      var n: nat := Max(0, Enough(k, full));
      forall ema: real, busy: seq<nat>, running: nat | 0.0 <= ema <= full as real + 1.0 && |busy| >= n
        ensures Verified(k, Some(Recovering(k, ema, full, busy)), running, full) == full
      {
        Recovers(k, ema, full, busy, running);
      }
      assert RecoveredBy(k, full, n);
    } else if k.floor >= full {
      forall ema: real, busy: seq<nat>, running: nat | 0.0 <= ema <= full as real + 1.0
        ensures Verified(k, Some(Recovering(k, ema, full, busy)), running, full) == full
      {
        VerifiedWithin(k, Some(Recovering(k, ema, full, busy)), running, full);
      }
      assert RecoveredBy(k, full, 0);
    } else {
      forall n: nat ensures !RecoveredBy(k, full, n) {
        NeverRecovered(k, full, n);
      }
    }
  }

  /** The shipped knobs: weight 0.35, two rows above the average, floor 2, caps from a batch of three on.  A
      request offered eight drafts is back at full width after at most eight fully accepted rounds. */
  lemma ShippedKnobsRecover(ema: real, busy: seq<nat>, running: nat)
    requires 0.0 <= ema <= 9.0 && |busy| >= 8
    ensures Knobs(0.35, 2, 2, 3).Valid()
    ensures Verified(Knobs(0.35, 2, 2, 3), Some(Recovering(Knobs(0.35, 2, 2, 3), ema, 8, busy)), running, 8) == 8
  {
    var k := Knobs(0.35, 2, 2, 3);
    StepPositive(k);
    assert Step(k) == 1.05;
    assert 7.0 < 8.0 / 1.05 <= 8.0;
    CeilIs(8.0 / 1.05);
    Recovers(k, ema, 8, busy, running);
  }

  // ----- the scheduler ------------------------------------------------------------------------------

  /** A Python list: an object that several holders can share. */
  class TokenList {
    var items: seq<int>

    constructor (items: seq<int>)
      ensures this.items == items
    {
      this.items := items;
    }
  }

  class Request {
    var drafts: TokenList
    var ema: Option<real>

    constructor (drafts: TokenList)
      ensures this.drafts == drafts && ema == None
    {
      this.drafts, ema := drafts, None;
    }
  }

  class Scheduler {
    const enabled: bool
    const knobs: Knobs
    /** The full-width placeholder list, one object for all requests. */
    const placeholders: TokenList
    var running: nat

    constructor (enabled: bool, knobs: Knobs, full: nat)
      requires knobs.Valid()
      ensures this.enabled == enabled && this.knobs == knobs && fresh(placeholders) && placeholders.items == seq(full, _ => -1) && running == 0
    {
      this.enabled, this.knobs := enabled, knobs;
      placeholders := new TokenList(seq(full, _ => -1));
      running := 0;
    }

    /** After a verification: update the request's average. */
    method Observe(request: Request, accepted: nat, drafts: nat)
      modifies request`ema
      ensures request.ema == if enabled then NextEma(knobs, old(request.ema), accepted, drafts) else old(request.ema)
    {
      if !enabled || drafts <= 0 {
        return;
      }
      var obs := accepted as real + if accepted >= drafts then 1.0 else 0.0;
      request.ema := Some(if request.ema.None? then obs else Times(knobs.alpha, obs) + Times(1.0 - knobs.alpha, request.ema.value));
    }

    /** Trim the request's drafts in place to what will be verified: a prefix is kept. */
    method CapSpecWidth(request: Request)
      requires knobs.Valid()
      modifies request.drafts
      ensures var had := old(request.drafts.items);
              var w := if enabled then Verified(knobs, request.ema, running, |had|) else |had|;
              0 <= w <= |had| && request.drafts.items == had[..w]
    {
      var list := request.drafts;
      if !enabled || list.items == [] {
        return;
      }
      if running < knobs.minBatch {
        return;
      }
      if request.ema.None? {
        return;
      }
      var w := Ceil(request.ema.value) + knobs.margin;
      if w < knobs.floor {
        w := knobs.floor;
      }
      CeilIs(request.ema.value);
      VerifiedWithin(knobs, request.ema, running, |list.items|);
      if w < |list.items| {
        list.items := list.items[..CutAt(|list.items|, w)];
      }
    }

    /** Under synchronous scheduling a request is given its own draft list, then capped. */
    method UpdateDraftTokenIds(request: Request, drafts: TokenList)
      requires knobs.Valid() && drafts != placeholders
      modifies request`drafts, drafts
      ensures request.drafts == drafts && request.ema == old(request.ema)
      ensures var w := if enabled then Verified(knobs, request.ema, running, |old(drafts.items)|) else |old(drafts.items)|;
              0 <= w <= |old(drafts.items)| && drafts.items == old(drafts.items)[..w]
    {
      request.drafts := drafts;
      CapSpecWidth(request);
    }

    /** What a request is left with by asynchronous scheduling. */
    ghost predicate Scheduled(request: Request)
      reads this, request, request.drafts, placeholders
    {
      var full := placeholders.items;
      var w := if enabled then Verified(knobs, request.ema, running, |full|) else |full|;
      0 <= w <= |full| && request.drafts.items == full[..w]
    }

    /** Under asynchronous scheduling every request starts from the one shared placeholder list; each takes
        its own copy before it is trimmed.  However many requests are capped, the shared list is never
        changed, and each request is left with its own prefix of it. */
    method UpdateAfterSchedule(requests: seq<Request>)
      requires knobs.Valid() && Distinct(requests)
      modifies requests
      ensures unchanged(placeholders)
      ensures forall i :: 0 <= i < |requests| ==> Scheduled(requests[i]) && requests[i].ema == old(requests[i].ema)
      ensures forall i :: 0 <= i < |requests| ==>
                requests[i].drafts.items <= placeholders.items
                && |requests[i].drafts.items| == if enabled then Verified(knobs, requests[i].ema, running, |placeholders.items|) else |placeholders.items|
    {
      for i := 0 to |requests|
        invariant unchanged(placeholders)
        invariant forall j :: 0 <= j < |requests| ==> requests[j].ema == old(requests[j].ema)
        invariant forall j :: 0 <= j < i ==> Scheduled(requests[j])
        invariant forall j :: 0 <= j < i ==> requests[j].drafts == placeholders || fresh(requests[j].drafts)
      {
        var r := requests[i];
        r.drafts := placeholders;
        if r.drafts.items != [] {
          r.drafts := new TokenList(placeholders.items);
          CapSpecWidth(r);
        }
      }
    }
  }
}
