/** The on-device n-gram matcher: every position is scanned by its own lane, the lanes' findings meet
    in one packed key per request through atomic maxima, and a second pass copies the continuation. */
module Matcher {
  import opened Basics
  import opened PackedKey

  const MAXL := 24
  const MIN := 3
  const BLOCK := 512
  /** Positions must fit below the match length in the packed key. */
  const SPAN := 0x10_0000

  /** The last len tokens of h also occur ending at position q. */
  predicate Matches(h: seq<int>, q: nat, len: nat)
    requires q < |h| && len <= |h|
  {
    len <= q + 1 && h[q + 1 - len..q + 1] == h[|h| - len..]
  }

  /** q, len is a match the matcher may use. */
  predicate Usable(h: seq<int>, q: nat, len: nat) {
    q + 1 < |h| && 3 <= len <= 24 && len <= |h| && Matches(h, q, len)
  }

  /** The reference: the longest usable match, the latest one among equals. */
  ghost predicate Best(h: seq<int>, q: nat, len: nat) {
    && Usable(h, q, len)
    && forall q': nat, l': nat :: Usable(h, q', l') ==> l' < len || (l' == len && q' <= q)
  }

  lemma BestUnique(h: seq<int>, q: nat, len: nat, q': nat, len': nat)
    requires Best(h, q, len) && Best(h, q', len')
    ensures q == q' && len == len'
  {
    assert Usable(h, q, len) && Usable(h, q', len');
  }

  lemma MatchStep(h: seq<int>, q: nat, len: nat)
    requires q < |h| && len < |h|
    ensures Matches(h, q, len + 1) <==> Matches(h, q, len) && len <= q && h[q - len] == h[|h| - 1 - len]
  {
    if len <= q {
      assert h[q - len..q + 1] == [h[q - len]] + h[q + 1 - len..q + 1];
      assert h[|h| - 1 - len..] == [h[|h| - 1 - len]] + h[|h| - len..];
    }
  }

  /** Match lengths at one position are downward closed. */
  lemma {:induction false} MatchShorter(h: seq<int>, q: nat, len: nat, shorter: nat)
    requires q < |h| && shorter <= len <= |h|
    ensures Matches(h, q, len) ==> Matches(h, q, shorter)
    decreases len
  {
    if shorter < len {
      MatchStep(h, q, len - 1);
      MatchShorter(h, q, len - 1, shorter);
    }
  }

  /** The longest match at q, of at most MAXL tokens; 0 where the lane is past the last usable position. */
  ghost predicate LongestAt(h: seq<int>, q: nat, len: nat) {
    && len <= MAXL && len <= |h|
    && (q + 1 >= |h| ==> len == 0)
    && (q + 1 < |h| ==> Matches(h, q, len) && forall l: nat :: len < l <= MAXL && l <= |h| ==> !Matches(h, q, l))
  }

  lemma LongestIs(h: seq<int>, q: nat, len: nat)
    requires q + 1 < |h| && len <= MAXL && len <= |h| && Matches(h, q, len)
    requires len == MAXL || len == |h| || !Matches(h, q, len + 1)
    ensures LongestAt(h, q, len)
  {
    forall l: nat | len < l <= MAXL && l <= |h| ensures !Matches(h, q, l) {
      MatchShorter(h, q, l, len + 1);
    }
  }

  /** A lane at position q still alive after k tokens has matched k of them; a dead one stopped where
      the match did. */
  ghost predicate LaneState(h: seq<int>, q: nat, k: nat, alive: bool, len: nat) {
    && len <= k && len <= |h|
    && (alive ==> q + 1 < |h| && len == k)
    && (q + 1 >= |h| ==> len == 0)
    && (q + 1 < |h| ==> Matches(h, q, len))
    && (q + 1 < |h| && !alive ==> len == |h| || !Matches(h, q, len + 1))
  }

  lemma LaneDone(h: seq<int>, q: nat, alive: bool, len: nat)
    requires LaneState(h, q, MAXL, alive, len)
    ensures LongestAt(h, q, len)
  {
    if q + 1 < |h| {
      LongestIs(h, q, len);
    }
  }

  lemma LaneStep(row: seq<int>, n: nat, q: nat, k: nat, alive: bool, len: nat, alive': bool)
    requires n <= |row| && LaneState(row[..n], q, k, alive, len)
    requires alive' <==> alive && k <= q && k < n && row[q - k] == row[n - 1 - k]
    ensures LaneState(row[..n], q, k + 1, alive', if alive' then len + 1 else len)
  {
    if alive && k < n {
      MatchStep(row[..n], q, k);
    }
  }

  /** One lane.  row is the mirror row, whose first n tokens are the request's. */
  method Lane(row: seq<int>, n: nat, q: nat) returns (len: nat)
    requires n <= |row|
    ensures LongestAt(row[..n], q, len)
  {
    ghost var h := row[..n];
    var alive := q + 1 < n;
    len := 0;
    for k := 0 to MAXL
      invariant alive ==> q + 1 < n
      invariant LaneState(h, q, k, alive, len)
    {
      var sk, qi := n - 1 - k, q - k;
      var alive' := alive && qi >= 0 && sk >= 0 && row[qi] == row[sk];
      LaneStep(row, n, q, k, alive, len, alive');
      alive, len := alive', if alive' then len + 1 else len;
    }
    LaneDone(h, q, alive, len);
  }

  /** Match length and position in one number, so that a maximum picks the longest and then the latest. */
  function Pack(len: nat, q: nat): nat {
    len * SPAN + q
  }

  lemma SpanIsPower()
    ensures Power(SH) == SPAN
  {
    assert Power(4) == 16 && Power(8) == 256 && Power(12) == 4096 && Power(16) == 65536;
  }

  /** The kernels pack with a shift and an or, and unpack with a mask; a key of theirs fits 31 bits. */
  lemma KeyBits(len: nat, q: nat)
    requires len <= MAXL && q < SPAN
    ensures ShiftOr(len, q) == Pack(len, q) < 0x8000_0000
    ensures Masked(Pack(len, q)) == q
  {
    hide ShiftOr, Masked;
    SpanIsPower();
    PackUnpack(len, q);
  }

  lemma PackOrder(len: nat, q: nat, len': nat, q': nat)
    requires q < SPAN && q' < SPAN
    ensures Pack(len, q) <= Pack(len', q') <==> len < len' || (len == len' && q <= q')
    ensures Pack(len, q) / SPAN == len && Pack(len, q) % SPAN == q
  {
  }

  /** What a lane contributes to the key. */
  ghost predicate Offer(h: seq<int>, q: nat, key: nat) {
    exists len: nat :: LongestAt(h, q, len) && key == if len >= MIN then Pack(len, q) else 0
  }

  /** key is the largest contribution of the positions in qs. */
  ghost predicate KeyOf(h: seq<int>, key: nat, qs: set<nat>) {
    && (forall q, v: nat :: q in qs && Offer(h, q, v) ==> v <= key)
    && (key > 0 ==> exists q :: q in qs && Offer(h, q, key))
  }

  lemma LongestUnique(h: seq<int>, q: nat, a: nat, b: nat)
    requires LongestAt(h, q, a) && LongestAt(h, q, b)
    ensures a == b
  {
  }

  lemma OfferUnique(h: seq<int>, q: nat, a: nat, b: nat)
    requires Offer(h, q, a) && Offer(h, q, b)
    ensures a == b
  {
    var l: nat :| LongestAt(h, q, l) && a == if l >= MIN then Pack(l, q) else 0;
    var l': nat :| LongestAt(h, q, l') && b == if l' >= MIN then Pack(l', q) else 0;
    LongestUnique(h, q, l, l');
  }

  lemma KeyUnion(h: seq<int>, a: nat, b: nat, s: set<nat>, t: set<nat>)
    requires KeyOf(h, a, s) && KeyOf(h, b, t)
    ensures KeyOf(h, Max(a, b), s + t)
  {
    if Max(a, b) > 0 {
      var q :| q in s + t && Offer(h, q, Max(a, b));
    }
  }

  lemma KeySingle(h: seq<int>, q: nat, v: nat)
    requires Offer(h, q, v)
    ensures KeyOf(h, v, {q})
  {
    forall q', v': nat | q' in {q} && Offer(h, q', v') ensures v' <= v {
      OfferUnique(h, q, v, v');
    }
    assert q in {q} && Offer(h, q, v);
  }

  ghost function BlockLanes(b: nat, lanes: nat): (s: set<nat>)
    ensures forall q: nat :: q in s <==> b * BLOCK <= q < b * BLOCK + lanes
  {
    if lanes == 0 then {} else BlockLanes(b, lanes - 1) + {b * BLOCK + lanes - 1}
  }

  /** One thread block: the maximum over its lanes. */
  method ScanBlock(row: seq<int>, n: nat, b: nat) returns (key: nat)
    requires n <= |row| && n <= SPAN + 1
    ensures KeyOf(row[..n], key, BlockLanes(b, BLOCK))
  {
    hide ShiftOr;
    key := 0;
    for t := 0 to BLOCK
      invariant KeyOf(row[..n], key, BlockLanes(b, t))
    {
      var q := b * BLOCK + t;
      var len := Lane(row, n, q);
      if len >= MIN {
        KeyBits(len, q);
      }
      var offer := if len >= MIN then ShiftOr(len, q) else 0;
      assert Offer(row[..n], q, offer);
      KeySingle(row[..n], q, offer);
      KeyUnion(row[..n], key, offer, BlockLanes(b, t), {q});
      key := Max(key, offer);
    }
  }

  ghost function Scanned(order: seq<nat>): (s: set<nat>) {
    if order == [] then {} else Scanned(order[..|order| - 1]) + BlockLanes(order[|order| - 1], BLOCK)
  }

  lemma {:induction false} ScannedHas(order: seq<nat>, b: nat, q: nat)
    requires b in order && q in BlockLanes(b, BLOCK)
    ensures q in Scanned(order)
  {
    if order[|order| - 1] != b {
      ScannedHas(order[..|order| - 1], b, q);
    }
  }

  /** The blocks of one row update the key atomically, in whatever order they get there; every block
      does, possibly among others.  The key names the best match, or is 0 when there is none. */
  method Scan(row: seq<int>, n: nat, order: seq<nat>) returns (key: nat)
    requires n <= |row| && n <= SPAN + 1
    requires forall b: nat :: b < CeilDiv(n, BLOCK) ==> b in order
    ensures key == 0 ==> forall q: nat, len: nat :: !Usable(row[..n], q, len)
    ensures key != 0 ==> Best(row[..n], key % SPAN, key / SPAN)
    ensures key < 0x8000_0000
  {
    key := 0;
    for j := 0 to |order|
      invariant KeyOf(row[..n], key, Scanned(order[..j]))
    {
      var k := ScanBlock(row, n, order[j]);
      assert order[..j + 1][..j] == order[..j];
      KeyUnion(row[..n], key, k, Scanned(order[..j]), BlockLanes(order[j], BLOCK));
      key := Max(key, k);
    }
    assert order[..|order|] == order;
    KeyNamesBest(row[..n], key, order);
  }

  lemma PositionScanned(n: nat, order: seq<nat>, q: nat)
    requires q < n && forall b: nat :: b < CeilDiv(n, BLOCK) ==> b in order
    ensures q in Scanned(order)
  {
    var b := q / BLOCK;
    assert b < CeilDiv(n, BLOCK);
    ScannedHas(order, b, q);
  }

  lemma LongestExists(h: seq<int>, q: nat, l: nat) returns (len: nat)
    requires q + 1 < |h| && l <= MAXL && l <= |h| && Matches(h, q, l)
    ensures l <= len && LongestAt(h, q, len)
    decreases MAXL - l
  {
    if l < MAXL && l < |h| && Matches(h, q, l + 1) {
      len := LongestExists(h, q, l + 1);
    } else {
      len := l;
      LongestIs(h, q, len);
    }
  }

  lemma KeyNamesBest(h: seq<int>, key: nat, order: seq<nat>)
    requires |h| <= SPAN + 1 && forall b: nat :: b < CeilDiv(|h|, BLOCK) ==> b in order
    requires KeyOf(h, key, Scanned(order))
    ensures key == 0 ==> forall q: nat, len: nat :: !Usable(h, q, len)
    ensures key != 0 ==> Best(h, key % SPAN, key / SPAN)
  {
    forall q: nat, l: nat | Usable(h, q, l) ensures key >= Pack(l, q) {
      PositionScanned(|h|, order, q);
      var len := LongestExists(h, q, l);
      assert Offer(h, q, Pack(len, q));
      PackOrder(l, q, len, q);
    }
    forall q: nat, l: nat | Usable(h, q, l) ensures key != 0 {
      assert key >= Pack(l, q);
    }
    if key != 0 {
      var q :| q in Scanned(order) && Offer(h, q, key);
      var len: nat :| LongestAt(h, q, len) && key == if len >= MIN then Pack(len, q) else 0;
      PackOrder(len, q, len, q);
      assert Usable(h, q, len);
      forall q': nat, l': nat | Usable(h, q', l') ensures l' < len || (l' == len && q' <= q) {
        PackOrder(l', q', len, q);
      }
    }
  }

  /** What the drafter is told about one request: the tokens that followed the best match, as many as
      fit, and how many they are. */
  ghost predicate Continuation(h: seq<int>, nspec: nat, cont: seq<int>, clen: nat) {
    && |cont| == nspec && clen <= nspec
    && (forall t :: clen <= t < nspec ==> cont[t] == -1)
    && ((forall q: nat, len: nat :: !Usable(h, q, len)) ==> clen == 0)
    && (clen > 0 ==> exists q: nat, len: nat :: Best(h, q, len))
    && (forall q: nat, len: nat :: Best(h, q, len) ==>
          clen == Min(nspec, |h| - 1 - q) && cont[..clen] == h[q + 1..q + 1 + clen])
  }

  /** That says all of it. */
  lemma ContinuationUnique(h: seq<int>, nspec: nat, cont: seq<int>, clen: nat, cont': seq<int>, clen': nat)
    requires Continuation(h, nspec, cont, clen) && Continuation(h, nspec, cont', clen')
    ensures clen == clen' && cont == cont'
  {
    hide Usable;
    if clen > 0 || clen' > 0 {
      var q: nat, len: nat :| Best(h, q, len);
    }
    assert cont == cont[..clen] + cont[clen..] && cont' == cont'[..clen'] + cont'[clen'..];
    assert cont[clen..] == cont'[clen'..];
  }

  /** The second kernel: copy the tokens after the match. */
  method Gather(row: seq<int>, n: nat, key: nat, nspec: nat) returns (cont: seq<int>, clen: nat)
    requires n <= |row|
    ensures |cont| == nspec && clen == (if key == 0 then 0 else Min(nspec, Max(0, n - key % SPAN - 1)))
    ensures forall t :: clen <= t < nspec ==> cont[t] == -1
    ensures clen > 0 ==> cont[..clen] == row[key % SPAN + 1..key % SPAN + 1 + clen]
  {
    hide Masked, Power;
    MaskedIs(key);
    SpanIsPower();
    var start, has := Masked(key) + 1, key != 0;
    cont, clen := [], 0;
    for t := 0 to nspec
      invariant |cont| == t && clen == (if key == 0 then 0 else Min(t, Max(0, n - start)))
      invariant forall t' :: clen <= t' < t ==> cont[t'] == -1
      invariant key != 0 ==> forall t' :: 0 <= t' < clen ==> cont[t'] == row[start + t']
    {
      var valid := has && start + t < n;
      cont := cont + [if valid then row[start + t] else -1];
      clen := clen + (if valid then 1 else 0);
    }
  }

  /** One batch: every row's longest-suffix continuation, whatever the order of the atomic updates. */
  method MatchGpu(rows: seq<seq<int>>, ns: seq<nat>, nspec: nat, orders: seq<seq<nat>>)
    returns (cont: seq<seq<int>>, clen: seq<nat>)
    requires |rows| == |ns| == |orders|
    requires forall i :: 0 <= i < |rows| ==> ns[i] <= |rows[i]| && ns[i] <= SPAN + 1
    requires forall i, b: nat :: 0 <= i < |rows| && b < CeilDiv(ns[i], BLOCK) ==> b in orders[i]
    ensures |cont| == |clen| == |rows|
    ensures forall i :: 0 <= i < |rows| ==> Continuation(rows[i][..ns[i]], nspec, cont[i], clen[i])
  {
    cont, clen := [], [];
    for i := 0 to |rows|
      invariant |cont| == |clen| == i
      invariant forall i' :: 0 <= i' < i ==> Continuation(rows[i'][..ns[i']], nspec, cont[i'], clen[i'])
    {
      var key := Scan(rows[i], ns[i], orders[i]);
      var c, l := Gather(rows[i], ns[i], key, nspec);
      GatherMeans(rows[i], ns[i], key, nspec, c, l);
      cont, clen := cont + [c], clen + [l];
    }
  }

  lemma GatherMeans(row: seq<int>, n: nat, key: nat, nspec: nat, c: seq<int>, l: nat)
    requires n <= |row| && |c| == nspec && l == (if key == 0 then 0 else Min(nspec, Max(0, n - key % SPAN - 1)))
    requires forall t :: l <= t < nspec ==> c[t] == -1
    requires l > 0 ==> c[..l] == row[key % SPAN + 1..key % SPAN + 1 + l]
    requires key == 0 ==> forall q: nat, len: nat :: !Usable(row[..n], q, len)
    requires key != 0 ==> Best(row[..n], key % SPAN, key / SPAN)
    ensures Continuation(row[..n], nspec, c, l)
  {
    var h := row[..n];
    if key == 0 {
      assert forall q: nat, len: nat :: Best(h, q, len) ==> Usable(h, q, len);
    } else {
      var q0, l0 := key % SPAN, key / SPAN;
      assert Usable(h, q0, l0);
      forall q: nat, len: nat | Best(h, q, len)
        ensures l == Min(nspec, |h| - 1 - q) && c[..l] == h[q + 1..q + 1 + l]
      {
        BestUnique(h, q, len, q0, l0);
      }
    }
  }

  /** A match always has something to offer, and what it offers is what the history said last time the
      same tokens were seen. */
  lemma MatchOffersATail(h: seq<int>, nspec: nat, cont: seq<int>, clen: nat, q: nat, len: nat)
    requires Continuation(h, nspec, cont, clen) && Best(h, q, len) && nspec > 0
    ensures 1 <= clen <= nspec
    ensures h[q + 1 - len..q + 1 + clen] == h[|h| - len..] + cont[..clen]
  {
    assert Usable(h, q, len);
    assert h[q + 1 - len..q + 1 + clen] == h[q + 1 - len..q + 1] + h[q + 1..q + 1 + clen];
  }
}
