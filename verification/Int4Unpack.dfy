/** The bit-level unpacker of the AutoRound kernels: eight 4-bit codes of one 32-bit word become
    eight e4m3 bytes of (code - 8), with byte permutes and two 8-entry tables. */
module Int4Unpack {

  const NEG_LO: bv32 := 0xCACCCED0
  const NEG_HI: bv32 := 0xB8C0C4C8
  const POS_LO: bv32 := 0x44403800
  const POS_HI: bv32 := 0x4E4C4A48

  function Byte(x: bv32, i: nat): bv32
    requires i < 4
  {
    if i == 0 then x & 0xFF
    else if i == 1 then (x >> 8) & 0xFF
    else if i == 2 then (x >> 16) & 0xFF
    else (x >> 24) & 0xFF
  }

  /** Code j of a word, low nibble first. */
  function Nibble(x: bv32, j: nat): bv32
    requires j < 8
  {
    if j == 0 then x & 0xF
    else if j == 1 then (x >> 4) & 0xF
    else if j == 2 then (x >> 8) & 0xF
    else if j == 3 then (x >> 12) & 0xF
    else if j == 4 then (x >> 16) & 0xF
    else if j == 5 then (x >> 20) & 0xF
    else if j == 6 then (x >> 24) & 0xF
    else (x >> 28) & 0xF
  }

  /** One selector byte of the byte permute.  Selectors above 7 have no reliable meaning on the
      device, so the permute may only be asked for 0..7. */
  function Pick(hi: bv32, lo: bv32, s: bv32): bv32
    requires s < 8
  {
    if s == 0 then Byte(lo, 0) else if s == 1 then Byte(lo, 1)
    else if s == 2 then Byte(lo, 2) else if s == 3 then Byte(lo, 3)
    else if s == 4 then Byte(hi, 0) else if s == 5 then Byte(hi, 1)
    else if s == 6 then Byte(hi, 2) else Byte(hi, 3)
  }

  predicate Selectors(sel: bv32) {
    Byte(sel, 0) < 8 && Byte(sel, 1) < 8 && Byte(sel, 2) < 8 && Byte(sel, 3) < 8
  }

  function Perm(hi: bv32, lo: bv32, sel: bv32): bv32
    requires Selectors(sel)
  {
    Join(Pick(hi, lo, Byte(sel, 0)), Pick(hi, lo, Byte(sel, 1)), Pick(hi, lo, Byte(sel, 2)), Pick(hi, lo, Byte(sel, 3)))
  }

  function Join(b0: bv32, b1: bv32, b2: bv32, b3: bv32): bv32 {
    b0 | (b1 << 8) | (b2 << 16) | (b3 << 24)
  }

  lemma MaskSelectors(c4: bv32)
    ensures Selectors(c4 & 0x07070707)
    ensures Selectors((c4 & 0x08080808) >> 3)
  {
  }

  /** Four codes, one per byte, to four e4m3 bytes. */
  function Lut4(c4: bv32): bv32 {
    MaskSelectors(c4);
    var sel := c4 & 0x07070707;
    var mask := Perm(0, 0x0000FF00, (c4 & 0x08080808) >> 3);
    var neg := Perm(NEG_HI, NEG_LO, sel);
    var pos := Perm(POS_HI, POS_LO, sel);
    Blend(pos, neg, mask)
  }

  function Blend(pos: bv32, neg: bv32, mask: bv32): bv32 {
    (pos & mask) | (neg & !mask)
  }

  /** Eight codes to the two words holding their bytes in k order. */
  function Unpack8(wv: bv32): (bv32, bv32) {
    Interleave(Lut4(wv & 0x0F0F0F0F), Lut4((wv >> 4) & 0x0F0F0F0F))
  }

  function Interleave(be: bv32, bo: bv32): (bv32, bv32) {
    assert Selectors(0x05010400) && Selectors(0x07030602);
    (Perm(bo, be, 0x05010400), Perm(bo, be, 0x07030602))
  }

  function PairByte(w: (bv32, bv32), j: nat): bv32
    requires j < 8
  {
    if j < 4 then Byte(w.0, j) else Byte(w.1, j - 4)
  }

  /** Byte j of the eight unpacked bytes. */
  function UnpackedByte(wv: bv32, j: nat): bv32
    requires j < 8
  {
    PairByte(Unpack8(wv), j)
  }

  /** The e4m3 encoding of c - 8 (sign, four exponent bits with bias 7, three mantissa bits). */
  function Table(c: bv32): bv32 {
    if c == 0 then 0xD0 else if c == 1 then 0xCE else if c == 2 then 0xCC else if c == 3 then 0xCA
    else if c == 4 then 0xC8 else if c == 5 then 0xC4 else if c == 6 then 0xC0 else if c == 7 then 0xB8
    else if c == 8 then 0x00 else if c == 9 then 0x38 else if c == 10 then 0x40 else if c == 11 then 0x44
    else if c == 12 then 0x48 else if c == 13 then 0x4A else if c == 14 then 0x4C else 0x4E
  }

  lemma PickByte(hi: bv32, lo: bv32, s: bv32)
    requires s < 8
    ensures Pick(hi, lo, s) <= 0xFF
  {
  }

  lemma JoinByte(b0: bv32, b1: bv32, b2: bv32, b3: bv32)
    requires b0 <= 0xFF && b1 <= 0xFF && b2 <= 0xFF && b3 <= 0xFF
    ensures var w := Join(b0, b1, b2, b3); Byte(w, 0) == b0 && Byte(w, 1) == b1 && Byte(w, 2) == b2 && Byte(w, 3) == b3
  {
  }

  lemma PermByte(hi: bv32, lo: bv32, sel: bv32, i: nat)
    requires i < 4 && Selectors(sel)
    ensures Byte(Perm(hi, lo, sel), i) == Pick(hi, lo, Byte(sel, i))
  {
    PicksJoin(hi, lo, Byte(sel, 0), Byte(sel, 1), Byte(sel, 2), Byte(sel, 3));
  }

  lemma PicksJoin(hi: bv32, lo: bv32, s0: bv32, s1: bv32, s2: bv32, s3: bv32)
    requires s0 < 8 && s1 < 8 && s2 < 8 && s3 < 8
    ensures var w := Join(Pick(hi, lo, s0), Pick(hi, lo, s1), Pick(hi, lo, s2), Pick(hi, lo, s3));
            && Byte(w, 0) == Pick(hi, lo, s0) && Byte(w, 1) == Pick(hi, lo, s1)
            && Byte(w, 2) == Pick(hi, lo, s2) && Byte(w, 3) == Pick(hi, lo, s3)
  {
    PickByte(hi, lo, s0);
    PickByte(hi, lo, s1);
    PickByte(hi, lo, s2);
    PickByte(hi, lo, s3);
    JoinByte(Pick(hi, lo, s0), Pick(hi, lo, s1), Pick(hi, lo, s2), Pick(hi, lo, s3));
  }

  lemma BlendSelected(pos: bv32, neg: bv32, mask: bv32, i: nat)
    requires i < 4 && Byte(mask, i) == 0xFF
    ensures Byte(Blend(pos, neg, mask), i) == Byte(pos, i)
  {
  }

  lemma BlendUnselected(pos: bv32, neg: bv32, mask: bv32, i: nat)
    requires i < 4 && Byte(mask, i) == 0
    ensures Byte(Blend(pos, neg, mask), i) == Byte(neg, i)
  {
  }

  lemma BlendByte(pos: bv32, neg: bv32, mask: bv32, i: nat)
    requires i < 4
    ensures Byte(mask, i) == 0xFF ==> Byte(Blend(pos, neg, mask), i) == Byte(pos, i)
    ensures Byte(mask, i) == 0 ==> Byte(Blend(pos, neg, mask), i) == Byte(neg, i)
  {
    hide Byte, Blend;
    if Byte(mask, i) == 0xFF {
      BlendSelected(pos, neg, mask, i);
    } else if Byte(mask, i) == 0 {
      BlendUnselected(pos, neg, mask, i);
    }
  }

  lemma MaskByte(x: bv32, i: nat)
    requires i < 4
    ensures Byte(x & 0x07070707, i) == Byte(x, i) & 7
    ensures Byte((x & 0x08080808) >> 3, i) == (Byte(x, i) & 8) >> 3
  {
  }

  lemma TablePickNegative(c: bv32)
    requires c < 8
    ensures (c & 7) < 8 && ((c & 8) >> 3) < 8
    ensures Pick(0, 0x0000FF00, (c & 8) >> 3) == 0 && Pick(NEG_HI, NEG_LO, c & 7) == Table(c)
  {
  }

  lemma TablePickPositive(c: bv32)
    requires 8 <= c < 16
    ensures (c & 7) < 8 && ((c & 8) >> 3) < 8
    ensures Pick(0, 0x0000FF00, (c & 8) >> 3) == 0xFF && Pick(POS_HI, POS_LO, c & 7) == Table(c)
  {
  }

  lemma BlendTable(pos: bv32, neg: bv32, mask: bv32, c: bv32, i: nat)
    requires i < 4 && c < 16 && (c & 7) < 8 && ((c & 8) >> 3) < 8
    requires Byte(mask, i) == Pick(0, 0x0000FF00, (c & 8) >> 3)
    requires Byte(neg, i) == Pick(NEG_HI, NEG_LO, c & 7) && Byte(pos, i) == Pick(POS_HI, POS_LO, c & 7)
    ensures Byte(Blend(pos, neg, mask), i) == Table(c)
  {
    if c < 8 { TablePickNegative(c); } else { TablePickPositive(c); }
    BlendByte(pos, neg, mask, i);
  }

  lemma PermAt(hi: bv32, lo: bv32, sel: bv32, i: nat, s: bv32)
    requires Selectors(sel) && i < 4 && s < 8 && Byte(sel, i) == s
    ensures Byte(Perm(hi, lo, sel), i) == Pick(hi, lo, s)
  {
    PermByte(hi, lo, sel, i);
  }

  lemma Lut4Byte(c4: bv32, i: nat, c: bv32)
    requires i < 4 && Byte(c4, i) == c && c < 16
    ensures Byte(Lut4(c4), i) == Table(c)
  {
    MaskSelectors(c4);
    MaskByte(c4, i);
    LowBits(c);
    PermAt(0, 0x0000FF00, (c4 & 0x08080808) >> 3, i, (c & 8) >> 3);
    PermAt(NEG_HI, NEG_LO, c4 & 0x07070707, i, c & 7);
    PermAt(POS_HI, POS_LO, c4 & 0x07070707, i, c & 7);
    BlendTable(Perm(POS_HI, POS_LO, c4 & 0x07070707), Perm(NEG_HI, NEG_LO, c4 & 0x07070707),
               Perm(0, 0x0000FF00, (c4 & 0x08080808) >> 3), c, i);
  }

  lemma LowBits(c: bv32)
    ensures (c & 7) < 8 && ((c & 8) >> 3) < 8
  {
  }

  lemma EvenOddNibbles(wv: bv32, i: nat)
    requires i < 4
    ensures Byte(wv & 0x0F0F0F0F, i) == Nibble(wv, 2 * i) < 16
    ensures Byte((wv >> 4) & 0x0F0F0F0F, i) == Nibble(wv, 2 * i + 1) < 16
  {
  }

  lemma InterleaveByte(be: bv32, bo: bv32, i: nat)
    requires i < 4
    ensures PairByte(Interleave(be, bo), 2 * i) == Byte(be, i)
    ensures PairByte(Interleave(be, bo), 2 * i + 1) == Byte(bo, i)
  {
    assert Selectors(0x05010400) && Selectors(0x07030602);
    if i < 2 {
      PermByte(bo, be, 0x05010400, 2 * i);
      PermByte(bo, be, 0x05010400, 2 * i + 1);
    } else {
      PermByte(bo, be, 0x07030602, 2 * i - 4);
      PermByte(bo, be, 0x07030602, 2 * i - 3);
    }
  }

  lemma Lut4Nibbles(wv: bv32, i: nat)
    requires i < 4
    ensures Byte(Lut4(wv & 0x0F0F0F0F), i) == Table(Nibble(wv, 2 * i))
    ensures Byte(Lut4((wv >> 4) & 0x0F0F0F0F), i) == Table(Nibble(wv, 2 * i + 1))
  {
    EvenOddNibbles(wv, i);
    Lut4Byte(wv & 0x0F0F0F0F, i, Nibble(wv, 2 * i));
    Lut4Byte((wv >> 4) & 0x0F0F0F0F, i, Nibble(wv, 2 * i + 1));
  }

  /** For every 32-bit word and every j, unpacked byte j is the table entry of nibble j. */
  lemma UnpackCorrect(wv: bv32, j: nat)
    requires j < 8
    ensures UnpackedByte(wv, j) == Table(Nibble(wv, j))
  {
    var i := j / 2;
    assert j == 2 * i || j == 2 * i + 1;
    InterleaveByte(Lut4(wv & 0x0F0F0F0F), Lut4((wv >> 4) & 0x0F0F0F0F), i);
    Lut4Nibbles(wv, i);
  }

  function Bit(x: bv32): nat {
    if x == 0 then 0 else 1
  }

  /** The low four bits of x as a number. */
  function Low4(x: bv32): nat {
    8 * Bit(x & 8) + 4 * Bit(x & 4) + 2 * Bit(x & 2) + Bit(x & 1)
  }

  function Pow2(n: nat): nat {
    if n == 0 then 1 else 2 * Pow2(n - 1)
  }

  /** The value of an e4m3 byte in units of 2^-9: sign, four exponent bits with bias 7, three mantissa
      bits, subnormal when the exponent is 0.  The NaN encodings 0x7F and 0xFF are not used here. */
  function E4M3Units(b: bv32): int {
    var e, m := Low4(b >> 3), Low4(b & 7);
    var units := if e == 0 then m else (8 + m) * Pow2(e - 1);
    if b & 0x80 == 0 then units else -units
  }

  function E4M3(b: bv32): real {
    E4M3Units(b) as real / 512.0
  }

  /** The eight codes of a word, and the eight bytes the kernels make of them. */
  function Codes(wv: bv32): seq<nat> {
    seq(8, j requires 0 <= j < 8 => Low4(Nibble(wv, j)))
  }

  function UnpackedBytes(wv: bv32): seq<bv32> {
    seq(8, j requires 0 <= j < 8 => UnpackedByte(wv, j))
  }

  lemma TableUnitsNegative(c: bv32)
    requires c < 8
    ensures E4M3Units(Table(c)) == 512 * (Low4(c) - 8)
  {
    assert Pow2(6) == 64 && Pow2(7) == 128 && Pow2(8) == 256 && Pow2(9) == 512;
  }

  lemma TableUnitsPositive(c: bv32)
    requires 8 <= c < 16
    ensures E4M3Units(Table(c)) == 512 * (Low4(c) - 8)
  {
    assert Pow2(6) == 64 && Pow2(7) == 128 && Pow2(8) == 256;
  }

  lemma NibbleSmall(wv: bv32, j: nat)
    requires j < 8
    ensures Nibble(wv, j) < 16
  {
  }

  /** Unpacking loses nothing: every unpacked byte decodes to exactly its code minus 8. */
  lemma UnpackExact(wv: bv32, j: nat)
    requires j < 8
    ensures E4M3(UnpackedBytes(wv)[j]) == Codes(wv)[j] as real - 8.0
  {
    UnpackCorrect(wv, j);
    NibbleSmall(wv, j);
    if Nibble(wv, j) < 8 { TableUnitsNegative(Nibble(wv, j)); } else { TableUnitsPositive(Nibble(wv, j)); }
  }
}
