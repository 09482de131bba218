/** The n-gram matcher's key: a match length and a position packed into one number with the kernels'
    bitwise operators.  A key stays below 2^31, so its 32-bit word is never negative. */
module PackedKey {
  import opened Basics

  const SH := 20

  function Power(k: nat): (p: nat)
    ensures p > 0
  {
    if k == 0 then 1 else 2 * Power(k - 1)
  }

  /** a | b, bit by bit. */
  function Or(a: nat, b: nat): nat {
    if a == 0 && b == 0 then 0 else 2 * Or(a / 2, b / 2) + Max(a % 2, b % 2)
  }

  /** a & b, bit by bit. */
  function And(a: nat, b: nat): nat {
    if a == 0 || b == 0 then 0 else 2 * And(a / 2, b / 2) + Min(a % 2, b % 2)
  }

  /** len << SH | q. */
  function ShiftOr(len: nat, q: nat): nat { Or(len * Power(SH), q) }

  /** key & ((1 << SH) - 1). */
  function Masked(key: nat): nat { And(key, Power(SH) - 1) }

  lemma {:induction false} OrZero(a: nat)
    ensures Or(a, 0) == a
  {
    if a > 0 {
      OrZero(a / 2);
    }
  }

  lemma PowerStep(k: nat)
    ensures Power(0) == 1 && Power(k + 1) == 2 * Power(k)
  {
  }

  lemma OrStep(a: nat, b: nat)
    ensures Or(2 * a, b) == 2 * Or(a, b / 2) + b % 2
  {
    if a == 0 && b == 0 {
      assert Or(0, 0) == 0;
    }
  }

  lemma DoubleProduct(len: nat, p: nat)
    ensures len * (2 * p) == 2 * (len * p)
  {
  }

  lemma {:induction false} OrIsSum(len: nat, q: nat, k: nat)
    requires q < Power(k)
    ensures Or(len * Power(k), q) == len * Power(k) + q
    decreases k
  {
    hide Or, Power;
    PowerStep(if k == 0 then 0 else k - 1);
    if k == 0 {
      OrZero(len);
    } else {
      DoubleProduct(len, Power(k - 1));
      OrIsSum(len, q / 2, k - 1);
      OrStep(len * Power(k - 1), q);
    }
  }

  lemma AndStep(x: nat, p: nat)
    requires p > 0
    ensures And(x, 2 * p - 1) == 2 * And(x / 2, p - 1) + x % 2
  {
    assert (2 * p - 1) / 2 == p - 1 && (2 * p - 1) % 2 == 1;
  }

  lemma AndNothing(x: nat)
    ensures And(x, 0) == 0
  {
  }

  lemma AndDouble(x: nat, p: nat)
    requires p > 0 && And(x / 2, p - 1) == x / 2 % p
    ensures And(x, 2 * p - 1) == x % (2 * p)
  {
    hide And;
    AndStep(x, p);
    HalfRemainder(x, p);
  }

  lemma {:induction false} AndIsRemainder(x: nat, k: nat)
    ensures And(x, Power(k) - 1) == x % Power(k)
    decreases k
  {
    hide And, Power;
    PowerStep(if k == 0 then 0 else k - 1);
    if k == 0 {
      AndNothing(x);
    } else {
      AndIsRemainder(x / 2, k - 1);
      AndDouble(x, Power(k - 1));
    }
  }

  lemma HalfRemainder(x: nat, p: nat)
    requires p > 0
    ensures x % (2 * p) == 2 * (x / 2 % p) + x % 2
  {
    var h, r := x / 2 / p, x / 2 % p;
    assert x / 2 == h * p + r;
    assert x == h * (2 * p) + (2 * r + x % 2) by {
      assert h * (2 * p) == 2 * (h * p);
    }
    QuotientUnique(h, 2 * r + x % 2, 2 * p);
  }

  lemma MaskedIs(key: nat)
    ensures Masked(key) == key % Power(SH)
  {
    hide Power;
    AndIsRemainder(key, SH);
  }

  /** A position below 2^20 packs into a sum with the length above it, and is masked out again. */
  lemma PackUnpack(len: nat, q: nat)
    requires q < Power(SH)
    ensures ShiftOr(len, q) == len * Power(SH) + q
    ensures Masked(ShiftOr(len, q)) == q
  {
    hide Power;
    OrIsSum(len, q, SH);
    AndIsRemainder(ShiftOr(len, q), SH);
    QuotientUnique(len, q, Power(SH));
  }

  /** No other position is. */
  lemma UnpacksIff(len: nat, q: nat)
    ensures Masked(ShiftOr(len, q)) == q <==> q < Power(SH)
  {
    hide Power;
    AndIsRemainder(ShiftOr(len, q), SH);
    if q < Power(SH) {
      PackUnpack(len, q);
    }
  }
}
