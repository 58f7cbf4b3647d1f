/** Decimal widths of the numbers that appear in JSON metadata. */
module Decimal {
  function Digits(n: nat): (r: nat)
    ensures r >= 1
  {
    if n < 10 then 1 else 1 + Digits(n / 10)
  }

  /** Dividing by a power of ten drops that many digits. */
  lemma {:induction false} DigitsBound(n: nat, limit: nat, k: nat)
    requires k > 0 && TenTo(limit, k) && n < limit
    ensures Digits(n) <= k
  {
    if n >= 10 {
      DigitsBound(n / 10, limit / 10, k - 1);
    }
  }

  predicate TenTo(limit: nat, k: nat) {
    if k == 0 then limit == 1 else limit % 10 == 0 && TenTo(limit / 10, k - 1)
  }

  lemma TenToProduct(a: nat, j: nat, b: nat, k: nat)
    requires TenTo(a, j) && TenTo(b, k)
    ensures TenTo(a * b, j + k)
  {
    if j > 0 {
      TenToProduct(a / 10, j - 1, b, k);
      var c := a / 10;
      assert a * b == 10 * (c * b) by { assert a == 10 * c; Reassociate(c, b); }
    }
  }

  lemma Reassociate(c: nat, b: nat)
    ensures (10 * c) * b == 10 * (c * b)
  {
  }

  /** A u64 takes at most twenty digits. */
  lemma WordDigits(n: nat)
    requires n <= 0xFFFF_FFFF_FFFF_FFFF
    ensures Digits(n) <= 20
  {
    var five: nat, ten: nat, twenty: nat := 100_000, 10_000_000_000, 100_000_000_000_000_000_000;
    assert TenTo(five, 5);
    TenToProduct(five, 5, five, 5);
    TenToProduct(ten, 10, ten, 10);
    DigitsBound(n, twenty, 20);
  }

  lemma {:induction false} DigitsMonotone(a: nat, b: nat)
    requires a <= b
    ensures Digits(a) <= Digits(b)
  {
    if a >= 10 {
      DigitsMonotone(a / 10, b / 10);
    }
  }
}
