/** Facts about products, quotients and remainders of natural numbers. */
module Numbers {
  lemma {:induction false} NatProduct(a: nat, b: nat)
    ensures a * b >= 0
  {
  }

  lemma {:induction false} AtLeastOnce(a: nat, k: nat)
    requires k >= 1
    ensures a * k >= a
  {
    assert a * k == a + a * (k - 1);
    NatProduct(a, k - 1);
  }

  lemma {:induction false} Gap(a: nat, p: nat, q: nat, s: nat, r: nat)
    requires a > 0 && a * p + s == a * q + r && s < a && r < a
    ensures p >= q
  {
    if p < q {
      assert a * q == a * p + a * (q - p);
      AtLeastOnce(a, q - p);
      assert false;
    }
  }

  /** Quotient and remainder are unique. */
  lemma {:induction false} RemainderUnique(v: nat, a: nat, q: nat, r: nat)
    requires a > 0 && v == a * q + r && r < a
    ensures v % a == r && v / a == q
  {
    var p, s := v / a, v % a;
    assert v == a * p + s;
    Gap(a, p, q, s, r);
    Gap(a, q, p, r, s);
  }

  lemma {:induction false} MultipleOf(q: nat, a: nat)
    requires a > 0
    ensures q * a % a == 0 && q * a / a == q
  {
    RemainderUnique(q * a, a, q, 0);
  }
}
