/** The few facts about products, quotients and remainders that the other modules need. */
module Arithmetic {

  lemma MulMonotone(a: int, b: int, d: nat)
    requires a <= b
    ensures a * d <= b * d
  {
    assert (b - a) * d >= 0;
    assert (b - a) * d == b * d - a * d;
  }

  lemma MulSucc(a: int, d: int)
    ensures (a + 1) * d == a * d + d
    ensures d * (a + 1) == d * a + d
  {
  }

  /** Quotient and remainder are the only way to write `x` as `q * d + r` with `r` below `d`. */
  lemma DivModUnique(x: int, d: nat, q: int, r: int)
    requires d > 0 && 0 <= r < d && x == q * d + r
    ensures x / d == q && x % d == r
  {
    var q' := x / d;
    var r' := x % d;
    assert x == q' * d + r';
    MulSucc(q', d);
    MulSucc(q, d);
    if q' < q {
      MulMonotone(q' + 1, q, d);
    } else if q < q' {
      MulMonotone(q + 1, q', d);
    }
  }

  /** `q * d` as `q` additions, for proofs that count one step at a time. */
  function Times(q: nat, d: nat): nat {
    if q == 0 then 0 else Times(q - 1, d) + d
  }

  lemma {:induction false} TimesIsProduct(q: nat, d: nat)
    ensures Times(q, d) == q * d
  {
    if q > 0 {
      TimesIsProduct(q - 1, d);
      MulSucc(q - 1, d);
    }
  }

  lemma {:induction false} TimesSum(a: nat, b: nat, d: nat)
    ensures Times(a + b, d) == Times(a, d) + Times(b, d)
  {
    if b > 0 {
      TimesSum(a, b - 1, d);
    }
  }

  lemma TimesIsMultiple(q: nat, d: nat)
    requires d > 0
    ensures Times(q, d) % d == 0
    ensures q > 0 ==> Times(q, d) >= d
  {
    TimesIsProduct(q, d);
    DivModUnique(Times(q, d), d, q, 0);
  }

  /** `len` is a whole number of `step`s, counted off one at a time. */
  predicate Whole(len: nat, step: nat) {
    step > 0 && (len == 0 || (len >= step && Whole(len - step, step)))
  }

  lemma {:induction false} WholeCount(len: nat, step: nat)
    requires Whole(len, step)
    ensures len == (len / step) * step && len % step == 0
  {
    if len == 0 {
      DivModUnique(0, step, 0, 0);
    } else {
      WholeCount(len - step, step);
      MulSucc((len - step) / step, step);
      DivModUnique(len, step, (len - step) / step + 1, 0);
    }
  }

  lemma {:induction false} WholeMultiple(q: nat, step: nat)
    requires step > 0
    ensures 0 <= q * step && Whole(q * step, step)
  {
    if q > 0 {
      WholeMultiple(q - 1, step);
      MulSucc(q - 1, step);
    }
  }

  /** Being whole is what a zero remainder says. */
  lemma WholeIff(len: nat, step: nat)
    requires step > 0
    ensures Whole(len, step) <==> len % step == 0
  {
    if Whole(len, step) {
      WholeCount(len, step);
    }
    if len % step == 0 {
      var q := len / step;
      assert len == q * step;
      WholeMultiple(q, step);
    }
  }
}
