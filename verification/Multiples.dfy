/** Whole multiples of a positive step, with the few facts about them that time grids need. */
module Multiples {

  predicate Multiple(d: int, step: nat)
    requires step >= 1
  {
    d % step == 0
  }

  lemma ProductAtLeast(k: int, step: nat)
    requires k >= 1
    ensures k * step >= step
  {
  }

  lemma OnlyZeroIsSmall(k: int, r: int, step: nat)
    requires 0 <= r < step && k * step == r
    ensures r == 0
  {
    ProductAtLeast(if k >= 1 then k else 1, step);
    ProductAtLeast(if k <= -1 then -k else 1, step);
  }

  lemma MultipleOfProduct(k: int, step: nat)
    requires step >= 1
    ensures Multiple(k * step, step)
  {
    var d := k * step;
    var q, r := d / step, d % step;
    assert (k - q) * step == r by {
      assert d == q * step + r;
      assert (k - q) * step == k * step - q * step;
    }
    OnlyZeroIsSmall(k - q, r, step);
  }

  lemma Quotient(d: int, step: nat) returns (k: int)
    requires step >= 1 && Multiple(d, step)
    ensures d == k * step
  {
    k := d / step;
  }

  lemma SumOfMultiples(a: int, b: int, step: nat)
    requires step >= 1 && Multiple(b, step)
    ensures Multiple(a + b, step) <==> Multiple(a, step)
  {
    var k := Quotient(b, step);
    if Multiple(a, step) {
      var j := Quotient(a, step);
      assert a + b == (j + k) * step;
      MultipleOfProduct(j + k, step);
    }
    if Multiple(a + b, step) {
      var j := Quotient(a + b, step);
      assert a == (j - k) * step;
      MultipleOfProduct(j - k, step);
    }
  }

  lemma StepIsMultiple(step: nat)
    requires step >= 1
    ensures Multiple(step, step) && Multiple(0, step)
  {
    MultipleOfProduct(1, step);
    MultipleOfProduct(0, step);
  }

  lemma DifferenceOfMultiples(a: int, b: int, step: nat)
    requires step >= 1 && Multiple(a, step)
    ensures Multiple(a - b, step) <==> Multiple(b, step)
  {
    if Multiple(b, step) {
      SumOfMultiples(a - b, b, step);
    }
    if Multiple(a - b, step) {
      SumOfMultiples(b, a - b, step);
    }
  }

  /** A positive multiple no greater than the step is the step. */
  lemma SmallMultiple(d: int, step: nat)
    requires step >= 1 && 0 < d <= step && Multiple(d, step)
    ensures d == step
  {
    var k := Quotient(d, step);
    ProductAtLeast(if k <= -1 then -k else 1, step);
    ProductAtLeast(if k >= 2 then k - 1 else 1, step);
  }
}
