/** Division and remainder facts that the solver does not find by itself. */
module Arithmetic {

  lemma ModuloOf(v: int, d: nat, q: int, r: int)
    requires d > 0 && v == d * q + r && 0 <= r < d
    ensures v % d == r && v / d == q
  {
    var q', r' := v / d, v % d;
    assert d * (q - q') == r' - r;
    assert q - q' >= 1 ==> d * (q - q') >= d;
    assert q' - q >= 1 ==> d * (q' - q) >= d;
  }

  lemma DivideTwice(v: int, p: nat)
    requires p > 0
    ensures v / p / 2 == v / (2 * p)
  {
    var w := v / p;
    assert v == p * w + v % p;
    var r := p * (w % 2) + v % p;
    assert w == 2 * (w / 2) + w % 2;
    assert p * w == (2 * p) * (w / 2) + p * (w % 2);
    ModuloOf(v, 2 * p, w / 2, r);
  }

  lemma HalveFirst(v: int, p: nat)
    requires p > 0
    ensures v / (2 * p) == v / 2 / p
  {
    var w := v / 2;
    assert v == 2 * w + v % 2;
    assert w == p * (w / p) + w % p;
    assert v == (2 * p) * (w / p) + (2 * (w % p) + v % 2);
    ModuloOf(v, 2 * p, w / p, 2 * (w % p) + v % 2);
  }

  lemma HalvedModulo(v: int, p: nat)
    requires p > 0
    ensures v % (2 * p) == 2 * ((v / 2) % p) + v % 2
  {
    var q, r := (v / 2) / p, (v / 2) % p;
    assert v / 2 == p * q + r;
    assert v == 2 * (v / 2) + v % 2;
    var x := 2 * r + v % 2;
    assert v == (2 * p) * q + x;
    ModuloOf(v, 2 * p, q, x);
  }

  lemma MultiplyMonotone(d: nat, x: nat, y: nat)
    requires x <= y
    ensures d * x <= d * y
  {}

  lemma DivideMonotone(a: nat, b: nat, d: nat)
    requires a <= b && d > 0
    ensures a / d <= b / d
  {
    var p, q := a / d, b / d;
    assert d * p <= a && b < d * q + d;
    if p > q {
      MultiplyMonotone(d, q + 1, p);
      assert false;
    }
  }
}
