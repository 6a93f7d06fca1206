/** Integer division and multiplication facts. */
module Arithmetic {
  function Min(a: int, b: int): int {
    if a <= b then a else b
  }

  lemma Growth(d: int, w: int)
    requires w > 0
    ensures d >= 1 ==> d * w >= w
    ensures d <= -1 ==> d * w <= -w
  {
    if d >= 1 {
      assert (d - 1) * w >= 0;
    } else if d <= -1 {
      assert (-1 - d) * w >= 0;
    }
  }

  lemma Euclid(q: int, r: int, w: int)
    requires w > 0 && 0 <= r < w
    ensures (q * w + r) % w == r && (q * w + r) / w == q
  {
    var x := q * w + r;
    var d := x / w - q;
    assert x == (x / w) * w + x % w;
    assert d * w == r - x % w;
    Growth(d, w);
  }

  lemma Multiple(k: int, w: int)
    requires w > 0
    ensures (k * w) % w == 0
  {
    Euclid(k, 0, w);
  }

  lemma AddMultiple(x: int, k: int, m: int)
    requires m > 0
    ensures (x + k * m) % m == x % m
  {
    assert x + k * m == (x / m + k) * m + x % m;
    Euclid(x / m + k, x % m, m);
  }
}
