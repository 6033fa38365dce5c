/** Quotients and products, which the codecs, the tensor addresses and the register search share. */
module Division {

  lemma Scaled(x: int, y: int, p: int)
    requires p >= 0
    ensures x <= y ==> x * p <= y * p
  {
  }

  lemma QuotientBounds(n: nat, d: nat)
    requires d > 0
    ensures n / d * d <= n < n / d * d + d
  {
  }

  lemma Multiple(m: int, p: int)
    requires p > 0 && -p < m * p < p
    ensures m == 0
  {
    Scaled(1, m, p);
    Scaled(m, -1, p);
  }

  lemma DivMod(q: int, r: int, p: int)
    requires 0 <= r < p
    ensures (q * p + r) / p == q && (q * p + r) % p == r
  {
    var a := q * p + r;
    var m := q - a / p;
    assert m * p == a % p - r by { assert a == a / p * p + a % p; assert (q - a / p) * p == q * p - a / p * p; }
    Multiple(m, p);
  }

  /** Dividing by a product is dividing twice. */
  lemma DivideTwice(n: nat, b: nat, p: nat)
    requires b > 0 && p > 0
    ensures b * p > 0 && n / (b * p) == n / b / p
  {
    var x := n / b;
    var q, r := x / p, x % p;
    Scaled(1, p, b);
    Scaled(r + 1, p, b);
    assert n == (q * p + r) * b + n % b;
    Expand(q, p, r, b);
    DivMod(q, r * b + n % b, b * p);
  }

  lemma Expand(q: int, p: int, r: int, b: int)
    ensures (q * p + r) * b == q * (b * p) + r * b
  {
  }
}
