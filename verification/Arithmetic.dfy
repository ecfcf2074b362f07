/** Integer facts the codecs share. */
module Arithmetic {

  lemma Distribute(a: int, b: int, m: int)
    ensures (a + b) * m == a * m + b * m
  {
  }

  lemma TimesAssociates(a: int, b: int, c: int)
    ensures (a * b) * c == a * (b * c)
  {
  }

  lemma NonNegativeTimes(a: int, b: int)
    requires a >= 0 && b >= 0
    ensures a * b >= 0
  {
  }

  lemma TimesIsStrict(a: int, b: int, m: int)
    requires a < b && m >= 1
    ensures a * m + m <= b * m
  {
    Distribute(a, b - a, m);
    Distribute(1, b - a - 1, m);
    NonNegativeTimes(b - a - 1, m);
  }

  lemma TimesIsInjective(a: int, b: int, m: int)
    requires a * m == b * m && m >= 1
    ensures a == b
  {
    if a < b {
      TimesIsStrict(a, b, m);
    } else if b < a {
      TimesIsStrict(b, a, m);
    }
  }

  lemma DivMod(q: int, m: int, r: nat)
    requires r < m
    ensures (q * m + r) / m == q && (q * m + r) % m == r
  {
    var n := q * m + r;
    assert n == (n / m) * m + n % m;
    if n / m < q {
      TimesIsStrict(n / m, q, m);
    } else if n / m > q {
      TimesIsStrict(q, n / m, m);
    }
  }
}
