/** Decimal digits, powers, remainders and sums, as several modules use them. */
module Numbers {
  function DecimalDigit(d: nat): char
    requires d < 10
  {
    '0' + d as char
  }

  /** String(n) */
  function Decimal(n: nat): (s: string)
    ensures |s| >= 1
  {
    if n < 10 then [DecimalDigit(n)] else Decimal(n / 10) + [DecimalDigit(n % 10)]
  }

  function Power(base: nat, n: nat): nat {
    if n == 0 then 1 else base * Power(base, n - 1)
  }

  lemma {:induction false} PowerIsPositive(base: nat, n: nat)
    requires base >= 1
    ensures Power(base, n) >= 1
  {
    if n > 0 {
      PowerIsPositive(base, n - 1);
    }
  }

  lemma Remainder(a: int, n: int, q: int, r: int)
    requires n > 0 && 0 <= r < n && a == n * q + r
    ensures a % n == r
  {
    var q', r' := a / n, a % n;
    assert n * (q - q') == r' - r;
    assert q - q' >= 1 ==> n * (q - q') >= n;
    assert q - q' <= -1 ==> n * (q - q') <= -n;
  }

  lemma Quotient(a: int, n: int, q: int, r: int)
    requires n > 0 && 0 <= r < n && a == n * q + r
    ensures a / n == q
  {
    Remainder(a, n, q, r);
    assert n * (a / n) == n * q;
  }

  /** Dividing twice is dividing by the product. */
  lemma QuotientOfQuotient(n: nat, b: nat, p: nat)
    requires b >= 1 && p >= 1
    ensures b * p >= 1 && n / b / p == n / (b * p)
  {
    var m, d := n / b, n % b;
    var q, r := m / p, m % p;
    Product(b, p, r, d);
    assert b * m == b * (p * q) + b * r;
    assert b * (p * q) == b * p * q;
    Quotient(n, b * p, q, b * r + d);
  }

  lemma Product(b: nat, p: nat, r: nat, d: nat)
    requires d < b && r < p
    ensures 0 <= b * r + d < b * p
  {
    var k: nat := p - r - 1;
    assert b * p == b * (r + 1 + k) == b * r + b + b * k;
  }

  function SumOf(b: seq<nat>): nat {
    if b == [] then 0 else SumOf(b[..|b| - 1]) + b[|b| - 1]
  }

  lemma {:induction false} SumOfPlus(a: seq<nat>, b: seq<nat>, c: seq<nat>)
    requires |a| == |b| == |c| && forall i :: 0 <= i < |a| ==> c[i] == a[i] + b[i]
    ensures SumOf(c) == SumOf(a) + SumOf(b)
  {
    if a != [] {
      SumOfPlus(a[..|a| - 1], b[..|b| - 1], c[..|c| - 1]);
    }
  }

  lemma {:induction false} SumOfUpdate(b: seq<nat>, i: nat, v: nat)
    requires i < |b|
    ensures SumOf(b[i := v]) + b[i] == SumOf(b) + v
  {
    var u, front := b[i := v], b[..|b| - 1];
    if i == |b| - 1 {
      assert u[..|u| - 1] == front;
    } else {
      assert u[..|u| - 1] == front[i := v];
      SumOfUpdate(front, i, v);
    }
  }

  lemma {:induction false} SumOfOne(b: seq<nat>, at: nat)
    requires forall i :: 0 <= i < |b| ==> b[i] <= if i == at then 1 else 0
    ensures SumOf(b) <= if at < |b| then 1 else 0
  {
    if b != [] {
      SumOfOne(b[..|b| - 1], at);
    }
  }

  lemma {:induction false} SumOfNothing(b: seq<nat>)
    requires forall i :: 0 <= i < |b| ==> b[i] == 0
    ensures SumOf(b) == 0
  {
    if b != [] {
      SumOfNothing(b[..|b| - 1]);
    }
  }

  lemma {:induction false} SumOfPrefix(b: seq<nat>, n: nat)
    requires n <= |b|
    ensures SumOf(b[..n]) <= SumOf(b)
    decreases |b|
  {
    if n < |b| {
      SumOfPrefix(b[..|b| - 1], n);
      assert b[..|b| - 1][..n] == b[..n];
    } else {
      assert b[..n] == b;
    }
  }
}
