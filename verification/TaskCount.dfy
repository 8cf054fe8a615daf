/** metis/lib/kvstore.c, kvst_sample_finished: the search for the number of reduce tasks. */
module TaskCount {

  /** The search accepts `n`: no q from 2 on with q * q < n divides it. */
  ghost predicate Accepted(n: nat) { forall q: nat {:trigger Square(q)} :: 2 <= q && Square(q) < n ==> n % q != 0 }

  function Square(q: nat): nat { q * q }

  ghost predicate Prime(p: nat) { 2 <= p && forall d: nat {:trigger p % d} :: 2 <= d < p ==> p % d != 0 }

  // ---------------------------------------------------------------- arithmetic

  lemma DivMod(n: nat, d: nat)
    requires d > 0
    ensures n == d * (n / d) + n % d && n % d < d
  {
  }

  lemma TimesMono(a: nat, b: nat, c: nat)
    requires a <= b
    ensures a * c <= b * c && c * a <= c * b
  {
    assert b * c == a * c + (b - a) * c;
  }

  lemma TimesLess(a: nat, b: nat, c: nat)
    requires a < b && c > 0
    ensures a * c < b * c && c * a < c * b
  {
    assert b * c == a * c + (b - a) * c;
    TimesMono(1, b - a, c);
  }

  /** Quotient and remainder are unique. */
  lemma Unique(d: nat, q: nat, r: nat)
    requires r < d
    ensures (d * q + r) / d == q && (d * q + r) % d == r
  {
    var n := d * q + r;
    DivMod(n, d);
    var q' := n / d;
    if q < q' { OneMore(q, q', d); } else if q' < q { OneMore(q', q, d); }
  }

  lemma OneMore(a: nat, b: nat, d: nat)
    requires a < b
    ensures d * a + d <= d * b
  {
    TimesMono(a + 1, b, d);
    assert d * (a + 1) == d * a + d;
  }

  ghost predicate Divides(d: nat, n: nat) { d > 0 && n % d == 0 }

  lemma MultipleDivides(d: nat, k: nat)
    requires d > 0
    ensures Divides(d, d * k)
  {
    Unique(d, k, 0);
  }

  lemma DividesSum(d: nat, a: nat, b: nat)
    requires Divides(d, a) && Divides(d, b)
    ensures Divides(d, a + b) && (a >= b ==> Divides(d, a - b))
  {
    DivMod(a, d);
    DivMod(b, d);
    assert a + b == d * (a / d + b / d);
    MultipleDivides(d, a / d + b / d);
    if a >= b {
      if a / d < b / d { TimesLess(a / d, b / d, d); }
      assert a - b == d * (a / d - b / d);
      MultipleDivides(d, a / d - b / d);
    }
  }

  lemma DividesMultiple(d: nat, a: nat, k: nat)
    requires Divides(d, a)
    ensures Divides(d, a * k) && Divides(d, k * a)
  {
    DivMod(a, d);
    assert a * k == d * (a / d * k);
    MultipleDivides(d, a / d * k);
  }

  // ---------------------------------------------------------------- smallest divisors

  /** The smallest divisor from `d` on. */
  ghost function LeastDivisor(n: nat, d: nat): (p: nat)
    requires 2 <= d <= n
    ensures d <= p <= n && n % p == 0 && forall e: nat :: d <= e < p ==> n % e != 0
    decreases n - d
  {
    if n % d == 0 then d else (SelfDivides(n); LeastDivisor(n, d + 1))
  }

  lemma SelfDivides(n: nat)
    requires n > 0
    ensures n % n == 0
  {
  }

  /** The smallest divisor from 2 on is prime. */
  lemma LeastDivisorIsPrime(n: nat)
    requires n >= 2
    ensures Prime(LeastDivisor(n, 2))
  {
    var p := LeastDivisor(n, 2);
    forall d: nat {:trigger p % d} | 2 <= d < p ensures p % d != 0 {
      if p % d == 0 {
        DivMod(n, p);
        DividesMultiple(d, p, n / p);
      }
    }
  }

  // ---------------------------------------------------------------- infinitely many primes

  ghost function Factorial(n: nat): (f: nat)
    ensures f > 0
  {
    if n == 0 then 1 else (TimesMono(1, n, Factorial(n - 1)); n * Factorial(n - 1))
  }

  lemma {:induction false} FactorialDivides(n: nat, d: nat)
    requires 0 < d <= n
    ensures Divides(d, Factorial(n))
  {
    if d == n {
      MultipleDivides(n, Factorial(n - 1));
    } else {
      FactorialDivides(n - 1, d);
      DividesMultiple(d, Factorial(n - 1), n);
    }
  }

  /** Euclid: beyond every number there is a prime. */
  lemma MorePrimes(n: nat) returns (p: nat)
    ensures p > n && Prime(p)
  {
    var m := Factorial(n) + 1;
    p := LeastDivisor(m, 2);
    LeastDivisorIsPrime(m);
    if p <= n {
      FactorialDivides(n, p);
      DividesSum(p, m, Factorial(n));
    }
  }

  // ---------------------------------------------------------------- what is accepted

  lemma SmallerThanSquare(q: nat)
    requires q >= 2
    ensures q < Square(q)
  {
    TimesLess(1, q, q);
  }

  lemma PrimeAccepted(p: nat)
    requires Prime(p)
    ensures Accepted(p)
  {
    forall q: nat {:trigger Square(q)} | 2 <= q && Square(q) < p ensures p % q != 0 { SmallerThanSquare(q); }
  }

  /** Euclid's lemma for a factor below the prime. */
  lemma {:induction false} PrimeDividesProduct(p: nat, q: nat, k: nat)
    requires Prime(p) && 0 < q < p && Divides(p, q * k)
    ensures Divides(p, k)
    decreases q
  {
    if q == 1 {
    } else {
      var t, r := p / q, p % q;
      DivMod(p, q);
      assert r != 0;
      assert r * k == p * k - t * (q * k);
      MultipleDivides(p, k);
      DividesMultiple(p, q * k, t);
      DividesSum(p, p * k, t * (q * k));
      PrimeDividesProduct(p, r, k);
    }
  }

  lemma PrimeSquareAccepted(p: nat)
    requires Prime(p)
    ensures Accepted(Square(p))
  {
    forall q: nat {:trigger Square(q)} | 2 <= q && Square(q) < Square(p) ensures Square(p) % q != 0 {
      if q >= p { TimesMono(p, q, p); TimesMono(p, q, q); }
      SquareNotDivided(p, q);
    }
  }

  lemma SquareNotDivided(p: nat, q: nat)
    requires Prime(p) && 2 <= q < p
    ensures Square(p) % q != 0
  {
    if Square(p) % q == 0 {
      var k := Square(p) / q;
      DivMod(Square(p), q);
      MultipleDivides(p, p);
      PrimeDividesProduct(p, q, k);
      DivMod(k, p);
      var j := k / p;
      assert p * p == q * (p * j) == p * (q * j);
      if p < q * j { TimesLess(p, q * j, p); } else if q * j < p { TimesLess(q * j, p, p); }
      MultipleDivides(q, j);
    }
  }

  /** Anything else accepted is 0 or 1. */
  lemma AcceptedIsPrimeOrSquare(n: nat)
    requires Accepted(n) && n >= 2 && !Prime(n)
    ensures var p := LeastDivisor(n, 2); Prime(p) && n == Square(p)
  {
    var p := LeastDivisor(n, 2);
    LeastDivisorIsPrime(n);
    DivMod(n, p);
    var e := n / p;
    assert Square(p) >= n;
    assert p != n;
    if e < p {
      assert e != 0 && e != 1;
      MultipleDivides(e, p);
    } else {
      TimesMono(p, e, p);
    }
  }

  /** The numbers the search can return. */
  lemma AcceptedIff(n: nat)
    ensures Accepted(n) <==> n == 0 || n == 1 || Prime(n) || exists p :: Prime(p) && n == Square(p)
  {
    if Accepted(n) && n >= 2 && !Prime(n) { AcceptedIsPrimeOrSquare(n); }
    if Prime(n) { PrimeAccepted(n); }
    if p :| Prime(p) && n == Square(p) { PrimeSquareAccepted(p); }
    forall q: nat {:trigger Square(q)} | 2 <= q ensures Square(q) > 2 { SmallerThanSquare(q); }
  }

  // ---------------------------------------------------------------- the search

  /** The inner loop: is `n` accepted? */
  method Test(n: nat) returns (prime: bool)
    ensures prime <==> Accepted(n)
  {
    prime := true;
    var q := 2;
    while Square(q) < n
      invariant 2 <= q && forall r: nat {:trigger n % r} :: 2 <= r < q ==> n % r != 0
      decreases n - q
    {
      SmallerThanSquare(q);
      if n % q == 0 { return false; }
      q := q + 1;
    }
    forall r: nat {:trigger Square(r)} | 2 <= r && Square(r) < n ensures n % r != 0 {
      if r >= q { TimesMono(q, r, q); TimesMono(q, r, r); }
    }
  }

  /** The search ends from every estimate, with the least number from there on that it accepts */
  method SearchTasks(estimate: nat) returns (ntasks: nat)
    ensures ntasks >= estimate && Accepted(ntasks)
    ensures forall m :: estimate <= m < ntasks ==> !Accepted(m)
  {
    ghost var p := MorePrimes(estimate);
    PrimeAccepted(p);
    ntasks := estimate;
    while true
      invariant estimate <= ntasks <= p
      invariant forall m :: estimate <= m < ntasks ==> !Accepted(m)
      decreases p - ntasks
    {
      var prime := Test(ntasks);
      if prime { break; }
      ntasks := ntasks + 1;
    }
  }
}
