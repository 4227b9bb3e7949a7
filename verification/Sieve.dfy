/** The in-place prime sieve of the sensor-check workflow. */
module Sieve {

  function Times(a: nat, b: nat): nat {
    a * b
  }

  ghost predicate Divides(d: nat, n: nat) {
    exists k: nat :: Times(d, k) == n
  }

  ghost predicate IsPrime(n: nat) {
    n >= 2 && forall d: nat :: 2 <= d < n ==> !Divides(d, n)
  }

  lemma {:induction false} TimesOrder(a: nat, b: nat, c: nat)
    requires b <= c
    ensures Times(a, b) <= Times(a, c)
    ensures b < c ==> Times(a, b) + a <= Times(a, c)
    decreases c
  {
    if b < c {
      TimesOrder(a, b, c - 1);
      assert a * c == a * (c - 1) + a;
    }
  }

  lemma TimesCommutes(a: nat, b: nat)
    ensures Times(a, b) == Times(b, a)
  {
  }

  lemma DividesTransitively(a: nat, b: nat, n: nat)
    requires Divides(a, b) && Divides(b, n)
    ensures Divides(a, n)
  {
    var k: nat :| Times(a, k) == b;
    var m: nat :| Times(b, m) == n;
    assert (a * k) * m == a * (k * m);
    assert Times(a, k * m) == n;
  }

  lemma {:induction false} PrimeDivisor(n: nat) returns (p: nat)
    requires n >= 2
    ensures IsPrime(p) && p <= n && Divides(p, n)
  {
    if IsPrime(n) {
      p := n;
      assert Times(n, 1) == n;
    } else {
      var d: nat :| 2 <= d < n && Divides(d, n);
      p := PrimeDivisor(d);
      DividesTransitively(p, d, n);
    }
  }

  lemma SquareOrder(a: nat, b: nat)
    requires a <= b
    ensures Times(a, a) <= Times(b, b)
  {
    TimesOrder(a, a, b);
    TimesOrder(b, a, b);
    TimesCommutes(a, b);
  }

  /** Every composite number has a prime divisor not above its square root. */
  lemma CompositeHasSmallPrime(n: nat) returns (p: nat)
    requires n >= 2 && !IsPrime(n)
    ensures IsPrime(p) && Times(p, p) <= n && Divides(p, n)
  {
    var d: nat :| 2 <= d < n && Divides(d, n);
    var e: nat :| Times(d, e) == n;
    TimesCommutes(d, e);
    assert Divides(e, n);
    if e < 2 { TimesOrder(d, e, 1); }
    var least := if d <= e then d else e;
    if d <= e { TimesOrder(d, d, e); } else { TimesOrder(e, e, d); }
    p := PrimeDivisor(least);
    DividesTransitively(p, least, n);
    SquareOrder(p, least);
  }

  /** A prime below m whose multiples were struck, from its square on, divides n. */
  ghost predicate Struck(n: nat, m: nat) {
    exists p: nat :: p < m && StrikesOut(p, n)
  }

  ghost predicate StrikesOut(p: nat, n: nat) {
    IsPrime(p) && Times(p, p) <= n && Divides(p, n)
  }

  lemma StrikersAreSmaller(n: nat)
    ensures forall p: nat :: StrikesOut(p, n) ==> 2 <= p < n && Divides(p, n)
  {
    forall p: nat | StrikesOut(p, n) ensures p < n {
      TimesOrder(p, 2, p);
    }
  }

  lemma StruckNext(n: nat, p: nat)
    ensures Struck(n, p + 1) <==> Struck(n, p) || StrikesOut(p, n)
  {
  }

  /** What the sieve relies on: a number is left standing by all primes up to a bound
      that covers its square root exactly if it is prime. */
  lemma StandingIffPrime(n: nat, m: nat)
    requires n >= 2 && forall p: nat :: Times(p, p) <= n ==> p < m
    ensures Struck(n, m) <==> !IsPrime(n)
  {
    StrikersAreSmaller(n);
    if !IsPrime(n) {
      var p := CompositeHasSmallPrime(n);
      assert StrikesOut(p, n);
    }
  }

  /** No multiple of p lies strictly between two consecutive ones. */
  lemma NextMultiple(p: nat, c: nat, n: nat)
    requires p > 0 && Divides(p, n) && Times(p, c) <= n < Times(p, c) + p
    ensures n == Times(p, c)
  {
    var k: nat :| Times(p, k) == n;
    if k < c { TimesOrder(p, k, c); } else if k > c { TimesOrder(p, c, k); }
  }

  /** Before candidate m is looked at, a place holds zero if its number was struck. */
  ghost predicate Sifted(nums: seq<nat>, m: nat) {
    forall k :: 0 <= k < |nums| ==> nums[k] == if Struck(k + 2, m) then 0 else k + 2
  }

  /** Strikes the multiples of the prime p from its square on. */
  method Strike(nums: array<nat>, p: nat)
    requires IsPrime(p) && Sifted(nums[..], p)
    modifies nums
    ensures Sifted(nums[..], p + 1)
  {
    TimesOrder(p, 1, p);
    var j := p * p - 2;
    ghost var c: nat := p;
    while j < nums.Length
      invariant j + 2 == Times(p, c) && c >= p
      invariant forall k :: 0 <= k < nums.Length ==>
        nums[k] == if Struck(k + 2, p) || (k < j && StrikesOut(p, k + 2)) then 0 else k + 2
    {
      assert StrikesOut(p, j + 2) by { TimesOrder(p, p, c); }
      ghost var before := nums[..];
      nums[j] := 0;
      TimesOrder(p, c, c + 1);
      assert Times(p, c + 1) == Times(p, c) + p;
      forall k | 0 <= k < nums.Length
        ensures nums[k] == if Struck(k + 2, p) || (k < j + p && StrikesOut(p, k + 2)) then 0 else k + 2
      {
        if j < k < j + p && Divides(p, k + 2) { NextMultiple(p, c, k + 2); }
        assert k != j ==> nums[k] == before[k];
      }
      j := j + p;
      c := c + 1;
    }
    forall k | 0 <= k < nums.Length ensures nums[k] == if Struck(k + 2, p + 1) then 0 else k + 2 {
      StruckNext(k + 2, p);
    }
  }

  /** The primes up to limit in increasing order. `root` is what Math.sqrt returned for
      the limit: all that is asked of it is that no natural number whose square is
      within the limit exceeds it, so rounding does not matter. */
  method Eratosthenes(limit: int, root: real) returns (primes: seq<nat>)
    requires forall k: nat :: Times(k, k) <= limit ==> k as real <= root
    ensures forall n: nat :: n in primes <==> IsPrime(n) && n <= limit
    ensures forall i, j :: 0 <= i < j < |primes| ==> primes[i] < primes[j]
  {
    primes := [];
    if limit >= 2 {
      var sqrtlmt := root - 2.0;
      var nums := new nat[limit - 1];
      for i := 0 to nums.Length
        invariant forall k :: 0 <= k < i ==> nums[k] == k + 2
      {
        nums[i] := i + 2;
      }
      var i := 0;
      while i as real <= sqrtlmt
        invariant Sifted(nums[..], i + 2)
        decreases sqrtlmt.Floor - i
      {
        // Reading past the end of a JavaScript array yields a value that counts as false.
        var p := if i < nums.Length then nums[i] else 0;
        if p != 0 {
          StandingIffPrime(i + 2, i + 2) by {
            forall q: nat | Times(q, q) <= i + 2 ensures q < i + 2 { if q >= 2 { TimesOrder(q, 2, q); } }
          }
          Strike(nums, p);
        } else {
          SkipComposite(nums[..], i);
        }
        i := i + 1;
      }
      forall n: nat | 2 <= n <= limit ensures Struck(n, i + 2) <==> !IsPrime(n) {
        StandingIffPrime(n, i + 2);
      }
      for k := 0 to nums.Length
        invariant forall n: nat :: n in primes <==> IsPrime(n) && n < k + 2
        invariant forall a :: 0 <= a < |primes| ==> primes[a] < k + 2
        invariant forall a, b :: 0 <= a < b < |primes| ==> primes[a] < primes[b]
      {
        var p := nums[k];
        if p != 0 {
          primes := primes + [p];
        }
      }
    }
  }

  /** A candidate that is zero or beyond the numbers strikes nothing new. */
  lemma SkipComposite(nums: seq<nat>, i: nat)
    requires Sifted(nums, i + 2) && (i < |nums| ==> nums[i] == 0)
    ensures Sifted(nums, i + 3)
  {
    if i < |nums| { StrikersAreSmaller(i + 2); }
    forall k | 0 <= k < |nums| ensures nums[k] == if Struck(k + 2, i + 3) then 0 else k + 2 {
      StruckNext(k + 2, i + 2);
      if i >= |nums| { TimesOrder(i + 2, 2, i + 2); }
    }
  }
}
