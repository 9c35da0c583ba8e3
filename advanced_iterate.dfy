/** `AdvancedIterate`: the trial-division primality test, and the three
    sequences built with `Stream.iterate`: Fibonacci numbers from the pair
    (0, 1), triangular numbers from the pair (1, 1), and the primes. */
module AdvancedIterate {
  import opened Seqs
  import opened Arithmetic

  /** `n` is a prime: at least 2 and divisible by no number strictly between 1 and `n`. */
  predicate IsPrimeNumber(n: int)
  {
    n >= 2 && forall d :: 2 <= d < n ==> n % d != 0
  }

  /** A multiple of `e` leaves no remainder when divided by `e`. */
  lemma MultipleMod(d: int, e: int)
    requires e > 0
    ensures (d * e) % e == 0
  {
    var q, r := (d * e) / e, (d * e) % e;
    assert (d - q) * e == r;
    if d - q >= 1 {
      MultiplyMonotone(1, d - q, e);
      assert false;
    }
    if d - q <= -1 {
      assert (q - d) * e == -r;
      MultiplyMonotone(1, q - d, e);
      assert false;
    }
  }

  /** A divisor `d` of `n` at least `i`, when `i * i > n`, has a partner
      `n / d` that divides `n` and lies strictly between 1 and `i`. */
  lemma PartnerBelowRoot(n: int, d: int, i: int)
    requires 2 <= i <= d < n && i * i > n && n % d == 0
    ensures 2 <= n / d < i && n % (n / d) == 0
  {
    var e := n / d;
    assert d * e == n;
    assert e >= 2;
    MultiplyMonotone(i, d, i);
    assert d * e < d * i;
    assert e < i;
    MultipleMod(d, e);
  }

  /** If `n` has no divisor below `i` and `i * i > n`, it has none at all:
      the partner `n / d` of a larger divisor `d` would lie below `i`. */
  lemma NoDivisorAboveRoot(n: int, i: int)
    requires n >= 2 && i >= 2 && i * i > n
    requires forall d :: 2 <= d < i ==> n % d != 0
    ensures IsPrimeNumber(n)
  {
    forall d | i <= d < n
      ensures n % d != 0
    {
      if n % d == 0 {
        PartnerBelowRoot(n, d, i);
        assert false;
      }
    }
  }

  /** `isPrime`: false below 2; otherwise trial division by every `i` with
      `i * i <= n` (the source's `i <= Math.sqrt(n)`). */
  method IsPrime(n: int) returns (b: bool)
    ensures b == IsPrimeNumber(n)
  {
    if n < 2 {
      return false;
    }
    var i := 2;
    while i * i <= n
      invariant 2 <= i
      invariant forall d :: 2 <= d < i ==> n % d != 0
      decreases n - i
    {
      assert i < n by {
        assert i * i >= 2 * i;
      }
      if n % i == 0 {
        return false;
      }
      i := i + 1;
    }
    NoDivisorAboveRoot(n, i);
    b := true;
  }

  /** The `k`-th element (from 0) of `Stream.iterate(seed, f)`. */
  function Iterate<T>(f: T -> T, seed: T, k: nat): T
  {
    if k == 0 then seed else f(Iterate(f, seed, k - 1))
  }

  /** `Stream.iterate(seed, f).limit(count)`. */
  function IterateLimit<T>(seed: T, f: T -> T, count: nat): (r: seq<T>)
    ensures |r| == count
  {
    if count == 0 then [] else [seed] + IterateLimit(f(seed), f, count - 1)
  }

  /** Starting one step later shifts the stream by one. */
  lemma {:induction false} IterateShift<T>(f: T -> T, seed: T, k: nat)
    ensures Iterate(f, f(seed), k) == Iterate(f, seed, k + 1)
  {
    if k > 0 {
      IterateShift(f, seed, k - 1);
    }
  }

  /** The limited stream lists the first `count` iterates. */
  lemma {:induction false} IterateLimitElements<T>(seed: T, f: T -> T, count: nat)
    ensures forall k :: 0 <= k < count ==> IterateLimit(seed, f, count)[k] == Iterate(f, seed, k)
  {
    if count > 0 {
      IterateLimitElements(f(seed), f, count - 1);
      forall k | 1 <= k < count
        ensures IterateLimit(seed, f, count)[k] == Iterate(f, seed, k)
      {
        IterateShift(f, seed, k - 1);
      }
    }
  }

  /** The two-element arrays the sequences iterate on. */
  datatype Pair = Pair(first: int, second: int)

  function First(p: Pair): int { p.first }
  function Second(p: Pair): int { p.second }

  /** The Fibonacci numbers, F(0) = 0 and F(1) = 1. */
  function Fib(k: nat): nat
  {
    if k < 2 then k else Fib(k - 1) + Fib(k - 2)
  }

  /** `arr -> {arr[1], arr[0] + arr[1]}`. */
  function FibStep(p: Pair): Pair { Pair(p.second, p.first + p.second) }

  /** `Stream.iterate({0, 1}, FibStep).limit(count).mapToLong(arr -> arr[0])`. */
  function FibonacciSequence(count: nat): seq<int>
  {
    MapSeq(First, IterateLimit(Pair(0, 1), FibStep, count))
  }

  /** The `k`-th pair of the Fibonacci stream is (F(k), F(k + 1)). */
  lemma {:induction false} FibonacciPairs(k: nat)
    ensures Iterate(FibStep, Pair(0, 1), k) == Pair(Fib(k), Fib(k + 1))
  {
    if k > 0 {
      FibonacciPairs(k - 1);
    }
  }

  /** The printed Fibonacci sequence is F(0), F(1), ..., F(count - 1). */
  lemma FibonacciSequenceMeaning(count: nat)
    ensures |FibonacciSequence(count)| == count
    ensures forall k :: 0 <= k < count ==> FibonacciSequence(count)[k] == Fib(k)
  {
    IterateLimitElements(Pair(0, 1), FibStep, count);
    forall k | 0 <= k < count
      ensures FibonacciSequence(count)[k] == Fib(k)
    {
      FibonacciPairs(k);
    }
  }

  /** `arr -> {arr[0] + 1, arr[1] + arr[0] + 1}`. */
  function TriangleStep(p: Pair): Pair { Pair(p.first + 1, p.second + p.first + 1) }

  /** `Stream.iterate({1, 1}, TriangleStep).limit(count).mapToInt(arr -> arr[1])`. */
  function TriangularSequence(count: nat): seq<int>
  {
    MapSeq(Second, IterateLimit(Pair(1, 1), TriangleStep, count))
  }

  /** The `k`-th pair of the triangular stream is (k + 1, 1 + 2 + ... + (k + 1)). */
  lemma {:induction false} TrianglePairs(k: nat)
    ensures Iterate(TriangleStep, Pair(1, 1), k) == Pair(k + 1, (k + 1) * (k + 2) / 2)
  {
    if k > 0 {
      TrianglePairs(k - 1);
      assert (k + 1) * (k + 2) == k * (k + 1) + 2 * (k + 1);
    }
  }

  /** The printed triangular sequence is 1, 3, 6, ..., count * (count + 1) / 2. */
  lemma TriangularSequenceMeaning(count: nat)
    ensures |TriangularSequence(count)| == count
    ensures forall k :: 0 <= k < count ==> TriangularSequence(count)[k] == (k + 1) * (k + 2) / 2
  {
    IterateLimitElements(Pair(1, 1), TriangleStep, count);
    forall k | 0 <= k < count
      ensures TriangularSequence(count)[k] == (k + 1) * (k + 2) / 2
    {
      TrianglePairs(k);
    }
  }

  function Successor(n: int): int { n + 1 }

  /** The first `count` elements of `Stream.iterate(2, n -> n + 1)`: 2, 3, ..., count + 1. */
  function Candidates(count: nat): seq<int>
  {
    IterateLimit(2, Successor, count)
  }

  /** The primes `Stream.iterate(2, n -> n + 1).filter(isPrime)` emits while
      it reads the first `count` candidates. */
  function PrimesAmongCandidates(count: nat): seq<int>
  {
    Filter(IsPrimeNumber, Candidates(count))
  }

  lemma {:induction false} IterateSuccessor(start: int, k: nat)
    ensures Iterate(Successor, start, k) == start + k
  {
    if k > 0 {
      IterateSuccessor(start, k - 1);
    }
  }

  lemma CandidatesElements(count: nat)
    ensures forall k :: 0 <= k < count ==> Candidates(count)[k] == k + 2
  {
    IterateLimitElements(2, Successor, count);
    forall k | 0 <= k < count
      ensures Candidates(count)[k] == k + 2
    {
      IterateSuccessor(2, k);
    }
  }

  predicate StrictlyIncreasing(s: seq<int>)
  {
    forall i, j :: 0 <= i < j < |s| ==> s[i] < s[j]
  }

  lemma {:induction false} FilterKeepsIncreasing(p: int -> bool, s: seq<int>)
    requires StrictlyIncreasing(s)
    ensures StrictlyIncreasing(Filter(p, s))
  {
    if s != [] {
      FilterKeepsIncreasing(p, s[1..]);
      var rest := Filter(p, s[1..]);
      forall x | x in rest
        ensures s[0] < x
      {
        FilterMembership(p, s[1..], x);
      }
      if p(s[0]) {
        var r := Filter(p, s);
        assert r == [s[0]] + rest;
        forall i, j | 0 <= i < j < |r|
          ensures r[i] < r[j]
        {
          if i == 0 {
            assert r[j] == rest[j - 1];
            assert rest[j - 1] in rest;
          } else {
            assert r[i] == rest[i - 1] && r[j] == rest[j - 1];
          }
        }
      }
    }
  }

  /** The prime stream emits exactly the primes, from 2 on, in increasing
      order: reading `count` candidates yields the primes below `count + 2`,
      and reading more candidates only extends what was emitted, so
      `limit(8)` takes the first eight primes. */
  lemma PrimeStreamMeaning(count: nat, more: nat)
    ensures forall x :: x in PrimesAmongCandidates(count) <==> IsPrimeNumber(x) && x < count + 2
    ensures StrictlyIncreasing(PrimesAmongCandidates(count))
    ensures count <= more ==>
              PrimesAmongCandidates(count) <= PrimesAmongCandidates(more)
  {
    var c := Candidates(count);
    CandidatesElements(count);
    forall x
      ensures x in PrimesAmongCandidates(count) <==> IsPrimeNumber(x) && x < count + 2
    {
      FilterMembership(IsPrimeNumber, c, x);
      if IsPrimeNumber(x) && x < count + 2 {
        assert c[x - 2] == x;
      }
    }
    FilterKeepsIncreasing(IsPrimeNumber, c);
    if count <= more {
      var d := Candidates(more);
      CandidatesElements(more);
      assert d == c + d[count..];
      FilterAppend(IsPrimeNumber, c, d[count..]);
    }
  }
}
