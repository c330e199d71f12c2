/**
 The round-robin assignment that the global queue and the timer thread share: an
 `atomic<int>` counter, fetched and incremented, `% worker_count`. The counter wraps at 32
 bits and C++'s `%` truncates, so the assignment goes negative once the counter does.
 */
module RoundRobin {
  // The value of an int after this many increments from 0.
  function Signed32(count: nat): int {
    var w := count % 0x1_0000_0000;
    if w < 0x8000_0000 then w else w - 0x1_0000_0000
  }

  // C++'s remainder: the sign of the dividend.
  function Remainder(a: int, n: nat): int
    requires n > 0
  {
    if a >= 0 then a % n else -(-a % n)
  }

  // C++'s quotient: towards zero.
  function Quotient(a: int, n: nat): int
    requires n > 0
  {
    if a >= 0 then a / n else -(-a / n)
  }

  // The shard assigned to the call that finds the counter after `count` calls.
  function Assigned(count: nat, workers: nat): int
    requires workers > 0
  {
    Remainder(Signed32(count), workers)
  }

  predicate Usable(count: nat, workers: nat)
    requires workers > 0
  {
    0 <= Assigned(count, workers) < workers
  }

  lemma RemainderRange(a: int, n: nat)
    requires n > 0
    ensures 0 - n < Remainder(a, n) < n && Remainder(a, n) == a - Quotient(a, n) * n
  {
    if a < 0 {
      assert -a == (-a / n) * n + -a % n;
    }
  }

  /** For the first 2^31 calls the index is the number of calls before, modulo the number of workers;
      for the next 2^31 it is not positive. */
  lemma AssignedInTurn(count: nat, workers: nat)
    requires workers > 0
    ensures count < 0x8000_0000 ==> Assigned(count, workers) == count % workers
    ensures 0x8000_0000 <= count < 0x1_0000_0000 ==> Assigned(count, workers) == -((0x1_0000_0000 - count) % workers)
  {
  }

  /** The assigned index is a shard exactly when the counter has not gone negative, or is
      a multiple of the number of workers. */
  lemma UsableIff(count: nat, workers: nat)
    requires workers > 0
    ensures Usable(count, workers) <==>
      count % 0x1_0000_0000 < 0x8000_0000 || (0x1_0000_0000 - count % 0x1_0000_0000) % workers == 0
  {
    RemainderRange(Signed32(count), workers);
  }

  /** The call that finds the counter after 2^31 others gets an index outside the shards
      unless the number of workers divides 2^31. */
  lemma FirstUnusable(workers: nat)
    requires workers > 0
    ensures Usable(0x8000_0000, workers) <==> 0x8000_0000 % workers == 0
    ensures forall count: nat | count < 0x8000_0000 :: Usable(count, workers)
  {
    UsableIff(0x8000_0000, workers);
    forall count: nat | count < 0x8000_0000 ensures Usable(count, workers) {
      UsableIff(count, workers);
    }
  }

  lemma SameRemainder(a: nat, b: nat, n: nat)
    requires n > 0 && a <= b < a + n && a % n == b % n
    ensures a == b
  {
    var d := b / n - a / n;
    assert b - a == d * n by {
      assert a == a / n * n + a % n && b == b / n * n + b % n;
    }
    MultipleGap(d, n);
  }

  lemma MultipleGap(d: int, n: nat)
    ensures d == 0 || d * n >= n || d * n <= 0 - n
  {
    if d > 0 {
      ProductNotNegative(d - 1, n);
    } else if d < 0 {
      ProductNotNegative(-d - 1, n);
    }
  }

  lemma ProductNotNegative(a: nat, n: nat)
    ensures a * n >= 0 && (a + 1) * n == a * n + n && (0 - a - 1) * n == 0 - a * n - n
  {
  }

  /** Until the counter wraps, as many consecutive calls as there are workers get as many
      different shards. */
  lemma RoundIsFair(count: nat, workers: nat, i: nat, j: nat)
    requires workers > 0 && i < j < workers && count + j < 0x8000_0000
    ensures Assigned(count + i, workers) != Assigned(count + j, workers)
  {
    if Assigned(count + i, workers) == Assigned(count + j, workers) {
      SameRemainder(count + i, count + j, workers);
    }
  }
}
