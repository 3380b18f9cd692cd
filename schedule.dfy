/**
 * The progress-checkpoint schedule of the optimisation loop
 * (`perform_style_transfer`, app/backend/main.py) and the range check the
 * transfer endpoint applies to `steps` before it starts a run.
 */
module Schedule {
  import opened Arith

  /** Smallest and largest `steps` the transfer endpoint lets through. */
  const MinSteps: int := 50
  const MaxSteps: int := 100000

  /** The range check of the transfer endpoint: true when `steps` is rejected. */
  predicate StepsRejected(steps: int) {
    steps < MinSteps || steps > MaxSteps
  }

  /** The distance between checkpoints, `steps // 10`. */
  function Interval(steps: nat): nat {
    steps / 10
  }

  /**
   * The progress test of one iteration. It is only defined when the interval
   * is positive; for a smaller run the modulo divides by zero.
   */
  predicate IsCheckpoint(step: int, steps: int)
    requires steps >= 10
  {
    step % Interval(steps) == 0 || step == steps
  }

  /** The steps among 1..n, in loop order, at which a run of `steps` iterations records progress. */
  function CheckpointsUpTo(steps: int, n: nat): seq<int>
    requires steps >= 10
  {
    if n == 0 then []
    else CheckpointsUpTo(steps, n - 1) + (if IsCheckpoint(n, steps) then [n] else [])
  }

  /** All the steps at which a run of `steps` iterations records progress. */
  function Checkpoints(steps: int): seq<int>
    requires steps >= 10
  {
    CheckpointsUpTo(steps, steps)
  }

  /** The first m positive multiples of k, in increasing order. */
  function Multiples(k: nat, m: nat): (r: seq<int>)
    ensures |r| == m
  {
    seq(m, i => k * (i + 1))
  }

  predicate StrictlyIncreasing(s: seq<int>) {
    forall i, j :: 0 <= i < j < |s| ==> s[i] < s[j]
  }

  /** Floor-division facts: n/k rises by one exactly when n is a multiple of k. */
  lemma DivStep(n: int, k: int)
    requires n >= 1 && k >= 1
    ensures n % k == 0 ==> n / k == (n - 1) / k + 1 && n == k * (n / k)
    ensures n % k != 0 ==> n / k == (n - 1) / k
  {
    var q, r := (n - 1) / k, (n - 1) % k;
    assert n - 1 == k * q + r && 0 <= r < k;
    if r == k - 1 {
      assert n == k * (q + 1);
      DivMod(n, k, q + 1, 0);
    } else {
      assert n == k * q + (r + 1);
      DivMod(n, k, q, r + 1);
    }
  }

  /** Before the last step, the checkpoints are exactly the multiples of the interval. */
  lemma {:induction false} CheckpointsBelowLast(steps: int, n: nat)
    requires steps >= 10 && n < steps
    ensures CheckpointsUpTo(steps, n) == Multiples(Interval(steps), n / Interval(steps))
  {
    var k := Interval(steps);
    if n > 0 {
      CheckpointsBelowLast(steps, n - 1);
      DivStep(n, k);
      if n % k == 0 {
        var m := (n - 1) / k;
        assert Multiples(k, m + 1) == Multiples(k, m) + [n];
      }
    }
  }

  /**
   * The whole schedule: the multiples of `steps // 10` up to `steps`, followed
   * by `steps` itself when it is not one of them.
   */
  lemma CheckpointsShape(steps: int)
    requires steps >= 10
    ensures Checkpoints(steps) ==
      Multiples(Interval(steps), steps / Interval(steps)) +
      (if steps % Interval(steps) == 0 then [] else [steps])
  {
    var k := Interval(steps);
    CheckpointsBelowLast(steps, steps - 1);
    DivStep(steps, k);
    if steps % k == 0 {
      var m := (steps - 1) / k;
      assert Multiples(k, m + 1) == Multiples(k, m) + [steps];
    }
  }

  /** The number of progress entries of a run. */
  lemma CheckpointCount(steps: int)
    requires steps >= 10
    ensures |Checkpoints(steps)| ==
      steps / Interval(steps) + (if steps % Interval(steps) != 0 then 1 else 0)
  {
    CheckpointsShape(steps);
  }

  /** A step is recorded iff it lies in 1..steps and passes the progress test. */
  lemma {:induction false} CheckpointsUpToMembership(steps: int, n: nat, s: int)
    requires steps >= 10
    ensures s in CheckpointsUpTo(steps, n) <==> 1 <= s <= n && IsCheckpoint(s, steps)
  {
    if n > 0 {
      CheckpointsUpToMembership(steps, n - 1, s);
    }
  }

  lemma CheckpointMembership(steps: int, s: int)
    requires steps >= 10
    ensures s in Checkpoints(steps) <==> 1 <= s <= steps && (s % (steps / 10) == 0 || s == steps)
  {
    CheckpointsUpToMembership(steps, steps, s);
  }

  lemma MultiplesIncreasing(k: nat, m: nat)
    requires k >= 1
    ensures StrictlyIncreasing(Multiples(k, m))
    ensures m > 0 ==> Multiples(k, m)[m - 1] == k * m
  {
    var ms := Multiples(k, m);
    forall i, j | 0 <= i < j < m ensures ms[i] < ms[j] {
      MulStep(k, i + 1, j + 1);
    }
  }

  /** Appending a value above the last element keeps a sequence strictly increasing. */
  lemma AppendIncreasing(s: seq<int>, x: int)
    requires StrictlyIncreasing(s)
    requires |s| > 0 ==> s[|s| - 1] < x
    ensures StrictlyIncreasing(s + [x])
  {
    var t := s + [x];
    forall i, j | 0 <= i < j < |t| ensures t[i] < t[j] {
      if j == |s| {
        assert t[i] == s[i] <= s[|s| - 1];
      }
    }
  }

  /** The recorded steps are strictly increasing and the last one is `steps`. */
  lemma CheckpointsOrdered(steps: int)
    requires steps >= 10
    ensures StrictlyIncreasing(Checkpoints(steps))
    ensures |Checkpoints(steps)| > 0 && Checkpoints(steps)[|Checkpoints(steps)| - 1] == steps
  {
    var k := Interval(steps);
    var m := steps / k;
    assert m >= 1 && k * m <= steps && (steps % k == 0 <==> k * m == steps) by {
      FloorDiv(steps, 10);
      FloorDiv(steps, k);
      if k * m == steps {
        DivMod(steps, k, m, 0);
      }
    }
    var ms := Multiples(k, m);
    MultiplesIncreasing(k, m);
    CheckpointsShape(steps);
    if steps % k != 0 {
      AppendIncreasing(ms, steps);
    }
  }

  /**
   * A run that passed the range check has an interval of at least 5, so the
   * progress test never divides by zero, and it records between 10 and 12
   * entries (12 for instance when steps = 59: 5, 10, ..., 55 and 59).
   */
  lemma ValidatedRunSchedule(steps: int)
    requires !StepsRejected(steps)
    ensures Interval(steps) >= 5
    ensures 10 <= |Checkpoints(steps)| <= 12
  {
    var k := Interval(steps);
    var m := steps / k;
    DivMod(steps, 10, k, steps % 10);
    DivMod(steps, k, m, steps % k);
    // 10k <= steps < 10k + 10 <= 12k, hence 10 <= m <= 11
    assert k * 10 <= steps < k * 12;
    assert k * m <= steps < k * (m + 1);
    MulCancel(k, m, 12);
    MulCancel(k, 9, m + 1);
    CheckpointCount(steps);
  }

  /** The schedule of the shortest accepted run: every fifth step. */
  lemma ShortestRunSchedule()
    ensures Checkpoints(50) == [5, 10, 15, 20, 25, 30, 35, 40, 45, 50]
  {
    assert Interval(50) == 5 && 50 / 5 == 10 && 50 % 5 == 0;
    assert Checkpoints(50) == Multiples(5, 10) by {
      CheckpointsShape(50);
    }
    assert Multiples(5, 10) == [5, 10, 15, 20, 25, 30, 35, 40, 45, 50];
  }

  /** A run of 59 steps records 12 progress entries, more than ten plus the final one. */
  lemma TwelveEntries()
    ensures |Checkpoints(59)| == 12
  {
    CheckpointCount(59);
  }
}
