/** Sliding-window statistics of one broker adapter. */
module AdapterStatistics {
  import opened MachineInts
  import opened Windows

  /** One round trip; a latency of `U32_MAX` means "not measured". */
  datatype Sample = Sample(failed: bool, latencyMs: U32)

  function Failures(samples: seq<Sample>): nat {
    if samples == [] then 0 else (if samples[0].failed then 1 else 0) + Failures(samples[1..])
  }

  function Measured(samples: seq<Sample>): seq<U32> {
    if samples == [] then []
    else (if samples[0].latencyMs != U32_MAX then [samples[0].latencyMs] else []) + Measured(samples[1..])
  }

  function Insert(x: U32, sorted: seq<U32>): seq<U32> {
    if sorted == [] || x <= sorted[0] then [x] + sorted else [sorted[0]] + Insert(x, sorted[1..])
  }

  function Sorted(xs: seq<U32>): seq<U32> {
    if xs == [] then [] else Insert(xs[0], Sorted(xs[1..]))
  }

  /** The largest of a list, 0 if there is none. */
  function Largest(xs: seq<U32>): U32 {
    if xs == [] then 0 else Max(xs[0], Largest(xs[1..]))
  }

  /** Failures per ten thousand round trips, rounded down. */
  function ErrorRateBps(samples: seq<Sample>): nat {
    if samples == [] then 0 else Failures(samples) * 10_000 / |samples|
  }

  /** The zero-based nearest rank: the ceiling of 99n/100, less one. */
  function P99Index(n: nat): nat
    requires n > 0
  {
    Min(Max((99 * n + 99) / 100 - 1, 0), n - 1)
  }

  function P99(samples: seq<Sample>): U32 {
    var latencies := Sorted(Measured(samples));
    if latencies == [] then 0 else latencies[P99Index(|latencies|)]
  }

  class AdapterStats {
    const capacity: nat
    var samples: seq<Sample>
    var pos: nat
    var totalRecorded: U64

    ghost predicate Valid()
      reads this
    {
      && 0 < capacity && |samples| <= capacity && pos <= capacity
      && (|samples| < capacity ==> pos == 0)
    }

    /** Where the oldest sample sits. */
    ghost function Start(): nat
      reads this
      requires Valid()
      ensures Start() <= |samples|
    {
      if |samples| < capacity then 0 else pos % capacity
    }

    /** The samples held, oldest first. */
    ghost function Window(): seq<Sample>
      reads this
      requires Valid()
    {
      Rotated(samples, Start())
    }

    constructor (capacity: nat)
      ensures Valid() && Window() == [] && this.capacity == Max(capacity, 1)
    {
      this.capacity := Max(capacity, 1);
      samples, pos, totalRecorded := [], 0, 0;
    }

    method Record(failed: bool, latencyMs: U32)
      requires Valid()
      modifies this
      ensures Valid()
      ensures Window() == LastN(old(Window()) + [Sample(failed, latencyMs)], capacity)
      ensures totalRecorded == (old(totalRecorded) + 1) % (U64_MAX + 1)
    {
      var s := Sample(failed, latencyMs);
      if |samples| < capacity {
        NotRotated(samples);
        samples := samples + [s];
        NotRotated(samples);
      } else {
        var i := pos % capacity;
        RotatedPush(samples, i, s);
        samples := samples[i := s];
        pos := i + 1;
      }
      totalRecorded := (totalRecorded + 1) % (U64_MAX + 1);
    }

    method ErrorRate() returns (bps: nat)
      requires Valid()
      ensures bps == ErrorRateBps(Window())
    {
      hide Failures;
      RotationKeepsFailures(samples, Start());
      if |samples| == 0 {
        return 0;
      }
      bps := Failures(samples) * 10_000 / |samples|;
    }

    /** Nearest-rank p99 of a window of fewer than a hundred samples. */
    method P99LatencyMs() returns (ms: U32)
      requires Valid() && capacity < 100
      ensures ms == P99(Window())
    {
      P99IsLargest(samples);
      P99IsLargest(Window());
      RotationKeepsLargest(samples, Start());
      var latencies := Sorted(Measured(samples));
      if |latencies| == 0 {
        return 0;
      }
      ms := latencies[P99Index(|latencies|)];
    }

    method WindowLen() returns (n: nat)
      requires Valid()
      ensures n == |Window()|
    {
      n := |samples|;
    }

    method Reset()
      requires Valid()
      modifies this
      ensures Valid() && Window() == [] && totalRecorded == old(totalRecorded)
    {
      samples, pos := [], 0;
    }
  }

  /* ----- Statistics do not depend on where the ring starts ----- */

  lemma {:induction false} FailuresAppend(a: seq<Sample>, b: seq<Sample>)
    ensures Failures(a + b) == Failures(a) + Failures(b)
  {
    if a == [] {
      assert a + b == b;
    } else {
      assert (a + b)[1..] == a[1..] + b;
      FailuresAppend(a[1..], b);
    }
  }

  lemma RotationKeepsFailures(samples: seq<Sample>, i: nat)
    requires i <= |samples|
    ensures Failures(Rotated(samples, i)) == Failures(samples)
  {
    hide Failures;
    var a, b := samples[..i], samples[i..];
    assert samples == a + b;
    FailuresAppend(a, b);
    FailuresAppend(b, a);
  }

  lemma {:induction false} MeasuredAppend(a: seq<Sample>, b: seq<Sample>)
    ensures Measured(a + b) == Measured(a) + Measured(b)
  {
    if a == [] {
      assert a + b == b;
    } else {
      assert (a + b)[1..] == a[1..] + b;
      MeasuredAppend(a[1..], b);
    }
  }

  lemma {:induction false} LargestAppend(a: seq<U32>, b: seq<U32>)
    ensures Largest(a + b) == Max(Largest(a), Largest(b))
  {
    if a == [] {
      assert a + b == b;
    } else {
      assert (a + b)[1..] == a[1..] + b;
      LargestAppend(a[1..], b);
    }
  }

  lemma RotationKeepsLargest(samples: seq<Sample>, i: nat)
    requires i <= |samples|
    ensures Largest(Measured(Rotated(samples, i))) == Largest(Measured(samples))
  {
    hide Measured, Largest;
    var a, b := samples[..i], samples[i..];
    assert samples == a + b;
    MeasuredAppend(a, b);
    MeasuredAppend(b, a);
    LargestAppend(Measured(a), Measured(b));
    LargestAppend(Measured(b), Measured(a));
  }

  /* ----- p99 of a small window ----- */

  ghost predicate IsSorted(xs: seq<U32>) {
    forall i, j :: 0 <= i < j < |xs| ==> xs[i] <= xs[j]
  }

  lemma {:induction false} InsertSorted(x: U32, sorted: seq<U32>)
    requires IsSorted(sorted)
    ensures IsSorted(Insert(x, sorted))
    ensures forall y :: y in Insert(x, sorted) <==> y == x || y in sorted
    ensures |Insert(x, sorted)| == |sorted| + 1
  {
    if sorted != [] && x > sorted[0] {
      InsertSorted(x, sorted[1..]);
      var rest := Insert(x, sorted[1..]);
      assert sorted == [sorted[0]] + sorted[1..];
      forall i | 0 <= i < |rest| ensures sorted[0] <= rest[i] {
        assert rest[i] in rest;
      }
    }
  }

  lemma {:induction false} SortedIsSorted(xs: seq<U32>)
    ensures IsSorted(Sorted(xs)) && |Sorted(xs)| == |xs|
    ensures forall y :: y in Sorted(xs) <==> y in xs
  {
    if xs != [] {
      SortedIsSorted(xs[1..]);
      InsertSorted(xs[0], Sorted(xs[1..]));
      assert xs == [xs[0]] + xs[1..];
    }
  }

  lemma {:induction false} LargestBounds(xs: seq<U32>)
    ensures forall x :: x in xs ==> x <= Largest(xs)
    ensures xs != [] ==> Largest(xs) in xs
  {
    if xs != [] {
      LargestBounds(xs[1..]);
      assert xs == [xs[0]] + xs[1..];
      assert |xs| == 1 ==> Largest(xs) == xs[0];
    }
  }

  /** Below a hundred samples the nearest rank of p99 is the last one, so p99
      is the largest measured latency, or 0 when none was measured. */
  lemma P99IsLargest(samples: seq<Sample>)
    requires |samples| < 100
    ensures P99(samples) == Largest(Measured(samples))
  {
    hide Measured, Largest, Sorted;
    var xs := Measured(samples);
    var sorted := Sorted(xs);
    SortedIsSorted(xs);
    LargestBounds(xs);
    MeasuredLength(samples);
    if xs != [] {
      assert P99Index(|xs|) == |xs| - 1;
      assert sorted[|xs| - 1] in sorted && Largest(xs) in sorted;
    } else {
      LargestOfNone();
    }
  }

  lemma LargestOfNone()
    ensures Largest([]) == 0
  {
  }

  lemma {:induction false} MeasuredLength(samples: seq<Sample>)
    ensures |Measured(samples)| <= |samples|
  {
    if samples != [] {
      MeasuredLength(samples[1..]);
    }
  }

  /** The failures are counted one by one. */
  lemma {:induction false} FailuresCounted(samples: seq<Sample>)
    ensures Failures(samples) == |set i: nat | i < |samples| && samples[i].failed|
  {
    if samples != [] {
      var n := |samples| - 1;
      FailuresCounted(samples[..n]);
      assert samples == samples[..n] + [samples[n]];
      FailuresAppend(samples[..n], [samples[n]]);
      var before := set i: nat | i < n && samples[..n][i].failed;
      var all := set i: nat | i < |samples| && samples[i].failed;
      assert all == if samples[n].failed then before + {n} else before;
      assert Failures([samples[n]]) == if samples[n].failed then 1 else 0;
    }
  }

  /** The measured latencies are those of the samples, but for the mark that
      nothing was measured. */
  lemma {:induction false} MeasuredAre(samples: seq<Sample>, latency: U32)
    ensures latency in Measured(samples)
       <==> latency != U32_MAX && (Sample(true, latency) in samples || Sample(false, latency) in samples)
  {
    if samples != [] {
      MeasuredAre(samples[1..], latency);
      assert samples == [samples[0]] + samples[1..];
      assert samples[0] == Sample(true, latency) || samples[0] == Sample(false, latency)
        <==> samples[0].latencyMs == latency;
    }
  }

  /** The rounded error rate reaches a threshold exactly when the failures do. */
  lemma ErrorRateReachesIff(samples: seq<Sample>, threshold: nat)
    requires samples != []
    ensures ErrorRateBps(samples) >= threshold <==> Failures(samples) * 10_000 >= threshold * |samples|
  {
    var scaled, n := Failures(samples) * 10_000, |samples|;
    DivMod(scaled, n);
    if scaled / n >= threshold {
      MulMonotone(threshold, scaled / n, n);
    } else {
      MulMonotone(scaled / n + 1, threshold, n);
      Distribute(n, scaled / n, 1);
    }
  }
}
