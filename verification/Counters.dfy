/** Telemetry counters: 64-bit words that wrap, latency sums, maxima and the reported averages. */
module Counters {
  import opened Base
  import opened Decisions

  datatype ClassifyCounters = ClassifyCounters(
    total: U64, blocked: U64, steered: U64, permitted: U64, observed: U64,
    latencySum: U64, latencySamples: U64, maxLatency: U64)

  datatype IpcCounters = IpcCounters(dispatches: U64, rejects: U64, latencySum: U64, latencySamples: U64,
                                     maxLatency: U64)

  datatype Telemetry = Telemetry(classify: ClassifyCounters, errors: U64, dnsObserved: U64, ipc: IpcCounters)

  const ZERO_CLASSIFY: ClassifyCounters := ClassifyCounters(0, 0, 0, 0, 0, 0, 0, 0)
  const ZERO_IPC: IpcCounters := IpcCounters(0, 0, 0, 0, 0)
  const ZERO_TELEMETRY: Telemetry := Telemetry(ZERO_CLASSIFY, 0, 0, ZERO_IPC)

  const SAMPLE_PERIOD: int := 0x100

  function Bump(w: U64): U64 {
    Add64(w, 1)
  }

  function Larger(a: U64, b: U64): U64 {
    if a < b then b else a
  }

  function CountAction(c: ClassifyCounters, a: Action): ClassifyCounters {
    match a
    case Block => c.(blocked := Bump(c.blocked))
    case Steer => c.(steered := Bump(c.steered))
    case Observe => c.(observed := Bump(c.observed))
    case Permit => c.(permitted := Bump(c.permitted))
  }

  /** The sampler runs when the low eight bits of its own sample counter are zero. */
  function Sample(c: ClassifyCounters, latency: U64): ClassifyCounters {
    if c.latencySamples % SAMPLE_PERIOD != 0 then c
    else c.(latencySum := Add64(c.latencySum, latency),
            latencySamples := Bump(c.latencySamples),
            maxLatency := Larger(c.maxLatency, latency))
  }

  function RecordClassify(c: ClassifyCounters, a: Action, latency: U64): ClassifyCounters {
    Sample(CountAction(c.(total := Bump(c.total)), a), latency)
  }

  function RecordIpc(c: IpcCounters, rejected: bool, latency: U64): IpcCounters {
    IpcCounters(Bump(c.dispatches), if rejected then Bump(c.rejects) else c.rejects,
                Add64(c.latencySum, latency), Bump(c.latencySamples), Larger(c.maxLatency, latency))
  }

  function Average(sum: U64, samples: U64): U64 {
    if 0 < samples then Quotient(sum, samples) else 0
  }

  /** A word bumped when its count grows by one keeps reducing the count. */
  lemma WordFollows(word: U64, n: nat, up: bool)
    requires word == Low64(n)
    ensures (if up then Bump(word) else word) == Low64(n + if up then 1 else 0)
  {
    Low64Add(n, 1);
  }

  /** Unsigned division. */
  function Quotient(a: U64, b: U64): (q: U64)
    requires 0 < b
    ensures q <= a
  {
    if a < b then 0 else 1 + Quotient(a - b, b)
  }

  lemma ProductMonotone(m: nat, n: nat, b: nat)
    requires m <= n
    ensures m * b <= n * b
  {
  }

  /** The product with b is within b of a for one number only: the integer quotient. */
  lemma DivisionUnique(a: nat, b: nat, q: nat)
    requires 0 < b && q * b <= a < q * b + b
    ensures q == a / b
  {
    var d := a / b;
    assert d * b <= a < d * b + b;
    assert (q + 1) * b == q * b + b && (d + 1) * b == d * b + b;
    if q < d { ProductMonotone(q + 1, d, b); }
    if d < q { ProductMonotone(d + 1, q, b); }
  }

  lemma {:induction false} QuotientBounds(a: U64, b: U64)
    requires 0 < b
    ensures Quotient(a, b) * b <= a < Quotient(a, b) * b + b
    decreases a
  {
    if b <= a {
      QuotientBounds(a - b, b);
      var q := Quotient(a - b, b);
      assert (q + 1) * b == q * b + b;
    }
  }

  /** Quotient is the integer quotient. */
  lemma QuotientIsDivision(a: U64, b: U64)
    requires 0 < b
    ensures Quotient(a, b) == a / b
  {
    QuotientBounds(a, b);
    DivisionUnique(a, b, Quotient(a, b));
  }

  /** A reported average: zero without samples, otherwise the integer quotient. */
  lemma AverageExactly(sum: U64, samples: U64)
    ensures Average(sum, samples) == if samples == 0 then 0 else sum / samples
  {
    if 0 < samples { QuotientIsDivision(sum, samples); }
  }

  /** n times m, by repeated addition. */
  ghost function Times(n: nat, m: nat): nat {
    if n == 0 then 0 else Times(n - 1, m) + m
  }

  lemma {:induction false} TimesLaws(n: nat, m: nat, k: nat)
    requires m <= k
    ensures Times(n, m) <= Times(n, k) && Times(n, 0) == 0
    ensures 0 < m ==> Times(n, m) == n + Times(n, m - 1)
  {
    if 0 < n { TimesLaws(n - 1, m, k); }
  }

  lemma {:induction false} QuotientAtMost(a: U64, b: U64, m: nat)
    requires 0 < b && a <= Times(b, m)
    ensures Quotient(a, b) <= m
    decreases a
  {
    TimesLaws(b, m, m);
    if b <= a {
      QuotientAtMost(a - b, b, m - 1);
    }
  }

  lemma {:induction false} QuotientByOne(a: U64)
    ensures Quotient(a, 1) == a
  {
    if 1 <= a { QuotientByOne(a - 1); }
  }

  // ----- classification counters -----

  ghost function ClassifyRun(h: seq<(Action, U64)>): ClassifyCounters {
    if h == [] then ZERO_CLASSIFY
    else RecordClassify(ClassifyRun(h[..|h| - 1]), h[|h| - 1].0, h[|h| - 1].1)
  }

  ghost function Occurrences(h: seq<(Action, U64)>, a: Action): nat {
    if h == [] then 0 else Occurrences(h[..|h| - 1], a) + (if h[|h| - 1].0 == a then 1 else 0)
  }

  /**
   The sampler tests the counter it alone increments, so it takes the first latency and never
   another: average and maximum both are the first classification's latency for ever.
   */
  lemma {:induction false} OnlyFirstSample(h: seq<(Action, U64)>)
    ensures var c := ClassifyRun(h);
            if h == [] then c == ZERO_CLASSIFY
            else c.latencySamples == 1 && c.maxLatency == h[0].1 == Average(c.latencySum, c.latencySamples)
  {
    if h != [] {
      OnlySample(h);
      QuotientByOne(h[0].1);
    }
  }

  lemma {:induction false} OnlySample(h: seq<(Action, U64)>)
    requires h != []
    ensures ClassifyRun(h).latencySamples == 1 && ClassifyRun(h).latencySum == ClassifyRun(h).maxLatency == h[0].1
  {
    if 1 < |h| { OnlySample(h[..|h| - 1]); }
  }

  function Bucket(c: ClassifyCounters, a: Action): U64 {
    match a case Block => c.blocked case Steer => c.steered case Observe => c.observed case Permit => c.permitted
  }

  lemma RecordClassifyEffect(c: ClassifyCounters, a: Action, latency: U64, b: Action)
    ensures RecordClassify(c, a, latency).total == Bump(c.total)
    ensures Bucket(RecordClassify(c, a, latency), b) == if a == b then Bump(Bucket(c, b)) else Bucket(c, b)
  {
  }

  /** Each bucket counts the results with its action, and the total counts them all, modulo 2^64. */
  lemma {:induction false} BucketsCountActions(h: seq<(Action, U64)>, a: Action)
    ensures ClassifyRun(h).total == Low64(|h|)
    ensures Bucket(ClassifyRun(h), a) == Low64(Occurrences(h, a))
  {
    if h != [] {
      var p := h[..|h| - 1];
      BucketsCountActions(p, a);
      RecordClassifyEffect(ClassifyRun(p), h[|p|].0, h[|p|].1, a);
      Low64Add(|p|, 1);
      Low64Add(Occurrences(p, a), 1);
    }
  }

  /** The five words by name. */
  lemma ClassifyWords(h: seq<(Action, U64)>)
    ensures var c := ClassifyRun(h);
            && c.total == Low64(|h|)
            && c.blocked == Low64(Occurrences(h, Block)) && c.steered == Low64(Occurrences(h, Steer))
            && c.permitted == Low64(Occurrences(h, Permit)) && c.observed == Low64(Occurrences(h, Observe))
  {
    BucketsCountActions(h, Block);
    BucketsCountActions(h, Steer);
    BucketsCountActions(h, Permit);
    BucketsCountActions(h, Observe);
  }

  // ----- IPC counters -----

  ghost function IpcRun(h: seq<(bool, U64)>): IpcCounters {
    if h == [] then ZERO_IPC
    else RecordIpc(IpcRun(h[..|h| - 1]), h[|h| - 1].0, h[|h| - 1].1)
  }

  ghost function Total(h: seq<(bool, U64)>): nat {
    if h == [] then 0 else Total(h[..|h| - 1]) + h[|h| - 1].1
  }

  ghost function Rejected(h: seq<(bool, U64)>): (n: nat)
    ensures n <= |h|
  {
    if h == [] then 0 else Rejected(h[..|h| - 1]) + (if h[|h| - 1].0 then 1 else 0)
  }

  ghost function Largest(h: seq<(bool, U64)>): U64 {
    if h == [] then 0 else Larger(Largest(h[..|h| - 1]), h[|h| - 1].1)
  }

  lemma {:induction false} IpcWords(h: seq<(bool, U64)>)
    ensures IpcRun(h) == IpcCounters(Low64(|h|), Low64(Rejected(h)), Low64(Total(h)), Low64(|h|), Largest(h))
  {
    if h != [] {
      var p := h[..|h| - 1];
      IpcWords(p);
      Low64Add(|p|, 1);
      Low64Add(Rejected(p), 1);
      Low64Add(Total(p), h[|p|].1);
    }
  }

  /** The maximum of a history is one of its latencies and none exceeds it. */
  lemma {:induction false} LargestExactly(h: seq<(bool, U64)>)
    ensures forall i :: 0 <= i < |h| ==> h[i].1 <= Largest(h)
    ensures if h == [] then Largest(h) == 0 else exists i :: 0 <= i < |h| && h[i].1 == Largest(h)
  {
    if h != [] {
      var p, n := h[..|h| - 1], |h| - 1;
      LargestExactly(p);
      assert forall i :: 0 <= i < n ==> h[i] == p[i];
      if Largest(p) < h[n].1 || p == [] {
        assert h[n].1 == Largest(h);
      } else {
        var i :| 0 <= i < |p| && p[i].1 == Largest(p);
        assert h[i].1 == Largest(h);
      }
    }
  }

  lemma {:induction false} TotalAtMost(h: seq<(bool, U64)>)
    ensures Total(h) <= Times(|h|, Largest(h))
  {
    if h != [] {
      var p := h[..|h| - 1];
      TotalAtMost(p);
      TimesLaws(|p|, Largest(p), Largest(h));
    }
  }

  /** The number of dispatches for which the average is sound however the 64-bit sum wraps. */
  predicate AverageSound(n: nat) {
    n <= TWO64 || Low64(n) == 0 || TWO64 / 2 <= Low64(n)
  }

  lemma AverageWithinMaximum(h: seq<(bool, U64)>)
    requires AverageSound(|h|)
    ensures var c := IpcRun(h); Average(c.latencySum, c.latencySamples) <= c.maxLatency
  {
    IpcWords(h);
    TotalAtMost(h);
    if 0 < Low64(|h|) {
      AverageBound(|h|, Total(h), Largest(h));
    }
  }

  lemma AverageBound(n: nat, total: nat, m: U64)
    requires AverageSound(n) && 0 < Low64(n) && total <= Times(n, m)
    ensures Quotient(Low64(total), Low64(n)) <= m
  {
    if n < TWO64 {
      QuotientAtMost(Low64(total), Low64(n), m);
    } else if m == 0 {
      TimesLaws(n, 0, 0);
      QuotientAtMost(Low64(total), Low64(n), 0);
    } else {
      assert Low64(TWO64) == 0;
    }
  }

  /** n dispatches of which the first k are rejected after one tick and the others succeed in none. */
  ghost function Ticks(n: nat, k: nat): seq<(bool, U64)> {
    seq(n, i => (i < k, if i < k then 1 else 0))
  }

  lemma {:induction false} TicksTotal(n: nat, k: nat)
    ensures Total(Ticks(n, k)) == Rejected(Ticks(n, k)) == if n < k then n else k
    ensures Largest(Ticks(n, k)) <= 1
  {
    if 0 < n {
      assert Ticks(n, k)[..n - 1] == Ticks(n - 1, k);
      TicksTotal(n - 1, k);
    }
  }

  /** For every other number of dispatches some latencies make the reported average exceed the maximum. */
  lemma AverageBeyondMaximum(n: nat) returns (h: seq<(bool, U64)>)
    requires !AverageSound(n)
    ensures |h| == n && var c := IpcRun(h); Average(c.latencySum, c.latencySamples) > c.maxLatency
  {
    h := Ticks(n, TWO64 - 1);
    TicksTotal(n, TWO64 - 1);
    IpcWords(h);
    assert 2 <= Quotient(TWO64 - 1, Low64(n));
  }

  /**
   The reported IPC average never exceeds the reported maximum for n dispatches, whatever their
   latencies, exactly when n is at most 2^64, a multiple of it, or past a multiple by at least 2^63.
   */
  lemma AverageSoundExactly(n: nat)
    ensures AverageSound(n) <==>
            forall h: seq<(bool, U64)> :: |h| == n ==>
              Average(IpcRun(h).latencySum, IpcRun(h).latencySamples) <= IpcRun(h).maxLatency
  {
    if AverageSound(n) {
      forall h: seq<(bool, U64)> | |h| == n
        ensures Average(IpcRun(h).latencySum, IpcRun(h).latencySamples) <= IpcRun(h).maxLatency
      {
        AverageWithinMaximum(h);
      }
    } else {
      var h := AverageBeyondMaximum(n);
    }
  }

  /** The number of dispatches for which the reject word cannot pass the dispatch word. */
  predicate RejectsSound(n: nat) {
    n < TWO64 || Low64(n) == TWO64 - 1
  }

  /** Reported rejects never exceed reported dispatches exactly while the dispatch word has not wrapped, or is full. */
  lemma RejectsSoundExactly(n: nat)
    ensures RejectsSound(n) <==> forall h: seq<(bool, U64)> :: |h| == n ==> IpcRun(h).rejects <= IpcRun(h).dispatches
  {
    if RejectsSound(n) {
      forall h: seq<(bool, U64)> | |h| == n ensures IpcRun(h).rejects <= IpcRun(h).dispatches {
        IpcWords(h);
      }
    } else {
      var h := Ticks(n, TWO64 - 1);
      TicksTotal(n, TWO64 - 1);
      IpcWords(h);
    }
  }
}
