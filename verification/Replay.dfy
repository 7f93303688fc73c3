/** The generator that replays the events of a file, restamped on the device clock. */
module Replay {
  import opened VehicleTypes

  /** How far the replay is: the next event of the file, the last time given out, and the iterations
      left, negative for a replay without end. */
  datatype Progress = Progress(index: nat, last: int, iterations: int)

  datatype Outcome = Exhausted | Generated(event: VehiclePropValue) | Aborted

  // The pause between two iterations, one millisecond.
  const RESTART_NANOS: int := 1000000

  function NextTime(events: seq<VehiclePropValue>, p: Progress): int
    requires p.index < |events|
  {
    p.last + if p.index > 0 then events[p.index].timestamp - events[p.index - 1].timestamp else RESTART_NANOS
  }

  // One call; `now` is what the clock shows if it is asked.
  function Next(events: seq<VehiclePropValue>, p: Progress, now: int): (Progress, Outcome)
    requires p.index < |events| || events == []
  {
    if p.iterations == 0 || events == [] then (p, Exhausted)
    else
      var time := if p.last == 0 then now else NextTime(events, p);
      if p.last != 0 && time <= p.last then (p, Aborted)
      else
        var wraps := p.index + 1 == |events|;
        (Progress(if wraps then 0 else p.index + 1, time,
                  if wraps && p.iterations > 0 then p.iterations - 1 else p.iterations),
         Generated(events[p.index].(timestamp := time)))
  }

  // The progress before the n-th call of a generator of `iterations`, and what that call gives.
  function Before(events: seq<VehiclePropValue>, iterations: int, clock: nat -> int, n: nat): (p: Progress)
    ensures p.index < |events| || events == []
  {
    if n == 0 then Progress(0, 0, iterations)
    else Next(events, Before(events, iterations, clock, n - 1), clock(n - 1)).0
  }

  function Nth(events: seq<VehiclePropValue>, iterations: int, clock: nat -> int, n: nat): Outcome {
    Next(events, Before(events, iterations, clock, n), clock(n)).1
  }

  predicate IncreasingUpTo(events: seq<VehiclePropValue>, n: nat) {
    forall i :: 0 < i < n && i < |events| ==> events[i - 1].timestamp < events[i].timestamp
  }

  predicate Increasing(events: seq<VehiclePropValue>) {
    IncreasingUpTo(events, |events|)
  }

  // ---- The closed form ----

  // From the first event of one iteration to the first of the next.
  function Period(events: seq<VehiclePropValue>): int
    requires events != []
  {
    events[|events| - 1].timestamp - events[0].timestamp + 1000000
  }

  function TimeOf(events: seq<VehiclePropValue>, start: int, n: nat): int
    requires events != []
  {
    start + n / |events| * Period(events) + events[n % |events|].timestamp - events[0].timestamp
  }

  lemma DivisionStep(n: nat, m: nat)
    requires m > 0
    ensures n % m < m - 1 ==> (n + 1) % m == n % m + 1 && (n + 1) / m == n / m
    ensures n % m == m - 1 ==> (n + 1) % m == 0 && (n + 1) / m == n / m + 1
  {
    assert n == n / m * m + n % m;
    if n % m < m - 1 {
      DivisionIs(n + 1, m, n / m, n % m + 1);
    } else {
      assert (n / m + 1) * m == n / m * m + m;
      DivisionIs(n + 1, m, n / m + 1, 0);
    }
  }

  lemma DivisionIs(n: int, m: nat, q: int, r: int)
    requires m > 0 && n == q * m + r && 0 <= r < m
    ensures n / m == q && n % m == r
  {
    QuotientIsUnique(m, n / m, n % m, q, r);
  }

  lemma QuotientIsUnique(m: nat, a: int, b: int, q: int, r: int)
    requires m > 0 && a * m + b == q * m + r && 0 <= b < m && 0 <= r < m
    ensures a == q && b == r
  {
    assert (q + 1) * m == q * m + m && (a + 1) * m == a * m + m;
    if a > q {
      ProductGrows(q + 1, a, m);
    } else if a < q {
      ProductGrows(a + 1, q, m);
    }
  }

  lemma ProductGrows(x: int, y: int, m: nat)
    requires x <= y
    ensures x * m <= y * m
  {
  }

  /** Consecutive times differ as the code says. */
  lemma TimeStep(events: seq<VehiclePropValue>, start: int, n: nat)
    requires events != []
    ensures var i := (n + 1) % |events|;
            TimeOf(events, start, n + 1) - TimeOf(events, start, n) ==
              if i > 0 then events[i].timestamp - events[i - 1].timestamp else RESTART_NANOS
  {
    DivisionStep(n, |events|);
    assert (n / |events| + 1) * Period(events) == n / |events| * Period(events) + Period(events);
  }

  lemma {:induction false} SortedFromStart(events: seq<VehiclePropValue>, i: nat)
    requires i < |events| && IncreasingUpTo(events, i + 1)
    ensures events[0].timestamp <= events[i].timestamp
  {
    if i > 0 {
      SortedFromStart(events, i - 1);
    }
  }

  lemma {:induction false} TimesArePositive(events: seq<VehiclePropValue>, start: int, n: nat)
    requires events != [] && Increasing(events) && start > 0
    ensures TimeOf(events, start, n) > 0
  {
    SortedFromStart(events, n % |events|);
    SortedFromStart(events, |events| - 1);
    assert Period(events) >= 0;
    hide Period, Increasing;
    ProductIsNatural(n / |events|, Period(events));
  }

  lemma ProductIsNatural(x: nat, y: nat)
    ensures x * y >= 0
  {
  }

  /** Generated times strictly increase, across iterations too. */
  lemma {:induction false} TimesIncrease(events: seq<VehiclePropValue>, start: int, n: nat, later: nat)
    requires events != [] && Increasing(events) && n < later
    ensures TimeOf(events, start, n) < TimeOf(events, start, later)
    decreases later
  {
    TimeStep(events, start, later - 1);
    if n < later - 1 {
      TimesIncrease(events, start, n, later - 1);
    }
  }

  // The number of calls that yield an event.
  predicate Remains(events: seq<VehiclePropValue>, iterations: int, n: nat) {
    iterations < 0 || n < iterations * |events|
  }

  lemma ProductIsZero(k: int, m: nat, n: nat)
    requires m > 0 && k >= 0 && n == k * m
    ensures n / m == k && n % m == 0
  {
    DivisionIs(n, m, k, 0);
  }

  lemma RemainsByDivision(k: nat, m: nat, n: nat)
    requires m > 0
    ensures n < k * m <==> n / m < k
  {
    assert n == n / m * m + n % m;
    if n / m < k {
      assert (n / m + 1) * m <= k * m;
    } else {
      assert n / m * m >= k * m;
    }
  }

  // The progress before call n of a replay that started at `start`.
  function ProgressAt(events: seq<VehiclePropValue>, iterations: int, start: int, n: nat): Progress
    requires events != []
  {
    Progress(n % |events|, if n == 0 then 0 else TimeOf(events, start, n - 1),
             if iterations < 0 then iterations else iterations - n / |events|)
  }

  lemma NextIs(events: seq<VehiclePropValue>, iterations: int, start: int, n: nat, now: int)
    requires events != [] && Increasing(events) && Remains(events, iterations, n)
    requires now == TimeOf(events, start, n) || (n > 0 && TimeOf(events, start, n - 1) != 0)
    ensures Next(events, ProgressAt(events, iterations, start, n), now).0 ==
            ProgressAt(events, iterations, start, n + 1)
  {
    hide TimeOf, Increasing;
    if iterations >= 0 {
      RemainsByDivision(iterations, |events|, n);
    }
    if n > 0 {
      TimesIncrease(events, start, n - 1, n);
      TimeStep(events, start, n - 1);
    }
    DivisionStep(n, |events|);
  }

  /** Where the closed form passes through zero, the clock that is asked again shows the next time of
      the closed form; for the calls before call n. */
  ghost predicate AgreesBefore(events: seq<VehiclePropValue>, clock: nat -> int, n: nat)
    requires events != []
  {
    forall m: nat :: m + 1 < n && TimeOf(events, clock(0), m) == 0 ==> clock(m + 1) == TimeOf(events, clock(0), m + 1)
  }

  lemma {:induction false} ProgressIs(events: seq<VehiclePropValue>, iterations: int, clock: nat -> int, n: nat)
    requires events != [] && Increasing(events) && AgreesBefore(events, clock, n)
    requires n == 0 || Remains(events, iterations, n - 1)
    ensures Before(events, iterations, clock, n) == ProgressAt(events, iterations, clock(0), n)
  {
    hide TimeOf, Increasing;
    if n > 0 {
      ProgressIs(events, iterations, clock, n - 1);
      hide ProgressAt, Next;
      StartTime(events, clock(0));
      assert n > 1 && TimeOf(events, clock(0), n - 2) == 0 ==> clock(n - 2 + 1) == TimeOf(events, clock(0), n - 2 + 1);
      NextIs(events, iterations, clock(0), n - 1, clock(n - 1));
    }
  }

  lemma StartTime(events: seq<VehiclePropValue>, start: int)
    requires events != []
    ensures TimeOf(events, start, 0) == start
  {
    assert 0 / |events| == 0 && 0 % |events| == 0;
  }

  /** What the n-th call gives in closed form. */
  function Replayed(events: seq<VehiclePropValue>, iterations: int, start: int, n: nat): Outcome {
    if events == [] || !Remains(events, iterations, n) then Exhausted
    else Generated(events[n % |events|].(timestamp := TimeOf(events, start, n)))
  }

  /** The closed form passes through zero only where the clock agrees with it. */
  ghost predicate ClockAgrees(events: seq<VehiclePropValue>, iterations: int, clock: nat -> int)
    requires events != []
  {
    forall m: nat :: Remains(events, iterations, m + 1) && TimeOf(events, clock(0), m) == 0 ==>
                       clock(m + 1) == TimeOf(events, clock(0), m + 1)
  }

  lemma NthIs(events: seq<VehiclePropValue>, iterations: int, clock: nat -> int, n: nat)
    requires events != [] && Increasing(events) && ClockAgrees(events, iterations, clock)
    ensures Nth(events, iterations, clock, n) == Replayed(events, iterations, clock(0), n)
  {
    hide TimeOf, Increasing;
    if Remains(events, iterations, n) {
      ProgressIs(events, iterations, clock, n);
      if iterations >= 0 {
        RemainsByDivision(iterations, |events|, n);
      }
      StartTime(events, clock(0));
      if n > 0 {
        assert TimeOf(events, clock(0), n - 1) == 0 ==> clock(n - 1 + 1) == TimeOf(events, clock(0), n - 1 + 1);
        TimesIncrease(events, clock(0), n - 1, n);
        TimeStep(events, clock(0), n - 1);
      }
    } else {
      StaysExhausted(events, iterations, clock, n);
    }
  }

  /** The replay in closed form. With k iterations of m events whose times strictly increase, exactly
      k * m calls yield an event, every call does when k is negative; the n-th, n = q * m + r, is
      event r at the start plus q periods plus its distance from the first event of the file. */
  lemma ReplayIs(events: seq<VehiclePropValue>, iterations: int, clock: nat -> int, n: nat)
    requires Increasing(events) && clock(0) > 0
    ensures Nth(events, iterations, clock, n) == Replayed(events, iterations, clock(0), n)
  {
    if events != [] {
      forall m: nat ensures TimeOf(events, clock(0), m) != 0 {
        TimesArePositive(events, clock(0), m);
      }
      NthIs(events, iterations, clock, n);
    } else {
      NothingFromNothing(iterations, clock, n);
    }
  }

  /** For any clock: a last time of zero counts as none, and the clock is asked again. So the closed
      form holds exactly when the clock agrees with it wherever it passes through zero. */
  lemma ReplayIsExactly(events: seq<VehiclePropValue>, iterations: int, clock: nat -> int)
    requires events != [] && Increasing(events)
    ensures (forall n: nat :: Nth(events, iterations, clock, n) == Replayed(events, iterations, clock(0), n))
            <==> ClockAgrees(events, iterations, clock)
  {
    hide TimeOf, Increasing, Nth, Replayed;
    if ClockAgrees(events, iterations, clock) {
      forall n: nat ensures Nth(events, iterations, clock, n) == Replayed(events, iterations, clock(0), n) {
        NthIs(events, iterations, clock, n);
      }
    }
    if forall n: nat :: Nth(events, iterations, clock, n) == Replayed(events, iterations, clock(0), n) {
      forall m: nat | Remains(events, iterations, m + 1) && TimeOf(events, clock(0), m) == 0
        ensures clock(m + 1) == TimeOf(events, clock(0), m + 1)
      {
        AskedAgain(events, iterations, clock, m);
        assert Nth(events, iterations, clock, m + 1) == Replayed(events, iterations, clock(0), m + 1);
      }
    }
  }

  lemma AskedAgain(events: seq<VehiclePropValue>, iterations: int, clock: nat -> int, m: nat)
    requires events != [] && Increasing(events) && Remains(events, iterations, m + 1) &&
             TimeOf(events, clock(0), m) == 0
    ensures Nth(events, iterations, clock, m + 1) == Replayed(events, iterations, clock(0), m + 1) ==>
              clock(m + 1) == TimeOf(events, clock(0), m + 1)
  {
    hide TimeOf, Increasing;
    forall k: nat | k < m ensures TimeOf(events, clock(0), k) != 0 {
      TimesIncrease(events, clock(0), k, m);
    }
    ProgressIs(events, iterations, clock, m + 1);
    if iterations >= 0 {
      RemainsByDivision(iterations, |events|, m + 1);
    }
  }

  /** For a clock that does not start below zero, as the device clock, only the second call matters. */
  lemma ZeroStartExactly(events: seq<VehiclePropValue>, iterations: int, clock: nat -> int)
    requires events != [] && Increasing(events) && clock(0) >= 0
    ensures (forall n: nat :: Nth(events, iterations, clock, n) == Replayed(events, iterations, clock(0), n))
            <==> clock(0) > 0 || !Remains(events, iterations, 1) || clock(1) == TimeOf(events, 0, 1)
  {
    hide TimeOf, Increasing, Nth, Replayed;
    ReplayIsExactly(events, iterations, clock);
    StartTime(events, clock(0));
    forall m: nat | m > 0 ensures TimeOf(events, clock(0), m) != 0 {
      TimesIncrease(events, clock(0), 0, m);
    }
    assert TimeOf(events, clock(0), 0) == clock(0);
    assert ClockAgrees(events, iterations, clock) ==> (Remains(events, iterations, 0 + 1) && clock(0) == 0 ==>
                                                         clock(0 + 1) == TimeOf(events, clock(0), 0 + 1));
  }

  lemma {:induction false} NothingFromNothing(iterations: int, clock: nat -> int, n: nat)
    ensures Nth([], iterations, clock, n) == Exhausted
  {
  }

  lemma {:induction false} StaysExhausted(events: seq<VehiclePropValue>, iterations: nat, clock: nat -> int, n: nat)
    requires events != [] && Increasing(events) && ClockAgrees(events, iterations, clock) && n >= iterations * |events|
    ensures Before(events, iterations, clock, n).iterations == 0
  {
    hide TimeOf, Increasing;
    if n == iterations * |events| {
      if n > 0 {
        ProgressIs(events, iterations, clock, n);
      } else {
        assert iterations * |events| == 0;
      }
      ProductIsZero(iterations, |events|, n);
    } else {
      StaysExhausted(events, iterations, clock, n - 1);
    }
  }

  // ---- When the overflow assertion can fail ----

  lemma {:induction false} FirstIteration(events: seq<VehiclePropValue>, iterations: int, clock: nat -> int, n: nat)
    requires n < |events| && IncreasingUpTo(events, n) && clock(0) > 0 && iterations != 0
    ensures Before(events, iterations, clock, n) ==
            Progress(n, if n == 0 then 0 else clock(0) + events[n - 1].timestamp - events[0].timestamp, iterations)
  {
    if n > 0 {
      FirstIteration(events, iterations, clock, n - 1);
      if n > 1 {
        SortedFromStart(events, n - 2);
        assert events[n - 2].timestamp < events[n - 1].timestamp;
      }
    }
  }

  lemma {:induction false} FirstDrop(events: seq<VehiclePropValue>, n: nat) returns (i: nat)
    requires n <= |events| && !IncreasingUpTo(events, n)
    ensures 0 < i < n && IncreasingUpTo(events, i) && events[i].timestamp <= events[i - 1].timestamp
  {
    if IncreasingUpTo(events, n - 1) {
      i := n - 1;
    } else {
      i := FirstDrop(events, n - 1);
    }
  }

  /** The assertion against overflow never fails exactly when the times in the file strictly increase. */
  lemma AbortsUnlessIncreasing(events: seq<VehiclePropValue>, iterations: int, clock: nat -> int)
    requires clock(0) > 0 && iterations != 0
    ensures (forall n: nat :: Nth(events, iterations, clock, n) != Aborted) <==> Increasing(events)
  {
    if Increasing(events) {
      forall n: nat ensures Nth(events, iterations, clock, n) != Aborted {
        ReplayIs(events, iterations, clock, n);
      }
    } else {
      var i := FirstDrop(events, |events|);
      FirstIteration(events, iterations, clock, i);
      SortedFromStart(events, i - 1);
      assert Nth(events, iterations, clock, i) == Aborted;
    }
  }

  /** A first time of zero counts as none: the second event is stamped by the clock again. */
  lemma ZeroStartAsksAgain(pa: PropArea, raw: RawPropValues)
    ensures var events := [VehiclePropValue(pa, 0, 0, raw), VehiclePropValue(pa, 5, 0, raw)];
            var clock := (n: nat) => 100 * n;
            Nth(events, 1, clock, 1) == Generated(events[1].(timestamp := 100)) && TimeOf(events, clock(0), 1) == 5
  {
    var events := [VehiclePropValue(pa, 0, 0, raw), VehiclePropValue(pa, 5, 0, raw)];
    var clock := (n: nat) => 100 * n;
    assert Before(events, 1, clock, 1) == Next(events, Before(events, 1, clock, 0), clock(0)).0;
  }

  // ---- The object ----

  class JsonFakeValueGenerator {
    const events: seq<VehiclePropValue>
    var eventIndex: nat
    var lastEventTimestamp: int
    var numOfIterations: int

    ghost predicate Valid()
      reads this
    {
      eventIndex < |events| || events == []
    }

    ghost function View(): Progress
      reads this
    {
      Progress(eventIndex, lastEventTimestamp, numOfIterations)
    }

    constructor (events: seq<VehiclePropValue>, iterations: int)
      ensures Valid() && this.events == events && View() == Progress(0, 0, iterations)
    {
      this.events, eventIndex, lastEventTimestamp, numOfIterations := events, 0, 0, iterations;
    }

    method NextEvent(now: int) returns (r: Outcome)
      requires Valid()
      modifies this
      ensures Valid() && (View(), r) == Next(events, old(View()), now)
    {
      if numOfIterations == 0 || |events| == 0 {
        return Exhausted;
      }
      var generatedValue := events[eventIndex];
      if lastEventTimestamp == 0 {
        lastEventTimestamp := now;
      } else {
        var nextEventTime := 0;
        if eventIndex > 0 {
          nextEventTime := lastEventTimestamp + (events[eventIndex].timestamp - events[eventIndex - 1].timestamp);
        } else {
          nextEventTime := lastEventTimestamp + RESTART_NANOS;
        }
        if nextEventTime <= lastEventTimestamp {
          return Aborted;
        }
        lastEventTimestamp := nextEventTime;
      }
      eventIndex := eventIndex + 1;
      if eventIndex == |events| {
        eventIndex := 0;
        if numOfIterations > 0 {
          numOfIterations := numOfIterations - 1;
        }
      }
      r := Generated(generatedValue.(timestamp := lastEventTimestamp));
    }

    /** Whether the next call would yield an event, or fail on its assertion. */
    predicate HasNext()
      requires Valid()
      reads this
      ensures forall now: int :: HasNext() <==> Next(events, View(), now).1 != Exhausted
    {
      numOfIterations != 0 && |events| > 0
    }
  }
}
