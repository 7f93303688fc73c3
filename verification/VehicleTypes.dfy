/** The vocabulary shared by every component: property addresses, status codes, property
    configurations and the arithmetic of sample rates. */
module VehicleTypes {

  datatype Option<+T> = None | Some(value: T)

  datatype StatusCode = Ok | InvalidArg | AccessDenied | TryAgain | NotAvailable | InternalError

  /** A [propId, areaId] pair, the unit of subscription. */
  datatype PropArea = PropArea(propId: int, areaId: int)

  datatype RawPropValues = RawPropValues(
    int32Values: seq<int>,
    int64Values: seq<int>,
    floatValues: seq<real>,
    byteValues: seq<bv8>,
    stringValue: string)

  datatype VehiclePropValue = VehiclePropValue(pa: PropArea, timestamp: int, status: int, value: RawPropValues)

  /** The identity of a client: the address of its binder. A client has one callback, so the
      callback is identified with the client. */
  datatype Client = Client(binder: int)

  datatype ChangeMode = Static | OnChange | Continuous

  datatype Access = NoAccess | Read | Write | ReadWrite

  datatype HasSupportedValueInfo = HasSupportedValueInfo(
    hasMinSupportedValue: bool,
    hasMaxSupportedValue: bool,
    hasSupportedValuesList: bool)

  datatype AreaConfig = AreaConfig(
    areaId: int,
    access: Access,
    supportsVur: bool,
    hasSupportedValueInfo: Option<HasSupportedValueInfo>)

  datatype PropConfig = PropConfig(
    access: Access,
    changeMode: ChangeMode,
    areaConfigs: seq<AreaConfig>,
    minSampleRate: real,
    maxSampleRate: real)

  // The config of an area is the first with its id.
  predicate IsConfigOf(areas: seq<AreaConfig>, i: nat, areaId: int) {
    && i < |areas| && areas[i].areaId == areaId
    && forall j :: 0 <= j < i ==> areas[j].areaId != areaId
  }

  type Configs = map<int, PropConfig>

  datatype SubscribeOptions = SubscribeOptions(
    propId: int,
    areaIds: seq<int>,
    sampleRate: real,
    resolution: real,
    enableVur: bool)

  const INT64_MAX: int := 0x7fff_ffff_ffff_ffff
  const ONE_SECOND_IN_NANOS: real := 1000000000.0

  // The largest finite float, the neutral element of the minimum over resolutions.
  const FLOAT_MAX: real := 340282346638528859811704183484516925440.0

  // Bits 24..27 of a property id hold its area type; 1 stands for GLOBAL. The Euclidean operators
  // read the bits of a negative id as two's complement does.
  predicate IsGlobalProp(propId: int) {
    propId / 0x100_0000 % 16 == 1
  }

  /** The four bits above the lower 24 decide, and the upper four do not matter. */
  lemma GlobalPropsExactly(propId: int)
    ensures IsGlobalProp(propId) <==> 0x100_0000 <= propId % 0x1000_0000 < 0x200_0000
  {
    var bits, lower := propId / 0x100_0000, propId % 0x100_0000;
    assert propId == 0x1000_0000 * (bits / 16) + 0x100_0000 * (bits % 16) + lower;
    assert propId % 0x1000_0000 == 0x100_0000 * (bits % 16) + lower;
  }

  /** The config an area of a property goes by: of a global property the first, of any other the first with
      the id of the area. */
  ghost predicate GoesBy(propId: int, areaId: int, config: PropConfig, i: nat) {
    if 0x100_0000 <= propId % 0x1000_0000 < 0x200_0000 then i == 0 && config.areaConfigs != []
    else IsConfigOf(config.areaConfigs, i, areaId)
  }

  // The C++ conversion from a floating point number to an integer drops the fraction.
  function Trunc(x: real): int {
    if x >= 0.0 then x.Floor else -((-x).Floor)
  }

  function IntervalNanos(rate: real): int
    requires rate != 0.0
  {
    Trunc(ONE_SECOND_IN_NANOS / rate)
  }

  // The period of a rate, in nanoseconds, lies from `interval` up to and without the next whole number.
  predicate IsPeriodOf(interval: real, rate: real) {
    0.0 <= interval && interval * rate <= 1000000000.0 < interval * rate + rate
  }

  lemma ProductsCompare(a: real, b: real, size: real, x: real, y: real)
    requires size > 0.0 && a * size == x && b * size == y
    ensures a <= b <==> x <= y
    ensures a == b <==> x == y
  {
    var gap := b - a;
    assert gap * size == y - x;
    if gap > 0.0 {
      assert gap * size > 0.0;
    } else if gap < 0.0 {
      assert gap * size < 0.0;
    }
  }

  lemma NextMultiple(n: real, rate: real)
    ensures (n + 1.0) * rate == n * rate + rate
  {
  }

  lemma PeriodBetween(n: real, period: real, rate: real, x: real, y: real)
    requires 0.0 <= n <= period < n + 1.0 && rate > 0.0 && period * rate == 1000000000.0
    requires x == n * rate && y == (n + 1.0) * rate
    ensures x <= 1000000000.0 < y
  {
    ProductsCompare(n, period, rate, x, 1000000000.0);
    ProductsCompare(n + 1.0, period, rate, y, 1000000000.0);
  }

  lemma IntervalIs(rate: real)
    requires rate > 0.0
    ensures IsPeriodOf(IntervalNanos(rate) as real, rate)
  {
    var period, n := ONE_SECOND_IN_NANOS / rate, IntervalNanos(rate);
    assert period >= 0.0 && period * rate == 1000000000.0;
    assert 0.0 <= n as real <= period < n as real + 1.0;
    NextMultiple(n as real, rate);
    PeriodBetween(n as real, period, rate, n as real * rate, (n as real + 1.0) * rate);
  }

  // The slowest rate whose interval would still fit a signed 64-bit integer.
  const RATE_LIMIT: real := ONE_SECOND_IN_NANOS / INT64_MAX as real

  predicate CheckSampleRate(rate: real) {
    0.0 < rate && RATE_LIMIT < rate
  }

  // Zero means full precision; anything else must be an integer power of ten, a test the manager
  // makes with a logarithm and which is a parameter here.
  predicate CheckResolution(powerOfTen: real -> bool, resolution: real) {
    resolution == 0.0 || powerOfTen(resolution)
  }

  lemma DivisionReverses(a: real, b: real, c: real)
    requires a >= 0.0 && 0.0 < b <= c
    ensures a / c <= a / b
  {
    var x, y := a / b, a / c;
    assert x * b == a && y * c == a;
    if x < y {
      assert y * c >= y * b > x * b;
    }
  }

  /** The check accepts a rate exactly when it is positive and its period in nanoseconds is below what a
      signed 64-bit integer holds. */
  lemma RateIsAcceptedExactly(rate: real)
    ensures CheckSampleRate(rate) <==> 0.0 < rate && ONE_SECOND_IN_NANOS / rate < INT64_MAX as real
  {
    if rate > 0.0 {
      var period, limit := ONE_SECOND_IN_NANOS / rate, INT64_MAX as real;
      assert period * rate == ONE_SECOND_IN_NANOS && RATE_LIMIT * limit == ONE_SECOND_IN_NANOS;
      if period < limit {
        assert period * rate < limit * rate;
        assert limit * (rate - RATE_LIMIT) > 0.0;
      }
      if RATE_LIMIT < rate {
        assert limit * (rate - RATE_LIMIT) > 0.0;
        assert (limit - period) * rate > 0.0;
      }
    }
  }

  /** A rate the check accepts has an interval that fits a signed 64-bit integer, and a faster rate
      never has a longer interval. */
  lemma IntervalFits(rate: real, faster: real)
    requires CheckSampleRate(rate) && rate <= faster
    ensures CheckSampleRate(faster)
    ensures 0 <= IntervalNanos(faster) <= IntervalNanos(rate) <= INT64_MAX
  {
    DivisionReverses(ONE_SECOND_IN_NANOS, RATE_LIMIT, rate);
    DivisionReverses(ONE_SECOND_IN_NANOS, rate, faster);
    var bound := ONE_SECOND_IN_NANOS / RATE_LIMIT;
    assert RATE_LIMIT * (bound - INT64_MAX as real) == 0.0;
    assert bound == INT64_MAX as real;
  }

  /** `at` names some of `n` positions, in order. */
  ghost predicate IsSelection(at: seq<nat>, n: nat) {
    && (forall k :: 0 <= k < |at| ==> at[k] < n)
    && (forall j, k :: 0 <= j < k < |at| ==> at[j] < at[k])
  }

  lemma SelectionGrows(at: seq<nat>, n: nat)
    requires IsSelection(at, n)
    ensures IsSelection(at, n + 1) && IsSelection(at + [n], n + 1)
    ensures forall i: nat :: i in at + [n] <==> i in at || i == n
    ensures n !in at
  {
  }

  /** `order` lists every element of `s` exactly once: one possible iteration over a hash set. */
  ghost predicate Enumerates<T(!new)>(order: seq<T>, s: set<T>) {
    && (forall x :: x in order <==> x in s)
    && (forall i, j :: 0 <= i < j < |order| ==> order[i] != order[j])
  }

  // Walks a hash set in an order of its own choosing.
  method ListOf<T(==,!new)>(s: set<T>) returns (order: seq<T>)
    ensures Enumerates(order, s)
  {
    order := [];
    var rest := s;
    while rest != {}
      invariant rest <= s && Enumerates(order, s - rest)
      decreases rest
    {
      var x :| x in rest;
      order := order + [x];
      rest := rest - {x};
    }
  }
}
