/** Suggested temperatures: a request in one unit becomes a number of increments, and that number a
    temperature in both units. Temperatures are in tenths of a degree. */
module HvacTemperature {
  import opened VehicleTypes
  import Rounding

  const CELSIUS: real := 48.0
  const FAHRENHEIT: real := 49.0

  datatype Scale = Scale(min: int, max: int, increment: int) {
    predicate Sensible() {
      min <= max && 0 < increment
    }
  }

  function Clamped(requested: int, s: Scale): int {
    var atLeastMin := if requested < s.min then s.min else requested;
    if s.max < atLeastMin then s.max else atLeastMin
  }

  function NumIncrements(requested: int, s: Scale): int
    requires s.increment != 0
  {
    Trunc(Rounding.Round((Clamped(requested, s) - s.min) as real / s.increment as real))
  }

  function Suggested(requested: int, s: Scale): int
    requires s.increment != 0
  {
    s.min + s.increment * NumIncrements(requested, s)
  }

  // ---- Rounding a quotient ----

  lemma RoundIs(x: nat, d: int)
    requires 0 < d
    ensures Trunc(Rounding.Round(x as real / d as real)) == (2 * x + d) / (2 * d)
  {
    var q, r := (2 * x + d) / (2 * d), (2 * x + d) % (2 * d);
    var y := x as real / d as real;
    assert y * d as real == x as real;
    assert 2 * x + d == 2 * d * q + r;
    assert (y + 0.5 - q as real) * (2 * d) as real == r as real by {
      assert (y + 0.5) * (2 * d) as real == 2.0 * (y * d as real) + d as real;
    }
    Below(y + 0.5 - q as real, (2 * d) as real, r as real);
    assert y >= 0.0 by { NonNegative(y, d as real, x as real); }
  }

  lemma PositiveProduct(a: real, b: real)
    requires 0.0 <= a && 0.0 < b
    ensures 0.0 <= a * b && (a > 0.0 ==> a * b > 0.0)
  {
  }

  lemma Below(z: real, d: real, r: real)
    requires 0.0 < d && z * d == r && 0.0 <= r < d
    ensures 0.0 <= z < 1.0
  {
    assert (-z) * d == -r && (z - 1.0) * d == r - d;
    if z < 0.0 {
      PositiveProduct(-z, d);
    } else if z >= 1.0 {
      PositiveProduct(z - 1.0, d);
    }
  }

  lemma NonNegative(y: real, d: real, x: real)
    requires 0.0 < d && y * d == x && 0.0 <= x
    ensures 0.0 <= y
  {
    assert (-y) * d == -x;
    if y < 0.0 {
      PositiveProduct(-y, d);
    }
  }

  // The number of steps of size d nearest to x.
  predicate IsNearest(x: int, d: int, n: int) {
    -d <= 2 * (d * n - x) <= d
  }

  lemma StepsAre(requested: int, s: Scale)
    requires s.Sensible()
    ensures var x, n := Clamped(requested, s) - s.min, NumIncrements(requested, s);
            && 0 <= x <= s.max - s.min && 0 <= n
            && 2 * x + s.increment == 2 * s.increment * n + (2 * x + s.increment) % (2 * s.increment)
  {
    RoundIs(Clamped(requested, s) - s.min, s.increment);
  }

  /** Stepping is monotone: a number of steps is at or below one whose half-way point is not lower. */
  lemma StepsCompare(x: int, y: int, d: int, n: int, m: int)
    requires 0 < d && x <= y
    requires 2 * d * n <= 2 * x + d && 2 * y + d < 2 * d * (m + 1)
    ensures n <= m
  {
    if m < n {
      Product(2 * d, m + 1, n);
    }
  }

  lemma Product(d: int, n: int, m: int)
    requires 0 <= d && n <= m
    ensures d * n <= d * m
  {
    assert 0 <= d * (m - n);
  }

  lemma TwiceProduct(d: int, n: int)
    ensures 2 * d * n == 2 * (d * n) && 2 * d * (n + 1) == 2 * (d * n) + 2 * d && d * (n + 1) == d * n + d
  {
  }

  lemma StepIsUnique(x: int, d: int, n: int, m: int)
    requires 0 < d
    requires 2 * d * n <= 2 * x + d < 2 * d * (n + 1)
    requires 2 * d * m <= 2 * x + d < 2 * d * (m + 1)
    ensures n == m
  {
    StepsCompare(x, x, d, n, m);
    StepsCompare(x, x, d, m, n);
  }

  lemma StepBounds(requested: int, s: Scale)
    requires s.Sensible()
    ensures var x, n := Clamped(requested, s) - s.min, NumIncrements(requested, s);
            2 * s.increment * n <= 2 * x + s.increment < 2 * s.increment * (n + 1)
  {
    StepsAre(requested, s);
    var x, n := Clamped(requested, s) - s.min, NumIncrements(requested, s);
    TwiceProduct(s.increment, n);
  }

  // ---- What is suggested ----

  /** A whole number of increments above the minimum, and of those the nearest to the request, brought into
      the range; of two that are equally near the higher one. */
  lemma SuggestionIsNearest(requested: int, s: Scale)
    requires s.Sensible()
    ensures var inRange := if requested < s.min then s.min else if requested > s.max then s.max else requested;
            -s.increment < 2 * (Suggested(requested, s) - inRange) <= s.increment
    ensures exists n: nat :: Suggested(requested, s) == s.min + s.increment * n
  {
    StepBounds(requested, s);
    var n := NumIncrements(requested, s);
    TwiceProduct(s.increment, n);
    StepsAre(requested, s);
    hide NumIncrements;
    assert Suggested(requested, s) == s.min + s.increment * n;
  }

  lemma StepsAreMonotone(a: int, b: int, s: Scale)
    requires s.Sensible() && a <= b
    ensures NumIncrements(a, s) <= NumIncrements(b, s)
  {
    hide NumIncrements;
    StepBounds(a, s);
    StepBounds(b, s);
    StepsCompare(Clamped(a, s) - s.min, Clamped(b, s) - s.min, s.increment, NumIncrements(a, s), NumIncrements(b, s));
  }

  /** A higher request never gets a lower suggestion. */
  lemma SuggestionIsMonotone(a: int, b: int, s: Scale)
    requires s.Sensible() && a <= b
    ensures Suggested(a, s) <= Suggested(b, s)
  {
    hide NumIncrements;
    StepsAreMonotone(a, b, s);
    Product(s.increment, NumIncrements(a, s), NumIncrements(b, s));
  }

  lemma StepsToTheTop(s: Scale)
    requires s.Sensible()
    ensures var range := s.max - s.min; var k := range / s.increment;
            NumIncrements(s.max, s) == if 2 * (range % s.increment) < s.increment then k else k + 1
  {
    hide NumIncrements;
    var range := s.max - s.min;
    var k, rest := range / s.increment, range % s.increment;
    var n := if 2 * rest < s.increment then k else k + 1;
    assert range == s.increment * k + rest;
    TwiceProduct(s.increment, k);
    TwiceProduct(s.increment, k + 1);
    StepBounds(s.max, s);
    StepIsUnique(range, s.increment, n, NumIncrements(s.max, s));
  }

  lemma SuggestionAtMostTop(requested: int, s: Scale)
    requires s.Sensible()
    ensures s.min <= Suggested(requested, s) <= Suggested(s.max, s)
  {
    StepsAre(requested, s);
    assert NumIncrements(Clamped(requested, s), s) == NumIncrements(requested, s);
    hide NumIncrements;
    Product(s.increment, 0, NumIncrements(requested, s));
    SuggestionIsMonotone(Clamped(requested, s), s.max, s);
  }

  /** No suggestion leaves the range exactly when the last, partial increment is less than half of
      one; in particular when the increment divides the range. */
  lemma SuggestionsStayInRangeExactly(s: Scale)
    requires s.Sensible()
    ensures (forall requested :: s.min <= Suggested(requested, s) <= s.max) <==>
            2 * ((s.max - s.min) % s.increment) < s.increment
  {
    hide NumIncrements;
    StepsToTheTop(s);
    var range := s.max - s.min;
    var k, rest := range / s.increment, range % s.increment;
    assert range == s.increment * k + rest;
    TwiceProduct(s.increment, k);
    if 2 * rest < s.increment {
      forall requested ensures s.min <= Suggested(requested, s) <= s.max {
        SuggestionAtMostTop(requested, s);
      }
    } else {
      assert Suggested(s.max, s) > s.max;
    }
  }

  /** What was suggested, requested again, is a fixed point, even where it lies outside the range. */
  lemma SuggestionIsFixed(requested: int, s: Scale)
    requires s.Sensible()
    ensures NumIncrements(Suggested(requested, s), s) == NumIncrements(requested, s)
  {
    var n, again := NumIncrements(requested, s), Suggested(requested, s);
    StepsAre(requested, s);
    StepBounds(requested, s);
    assert 0 <= s.increment * n;
    TwiceProduct(s.increment, n);
    StepBounds(again, s);
    StepIsUnique(Clamped(again, s) - s.min, s.increment, n, NumIncrements(again, s));
  }

  // ---- The two units ----

  datatype Suggestion = Suggestion(celsius: int, fahrenheit: int)

  function Suggestions(requested: int, inCelsius: bool, celsius: Scale, fahrenheit: Scale): Suggestion
    requires celsius.increment != 0 && fahrenheit.increment != 0
  {
    var n := NumIncrements(requested, if inCelsius then celsius else fahrenheit);
    Suggestion(celsius.min + celsius.increment * n, fahrenheit.min + fahrenheit.increment * n)
  }

  // Both ranges are cut into the same whole number of increments.
  predicate SameSteps(c: Scale, f: Scale) {
    && c.Sensible() && f.Sensible()
    && (c.max - c.min) % c.increment == 0 && (f.max - f.min) % f.increment == 0
    && (c.max - c.min) / c.increment == (f.max - f.min) / f.increment
  }

  lemma StepsWithin(requested: int, s: Scale, top: int)
    requires s.Sensible() && s.max - s.min == s.increment * top
    ensures 0 <= NumIncrements(requested, s) <= top
  {
    StepsAre(requested, s);
    StepBounds(requested, s);
    var n := NumIncrements(requested, s);
    hide NumIncrements, Clamped;
    TwiceProduct(s.increment, top);
    StepsCompare(Clamped(requested, s) - s.min, s.max - s.min, s.increment, n, top);
  }

  lemma StepIsReached(n: int, s: Scale, top: int)
    requires s.Sensible() && s.max - s.min == s.increment * top && 0 <= n <= top
    ensures s.min <= s.min + s.increment * n <= s.max
    ensures NumIncrements(s.min + s.increment * n, s) == n
  {
    assert 0 <= s.increment * n <= s.increment * top;
    StepBounds(s.min + s.increment * n, s);
    TwiceProduct(s.increment, n);
    StepIsUnique(s.increment * n, s.increment, n, NumIncrements(s.min + s.increment * n, s));
  }

  lemma WholeSteps(s: Scale)
    requires s.Sensible() && (s.max - s.min) % s.increment == 0
    ensures s.max - s.min == s.increment * ((s.max - s.min) / s.increment)
  {
  }

  /** The pair of suggestions lies in both ranges, and requesting either half again, in its own unit,
      gives the same pair: the two units name the same settings. */
  lemma UnitsAgree(requested: int, inCelsius: bool, celsius: Scale, fahrenheit: Scale)
    requires SameSteps(celsius, fahrenheit)
    ensures var pair := Suggestions(requested, inCelsius, celsius, fahrenheit);
            && celsius.min <= pair.celsius <= celsius.max && fahrenheit.min <= pair.fahrenheit <= fahrenheit.max
            && Suggestions(pair.celsius, true, celsius, fahrenheit) == pair
            && Suggestions(pair.fahrenheit, false, celsius, fahrenheit) == pair
  {
    hide NumIncrements, Clamped;
    var top := (celsius.max - celsius.min) / celsius.increment;
    WholeSteps(celsius);
    WholeSteps(fahrenheit);
    hide SameSteps;
    var requestedScale := if inCelsius then celsius else fahrenheit;
    StepsWithin(requested, requestedScale, top);
    var n := NumIncrements(requested, requestedScale);
    StepIsReached(n, celsius, top);
    StepIsReached(n, fahrenheit, top);
  }

  // ---- The vector ----

  method GetHvacTempNumIncrements(requestedTemp: int, s: Scale) returns (numIncrements: int)
    requires s.increment != 0
    ensures numIncrements == NumIncrements(requestedTemp, s)
    ensures s.Sensible() ==> IsNearest(Clamped(requestedTemp, s) - s.min, s.increment, numIncrements)
  {
    var requested := requestedTemp;
    if requested < s.min {
      requested := s.min;
    }
    if s.max < requested {
      requested := s.max;
    }
    numIncrements := Trunc(Rounding.Round((requested - s.min) as real / s.increment as real));
    if s.Sensible() {
      SuggestionIsNearest(requestedTemp, s);
    }
  }

  /** The vector holds the request, its unit, and the two suggestions in degrees. */
  method UpdateSuggestionInput(celsius: Scale, fahrenheit: Scale, input: array<real>)
    requires celsius.increment != 0 && fahrenheit.increment != 0 && input.Length == 4
    modifies input
    ensures input[0] == old(input[0]) && input[1] == old(input[1])
    ensures var pair := Suggestions(Trunc(old(input[0]) * 10.0), old(input[1]) == CELSIUS, celsius, fahrenheit);
            input[2] == pair.celsius as real / 10.0 && input[3] == pair.fahrenheit as real / 10.0
  {
    hide NumIncrements;
    var requestedTemp := Trunc(input[0] * 10.0);
    var numIncrements := GetHvacTempNumIncrements(requestedTemp, if input[1] == CELSIUS then celsius else fahrenheit);
    var suggestedTempInCelsius := celsius.min + celsius.increment * numIncrements;
    var suggestedTempInFahrenheit := fahrenheit.min + fahrenheit.increment * numIncrements;
    input[2] := suggestedTempInCelsius as real / 10.0;
    input[3] := suggestedTempInFahrenheit as real / 10.0;
  }

  method SetHvacTemperatureValueSuggestion(celsius: Scale, fahrenheit: Scale, input: array<real>)
    returns (status: StatusCode)
    requires celsius.increment != 0 && fahrenheit.increment != 0
    modifies input
    ensures status == if input.Length == 4 && old(input[1]) in {CELSIUS, FAHRENHEIT} then Ok else InvalidArg
    ensures status != Ok ==> input[..] == old(input[..])
    ensures status == Ok ==>
              && input[0] == old(input[0]) && input[1] == old(input[1])
              && var pair := Suggestions(Trunc(old(input[0]) * 10.0), old(input[1]) == CELSIUS, celsius, fahrenheit);
                 input[2] == pair.celsius as real / 10.0 && input[3] == pair.fahrenheit as real / 10.0
  {
    if input.Length != 4 {
      return InvalidArg;
    }
    if input[1] != CELSIUS && input[1] != FAHRENHEIT {
      return InvalidArg;
    }
    UpdateSuggestionInput(celsius, fahrenheit, input);
    return Ok;
  }
}
