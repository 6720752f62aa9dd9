/** The histogram of a frame (server/src/nocs/imaging/pipeline.py, measure_histogram): where its
    bins are, what they count, and what they leave out. */
module Histogram {
  import opened Common

  const VALUES := 65536
  const BINS := 256
  const TAIL := 0.005
  const MARGIN := 0.3

  datatype Histogram = Histogram(counts: seq<int>, first: int, width: int, minimum: int, maximum: int)

  // -- how many there are of each value ------------------------------------------------------------

  predicate Fits(sample: seq<nat>) {
    forall i :: 0 <= i < |sample| ==> sample[i] < VALUES
  }

  function CountOf(sample: seq<nat>, value: int): nat {
    if sample == [] then 0 else CountOf(sample[..|sample| - 1], value) + (if sample[|sample| - 1] == value then 1 else 0)
  }

  function CountIn(sample: seq<nat>, low: int, high: int): nat {
    if sample == [] then 0
    else CountIn(sample[..|sample| - 1], low, high) + (if low <= sample[|sample| - 1] < high then 1 else 0)
  }

  function PerValue(sample: seq<nat>): (c: seq<nat>)
    ensures |c| == VALUES && forall v :: 0 <= v < VALUES ==> c[v] == CountOf(sample, v)
  {
    seq(VALUES, v => CountOf(sample, v))
  }

  // The counts of the first n values, added up.
  function Prefix(c: seq<nat>, n: nat): nat
    requires n <= |c|
  {
    if n == 0 then 0 else Prefix(c, n - 1) + c[n - 1]
  }

  function Between(c: seq<nat>, low: nat, high: nat): int {
    Prefix(c, Min(high, |c|)) - Prefix(c, Min(low, |c|))
  }

  lemma {:induction false} CountInStep(sample: seq<nat>, low: int, high: int)
    requires low <= high
    ensures CountIn(sample, low, high + 1) == CountIn(sample, low, high) + CountOf(sample, high)
    ensures CountIn(sample, low, low) == 0
  {
    if sample != [] {
      CountInStep(sample[..|sample| - 1], low, high);
    }
  }

  lemma {:induction false} PrefixCounts(sample: seq<nat>, n: nat)
    requires n <= VALUES
    ensures Prefix(PerValue(sample), n) == CountIn(sample, 0, n)
  {
    if n == 0 {
      CountInStep(sample, 0, 0);
    } else {
      PrefixCounts(sample, n - 1);
      CountInStep(sample, 0, n - 1);
    }
  }

  lemma {:induction false} CountInSplit(sample: seq<nat>, low: int, middle: int, high: int)
    requires low <= middle <= high
    ensures CountIn(sample, low, high) == CountIn(sample, low, middle) + CountIn(sample, middle, high)
  {
    if sample != [] {
      CountInSplit(sample[..|sample| - 1], low, middle, high);
    }
  }

  lemma {:induction false} CountAll(sample: seq<nat>, high: int)
    requires forall i :: 0 <= i < |sample| ==> sample[i] < high
    ensures CountIn(sample, 0, high) == |sample|
  {
    if sample != [] {
      CountAll(sample[..|sample| - 1], high);
    }
  }

  // -- the quantization step ----------------------------------------------------------------------

  function Gcd(a: nat, b: nat): nat
    decreases b
  {
    if b == 0 then a else Gcd(b, a % b)
  }

  function Times(k: int, d: int): int {
    k * d
  }

  ghost predicate Divides(d: int, n: int) {
    exists k :: n == Times(k, d)
  }

  lemma DividesSum(d: int, a: int, b: int, q: int)
    requires Divides(d, a) && Divides(d, b)
    ensures Divides(d, q * a + b)
  {
    var j :| a == Times(j, d);
    var k :| b == Times(k, d);
    assert q * a + b == Times(q * j + k, d) by {
      assert q * (j * d) == (q * j) * d;
    }
  }

  lemma DividesThrough(d: int, a: int, b: int)
    requires Divides(d, a) && Divides(a, b)
    ensures Divides(d, b)
  {
    var j :| a == Times(j, d);
    var k :| b == Times(k, a);
    assert b == Times(k * j, d) by {
      assert k * (j * d) == (k * j) * d;
    }
  }

  lemma Euclid(a: nat, b: nat)
    requires b > 0
    ensures (a / b) * b + a % b == a
  {
  }

  lemma {:induction false} GcdDivides(a: nat, b: nat)
    ensures Divides(Gcd(a, b), a) && Divides(Gcd(a, b), b)
    ensures a > 0 || b > 0 ==> Gcd(a, b) > 0
    decreases b
  {
    if b == 0 {
      assert a == Times(1, a) && 0 == Times(0, a);
    } else {
      GcdDivides(b, a % b);
      DividesSum(Gcd(b, a % b), b, a % b, a / b);
      Euclid(a, b);
    }
  }

  // And the greatest: whatever divides both divides it.
  lemma {:induction false} GcdGreatest(a: nat, b: nat, d: int)
    requires Divides(d, a) && Divides(d, b)
    ensures Divides(d, Gcd(a, b))
    decreases b
  {
    if b > 0 {
      Euclid(a, b);
      DividesSum(d, b, a, -(a / b));
      assert -(a / b) * b + a == a % b;
      GcdGreatest(b, a % b, d);
    }
  }

  // gcd of the values below n that there are; 0 if there are none but 0
  function StepBelow(c: seq<nat>, n: nat): nat
    requires n <= |c|
  {
    if n == 0 then 0 else if c[n - 1] > 0 then Gcd(StepBelow(c, n - 1), n - 1) else StepBelow(c, n - 1)
  }

  lemma {:induction false} StepDivides(c: seq<nat>, n: nat, v: nat)
    requires v < n <= |c| && c[v] > 0
    ensures Divides(StepBelow(c, n), v) && (v > 0 ==> StepBelow(c, n) > 0)
  {
    GcdDivides(StepBelow(c, n - 1), n - 1);
    if v < n - 1 {
      StepDivides(c, n - 1, v);
      if c[n - 1] > 0 {
        DividesThrough(StepBelow(c, n), StepBelow(c, n - 1), v);
      }
    }
  }

  lemma {:induction false} StepGreatest(c: seq<nat>, n: nat, d: int)
    requires n <= |c| && forall v :: 0 <= v < n && c[v] > 0 ==> Divides(d, v)
    ensures Divides(d, StepBelow(c, n))
  {
    if n == 0 {
      assert 0 == Times(0, d);
    } else {
      StepGreatest(c, n - 1, d);
      if c[n - 1] > 0 {
        GcdGreatest(StepBelow(c, n - 1), n - 1, d);
      }
    }
  }

  lemma DividesMod(d: int, n: int)
    requires d > 0
    ensures Divides(d, n) <==> n % d == 0
  {
    if Divides(d, n) {
      var k :| n == Times(k, d);
      ModTimes(k, d);
    }
    if n % d == 0 {
      assert n == Times(n / d, d);
    }
  }

  lemma Scaled(d: int, k: int)
    requires d > 0
    ensures k >= 1 ==> k * d >= d
    ensures k <= -1 ==> k * d <= -d
  {
    if k >= 1 {
      assert (k - 1) * d >= 0;
    } else if k <= -1 {
      assert (-k - 1) * d >= 0;
    }
  }

  lemma ModTimes(k: int, d: int)
    requires d > 0
    ensures (k * d) % d == 0
  {
    var n := k * d;
    assert n == (n / d) * d + n % d;
    assert n % d == (k - n / d) * d;
    Scaled(d, k - n / d);
  }

  // -- where the bins are -----------------------------------------------------------------------------

  // The first value, from i on, up to which there are more than `target`, or as many.
  function Search(c: seq<nat>, target: real, strictly: bool, i: nat): (r: nat)
    requires i <= |c|
    ensures i <= r <= |c|
    ensures r < |c| ==> Prefix(c, r + 1) as real > target || (!strictly && Prefix(c, r + 1) as real == target)
    ensures i < r ==> Prefix(c, r) as real < target || (strictly && Prefix(c, r) as real == target)
    decreases |c| - i
  {
    if i == |c| then i
    else
      var sum := Prefix(c, i + 1) as real;
      if sum > target || (!strictly && sum == target) then i else Search(c, target, strictly, i + 1)
  }

  function Ceil(x: real): int {
    -((-x).Floor)
  }

  // The first value shown and the width of a bin, for data mostly from low to high in steps.
  function Range(low: nat, high: nat, step: nat): (int, int)
    requires low <= high < VALUES && step > 0
  {
    var margin := (high - low + 1) as real * MARGIN;
    var start := MaxReal(0.0, low as real - margin);
    var end := MinReal(VALUES as real, (high + 1) as real + margin);
    var width := Max(step, Ceil((end - start) / BINS as real / step as real) * step);
    var first := start.Floor / step * step;
    (Max(0, Min(first, VALUES - width * BINS)), width)
  }

  // As many whole steps as that are at least a 256th of x wide.
  lemma Enough(x: real, step: nat)
    requires x > 0.0 && step > 0
    ensures var q := Ceil(x / BINS as real / step as real);
            q >= 1 && (q * step) as real * 256.0 >= x
  {
    var s := step as real;
    var y := x / 256.0 / s;
    assert y > 0.0;
    var q := Ceil(y);
    assert q as real >= y;
    assert y * s == x / 256.0;
    Larger(q as real, y, s);
    assert (q * step) as real == q as real * s;
  }

  lemma Larger(a: real, b: real, s: real)
    requires a >= b && s > 0.0
    ensures a * s >= b * s
  {
  }

  lemma RoundDown(n: nat, step: nat)
    requires step > 0
    ensures n - step < n / step * step <= n
    ensures Divides(step, n / step * step)
  {
    assert n / step * step == Times(n / step, step);
  }

  lemma WidthIs(q: int, step: nat)
    requires q >= 1 && step > 0
    ensures Max(step, q * step) == q * step >= step
    ensures Divides(step, q * step)
  {
    assert (q - 1) * step >= 0;
    assert q * step == Times(q, step);
  }

  lemma SameMultiple(step: nat, a: int, b: int)
    requires step > 0 && Divides(step, a) && Divides(step, b) && a <= b < a + step
    ensures a == b
  {
    var j :| a == Times(j, step);
    var k :| b == Times(k, step);
    assert b - a == (k - j) * step;
    Scaled(step, k - j);
  }

  lemma MultipleOf(step: nat, width: int, first: int)
    requires Divides(step, width) && Divides(step, first)
    ensures Divides(step, first + width * 256)
  {
    DividesSum(step, width, first, 256);
  }

  // Where the window would start, before it is rounded down and shifted, and after rounding.
  function StartOf(low: nat, high: nat): real
    requires low <= high
  {
    MaxReal(0.0, low as real - (high - low + 1) as real * MARGIN)
  }

  function Rounded(start: real, step: nat): int
    requires step > 0
  {
    start.Floor / step * step
  }

  // The window reaches full scale, the 99.5 % point is whole bins of some width from where it
  // starts, and rounding the start down took away as much as there is from that point on.
  ghost predicate EndsShort(low: nat, high: nat, step: nat)
    requires low <= high && step > 0
  {
    var start := StartOf(low, high);
    && (high + 1) as real + (high - low + 1) as real * MARGIN >= VALUES as real
    && Divides(BINS * step, high - Rounded(start, step))
    && start - Rounded(start, step) as real >= (VALUES - high) as real
  }

  // It starts at or below the 0.5 % point, and its bins are whole steps wide.
  lemma RangeSound(low: nat, high: nat, step: nat)
    requires low <= high < VALUES && step > 0
    ensures var (first, width) := Range(low, high, step);
            0 <= first <= low && width > 0 && Divides(step, width)
  {
    var x := WindowSize(low, high);
    var q := Ceil(x / BINS as real / step as real);
    Enough(x, step);
    WidthIs(q, step);
    RoundedStart(low, high, step);
  }

  // Bins of whole steps that span the data, and no wider ones than that takes.
  ghost predicate Narrowest(width: int, span: real, step: nat) {
    && Divides(step, width) && width >= step
    && width as real * 256.0 >= span && (width == step || (width - step) as real * 256.0 < span)
  }

  // From the last multiple of the step at or below the start, unless the window would leave full
  // scale there: then it is shifted down to end at it, or to start at 0.
  ghost predicate Placed(first: int, width: int, start: real, step: nat) {
    exists f :: Divides(step, f) && f as real <= start < (f + step) as real
                && first == if f + width * 256 <= 65536 then f else if width * 256 <= 65536 then 65536 - width * 256 else 0
  }

  lemma WidthNarrowest(x: real, step: nat)
    requires x > 0.0 && step > 0
    ensures Narrowest(Max(step, Ceil(x / BINS as real / step as real) * step), x, step)
  {
    var q := Ceil(x / BINS as real / step as real);
    Enough(x, step);
    WidthIs(q, step);
    FewestSteps(x, step);
  }

  lemma FirstPlaced(start: real, step: nat, width: int)
    requires start >= 0.0 && step > 0 && width > 0
    ensures Placed(Max(0, Min(Rounded(start, step), VALUES - width * BINS)), width, start, step)
  {
    var f := Rounded(start, step);
    RoundDown(start.Floor, step);
    NotNegative(start.Floor, step);
    assert f as real <= start < (f + step) as real;
  }

  // The window spans the middle with 0.3 of its length at each side, as far as there are values.
  lemma RangeTight(low: nat, high: nat, step: nat, start: real, end: real)
    requires low <= high < VALUES && step > 0
    requires var margin := 0.3 * (high - low + 1) as real;
             && start == (if low as real >= margin then low as real - margin else 0.0)
             && end == (if (high + 1) as real + margin <= 65536.0 then (high + 1) as real + margin else 65536.0)
    ensures var (first, width) := Range(low, high, step); Narrowest(width, end - start, step) && Placed(first, width, start, step)
  {
    var x := WindowSize(low, high);
    assert x == end - start && start == StartOf(low, high);
    WidthNarrowest(x, step);
    FirstPlaced(start, step, Max(step, Ceil(x / BINS as real / step as real) * step));
  }

  lemma FewestSteps(x: real, step: nat)
    requires x > 0.0 && step > 0
    ensures var q := Ceil(x / BINS as real / step as real); (q * step - step) as real * 256.0 < x
  {
    var y := x / 256.0 / step as real;
    var q := Ceil(y);
    assert (q - 1) as real < y;
    assert y * step as real == x / 256.0;
    FewerSteps(q - 1, y, step, x);
    OneStepLess(q, step);
  }

  lemma FewerSteps(k: int, y: real, step: nat, x: real)
    requires step > 0 && k as real < y && y * step as real == x / 256.0
    ensures (k * step) as real * 256.0 < x
  {
    Strictly(y, k as real, step as real);
    assert (k * step) as real == k as real * step as real;
  }

  lemma OneStepLess(q: int, step: nat)
    ensures (q - 1) * step == q * step - step
  {
  }

  function WindowSize(low: nat, high: nat): (x: real)
    requires low <= high < VALUES
    ensures x > 0.0
  {
    MinReal(VALUES as real, (high + 1) as real + (high - low + 1) as real * MARGIN) - StartOf(low, high)
  }

  // The whole of the middle is shown exactly but for that; then the window ends at the 99.5 %
  // point.
  lemma RangeCovers(low: nat, high: nat, step: nat)
    requires low <= high < VALUES && step > 0 && Divides(step, high)
    ensures var (first, width) := Range(low, high, step);
            && (high < first + width * BINS <==> !EndsShort(low, high, step))
            && (EndsShort(low, high, step) ==> first + width * BINS == high)
  {
    var margin := (high - low + 1) as real * 0.3;
    var x := WindowSize(low, high);
    var q := Ceil(x / BINS as real / step as real);
    Enough(x, step);
    WidthIs(q, step);
    var width := q * step;
    var f := Rounded(StartOf(low, high), step);
    RoundedStart(low, high, step);
    if f <= VALUES - width * BINS {
      InPlace(low, high, step, margin, StartOf(low, high), StartOf(low, high) + x, width, f);
      if f + width * BINS == high {
        StopsShort(low, high, step, q);
      }
    }
    if EndsShort(low, high, step) {
      WidthOfShort(low, high, step);
    }
  }

  lemma InPlace(low: nat, high: nat, step: nat, margin: real, start: real, end: real, width: int, f: int)
    requires low <= high < VALUES && step > 0 && Divides(step, high) && Divides(step, width) && Divides(step, f)
    requires margin == (high - low + 1) as real * 0.3
    requires start >= 0.0 && start >= low as real - margin
    requires end == MinReal(65536.0, (high + 1) as real + margin)
    requires width >= step && width as real * 256.0 >= end - start
    requires f as real > start - step as real && f + width * BINS <= VALUES
    ensures high < f + width * BINS || (f + width * BINS == high && end == 65536.0)
  {
    var top := f + width * BINS;
    MultipleOf(step, width, f);
    assert top as real == f as real + width as real * 256.0;
    assert top as real > end - step as real;
    if end == 65536.0 {
      if high >= top { SameMultiple(step, top, high); }
    } else if margin < (step - 1) as real {
      assert top as real > start + 255.0 * step as real;
    }
  }

  lemma StopsShort(low: nat, high: nat, step: nat, q: int)
    requires low <= high < VALUES && step > 0
    requires (high + 1) as real + (high - low + 1) as real * 0.3 >= 65536.0
    requires (q * step) as real * 256.0 >= 65536.0 - StartOf(low, high)
    requires Rounded(StartOf(low, high), step) + q * step * BINS == high
    ensures EndsShort(low, high, step)
  {
    var f := Rounded(StartOf(low, high), step);
    assert high - f == Times(q, BINS * step);
  }

  lemma BinsOf(k: int, step: nat, length: int)
    requires step > 0 && length == Times(k, 256 * step) && length > 0
    ensures k >= 1 && k * step >= step && k * step * 256 == length
  {
    Scaled(256 * step, k);
    Scaled(step, k);
  }

  // Between one less than k bins and k of them, that many steps are enough.
  lemma AsManySteps(x: real, s: real, k: int)
    requires s > 0.0 && (k - 1) as real * s * 256.0 < x <= k as real * s * 256.0
    ensures Ceil(x / 256.0 / s) == k
  {
    var y := x / 256.0 / s;
    assert y * s == x / 256.0;
    if y > k as real { Strictly(y, k as real, s); }
    if y <= (k - 1) as real { Larger((k - 1) as real, y, s); }
  }

  lemma Strictly(a: real, b: real, s: real)
    requires a > b && s > 0.0
    ensures a * s > b * s
  {
  }

  lemma StepsAsReals(k: int, step: nat, length: int)
    requires k * step * 256 == length
    ensures k as real * step as real * 256.0 == length as real
    ensures (k - 1) as real * step as real * 256.0 == length as real - 256.0 * step as real
  {
    assert (k * step) as real == k as real * step as real;
  }

  lemma RangeIs(low: nat, high: nat, step: nat, start: real, k: int, f: int)
    requires low <= high < VALUES && step > 0 && start == StartOf(low, high) && f == Rounded(start, step)
    requires (high + 1) as real + (high - low + 1) as real * 0.3 >= 65536.0
    requires Ceil((65536.0 - start) / 256.0 / step as real) == k && k * step >= step && 0 <= f <= 65536 - k * step * 256
    ensures Range(low, high, step) == (f, k * step)
  {
  }

  // From where the window starts, full scale is as many bins away as the 99.5 % point is.
  lemma StepsToTheTop(start: real, f: int, high: nat, step: nat, k: int)
    requires step > 0 && f as real > start - step as real && high - f == Times(k, 256 * step) && f < high < VALUES
    requires start - f as real >= (65536 - high) as real
    ensures Ceil((65536.0 - start) / 256.0 / step as real) == k && k * step >= step && f + k * step * 256 == high
  {
    BinsOf(k, step, high - f);
    StepsAsReals(k, step, high - f);
    AsManySteps(65536.0 - start, step as real, k);
  }

  lemma RoundedStart(low: nat, high: nat, step: nat)
    requires low <= high && step > 0
    ensures var start := StartOf(low, high);
            0 <= Rounded(start, step) && start - step as real < Rounded(start, step) as real <= start <= low as real
    ensures Divides(step, Rounded(StartOf(low, high), step))
  {
    RoundDown(StartOf(low, high).Floor, step);
    NotNegative(StartOf(low, high).Floor, step);
  }

  lemma NotNegative(n: nat, step: nat)
    requires step > 0
    ensures n / step * step >= 0
  {
    assert n / step >= 0;
  }

  // Then the width is such that the bins end at the 99.5 % point.
  lemma WidthOfShort(low: nat, high: nat, step: nat)
    requires low <= high < VALUES && step > 0 && EndsShort(low, high, step)
    ensures var (first, width) := Range(low, high, step); first + width * BINS == high
  {
    var start := StartOf(low, high);
    var f := Rounded(start, step);
    var k :| high - f == Times(k, BINS * step);
    RoundedStart(low, high, step);
    StepsToTheTop(start, f, high, step, k);
    RangeIs(low, high, step, start, k, f);
  }

  // Where the step divides 65536, as that of scaled 12- and 14-bit data does, all of it is.
  lemma RangeCoversAll(low: nat, high: nat, step: nat)
    requires low <= high < VALUES && step > 0 && Divides(step, high) && Divides(step, VALUES)
    ensures !EndsShort(low, high, step)
    ensures var (first, width) := Range(low, high, step); first <= low && high < first + width * BINS
  {
    RangeSound(low, high, step);
    RangeCovers(low, high, step);
    RoundedStart(low, high, step);
    if high + step > VALUES {
      SameMultiple(step, high, VALUES);
    }
  }

  // Steps of 3, up to full scale.
  lemma RangeOfThrees()
    ensures Range(63765, 65535, 3) == (63231, 9)
    ensures 63231 + 9 * BINS == 65535
  {
    var start := 63765.0 - 1771.0 * 0.3;
    assert start == 63233.7 && start.Floor == 63233;
    var x := 65536.0 - start;
    assert x == 2302.3;
    var y := x / 256.0 / 3.0;
    assert 2.0 < y < 3.0;
    assert (-y).Floor == -3;
  }

  // -- bins of the same number of values ---------------------------------------------------------------

  // The multiples of the step among `count` numbers from x on.
  function Multiples(x: int, count: nat, step: nat): nat
    requires step > 0
  {
    if count == 0 then 0 else Multiples(x, count - 1, step) + (if (x + count - 1) % step == 0 then 1 else 0)
  }

  lemma {:induction false} MultiplesJoin(x: int, a: nat, b: nat, step: nat)
    requires step > 0
    ensures Multiples(x, a + b, step) == Multiples(x, a, step) + Multiples(x + a, b, step)
  {
    if b > 0 { MultiplesJoin(x, a, b - 1, step); }
  }

  lemma NextModulo(x: int, step: nat)
    requires step > 0
    ensures (x + step) % step == x % step
  {
    var y := x + step;
    assert y == step * (x / step + 1) + x % step;
    assert y == step * (y / step) + y % step;
    var k := x / step + 1 - y / step;
    assert y % step - x % step == k * step;
    Scaled(step, k);
  }

  lemma MultiplesShift(x: int, step: nat)
    requires step > 0
    ensures Multiples(x + 1, step, step) == Multiples(x, step, step)
  {
    MultiplesJoin(x, 1, step, step);
    assert Multiples(x, 1, step) == if x % step == 0 then 1 else 0;
    NextModulo(x, step);
    assert Multiples(x, step + 1, step) == Multiples(x, step, step) + (if (x + step) % step == 0 then 1 else 0);
  }

  lemma {:induction false} OneEach(n: nat, step: nat)
    requires 0 < n <= step
    ensures Multiples(0, n, step) == 1
  {
    if n > 1 { OneEach(n - 1, step); }
  }

  lemma {:induction false} OneInStep(x: nat, step: nat)
    requires step > 0
    ensures Multiples(x, step, step) == 1
    decreases x
  {
    if x == 0 {
      OneEach(step, step);
    } else {
      OneInStep(x - 1, step);
      MultiplesShift(x - 1, step);
    }
  }

  // Wherever the window is, a bin is over as many of the values the data can have as any other.
  lemma {:induction false} BinsAlike(x: nat, m: nat, step: nat)
    requires step > 0
    ensures m * step >= 0 && Multiples(x, m * step, step) == m
  {
    if m > 0 {
      BinsAlike(x, m - 1, step);
      assert m * step == (m - 1) * step + step;
      MultiplesJoin(x, (m - 1) * step, step, step);
      OneInStep(x + (m - 1) * step, step);
    }
  }

  // -- the histogram ------------------------------------------------------------------------------------

  function Low(c: seq<nat>, total: nat): nat {
    Search(c, total as real * TAIL, true, 0)
  }

  function High(c: seq<nat>, total: nat): nat {
    Search(c, total as real * (1.0 - TAIL), false, 0)
  }

  lemma {:induction false} PrefixGrows(c: seq<nat>, a: nat, b: nat)
    requires a <= b <= |c|
    ensures Prefix(c, a) <= Prefix(c, b)
  {
    if a < b { PrefixGrows(c, a, b - 1); }
  }

  // The 0.5 % and the 99.5 % points are values there are, the first not above the second.
  lemma PointsPresent(c: seq<nat>, total: nat)
    requires |c| == VALUES && total == Prefix(c, VALUES) > 0
    ensures Low(c, total) <= High(c, total) < VALUES
    ensures c[Low(c, total)] > 0 && c[High(c, total)] > 0
    ensures Prefix(c, Low(c, total)) as real <= total as real * TAIL
    ensures Prefix(c, High(c, total) + 1) as real >= total as real * (1.0 - TAIL)
  {
    var t := total as real;
    var low, high := Low(c, total), High(c, total);
    assert 0.0 < t * TAIL < t * (1.0 - TAIL) < t;
    assert Prefix(c, low) as real <= t * TAIL;
    assert Prefix(c, high) as real < t * (1.0 - TAIL);
    if low > high { PrefixGrows(c, high + 1, low); }
  }

  function BinCounts(c: seq<nat>, first: nat, width: nat, n: nat): seq<int> {
    if n == 0 then [] else BinCounts(c, first, width, n - 1) + [Between(c, first + width * (n - 1), first + width * n)]
  }

  function SumOf(s: seq<int>): int {
    if s == [] then 0 else SumOf(s[..|s| - 1]) + s[|s| - 1]
  }

  lemma {:induction false} BinsTelescope(c: seq<nat>, first: nat, width: nat, n: nat)
    ensures |BinCounts(c, first, width, n)| == n
    ensures width * n >= 0 && SumOf(BinCounts(c, first, width, n)) == Between(c, first, first + width * n)
  {
    if n > 0 {
      BinsTelescope(c, first, width, n - 1);
      var bins := BinCounts(c, first, width, n);
      assert bins[..n - 1] == BinCounts(c, first, width, n - 1);
      assert width * n == width * (n - 1) + width;
    }
  }

  function Step(c: seq<nat>, maximum: nat): nat {
    if maximum > 0 then StepBelow(c, |c|) else 1
  }

  // Whether these are the smallest and the largest value there is.
  ghost predicate Bounds(c: seq<nat>, minimum: nat, maximum: nat) {
    && minimum <= maximum < |c| && c[minimum] > 0 && c[maximum] > 0
    && forall v :: 0 <= v < |c| && c[v] > 0 ==> minimum <= v <= maximum
  }

  ghost predicate Shows(h: Histogram, sample: seq<nat>) {
    var c := PerValue(sample);
    if sample == [] then h == Histogram(seq(BINS, i => 0), 0, 1, 0, 0)
    else
      && 0 <= h.minimum && 0 <= h.maximum && Bounds(c, h.minimum, h.maximum)
      && Step(c, h.maximum) > 0
      && Low(c, |sample|) <= High(c, |sample|) < VALUES
      && (h.first, h.width) == Range(Low(c, |sample|), High(c, |sample|), Step(c, h.maximum))
      && h.first >= 0 && h.width > 0
      && h.counts == BinCounts(c, h.first, h.width, BINS)
  }

  lemma StepIsPositive(c: seq<nat>, minimum: nat, maximum: nat, v: nat)
    requires |c| == VALUES && Bounds(c, minimum, maximum) && v < VALUES && c[v] > 0
    ensures Step(c, maximum) > 0 && Divides(Step(c, maximum), v)
  {
    StepDivides(c, VALUES, maximum);
    StepDivides(c, VALUES, v);
    if maximum == 0 { assert v == Times(v, 1); }
  }

  // The 256 counts add up to exactly the values in the window.
  lemma CountsAddUp(h: Histogram, sample: seq<nat>)
    requires Fits(sample) && Shows(h, sample)
    ensures |h.counts| == BINS
    ensures sample != [] ==> SumOf(h.counts) == CountIn(sample, h.first, h.first + h.width * BINS)
  {
    if sample != [] {
      var c := PerValue(sample);
      var end := h.first + h.width * BINS;
      BinsTelescope(c, h.first, h.width, BINS);
      PrefixCounts(sample, Min(end, VALUES));
      PrefixCounts(sample, Min(h.first, VALUES));
      CountInSplit(sample, 0, h.first, end);
      Clip(sample, end);
      Clip(sample, h.first);
    }
  }

  lemma BetweenCounts(sample: seq<nat>, low: nat, high: nat)
    requires Fits(sample) && low <= high
    ensures Between(PerValue(sample), low, high) == CountIn(sample, low, high)
  {
    PrefixCounts(sample, Min(low, VALUES));
    PrefixCounts(sample, Min(high, VALUES));
    CountInSplit(sample, 0, low, high);
    Clip(sample, low);
    Clip(sample, high);
  }

  // What a bin counts: the values from where it starts to where the next one does.
  lemma BinAt(h: Histogram, sample: seq<nat>, k: nat)
    requires Fits(sample) && Shows(h, sample) && sample != [] && k < BINS
    ensures |h.counts| == BINS && h.counts[k] == CountIn(sample, h.first + h.width * k, h.first + h.width * (k + 1))
  {
    BinsTelescope(PerValue(sample), h.first, h.width, BINS);
    BinCountAt(PerValue(sample), h.first, h.width, BINS, k);
    BinEdges(h.first, h.width, k);
    BetweenCounts(sample, h.first + h.width * k, h.first + h.width * (k + 1));
  }

  lemma BinEdges(first: nat, width: nat, k: nat)
    ensures 0 <= first + width * k <= first + width * (k + 1)
  {
    assert width * k >= 0;
  }

  lemma {:induction false} BinCountAt(c: seq<nat>, first: nat, width: nat, n: nat, k: nat)
    requires k < n && |BinCounts(c, first, width, n)| == n
    ensures 0 <= first + width * k && 0 <= first + width * (k + 1)
    ensures BinCounts(c, first, width, n)[k] == Between(c, first + width * k, first + width * (k + 1))
  {
    BinEdges(first, width, k);
    if k < n - 1 {
      BinsTelescope(c, first, width, n - 1);
      BinCountAt(c, first, width, n - 1, k);
    }
  }

  lemma {:induction false} Clip(sample: seq<nat>, end: nat)
    requires Fits(sample)
    ensures CountIn(sample, 0, Min(end, VALUES)) == CountIn(sample, 0, end)
  {
    if sample != [] {
      Clip(sample[..|sample| - 1], end);
    }
  }

  // The 0.5 % point is the first value with more than 0.5 % of the sample up to it, the 99.5 %
  // point the first with 99.5 % or more.
  lemma PointsAre(sample: seq<nat>)
    requires Fits(sample) && sample != []
    ensures var (low, high) := (Low(PerValue(sample), |sample|), High(PerValue(sample), |sample|));
            && CountIn(sample, 0, low) as real <= 0.005 * |sample| as real < CountIn(sample, 0, low + 1) as real
            && CountIn(sample, 0, high) as real < 0.995 * |sample| as real <= CountIn(sample, 0, high + 1) as real
  {
    var c := PerValue(sample);
    SampleTotal(sample);
    PointsPresent(c, |sample|);
    var low, high := Low(c, |sample|), High(c, |sample|);
    PrefixCounts(sample, low);
    PrefixCounts(sample, low + 1);
    PrefixCounts(sample, high);
    PrefixCounts(sample, high + 1);
    CountInStep(sample, 0, 0);
  }

  lemma SampleTotal(sample: seq<nat>)
    requires Fits(sample)
    ensures Prefix(PerValue(sample), VALUES) == |sample|
  {
    PrefixCounts(sample, VALUES);
    CountAll(sample, VALUES);
  }

  // The window in whole numbers.
  lemma WindowShows(low: nat, high: nat, step: nat, first: int, width: int)
    requires low <= high < VALUES && step > 0 && Divides(step, high) && (first, width) == Range(low, high, step)
    ensures 0 <= first <= low && width > 0 && width % step == 0 && (VALUES % step == 0 ==> !EndsShort(low, high, step))
    ensures if EndsShort(low, high, step) then first + width * BINS == high else high < first + width * BINS
  {
    RangeSound(low, high, step);
    RangeCovers(low, high, step);
    DividesMod(step, width);
    DividesMod(step, VALUES);
    if VALUES % step == 0 {
      RangeCoversAll(low, high, step);
    }
  }

  // Bins are a whole number of steps wide. At least 99 % of the sample is counted, but where
  // the window ends at the 99.5 % point; then nothing is from that point on. It does not where
  // the step divides 65536.
  lemma MostShown(h: Histogram, sample: seq<nat>)
    requires sample != [] && Fits(sample) && Shows(h, sample)
    ensures var step := Step(PerValue(sample), h.maximum);
            var low, high := Low(PerValue(sample), |sample|), High(PerValue(sample), |sample|);
            && h.width % step == 0 && (VALUES % step == 0 ==> !EndsShort(low, high, step))
            && if EndsShort(low, high, step) then SumOf(h.counts) == CountIn(sample, h.first, high)
               else SumOf(h.counts) as real >= 0.99 * |sample| as real
  {
    var c := PerValue(sample);
    var step := Step(c, h.maximum);
    var low, high := Low(c, |sample|), High(c, |sample|);
    MiddleOf(sample, low, high);
    StepIsPositive(c, h.minimum, h.maximum, high);
    WindowShows(low, high, step, h.first, h.width);
    CountsAddUp(h, sample);
    var end, counted := h.first + h.width * BINS, SumOf(h.counts);
    if EndsShort(low, high, step) {
      assert end == high;
    } else {
      MiddleCounted(sample, low, high, h.first, end);
      assert counted as real >= 0.99 * |sample| as real;
    }
  }

  // The sample's values but for at most half a percent on either side.
  ghost predicate IsMiddle(sample: seq<nat>, low: nat, high: nat)
    requires low <= VALUES && high < VALUES
  {
    && Prefix(PerValue(sample), low) as real <= |sample| as real * TAIL
    && Prefix(PerValue(sample), high + 1) as real >= |sample| as real * (1.0 - TAIL)
  }

  lemma MiddleOf(sample: seq<nat>, low: nat, high: nat)
    requires sample != [] && Fits(sample)
    requires low == Low(PerValue(sample), |sample|) && high == High(PerValue(sample), |sample|)
    ensures low <= high < VALUES && PerValue(sample)[high] > 0 && IsMiddle(sample, low, high)
  {
    SampleTotal(sample);
    PointsPresent(PerValue(sample), |sample|);
  }

  lemma MiddleCounted(sample: seq<nat>, low: nat, high: nat, first: nat, end: nat)
    requires first <= low <= high < VALUES && high < end
    requires IsMiddle(sample, low, high)
    ensures CountIn(sample, first, end) as real >= 0.99 * |sample| as real
  {
    PrefixCounts(sample, low);
    PrefixCounts(sample, high + 1);
    CountInSplit(sample, 0, low, high + 1);
    CountInSplit(sample, first, low, end);
    CountInSplit(sample, low, high + 1, end);
  }

  // Every bin is over the same number of the multiples of the step.
  lemma AllBinsAlike(h: Histogram, sample: seq<nat>, i: nat)
    requires sample != [] && Fits(sample) && Shows(h, sample) && i < BINS
    ensures var step := Step(PerValue(sample), h.maximum);
            Multiples(h.first + i * h.width, h.width, step) == h.width / step
  {
    var c := PerValue(sample);
    var step := Step(c, h.maximum);
    var low, high := Low(c, |sample|), High(c, |sample|);
    SampleTotal(sample);
    PointsPresent(c, |sample|);
    StepIsPositive(c, h.minimum, h.maximum, high);
    RangeSound(low, high, step);
    WholeSteps(h.width, step);
    AtLeastZero(i, h.width);
    BinsAlike(h.first + i * h.width, h.width / step, step);
  }

  lemma WholeSteps(width: int, step: nat)
    requires step > 0 && width > 0 && Divides(step, width)
    ensures width / step >= 0 && width / step * step == width
  {
    DividesMod(step, width);
    Euclid(width, step);
  }

  lemma AtLeastZero(a: nat, b: nat)
    ensures a * b >= 0
  {
  }

  // -- where most of a frame is not shown ----------------------------------------------------------------

  // Two values in steps of 3, and the highest there is n times.
  function UpToTheTop(n: nat): (r: seq<nat>)
    ensures |r| == n + 2 && Fits(r)
  {
    if n == 0 then [63765, 63768] else UpToTheTop(n - 1) + [65535]
  }

  lemma {:induction false} TopCounts(n: nat, low: int, high: int)
    ensures CountIn(UpToTheTop(n), low, high)
         == (if low <= 63765 < high then 1 else 0) + (if low <= 63768 < high then 1 else 0) + (if low <= 65535 < high then n else 0)
  {
    var sample := UpToTheTop(n);
    if n > 0 {
      TopCounts(n - 1, low, high);
      assert sample[..|sample| - 1] == UpToTheTop(n - 1);
    } else {
      assert sample[..1] == [63765] && sample[..1][..0] == [];
      assert CountIn([63765], low, high) == CountIn([], low, high) + (if low <= 63765 < high then 1 else 0);
    }
  }

  lemma {:induction false} TopCount(n: nat, v: int)
    ensures CountOf(UpToTheTop(n), v) == if v == 63765 || v == 63768 then 1 else if v == 65535 then n else 0
  {
    var sample := UpToTheTop(n);
    if n > 0 {
      TopCount(n - 1, v);
      assert sample[..|sample| - 1] == UpToTheTop(n - 1);
    } else {
      assert sample[..1] == [63765] && sample[..1][..0] == [];
      assert CountOf([63765], v) == CountOf([], v) + (if 63765 == v then 1 else 0);
    }
  }

  lemma TopPoints(n: nat)
    requires 1 <= n <= 197
    ensures Low(PerValue(UpToTheTop(n)), n + 2) == 63765 && High(PerValue(UpToTheTop(n)), n + 2) == 65535
  {
    var sample := UpToTheTop(n);
    var c := PerValue(sample);
    var low, high := Low(c, n + 2), High(c, n + 2);
    SampleTotal(sample);
    PointsPresent(c, n + 2);
    TopCount(n, low);
    TopCount(n, high);
    PrefixCounts(sample, low);
    PrefixCounts(sample, high + 1);
    TopCounts(n, 0, low);
    TopCounts(n, 0, high + 1);
  }

  lemma TopStep(n: nat)
    requires n >= 1
    ensures Step(PerValue(UpToTheTop(n)), 65535) == 3
  {
    var c := PerValue(UpToTheTop(n));
    var step := StepBelow(c, VALUES);
    TopCount(n, 63765);
    TopCount(n, 63768);
    StepDivides(c, VALUES, 63765);
    StepDivides(c, VALUES, 63768);
    DividesSum(step, 63765, 63768, -1);
    var k :| 3 == Times(k, step);
    forall v | 0 <= v < VALUES && c[v] > 0 ensures Divides(3, v) {
      TopCount(n, v);
      assert 63765 == Times(21255, 3) && 63768 == Times(21256, 3) && 65535 == Times(21845, 3);
    }
    StepGreatest(c, VALUES, 3);
    var m :| step == Times(m, 3);
    OneThird(k, m, step);
  }

  lemma OneThird(k: int, m: int, step: nat)
    requires 3 == k * step && step == m * 3 && step > 0
    ensures step == 3
  {
    Scaled(step, k);
    if m >= 2 {
      Scaled(step, k);
    }
  }

  // However often the highest value is there, up to 197 times of 199, none of it is counted.
  lemma TopMissed(n: nat) returns (h: Histogram)
    requires 1 <= n <= 197
    ensures Shows(h, UpToTheTop(n)) && SumOf(h.counts) == 2
  {
    var sample := UpToTheTop(n);
    var c := PerValue(sample);
    h := Histogram(BinCounts(c, 63231, 9, BINS), 63231, 9, 63765, 65535);
    TopPoints(n);
    TopStep(n);
    RangeOfThrees();
    TopBounds(n);
    CountsAddUp(h, sample);
    TopCounts(n, 63231, 65535);
  }

  lemma TopBounds(n: nat)
    requires n >= 1
    ensures Bounds(PerValue(UpToTheTop(n)), 63765, 65535)
  {
    var c := PerValue(UpToTheTop(n));
    forall v | 0 <= v < VALUES && c[v] > 0 ensures 63765 <= v <= 65535 {
      TopCount(n, v);
    }
    TopCount(n, 63765);
    TopCount(n, 65535);
  }
}
