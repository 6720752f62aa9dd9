/** The histogram as it is measured: the tables it fills and reads.

    Every loop over a table is proved to give what Histogram.dfy says of the sample, and no
    index to leave its table. */
module HistogramLoops {
  import opened Common
  import opened Hist = Histogram

  // -- the sample ------------------------------------------------------------------------------------

  // Every fourth value of a row, from j on.
  function SampleRow(row: seq<nat>, j: nat): seq<nat>
    decreases |row| - j
  {
    if j >= |row| then [] else [row[j]] + SampleRow(row, j + 4)
  }

  // data[::4, ::4].ravel()
  function Sample(rows: seq<seq<nat>>, i: nat): seq<nat>
    decreases |rows| - i
  {
    if i >= |rows| then [] else SampleRow(rows[i], 0) + Sample(rows, i + 4)
  }

  method TallyRow(perValue: array<nat>, row: seq<nat>, ghost before: seq<nat>) returns (ghost sample: seq<nat>)
    requires perValue.Length == VALUES && Fits(row) && Fits(before)
    requires forall v :: 0 <= v < VALUES ==> perValue[v] == CountOf(before, v)
    modifies perValue
    ensures sample == before + SampleRow(row, 0) && Fits(sample)
    ensures forall v :: 0 <= v < VALUES ==> perValue[v] == CountOf(sample, v)
  {
    sample := before;
    var j := 0;
    while j < |row|
      invariant sample + SampleRow(row, j) == before + SampleRow(row, 0)
      invariant Fits(sample) && forall v :: 0 <= v < VALUES ==> perValue[v] == CountOf(sample, v)
    {
      var value := row[j];
      perValue[value] := perValue[value] + 1;
      assert (sample + [value])[..|sample|] == sample;
      assert sample + ([value] + SampleRow(row, j + 4)) == (sample + [value]) + SampleRow(row, j + 4);
      sample := sample + [value];
      j := j + 4;
    }
  }

  lemma JoinSample(sample: seq<nat>, before: seq<nat>, row: seq<nat>, rest: seq<nat>)
    requires sample == before + row
    ensures sample + rest == before + (row + rest)
  {
  }

  method Tally(rows: seq<seq<nat>>) returns (perValue: array<nat>, ghost sample: seq<nat>)
    requires forall i :: 0 <= i < |rows| ==> Fits(rows[i])
    ensures fresh(perValue) && perValue.Length == VALUES
    ensures sample == Sample(rows, 0) && Fits(sample) && perValue[..] == PerValue(sample)
  {
    perValue := new nat[VALUES](_ => 0);
    sample := [];
    var i := 0;
    while i < |rows|
      invariant sample + Sample(rows, i) == Sample(rows, 0)
      invariant Fits(sample) && forall v :: 0 <= v < VALUES ==> perValue[v] == CountOf(sample, v)
    {
      ghost var before := sample;
      sample := TallyRow(perValue, rows[i], before);
      JoinSample(sample, before, SampleRow(rows[i], 0), Sample(rows, i + 4));
      i := i + 4;
    }
  }

  // -- what the table says ------------------------------------------------------------------------------

  method Extremes(perValue: array<nat>) returns (present: bool, minimum: nat, maximum: nat, step: nat)
    requires perValue.Length == VALUES
    ensures present <==> exists v :: 0 <= v < VALUES && perValue[v] > 0
    ensures present ==> Bounds(perValue[..], minimum, maximum) && step == Step(perValue[..], maximum)
  {
    present, minimum, maximum, step := false, 0, 0, 0;
    for v := 0 to VALUES
      invariant present <==> exists u :: 0 <= u < v && perValue[u] > 0
      invariant present ==> minimum <= maximum < v && perValue[minimum] > 0 && perValue[maximum] > 0
      invariant present ==> forall u :: 0 <= u < v && perValue[u] > 0 ==> minimum <= u <= maximum
      invariant step == StepBelow(perValue[..], v)
    {
      if perValue[v] > 0 {
        if !present { minimum := v; }
        present, maximum := true, v;
        step := Gcd(step, v);
      }
    }
    if maximum == 0 {
      step := 1;
    }
  }

  method Cumulate(perValue: array<nat>) returns (cumulative: array<nat>)
    requires perValue.Length == VALUES
    ensures fresh(cumulative) && cumulative.Length == VALUES
    ensures forall v :: 0 <= v < VALUES ==> cumulative[v] == Prefix(perValue[..], v + 1)
  {
    cumulative := new nat[VALUES];
    var sum := 0;
    for v := 0 to VALUES
      invariant sum == Prefix(perValue[..], v)
      invariant forall u :: 0 <= u < v ==> cumulative[u] == Prefix(perValue[..], u + 1)
    {
      sum := sum + perValue[v];
      cumulative[v] := sum;
    }
  }

  method Find(cumulative: array<nat>, ghost c: seq<nat>, target: real, strictly: bool) returns (at: nat)
    requires cumulative.Length == |c| && forall v :: 0 <= v < |c| ==> cumulative[v] == Prefix(c, v + 1)
    ensures at == Search(c, target, strictly, 0)
  {
    at := 0;
    while at < cumulative.Length
      invariant at <= |c|
      invariant Search(c, target, strictly, 0) == Search(c, target, strictly, at)
    {
      var sum := cumulative[at] as real;
      if sum > target || (!strictly && sum == target) {
        return;
      }
      at := at + 1;
    }
  }

  // -- the bins -------------------------------------------------------------------------------------------

  // What the window holds: the table from `first` on, and nothing beyond it.
  function InWindow(c: seq<nat>, first: nat, x: nat): nat {
    if first + x < |c| then c[first + x] else 0
  }

  lemma BetweenStep(c: seq<nat>, low: nat, n: nat)
    ensures Between(c, low, low + n + 1) == Between(c, low, low + n) + InWindow(c, low, n)
    ensures Between(c, low, low) == 0
  {
  }

  lemma InsideWindow(width: nat, k: nat, j: nat)
    requires k < BINS && j < width
    ensures 0 <= width * k + j < width * BINS
  {
    NotNegative(width, k);
    NotNegative(width, 255 - k);
    assert width * (255 - k) == width * 255 - width * k;
  }

  lemma NotNegative(a: nat, b: nat)
    ensures a * b >= 0
  {
  }

  method FillWindow(perValue: array<nat>, first: nat, width: nat) returns (window: array<nat>)
    requires perValue.Length == VALUES && width > 0
    ensures fresh(window) && window.Length == width * BINS
    ensures forall x :: 0 <= x < window.Length ==> window[x] == InWindow(perValue[..], first, x)
  {
    window := new nat[width * BINS](_ => 0);
    var available := Min(window.Length, Max(0, VALUES - first));
    for x := 0 to available
      invariant forall y :: 0 <= y < x ==> window[y] == perValue[first + y]
      invariant forall y :: x <= y < window.Length ==> window[y] == 0
    {
      window[x] := perValue[first + x];
    }
  }

  method SumBins(window: array<nat>, ghost c: seq<nat>, first: nat, width: nat) returns (counts: seq<int>)
    requires window.Length == width * BINS
    requires forall x :: 0 <= x < window.Length ==> window[x] == InWindow(c, first, x)
    ensures counts == BinCounts(c, first, width, BINS)
  {
    counts := [];
    for k := 0 to BINS
      invariant counts == BinCounts(c, first, width, k)
    {
      var sum := 0;
      ghost var low := first + width * k;
      BetweenStep(c, low, 0);
      for j := 0 to width
        invariant sum == Between(c, low, low + j)
      {
        InsideWindow(width, k, j);
        BetweenStep(c, low, j);
        assert window[width * k + j] == InWindow(c, low, j);
        sum := sum + window[width * k + j];
      }
      assert low + width == first + width * (k + 1);
      counts := counts + [sum];
    }
  }

  lemma {:induction false} NothingCounted(sample: seq<nat>)
    requires Fits(sample) && forall v :: 0 <= v < VALUES ==> CountOf(sample, v) == 0
    ensures sample == []
  {
    if sample != [] {
      assert CountOf(sample, sample[|sample| - 1]) > 0;
    }
  }

  lemma {:induction false} SomethingCounted(sample: seq<nat>, v: nat)
    requires CountOf(sample, v) > 0
    ensures sample != []
  {
  }

  // Where the bins are, from the table.
  method Place(perValue: array<nat>, ghost sample: seq<nat>, ghost c: seq<nat>, step: nat) returns (first: int, width: int)
    requires perValue.Length == VALUES && perValue[..] == c == PerValue(sample) && Fits(sample) && sample != [] && step > 0
    ensures Low(c, |sample|) <= High(c, |sample|) < VALUES && c[High(c, |sample|)] > 0
    ensures (first, width) == Range(Low(c, |sample|), High(c, |sample|), step)
  {
    SampleTotal(sample);
    PointsPresent(c, |sample|);
    var cumulative := Cumulate(perValue);
    var total := cumulative[VALUES - 1];
    var low := Find(cumulative, c, total as real * TAIL, true);
    var high := Find(cumulative, c, total as real * (1.0 - TAIL), false);
    var range := Range(low, high, step);
    first, width := range.0, range.1;
  }

  lemma PlaceFits(c: seq<nat>, minimum: nat, maximum: nat, low: nat, high: nat, step: nat)
    requires |c| == VALUES && Bounds(c, minimum, maximum) && step == Step(c, maximum) && step > 0
    requires low <= high < VALUES && c[high] > 0
    ensures Range(low, high, step).0 >= 0 && Range(low, high, step).1 > 0
  {
    StepIsPositive(c, minimum, maximum, high);
    RangeSound(low, high, step);
  }

  lemma ShowsIt(h: Histogram, sample: seq<nat>, c: seq<nat>, step: nat)
    requires sample != [] && c == PerValue(sample) && h.minimum >= 0 && h.maximum >= 0 && Bounds(c, h.minimum, h.maximum)
    requires step == Step(c, h.maximum) > 0 && Low(c, |sample|) <= High(c, |sample|) < VALUES
    requires (h.first, h.width) == Range(Low(c, |sample|), High(c, |sample|), step) && h.first >= 0 && h.width > 0
    requires h.counts == BinCounts(c, h.first, h.width, BINS)
    ensures Shows(h, sample)
  {
  }

  method MeasureHistogram(rows: seq<seq<nat>>) returns (h: Histogram)
    requires forall i :: 0 <= i < |rows| ==> Fits(rows[i])
    ensures Shows(h, Sample(rows, 0))
    ensures |h.counts| == BINS
    ensures Sample(rows, 0) != [] ==> SumOf(h.counts) == CountIn(Sample(rows, 0), h.first, h.first + h.width * BINS)
  {
    var perValue, sample := Tally(rows);
    ghost var c := PerValue(sample);
    var present, minimum, maximum, step := Extremes(perValue);
    if !present {
      NothingCounted(sample);
      h := Histogram(seq(BINS, i => 0), 0, 1, 0, 0);
      return;
    }
    SomethingCounted(sample, minimum);
    StepIsPositive(c, minimum, maximum, minimum);
    var first, width := Place(perValue, sample, c, step);
    PlaceFits(c, minimum, maximum, Low(c, |sample|), High(c, |sample|), step);
    var window := FillWindow(perValue, first, width);
    var counts := SumBins(window, c, first, width);
    h := Histogram(counts, first, width, minimum, maximum);
    ShowsIt(h, sample, c, step);
    CountsAddUp(h, sample);
  }
}
