/** Emissions in a band: adjacent active bins grouped into maximal runs, measured and
  labelled (internal/spectrum/classify.go). Exact reals; the two quotients that can be
  0/0 in floating point give NaN. */
module Classify {
  import opened Sorting
  import opened Spectrum

  datatype BinSeries = BinSeries(freqHz: real, powers: seq<real>)

  datatype EmissionClass = Packet | Continuous | Wideband | Unknown

  datatype Confidence = Number(value: real) | NaN

  datatype Emission = Emission(
    lowHz: real, highHz: real, bandwidthHz: real, peakFreqHz: real, peakDB: real,
    dutyCyclePercent: real, class_: EmissionClass, confidence: Confidence)

  datatype ClassifyOptions = ClassifyOptions(
    base: Options, presentDutyPercent: real, sustainedDutyPercent: real, widebandHz: real)

  datatype Feature = Feature(freqHz: real, duty: real, peakDB: real, present: bool)

  // ----- Bins to features

  predicate Usable(s: BinSeries, band: Band) {
    band.lowHz <= s.freqHz < band.highHz && s.powers != []
  }

  function InBandSeries(series: seq<BinSeries>, band: Band): (r: seq<BinSeries>)
    ensures forall s :: s in r <==> s in series && Usable(s, band)
    ensures forall i :: 0 <= i < |r| ==> r[i].powers != []
  {
    if series == [] then []
    else
      var last := series[|series| - 1];
      assert series == series[..|series| - 1] + [last];
      InBandSeries(series[..|series| - 1], band) + if Usable(last, band) then [last] else []
  }

  ghost predicate AreFloors(inBand: seq<BinSeries>, p: real, floors: seq<real>) {
    |floors| == |inBand| && forall i :: 0 <= i < |inBand| ==> floors[i] == Percentile(inBand[i].powers, p)
  }

  /** Duty is the share of samples above the threshold, the peak the strongest sample, and
      a bin is present when its duty reaches the configured share. */
  ghost predicate IsFeature(s: BinSeries, threshold: real, opts: ClassifyOptions, f: Feature) {
    && s.powers != [] && f.freqHz == s.freqHz
    && f.duty == CountIf(s.powers, Above(threshold)) as real / |s.powers| as real * 100.0
    && IsMax(s.powers, 0, |s.powers|, f.peakDB)
    && (f.present <==> f.duty >= opts.presentDutyPercent)
  }

  ghost predicate AreFeatures(inBand: seq<BinSeries>, threshold: real, opts: ClassifyOptions, feats: seq<Feature>) {
    |feats| == |inBand| && forall i :: 0 <= i < |inBand| ==> IsFeature(inBand[i], threshold, opts, feats[i])
  }

  method Select(series: seq<BinSeries>, band: Band) returns (inBand: seq<BinSeries>)
    ensures inBand == InBandSeries(series, band)
  {
    inBand := [];
    for i := 0 to |series|
      invariant inBand == InBandSeries(series[..i], band)
    {
      assert series[..i + 1][..i] == series[..i];
      var s := series[i];
      if s.freqHz < band.lowHz || s.freqHz >= band.highHz || |s.powers| == 0 {
        continue;
      }
      inBand := inBand + [s];
    }
    assert series[..|series|] == series;
  }

  method Floors(inBand: seq<BinSeries>, p: real) returns (floors: seq<real>)
    ensures AreFloors(inBand, p, floors)
  {
    hide Percentile;
    floors := [];
    for i := 0 to |inBand|
      invariant AreFloors(inBand[..i], p, floors)
    {
      floors := floors + [Percentile(inBand[i].powers, p)];
    }
    assert inBand[..|inBand|] == inBand;
  }

  method Measure(s: BinSeries, threshold: real, opts: ClassifyOptions) returns (f: Feature)
    requires s.powers != []
    ensures IsFeature(s, threshold, opts, f)
  {
    hide CountIf;
    var above := CountAbove(s.powers, threshold);
    var peak := MaxOf(s.powers, 0, |s.powers|);
    var duty := above as real / |s.powers| as real * 100.0;
    f := Feature(s.freqHz, duty, peak, duty >= opts.presentDutyPercent);
  }

  method Features(inBand: seq<BinSeries>, threshold: real, opts: ClassifyOptions) returns (feats: seq<Feature>)
    requires forall i :: 0 <= i < |inBand| ==> inBand[i].powers != []
    ensures AreFeatures(inBand, threshold, opts, feats)
  {
    feats := [];
    for i := 0 to |inBand|
      invariant |feats| == i && forall j :: 0 <= j < i ==> IsFeature(inBand[j], threshold, opts, feats[j])
    {
      hide IsFeature;
      var f := Measure(inBand[i], threshold, opts);
      feats := feats + [f];
    }
  }

  lemma DutyIsPercentage(s: BinSeries, threshold: real, opts: ClassifyOptions, f: Feature)
    requires IsFeature(s, threshold, opts, f)
    ensures 0.0 <= f.duty <= 100.0
  {
    var x, d := CountIf(s.powers, Above(threshold)) as real, |s.powers| as real;
    Quotient(x, 1.0, d);
  }

  // ----- Grid step

  /** The positive gaps between neighbouring bins. */
  function Gaps(feats: seq<Feature>): (r: seq<real>)
    ensures forall i :: 0 <= i < |r| ==> r[i] > 0.0
  {
    if |feats| < 2 then []
    else
      var g := feats[|feats| - 1].freqHz - feats[|feats| - 2].freqHz;
      Gaps(feats[..|feats| - 1]) + if g > 0.0 then [g] else []
  }

  function MedianStep(gaps: seq<real>): real {
    if gaps == [] then 1000000.0 else SortReals(gaps)[|gaps| / 2]
  }

  method GridStep(feats: seq<Feature>) returns (step: real)
    ensures step == MedianStep(Gaps(feats))
  {
    hide MedianStep;
    var gaps: seq<real> := [];
    var i := 1;
    while i < |feats|
      invariant 1 <= i && (i <= |feats| ==> gaps == Gaps(feats[..i]))
      invariant |feats| == 0 ==> gaps == []
      invariant i <= |feats| || |feats| == 0
    {
      assert feats[..i + 1][..i] == feats[..i];
      var g := feats[i].freqHz - feats[i - 1].freqHz;
      if g > 0.0 {
        gaps := gaps + [g];
      }
      i := i + 1;
    }
    assert feats[..|feats|] == feats;
    step := MiddleOf(gaps);
  }

  method MiddleOf(gaps: seq<real>) returns (step: real)
    ensures step == MedianStep(gaps)
  {
    if |gaps| == 0 {
      return 1000000.0;
    }
    var sorted := SortReals(gaps);
    step := sorted[|gaps| / 2];
  }

  function Equal(s: real): real -> bool { (v: real) => v == s }

  lemma {:induction false} CountIfImplied(s: seq<real>, p: real -> bool, q: real -> bool)
    requires forall v :: p(v) ==> q(v)
    ensures CountIf(s, p) <= CountIf(s, q)
  {
    if s != [] { CountIfImplied(s[..|s| - 1], p, q); }
  }

  /** The median resists outliers: a spacing held by more than half of the positive gaps
      is the step, whatever the other gaps are. */
  lemma MedianIsMajority(gaps: seq<real>, s: real)
    requires 2 * CountIf(gaps, Equal(s)) > |gaps|
    ensures MedianStep(gaps) == s
  {
    var sorted, k := SortReals(gaps), |gaps| / 2;
    var v := sorted[k];
    CountIfPermuted(sorted, gaps, Equal(s));
    SortedAbove(sorted, k);
    SortedBelow(sorted, k);
    if v > s {
      CountIfImplied(sorted, Equal(s), Below(v));
    } else if v < s {
      CountIfImplied(sorted, Equal(s), Above(v));
    }
  }

  // ----- Runs

  /** Bins m and m + 1 belong together. */
  predicate Linked(feats: seq<Feature>, step: real, m: int) {
    && 0 <= m < |feats| - 1
    && feats[m].present && feats[m + 1].present && feats[m + 1].freqHz - feats[m].freqHz <= 1.5 * step
  }

  datatype Run = Run(lo: nat, hi: nat)

  predicate Holds(r: Run, b: int) { r.lo <= b < r.hi }

  /** Bins lo..hi, hi excluded, are present and linked, and no longer such run contains them. */
  ghost predicate IsRun(feats: seq<Feature>, step: real, r: Run) {
    && r.lo < r.hi <= |feats| && feats[r.lo].present
    && (forall m :: r.lo <= m < r.hi - 1 ==> Linked(feats, step, m))
    && !Linked(feats, step, r.lo - 1) && !Linked(feats, step, r.hi - 1)
  }

  /** The maximal runs among the bins before `upto`, in order, none left out. */
  ghost predicate AreRuns(feats: seq<Feature>, step: real, upto: int, runs: seq<Run>) {
    && 0 <= upto <= |feats|
    && (forall k :: 0 <= k < |runs| ==> IsRun(feats, step, runs[k]) && runs[k].hi <= upto)
    && (forall k :: 0 < k < |runs| ==> runs[k - 1].hi <= runs[k].lo)
    && (forall b :: 0 <= b < upto && feats[b].present ==> InSome(runs, b))
  }

  ghost predicate InSome(runs: seq<Run>, b: int) { exists k :: 0 <= k < |runs| && Holds(runs[k], b) }

  lemma RunEdges(feats: seq<Feature>, step: real, r: Run)
    requires IsRun(feats, step, r)
    ensures r.lo < r.hi <= |feats| && !Linked(feats, step, r.lo - 1) && !Linked(feats, step, r.hi - 1)
  {
    hide Linked;
  }

  lemma RunInside(feats: seq<Feature>, step: real, r: Run, m: int)
    requires IsRun(feats, step, r) && r.lo <= m < r.hi
    ensures feats[m].present && (m + 1 < r.hi ==> Linked(feats, step, m))
  {
    assert m > r.lo ==> Linked(feats, step, m - 1);
  }

  lemma RunAt(feats: seq<Feature>, step: real, upto: int, runs: seq<Run>, k: nat)
    requires AreRuns(feats, step, upto, runs) && k < |runs|
    ensures IsRun(feats, step, runs[k]) && runs[k].lo < runs[k].hi <= upto <= |feats|
    ensures k > 0 ==> runs[k - 1].hi <= runs[k].lo
  {
    hide Linked;
  }

  lemma RunOf(feats: seq<Feature>, step: real, upto: int, runs: seq<Run>, b: nat) returns (k: nat)
    requires AreRuns(feats, step, upto, runs) && b < upto && feats[b].present
    ensures k < |runs| && Holds(runs[k], b)
  {
    hide IsRun, Holds;
    assert InSome(runs, b);
    k :| k < |runs| && Holds(runs[k], b);
  }

  lemma {:induction false} RunsApart(feats: seq<Feature>, step: real, runs: seq<Run>, k: nat, l: nat)
    requires AreRuns(feats, step, |feats|, runs) && k < l < |runs|
    ensures runs[k].hi <= runs[l].lo
  {
    hide AreRuns, IsRun;
    RunAt(feats, step, |feats|, runs, l);
    if k < l - 1 {
      RunsApart(feats, step, runs, k, l - 1);
      RunAt(feats, step, |feats|, runs, l - 1);
    }
  }

  lemma OneRunAtMost(feats: seq<Feature>, step: real, runs: seq<Run>, k: nat, l: nat, b: int)
    requires AreRuns(feats, step, |feats|, runs) && k < |runs| && l < |runs|
    requires Holds(runs[k], b) && Holds(runs[l], b)
    ensures k == l
  {
    hide AreRuns;
    if k < l { RunsApart(feats, step, runs, k, l); }
    if l < k { RunsApart(feats, step, runs, l, k); }
  }

  /** Every present bin lies in exactly one run and no absent bin lies in any. */
  lemma RunsPartitionPresent(feats: seq<Feature>, step: real, runs: seq<Run>, b: nat)
    requires AreRuns(feats, step, |feats|, runs) && b < |feats|
    ensures feats[b].present <==> InSome(runs, b)
    ensures forall k, l :: 0 <= k < |runs| && 0 <= l < |runs| && Holds(runs[k], b) && Holds(runs[l], b) ==> k == l
  {
    hide AreRuns, IsRun;
    if feats[b].present {
      var k := RunOf(feats, step, |feats|, runs, b);
    }
    if InSome(runs, b) {
      var k :| 0 <= k < |runs| && Holds(runs[k], b);
      RunAt(feats, step, |feats|, runs, k);
      RunInside(feats, step, runs[k], b);
    }
    forall k, l | 0 <= k < |runs| && 0 <= l < |runs| && Holds(runs[k], b) && Holds(runs[l], b) ensures k == l {
      OneRunAtMost(feats, step, runs, k, l, b);
    }
  }

  /** Runs are maximal: two bins share a run exactly when all bins between them are present
      and no gap between neighbours exceeds one and a half grid steps. */
  lemma SameRun(feats: seq<Feature>, step: real, runs: seq<Run>, k: nat, a: nat, b: nat)
    requires AreRuns(feats, step, |feats|, runs) && k < |runs| && Holds(runs[k], a) && a <= b < |feats|
    ensures Holds(runs[k], b) <==>
      && (forall m :: a <= m <= b ==> feats[m].present)
      && (forall m :: a < m <= b ==> 2.0 * (feats[m].freqHz - feats[m - 1].freqHz) <= 3.0 * step)
  {
    LinkedRun(feats, step, runs, k, a, b);
    RunAt(feats, step, |feats|, runs, k);
    RunInside(feats, step, runs[k], a);
    hide AreRuns, IsRun;
    LinkedExact(feats, step, a, b);
  }

  lemma LinkedExact(feats: seq<Feature>, step: real, a: nat, b: nat)
    requires a <= b < |feats| && feats[a].present
    ensures (forall m :: a <= m < b ==> Linked(feats, step, m)) <==>
      && (forall m :: a <= m <= b ==> feats[m].present)
      && (forall m :: a < m <= b ==> 2.0 * (feats[m].freqHz - feats[m - 1].freqHz) <= 3.0 * step)
  {
    if forall m :: a <= m < b ==> Linked(feats, step, m) {
      forall m | a < m <= b
        ensures feats[m].present && 2.0 * (feats[m].freqHz - feats[m - 1].freqHz) <= 3.0 * step
      {
        assert Linked(feats, step, m - 1);
      }
    } else {
      var m :| a <= m < b && !Linked(feats, step, m);
      assert !feats[m].present || !feats[m + 1].present
          || 2.0 * (feats[m + 1].freqHz - feats[m + 1 - 1].freqHz) > 3.0 * step;
    }
  }

  lemma LinkedRun(feats: seq<Feature>, step: real, runs: seq<Run>, k: nat, a: nat, b: nat)
    requires AreRuns(feats, step, |feats|, runs) && k < |runs| && Holds(runs[k], a) && a <= b < |feats|
    ensures Holds(runs[k], b) <==> forall m :: a <= m < b ==> Linked(feats, step, m)
  {
    hide AreRuns, Linked;
    RunAt(feats, step, |feats|, runs, k);
    RunEdges(feats, step, runs[k]);
  }

  /** Neighbouring runs are separated by an absent bin or by a gap over 1.5 grid steps. */
  lemma RunsSeparated(feats: seq<Feature>, step: real, runs: seq<Run>, k: nat)
    requires AreRuns(feats, step, |feats|, runs) && k + 1 < |runs|
    ensures var h, l := runs[k].hi, runs[k + 1].lo;
      && 0 < h <= l < |feats|
      && (h == l ==> feats[l].freqHz - feats[l - 1].freqHz > 1.5 * step)
      && (forall b :: h <= b < l ==> !feats[b].present)
  {
    var h, l := runs[k].hi, runs[k + 1].lo;
    RunAt(feats, step, |feats|, runs, k);
    RunAt(feats, step, |feats|, runs, k + 1);
    hide AreRuns, IsRun;
    RunEdges(feats, step, runs[k]);
    RunInside(feats, step, runs[k], h - 1);
    RunInside(feats, step, runs[k + 1], l);
    forall b | h <= b < l ensures !feats[b].present {
      if feats[b].present { BetweenRuns(feats, step, runs, k, b); }
    }
  }

  lemma BetweenRuns(feats: seq<Feature>, step: real, runs: seq<Run>, k: nat, b: nat)
    requires AreRuns(feats, step, |feats|, runs) && k + 1 < |runs|
    requires runs[k].hi <= b < runs[k + 1].lo && b < |feats|
    ensures !feats[b].present
  {
    hide AreRuns, IsRun;
    if feats[b].present {
      var j := RunOf(feats, step, |feats|, runs, b);
      RunAt(feats, step, |feats|, runs, k);
      RunAt(feats, step, |feats|, runs, k + 1);
      if j < k { RunsApart(feats, step, runs, j, k); }
      if j > k + 1 { RunsApart(feats, step, runs, k + 1, j); }
    }
  }

  lemma SameEnd(feats: seq<Feature>, step: real, r: Run, q: Run)
    requires IsRun(feats, step, r) && IsRun(feats, step, q) && r.lo == q.lo
    ensures r == q
  {
    hide IsRun, Linked;
    RunEdges(feats, step, r);
    RunEdges(feats, step, q);
    if r.hi < q.hi { RunInside(feats, step, q, r.hi - 1); }
    if q.hi < r.hi { RunInside(feats, step, r, q.hi - 1); }
  }

  lemma SameStretch(feats: seq<Feature>, step: real, q: Run, r: Run)
    requires IsRun(feats, step, q) && IsRun(feats, step, r) && Holds(q, r.lo)
    ensures q == r
  {
    hide IsRun, Linked;
    RunEdges(feats, step, r);
    if q.lo < r.lo { RunInside(feats, step, q, r.lo - 1); }
    SameEnd(feats, step, q, r);
  }

  /** No maximal run is left out. */
  lemma RunsComplete(feats: seq<Feature>, step: real, runs: seq<Run>, r: Run) returns (k: nat)
    requires AreRuns(feats, step, |feats|, runs) && IsRun(feats, step, r)
    ensures k < |runs| && runs[k] == r
  {
    hide AreRuns, Linked;
    k := RunOf(feats, step, |feats|, runs, r.lo);
    RunAt(feats, step, |feats|, runs, k);
    hide IsRun;
    SameStretch(feats, step, runs[k], r);
  }

  // ----- Measuring and labelling a run

  function Clamp(v: real, lo: real, hi: real): real { if v < lo then lo else if v > hi then hi else v }

  /** clamp(x / y - offset, 0.5, 1) * weight in floating point: x / 0 is infinite with
      the sign of x, and 0 / 0 is NaN. */
  function ClampedQuotient(x: real, y: real, offset: real, weight: real): Confidence {
    if y != 0.0 then Number(Clamp(x / y - offset, 0.5, 1.0) * weight)
    else if x == 0.0 then NaN
    else Number(if x > 0.0 then weight else 0.5 * weight)
  }

  function Label(bandwidthHz: real, dutyPercent: real, binCount: nat, opts: ClassifyOptions)
    : (EmissionClass, Confidence)
  {
    var widthConf := if binCount <= 1 then 0.6 else 1.0;
    var sustained := opts.sustainedDutyPercent;
    if bandwidthHz >= opts.widebandHz then
      (Wideband, ClampedQuotient(bandwidthHz, opts.widebandHz, 1.0, 1.0))
    else if dutyPercent >= sustained then
      (Continuous, ClampedQuotient(dutyPercent - sustained, 100.0 - sustained, 0.0, widthConf))
    else
      (Packet, ClampedQuotient(sustained - dutyPercent, sustained, 0.0, widthConf))
  }

  /** With a duty in 0..100 the confidence is a number in [0.3, 1], except in exactly two
      settings, where it is NaN: no wideband threshold and a run of no width, or a
      sustained boundary of 100 met exactly. */
  lemma ConfidenceRange(bandwidthHz: real, dutyPercent: real, binCount: nat, opts: ClassifyOptions)
    requires 0.0 <= dutyPercent <= 100.0
    ensures !Label(bandwidthHz, dutyPercent, binCount, opts).0.Unknown?
    ensures var c := Label(bandwidthHz, dutyPercent, binCount, opts).1;
      && (c.NaN? <==> || (opts.widebandHz == 0.0 && bandwidthHz == 0.0)
                      || (bandwidthHz < opts.widebandHz && opts.sustainedDutyPercent == 100.0 && dutyPercent == 100.0))
      && (c.Number? ==> 0.3 <= c.value <= 1.0)
  {
  }

  function Width(run: seq<Feature>): real
    requires run != []
  {
    if |run| >= 2 then
      var span := run[|run| - 1].freqHz - run[0].freqHz;
      span + span / (|run| - 1) as real
    else 0.0
  }

  /** `d` is the largest duty of the run, or 0 if all are negative. */
  ghost predicate IsMaxDuty(run: seq<Feature>, d: real) {
    && d >= 0.0 && (forall i :: 0 <= i < |run| ==> run[i].duty <= d)
    && (d == 0.0 || exists i :: 0 <= i < |run| && run[i].duty == d)
  }

  /** `k` is the first of the run's strongest bins. */
  ghost predicate IsRunPeak(run: seq<Feature>, k: int) {
    && 0 <= k < |run|
    && (forall i :: 0 <= i < |run| ==> run[i].peakDB <= run[k].peakDB)
    && (forall i :: 0 <= i < k ==> run[i].peakDB < run[k].peakDB)
  }

  ghost predicate IsEmission(run: seq<Feature>, opts: ClassifyOptions, e: Emission) {
    && run != [] && e.lowHz == run[0].freqHz && e.highHz == run[|run| - 1].freqHz
    && e.bandwidthHz == Width(run)
    && IsMaxDuty(run, e.dutyCyclePercent)
    && (exists k :: IsRunPeak(run, k) && e.peakDB == run[k].peakDB && e.peakFreqHz == run[k].freqHz)
    && (e.class_, e.confidence) == Label(e.bandwidthHz, e.dutyCyclePercent, |run|, opts)
  }

  method BuildEmission(run: seq<Feature>, opts: ClassifyOptions) returns (e: Emission)
    requires run != []
    ensures IsEmission(run, opts, e)
  {
    hide Label;
    var low, high := run[0].freqHz, run[|run| - 1].freqHz;
    var bandwidth := 0.0;
    if |run| >= 2 {
      var binWidth := (high - low) / (|run| - 1) as real;
      bandwidth := high - low + binWidth;
    }
    var maxDuty, peak, peakFreq := ScanRun(run);
    var (class_, conf) := Label(bandwidth, maxDuty, |run|, opts);
    e := Emission(low, high, bandwidth, peakFreq, peak, maxDuty, class_, conf);
  }

  method ScanRun(run: seq<Feature>) returns (maxDuty: real, peak: real, peakFreq: real)
    requires run != []
    ensures IsMaxDuty(run, maxDuty)
    ensures exists k :: IsRunPeak(run, k) && peak == run[k].peakDB && peakFreq == run[k].freqHz
  {
    maxDuty, peak, peakFreq := 0.0, run[0].peakDB, run[0].freqHz;
    ghost var k := 0;
    for i := 0 to |run|
      invariant IsMaxDuty(run[..i], maxDuty)
      invariant 0 <= k < |run| && k <= i && peak == run[k].peakDB && peakFreq == run[k].freqHz
      invariant forall j :: 0 <= j < i ==> run[j].peakDB <= peak
      invariant forall j :: 0 <= j < k ==> run[j].peakDB < peak
    {
      var f := run[i];
      MoreDuty(run, i, maxDuty);
      if f.duty > maxDuty { maxDuty := f.duty; }
      if f.peakDB > peak {
        peak, peakFreq := f.peakDB, f.freqHz;
        k := i;
      }
    }
    assert run[..|run|] == run;
    assert IsRunPeak(run, k);
  }

  lemma MoreDuty(run: seq<Feature>, i: nat, d: real)
    requires i < |run| && IsMaxDuty(run[..i], d)
    ensures IsMaxDuty(run[..i + 1], if run[i].duty > d then run[i].duty else d)
  {
    var next := run[..i + 1];
    if run[i].duty > d {
      assert next[i].duty == run[i].duty;
      forall j | 0 <= j < i + 1 ensures next[j].duty <= run[i].duty {
        if j < i { assert run[..i][j].duty <= d; }
      }
    } else {
      forall j | 0 <= j < i + 1 ensures next[j].duty <= d {
        if j < i { assert run[..i][j].duty <= d; }
      }
      if d != 0.0 {
        var j :| 0 <= j < i && run[..i][j].duty == d;
        assert next[j].duty == d;
      }
    }
  }

  // ----- The whole classification

  /** One emission per maximal run, in order. */
  ghost predicate AreEmissions(feats: seq<Feature>, runs: seq<Run>, opts: ClassifyOptions, es: seq<Emission>) {
    && |es| == |runs|
    && forall k :: 0 <= k < |runs| ==>
         runs[k].lo < runs[k].hi <= |feats| && IsEmission(feats[runs[k].lo..runs[k].hi], opts, es[k])
  }

  ghost predicate IsGrouped(feats: seq<Feature>, step: real, opts: ClassifyOptions, runs: seq<Run>, es: seq<Emission>) {
    AreRuns(feats, step, |feats|, runs) && AreEmissions(feats, runs, opts, es)
  }

  method Group(feats: seq<Feature>, step: real, opts: ClassifyOptions) returns (es: seq<Emission>)
    ensures exists runs :: IsGrouped(feats, step, opts, runs, es)
  {
    es := [];
    ghost var runs: seq<Run> := [];
    var i := 0;
    hide *;
    NothingYet(feats, step, opts);
    while i < |feats|
      invariant AreRuns(feats, step, i, runs) && 0 <= i <= |feats|
      invariant !Linked(feats, step, i - 1)
      invariant AreEmissions(feats, runs, opts, es)
    {
      if !feats[i].present {
        OneMoreAbsent(feats, step, i, runs);
        i := i + 1;
        continue;
      }
      var j := RunEnd(feats, step, i);
      var e := BuildEmission(feats[i..j + 1], opts);
      OneMoreRun(feats, step, i, j, runs);
      OneMoreEmission(feats, runs, opts, es, Run(i, j + 1), e);
      es, runs := es + [e], runs + [Run(i, j + 1)];
      i := j + 1;
    }
    GroupedBy(feats, step, opts, runs, es);
  }

  lemma GroupedBy(feats: seq<Feature>, step: real, opts: ClassifyOptions, runs: seq<Run>, es: seq<Emission>)
    requires AreRuns(feats, step, |feats|, runs) && AreEmissions(feats, runs, opts, es)
    ensures IsGrouped(feats, step, opts, runs, es)
  {
  }

  lemma NothingYet(feats: seq<Feature>, step: real, opts: ClassifyOptions)
    ensures AreRuns(feats, step, 0, []) && !Linked(feats, step, -1) && AreEmissions(feats, [], opts, [])
  {
  }

  method RunEnd(feats: seq<Feature>, step: real, i: nat) returns (j: nat)
    requires i < |feats| && feats[i].present
    ensures i <= j < |feats| && (forall m :: i <= m < j ==> Linked(feats, step, m))
    ensures !Linked(feats, step, j)
  {
    j := i;
    while j + 1 < |feats| && feats[j + 1].present && feats[j + 1].freqHz - feats[j].freqHz <= 1.5 * step
      invariant i <= j < |feats| && feats[j].present && forall m :: i <= m < j ==> Linked(feats, step, m)
    {
      j := j + 1;
    }
  }

  lemma NewRun(feats: seq<Feature>, step: real, r: Run)
    requires r.lo < r.hi <= |feats| && feats[r.lo].present
    requires !Linked(feats, step, r.lo - 1) && !Linked(feats, step, r.hi - 1)
    requires forall m :: r.lo <= m < r.hi - 1 ==> Linked(feats, step, m)
    ensures IsRun(feats, step, r)
  {
    hide Linked;
  }

  lemma RunsCoverMore(feats: seq<Feature>, step: real, upto: int, runs: seq<Run>, r: Run)
    requires AreRuns(feats, step, upto, runs) && r.lo == upto && r.hi <= |feats|
    ensures forall b :: 0 <= b < r.hi && feats[b].present ==> InSome(runs + [r], b)
  {
    hide AreRuns, IsRun;
    var more := runs + [r];
    forall b | 0 <= b < r.hi && feats[b].present ensures InSome(more, b) {
      if b < upto {
        var k := RunOf(feats, step, upto, runs, b);
        assert more[k] == runs[k];
      } else {
        assert more[|runs|] == r && Holds(r, b);
      }
    }
  }

  lemma RunsGrow(feats: seq<Feature>, step: real, upto: int, runs: seq<Run>, r: Run)
    requires AreRuns(feats, step, upto, runs) && IsRun(feats, step, r) && r.lo == upto && r.hi <= |feats|
    requires upto <= r.hi
    requires forall b :: 0 <= b < r.hi && feats[b].present ==> InSome(runs + [r], b)
    ensures AreRuns(feats, step, r.hi, runs + [r])
  {
    hide IsRun, InSome;
    var more := runs + [r];
    forall k | 0 < k < |more| ensures more[k - 1].hi <= more[k].lo {
      if k == |runs| { assert more[k - 1] == runs[k - 1]; }
    }
  }

  lemma OneMoreRun(feats: seq<Feature>, step: real, i: nat, j: nat, runs: seq<Run>)
    requires AreRuns(feats, step, i, runs) && i <= j < |feats| && feats[i].present
    requires !Linked(feats, step, i - 1)
    requires forall m :: i <= m < j ==> Linked(feats, step, m)
    requires !Linked(feats, step, j)
    ensures AreRuns(feats, step, j + 1, runs + [Run(i, j + 1)])
  {
    var r := Run(i, j + 1);
    hide *;
    NewRun(feats, step, r);
    RunsCoverMore(feats, step, i, runs, r);
    RunsGrow(feats, step, i, runs, r);
  }

  lemma OneMoreAbsent(feats: seq<Feature>, step: real, i: nat, runs: seq<Run>)
    requires AreRuns(feats, step, i, runs) && i < |feats| && !feats[i].present
    ensures AreRuns(feats, step, i + 1, runs) && !Linked(feats, step, i)
  {
    hide IsRun;
  }

  lemma OneMoreEmission(feats: seq<Feature>, runs: seq<Run>, opts: ClassifyOptions, es: seq<Emission>, r: Run,
                        e: Emission)
    requires AreEmissions(feats, runs, opts, es) && r.lo < r.hi <= |feats| && IsEmission(feats[r.lo..r.hi], opts, e)
    ensures AreEmissions(feats, runs + [r], opts, es + [e])
  {
    hide IsEmission;
  }

  /** What classification means for a band: features against one threshold, the median
      step, and one emission per maximal run. */
  ghost predicate IsClassified(series: seq<BinSeries>, band: Band, opts: ClassifyOptions, feats: seq<Feature>,
                               runs: seq<Run>, es: seq<Emission>) {
    var inBand := InBandSeries(series, band);
    && (exists floors :: AreFloors(inBand, opts.base.noiseFloorPercentile, floors)
          && AreFeatures(inBand, ThresholdOf(floors, opts), opts, feats))
    && IsGrouped(feats, MedianStep(Gaps(feats)), opts, runs, es)
  }

  function ThresholdOf(floors: seq<real>, opts: ClassifyOptions): real {
    Percentile(floors, opts.base.noiseFloorPercentile) + opts.base.thresholdMarginDB
  }

  method Classify(series: seq<BinSeries>, band: Band, opts: ClassifyOptions) returns (es: seq<Emission>)
    ensures exists feats, runs :: IsClassified(series, band, opts, feats, runs, es)
  {
    hide InBandSeries, Percentile, AreFeatures, IsGrouped, MedianStep, Gaps;
    var inBand := Select(series, band);
    if |inBand| == 0 {
      es := [];
      NothingInBand(inBand, opts);
      assert IsClassified(series, band, opts, [], [], []);
      return;
    }
    var floors := Floors(inBand, opts.base.noiseFloorPercentile);
    var threshold := Percentile(floors, opts.base.noiseFloorPercentile) + opts.base.thresholdMarginDB;
    var feats := Features(inBand, threshold, opts);
    var step := GridStep(feats);
    es := Group(feats, step, opts);
    assert threshold == ThresholdOf(floors, opts);
    ghost var runs :| IsGrouped(feats, step, opts, runs, es);
    assert IsClassified(series, band, opts, feats, runs, es);
  }

  lemma NothingInBand(inBand: seq<BinSeries>, opts: ClassifyOptions)
    requires inBand == []
    ensures AreFloors(inBand, opts.base.noiseFloorPercentile, [])
    ensures AreFeatures(inBand, ThresholdOf([], opts), opts, [])
    ensures IsGrouped([], MedianStep(Gaps([])), opts, [], [])
  {
    hide Percentile;
  }

  predicate Ascending(feats: seq<Feature>) {
    forall i, j :: 0 <= i < j < |feats| ==> feats[i].freqHz < feats[j].freqHz
  }

  predicate AscendingSeries(series: seq<BinSeries>) {
    forall i, j :: 0 <= i < j < |series| ==> series[i].freqHz < series[j].freqHz
  }

  lemma {:induction false} InBandAscends(series: seq<BinSeries>, band: Band)
    requires AscendingSeries(series)
    ensures AscendingSeries(InBandSeries(series, band))
  {
    if series != [] {
      var init, last := series[..|series| - 1], series[|series| - 1];
      InBandAscends(init, band);
      var kept := InBandSeries(init, band);
      forall i | 0 <= i < |kept| ensures kept[i].freqHz < last.freqHz {
        assert kept[i] in init;
      }
    }
  }

  /** A sweep sorted by frequency gives features sorted by frequency. */
  lemma FeaturesAscend(series: seq<BinSeries>, band: Band, opts: ClassifyOptions, feats: seq<Feature>, runs: seq<Run>,
                       es: seq<Emission>)
    requires AscendingSeries(series) && IsClassified(series, band, opts, feats, runs, es)
    ensures Ascending(feats)
  {
    hide AreRuns, AreEmissions, IsFeature, ThresholdOf;
    InBandAscends(series, band);
    var floors :| AreFeatures(InBandSeries(series, band), ThresholdOf(floors, opts), opts, feats);
    SameFrequencies(InBandSeries(series, band), ThresholdOf(floors, opts), opts, feats);
  }

  lemma SameFrequencies(inBand: seq<BinSeries>, threshold: real, opts: ClassifyOptions, feats: seq<Feature>)
    requires AreFeatures(inBand, threshold, opts, feats)
    ensures |feats| == |inBand| && forall i :: 0 <= i < |feats| ==> feats[i].freqHz == inBand[i].freqHz
    ensures forall i :: 0 <= i < |feats| ==> 0.0 <= feats[i].duty <= 100.0
  {
    forall i | 0 <= i < |feats| ensures feats[i].freqHz == inBand[i].freqHz && 0.0 <= feats[i].duty <= 100.0 {
      DutyIsPercentage(inBand[i], threshold, opts, feats[i]);
    }
  }

  /** Every emission is labelled packet, continuous or wideband, never unknown, and its
      confidence is a number in [0.3, 1] unless it is one of the two 0/0 settings. With a
      wideband threshold that is not 0 and a sustained boundary that is not 100 it always is. */
  lemma EmissionConfidence(series: seq<BinSeries>, band: Band, opts: ClassifyOptions, feats: seq<Feature>,
                           runs: seq<Run>, es: seq<Emission>, k: nat)
    requires IsClassified(series, band, opts, feats, runs, es) && k < |es|
    ensures !es[k].class_.Unknown?
    ensures es[k].confidence.NaN? <==>
              || (opts.widebandHz == 0.0 && es[k].bandwidthHz == 0.0)
              || (es[k].bandwidthHz < opts.widebandHz && opts.sustainedDutyPercent == 100.0 == es[k].dutyCyclePercent)
    ensures es[k].confidence.Number? ==> 0.3 <= es[k].confidence.value <= 1.0
    ensures opts.widebandHz != 0.0 && opts.sustainedDutyPercent != 100.0 ==> es[k].confidence.Number?
  {
    hide *;
    var n := EmissionLabel(series, band, opts, feats, runs, es, k);
    ConfidenceRange(es[k].bandwidthHz, es[k].dutyCyclePercent, n, opts);
  }

  /** What every bin of the band is measured against: the quiet level of the bins' own quiet
      levels, and a margin. */
  lemma ThresholdExact(series: seq<BinSeries>, band: Band, opts: ClassifyOptions, feats: seq<Feature>, runs: seq<Run>,
                       es: seq<Emission>)
    returns (floors: seq<real>)
    requires IsClassified(series, band, opts, feats, runs, es)
    ensures var inBand, p := InBandSeries(series, band), opts.base.noiseFloorPercentile;
      && |floors| == |feats| == |inBand|
      && (forall i :: 0 <= i < |inBand| ==> floors[i] == Percentile(inBand[i].powers, p))
      && (forall i :: 0 <= i < |inBand| ==>
            IsFeature(inBand[i], Percentile(floors, p) + opts.base.thresholdMarginDB, opts, feats[i]))
  {
    var inBand, p := InBandSeries(series, band), opts.base.noiseFloorPercentile;
    hide AreRuns, AreEmissions, InBandSeries, Percentile, IsFeature;
    floors :| AreFloors(inBand, p, floors) && AreFeatures(inBand, ThresholdOf(floors, opts), opts, feats);
  }

  /** A bin's duty is the percentage of its samples over the threshold; it counts as active
      from the configured share on. */
  lemma DutyExact(s: BinSeries, threshold: real, opts: ClassifyOptions, f: Feature)
    requires IsFeature(s, threshold, opts, f)
    ensures f.freqHz == s.freqHz && f.peakDB in s.powers && forall v :: v in s.powers ==> v <= f.peakDB
    ensures f.duty * |s.powers| as real == 100.0 * CountIf(s.powers, Above(threshold)) as real
    ensures f.present <==> f.duty >= opts.presentDutyPercent
  {
    hide CountIf;
    Shares(CountIf(s.powers, Above(threshold)), |s.powers|, 0.0);
  }

  /** The bins classified are those of the band, its upper edge excluded, with a sample. */
  lemma {:induction false} SelectExact(series: seq<BinSeries>, band: Band, s: BinSeries)
    ensures s in InBandSeries(series, band) <==>
              s in series && band.lowHz <= s.freqHz && s.freqHz < band.highHz && s.powers != []
  {
  }

  /** What an emission says of its run: the edges, the largest duty, the first of the
      strongest bins, and a width that is that of its bins, each as wide as they are apart,
      and 0 for a single bin. */
  lemma EmissionExact(run: seq<Feature>, opts: ClassifyOptions, e: Emission) returns (peak: nat)
    requires IsEmission(run, opts, e) && forall i :: 0 <= i < |run| ==> run[i].duty >= 0.0
    ensures e.lowHz == run[0].freqHz && e.highHz == run[|run| - 1].freqHz
    ensures (forall i :: 0 <= i < |run| ==> run[i].duty <= e.dutyCyclePercent)
         && exists i :: 0 <= i < |run| && run[i].duty == e.dutyCyclePercent
    ensures peak < |run| && e.peakDB == run[peak].peakDB && e.peakFreqHz == run[peak].freqHz
    ensures forall i :: 0 <= i < |run| ==> run[i].peakDB <= e.peakDB && (i < peak ==> run[i].peakDB < e.peakDB)
    ensures if |run| == 1 then e.bandwidthHz == 0.0
            else (|run| - 1) as real * e.bandwidthHz == |run| as real * (e.highHz - e.lowHz)
  {
    var k :| IsRunPeak(run, k) && e.peakDB == run[k].peakDB && e.peakFreqHz == run[k].freqHz;
    peak := k;
    if e.dutyCyclePercent == 0.0 { assert run[0].duty == 0.0; }
    WidthExact(run, opts, e);
    hide Label, Width;
  }

  lemma WidthExact(run: seq<Feature>, opts: ClassifyOptions, e: Emission)
    requires IsEmission(run, opts, e)
    ensures if |run| == 1 then e.bandwidthHz == 0.0
            else (|run| - 1) as real * e.bandwidthHz == |run| as real * (e.highHz - e.lowHz)
  {
    hide Label, IsMaxDuty, IsRunPeak;
    if |run| > 1 { WholeWidth(e.highHz - e.lowHz, (|run| - 1) as real); }
  }

  lemma WholeWidth(span: real, n: real)
    requires n > 0.0
    ensures n * (span + span / n) == (n + 1.0) * span
  {
    assert n * (span / n) == span;
  }

  /** The grid step: the middle of the positive gaps, or 1 MHz where there are none. */
  lemma StepExact(gaps: seq<real>)
    ensures if gaps == [] then MedianStep(gaps) == 1000000.0
      else
        && MedianStep(gaps) in gaps
        && CountIf(gaps, Below(MedianStep(gaps))) <= |gaps| / 2
        && CountIf(gaps, Above(MedianStep(gaps))) <= |gaps| - |gaps| / 2 - 1
  {
    if gaps != [] {
      var sorted, k := SortReals(gaps), |gaps| / 2;
      assert sorted[k] in multiset(gaps);
      CountIfPermuted(sorted, gaps, Below(sorted[k]));
      CountIfPermuted(sorted, gaps, Above(sorted[k]));
      SortedAbove(sorted, k);
      SortedBelow(sorted, k);
      hide SortReals, CountIf;
    }
  }

  /** Which class an emission is given, from its width, its duty and the options. */
  lemma ClassExact(series: seq<BinSeries>, band: Band, opts: ClassifyOptions, feats: seq<Feature>, runs: seq<Run>,
                   es: seq<Emission>, k: nat)
    requires IsClassified(series, band, opts, feats, runs, es) && k < |es|
    ensures es[k].class_ == Wideband <==> es[k].bandwidthHz >= opts.widebandHz
    ensures es[k].class_ == Continuous <==>
              es[k].bandwidthHz < opts.widebandHz && es[k].dutyCyclePercent >= opts.sustainedDutyPercent
    ensures es[k].class_ == Packet <==>
              es[k].bandwidthHz < opts.widebandHz && es[k].dutyCyclePercent < opts.sustainedDutyPercent
  {
    var n := EmissionLabel(series, band, opts, feats, runs, es, k);
    hide IsClassified;
  }

  /** A share of a positive whole as a confidence: half its weight up to one half, its full
      weight from the whole on, and in proportion between. */
  predicate IsShare(c: Confidence, part: real, whole: real, weight: real) {
    c.Number? &&
    if 2.0 * part <= whole then 2.0 * c.value == weight
    else if part >= whole then c.value == weight
    else c.value * whole == part * weight
  }

  /** A run of one bin has no measured width. */
  function Weight(bins: nat): real { if bins == 1 then 0.6 else 1.0 }

  /** How sure a label is: for a wide emission by how far its width is past the threshold,
      for a narrow one by how far its duty is from the sustained boundary, on either side,
      and at most 0.6 sure for a single bin. */
  predicate Sure(class_: EmissionClass, c: Confidence, bandwidthHz: real, dutyPercent: real, n: nat,
                 opts: ClassifyOptions) {
    var wide, sustained := opts.widebandHz, opts.sustainedDutyPercent;
    match class_
    case Wideband => wide > 0.0 ==> IsShare(c, bandwidthHz - wide, wide, 1.0)
    case Continuous => sustained < 100.0 ==> IsShare(c, dutyPercent - sustained, 100.0 - sustained, Weight(n))
    case Packet => sustained > 0.0 && IsShare(c, sustained - dutyPercent, sustained, Weight(n))
    case Unknown => false
  }

  lemma ConfidenceExact(series: seq<BinSeries>, band: Band, opts: ClassifyOptions, feats: seq<Feature>, runs: seq<Run>,
                        es: seq<Emission>, k: nat)
    requires IsClassified(series, band, opts, feats, runs, es) && k < |es|
    ensures |runs| == |es| && runs[k].lo < runs[k].hi
    ensures Sure(es[k].class_, es[k].confidence, es[k].bandwidthHz, es[k].dutyCyclePercent,
                 runs[k].hi - runs[k].lo, opts)
    ensures es[k].class_ != Wideband && runs[k].hi - runs[k].lo == 1 && es[k].confidence.Number? ==>
              es[k].confidence.value <= 0.6
  {
    var n := EmissionLabel(series, band, opts, feats, runs, es, k);
    hide *;
    LabelSure(es[k].bandwidthHz, es[k].dutyCyclePercent, n, opts, es[k].class_, es[k].confidence);
    OneBinLabel(es[k].bandwidthHz, es[k].dutyCyclePercent, opts);
  }

  lemma OneBinLabel(bandwidthHz: real, dutyPercent: real, opts: ClassifyOptions)
    ensures var (class_, c) := Label(bandwidthHz, dutyPercent, 1, opts);
            class_ != Wideband && c.Number? ==> c.value <= 0.6
  {
  }

  lemma LabelSure(bandwidthHz: real, dutyPercent: real, n: nat, opts: ClassifyOptions, class_: EmissionClass,
                  c: Confidence)
    requires n > 0 && 0.0 <= dutyPercent <= 100.0 && (class_, c) == Label(bandwidthHz, dutyPercent, n, opts)
    ensures Sure(class_, c, bandwidthHz, dutyPercent, n, opts)
  {
    var wide, sustained := opts.widebandHz, opts.sustainedDutyPercent;
    hide IsShare, Clamp;
    if bandwidthHz >= wide {
      if wide > 0.0 {
        LessOne(bandwidthHz, wide);
        QuotientShare(bandwidthHz - wide, wide, 1.0);
      }
    } else if dutyPercent >= sustained {
      if sustained < 100.0 { QuotientShare(dutyPercent - sustained, 100.0 - sustained, Weight(n)); }
    } else {
      QuotientShare(sustained - dutyPercent, sustained, Weight(n));
    }
  }

  lemma LessOne(x: real, y: real)
    requires y > 0.0
    ensures x / y - 1.0 == (x - y) / y
  {
    assert x == x / y * y;
    DivIs(x - y, y, x / y - 1.0);
  }

  lemma DivIs(a: real, b: real, q: real)
    requires b > 0.0 && q * b == a
    ensures a / b == q
  {
  }

  lemma QuotientShare(part: real, whole: real, weight: real)
    requires whole > 0.0
    ensures IsShare(Number(Clamp(part / whole, 0.5, 1.0) * weight), part, whole, weight)
  {
    var q := part / whole;
    assert q * whole == part;
    if q < 0.5 { Strict(q, 0.5, whole); }
    if 2.0 * part <= whole && q > 0.5 { Strict(0.5, q, whole); }
    if q > 1.0 { Strict(1.0, q, whole); }
    if part >= whole && q < 1.0 { Strict(q, 1.0, whole); }
    assert q * weight * whole == q * whole * weight;
  }

  /** The further from the boundary, the surer: of two emissions of one class and weight the
      one whose share is larger has at least the confidence of the other. */
  lemma ConfidenceGrows(c: Confidence, part: real, c': Confidence, part': real, whole: real, weight: real)
    requires whole > 0.0 && weight >= 0.0 && part <= part'
    requires IsShare(c, part, whole, weight) && IsShare(c', part', whole, weight)
    ensures c.value <= c'.value
  {
    ShareRange(c, part, whole, weight);
    ShareRange(c', part', whole, weight);
    if whole < 2.0 * part && part' < whole {
      Scale(part, part', weight);
      Ordered(c.value, c'.value, whole, part * weight, part' * weight);
    }
  }

  lemma Ordered(x: real, y: real, d: real, a: real, b: real)
    requires d > 0.0 && x * d == a && y * d == b && a <= b
    ensures x <= y
  {
    if y < x { Strict(y, x, d); }
  }

  lemma Scale(x: real, y: real, w: real)
    requires x <= y && w >= 0.0
    ensures x * w <= y * w
  {
  }

  lemma ShareRange(c: Confidence, part: real, whole: real, weight: real)
    requires whole > 0.0 && weight >= 0.0 && IsShare(c, part, whole, weight)
    ensures weight <= 2.0 * c.value && c.value <= weight
  {
    if whole < 2.0 * part && part < whole {
      assert c.value * whole == part * weight;
      assert whole * weight <= 2.0 * part * weight && part * weight <= whole * weight;
      if c.value > weight { Strict(weight, c.value, whole); }
      if 2.0 * c.value < weight { Strict(2.0 * c.value, weight, whole); }
    }
  }

  const DEFAULT_OPTIONS := ClassifyOptions(Options(10.0, 25.0), 5.0, 60.0, 1500000.0)

  /** A quiet bin and one that is always on. */
  const CARRIER := [BinSeries(1.0, [0.0]), BinSeries(2.0, [100.0])]

  const CARRIER_FEATURES := [Feature(1.0, 0.0, 0.0, false), Feature(2.0, 100.0, 100.0, true)]

  const CARRIER_BAND := Band("", 0.0, 10.0)

  /** Either 0/0 setting, the defaults kept otherwise. */
  predicate Degenerate(opts: ClassifyOptions) {
    || opts == DEFAULT_OPTIONS.(widebandHz := 0.0)
    || opts == DEFAULT_OPTIONS.(sustainedDutyPercent := 100.0)
  }

  lemma CarrierFloor(opts: ClassifyOptions)
    requires Degenerate(opts)
    ensures opts.base.noiseFloorPercentile == 25.0
    ensures AreFloors(CARRIER, 25.0, [0.0, 100.0]) && ThresholdOf([0.0, 100.0], opts) == 10.0
  {
    OneValue(0.0);
    OneValue(100.0);
    assert Rank(2, 25.0) == 0;
    var sorted := SortReals([0.0, 100.0]);
    assert sorted[0] in multiset([0.0, 100.0]) && 0.0 in multiset(sorted);
    var i :| 0 <= i < |sorted| && sorted[i] == 0.0;
    assert sorted[0] <= sorted[i];
  }

  lemma OneValue(v: real)
    ensures Percentile([v], 25.0) == v
  {
    var sorted := SortReals([v]);
    assert sorted[0] in multiset([v]);
  }

  lemma CarrierInBand()
    ensures InBandSeries(CARRIER, CARRIER_BAND) == CARRIER
  {
    assert CARRIER[..1] == [CARRIER[0]] && CARRIER[..1][..0] == [];
  }

  lemma CarrierMeasured(opts: ClassifyOptions)
    requires Degenerate(opts)
    ensures AreFeatures(CARRIER, 10.0, opts, CARRIER_FEATURES)
  {
    OneSample(1.0, 0.0, opts, CARRIER_FEATURES[0]);
    OneSample(2.0, 100.0, opts, CARRIER_FEATURES[1]);
    hide IsFeature;
  }

  /** A bin of one sample is always or never on. */
  lemma OneSample(freqHz: real, power: real, opts: ClassifyOptions, f: Feature)
    requires f.freqHz == freqHz && f.peakDB == power && f.duty == if power > 10.0 then 100.0 else 0.0
    requires f.present <==> f.duty >= opts.presentDutyPercent
    ensures IsFeature(BinSeries(freqHz, [power]), 10.0, opts, f)
  {
    CountIfOne(power, Above(10.0));
    hide CountIf;
    assert [power][0] == power;
  }

  lemma CarrierGrouped(opts: ClassifyOptions, step: real, e: Emission)
    requires IsEmission([CARRIER_FEATURES[1]], opts, e)
    ensures IsGrouped(CARRIER_FEATURES, step, opts, [Run(1, 2)], [e])
  {
    var feats, r := CARRIER_FEATURES, Run(1, 2);
    assert IsRun(feats, step, r);
    assert [r][0] == r && Holds(r, 1);
    assert InSome([r], 1);
    assert feats[1..2] == [feats[1]];
    hide IsEmission;
  }

  /** The two settings do give NaN: with either, and the defaults otherwise, a carrier that
      is always on in one bin of a quiet band is an emission whose confidence is 0/0. */
  lemma CarrierIsNaN(opts: ClassifyOptions) returns (e: Emission)
    requires Degenerate(opts)
    ensures IsClassified(CARRIER, CARRIER_BAND, opts, CARRIER_FEATURES, [Run(1, 2)], [e])
    ensures e.confidence.NaN?
  {
    CarrierFloor(opts);
    CarrierInBand();
    CarrierMeasured(opts);
    e := CarrierEmission(opts);
    CarrierGrouped(opts, MedianStep(Gaps(CARRIER_FEATURES)), e);
    hide *;
    ClassifiedBy(CARRIER, CARRIER_BAND, opts, [0.0, 100.0], CARRIER_FEATURES, [Run(1, 2)], [e]);
  }

  lemma CarrierEmission(opts: ClassifyOptions) returns (e: Emission)
    requires Degenerate(opts)
    ensures IsEmission([CARRIER_FEATURES[1]], opts, e) && e.confidence.NaN?
  {
    var run := [CARRIER_FEATURES[1]];
    var (class_, conf) := Label(0.0, 100.0, 1, opts);
    assert conf.NaN?;
    e := Emission(2.0, 2.0, 0.0, 2.0, 100.0, 100.0, class_, conf);
    assert run[0].duty == 100.0;
    assert IsRunPeak(run, 0);
    hide Label;
  }

  lemma ClassifiedBy(series: seq<BinSeries>, band: Band, opts: ClassifyOptions, floors: seq<real>, feats: seq<Feature>,
                     runs: seq<Run>, es: seq<Emission>)
    requires AreFloors(InBandSeries(series, band), opts.base.noiseFloorPercentile, floors)
    requires AreFeatures(InBandSeries(series, band), ThresholdOf(floors, opts), opts, feats)
    requires IsGrouped(feats, MedianStep(Gaps(feats)), opts, runs, es)
    ensures IsClassified(series, band, opts, feats, runs, es)
  {
    hide AreFloors, AreFeatures, InBandSeries, ThresholdOf, IsGrouped, MedianStep, Gaps;
  }

  lemma EmissionLabel(series: seq<BinSeries>, band: Band, opts: ClassifyOptions, feats: seq<Feature>,
                      runs: seq<Run>, es: seq<Emission>, k: nat) returns (n: nat)
    requires IsClassified(series, band, opts, feats, runs, es) && k < |es|
    ensures |runs| == |es| && 0 < n == runs[k].hi - runs[k].lo
    ensures 0.0 <= es[k].dutyCyclePercent <= 100.0
    ensures (es[k].class_, es[k].confidence) == Label(es[k].bandwidthHz, es[k].dutyCyclePercent, n, opts)
  {
    hide *;
    DutiesBounded(series, band, opts, feats, runs, es);
    EmissionOf(feats, runs, opts, es, k);
    var run := feats[runs[k].lo..runs[k].hi];
    n := |run|;
    RunDutyBounded(run, opts, es[k]);
  }

  lemma DutiesBounded(series: seq<BinSeries>, band: Band, opts: ClassifyOptions, feats: seq<Feature>, runs: seq<Run>,
                      es: seq<Emission>)
    requires IsClassified(series, band, opts, feats, runs, es)
    ensures forall i :: 0 <= i < |feats| ==> 0.0 <= feats[i].duty <= 100.0
    ensures AreEmissions(feats, runs, opts, es)
  {
    hide AreRuns, IsFeature, AreEmissions, AreFeatures, AreFloors, ThresholdOf, InBandSeries;
    var floors :| AreFeatures(InBandSeries(series, band), ThresholdOf(floors, opts), opts, feats);
    SameFrequencies(InBandSeries(series, band), ThresholdOf(floors, opts), opts, feats);
  }

  lemma EmissionOf(feats: seq<Feature>, runs: seq<Run>, opts: ClassifyOptions, es: seq<Emission>, k: nat)
    requires AreEmissions(feats, runs, opts, es) && k < |es|
    ensures |runs| == |es| && runs[k].lo < runs[k].hi <= |feats|
    ensures IsEmission(feats[runs[k].lo..runs[k].hi], opts, es[k])
  {
    hide IsEmission;
  }

  lemma RunDutyBounded(run: seq<Feature>, opts: ClassifyOptions, e: Emission)
    requires IsEmission(run, opts, e) && forall i :: 0 <= i < |run| ==> 0.0 <= run[i].duty <= 100.0
    ensures 0.0 <= e.dutyCyclePercent <= 100.0
    ensures (e.class_, e.confidence) == Label(e.bandwidthHz, e.dutyCyclePercent, |run|, opts)
  {
    hide Label, IsRunPeak, Width;
  }

  /** With strictly increasing frequencies emissions come out in ascending, disjoint
      frequency ranges, each with its peak inside it. */
  lemma EmissionsAscend(feats: seq<Feature>, step: real, opts: ClassifyOptions, runs: seq<Run>, es: seq<Emission>,
                        k: nat)
    requires Ascending(feats) && AreRuns(feats, step, |feats|, runs) && AreEmissions(feats, runs, opts, es) && k < |es|
    ensures es[k].lowHz <= es[k].peakFreqHz <= es[k].highHz && es[k].bandwidthHz >= es[k].highHz - es[k].lowHz
    ensures k + 1 < |es| ==> es[k].highHz < es[k + 1].lowHz
  {
    RunRange(feats, runs[k], opts, es[k]);
    if k + 1 < |es| {
      RunRange(feats, runs[k + 1], opts, es[k + 1]);
      RunsApart(feats, step, runs, k, k + 1);
    }
  }

  lemma RunRange(feats: seq<Feature>, r: Run, opts: ClassifyOptions, e: Emission)
    requires Ascending(feats) && r.lo < r.hi <= |feats| && IsEmission(feats[r.lo..r.hi], opts, e)
    ensures e.lowHz == feats[r.lo].freqHz && e.highHz == feats[r.hi - 1].freqHz
    ensures e.lowHz <= e.peakFreqHz <= e.highHz && e.bandwidthHz >= e.highHz - e.lowHz
  {
    hide Label;
    var run := feats[r.lo..r.hi];
    var k :| IsRunPeak(run, k) && e.peakFreqHz == run[k].freqHz;
    assert run[k] == feats[r.lo + k] && run[0] == feats[r.lo] && run[|run| - 1] == feats[r.hi - 1];
    if |run| >= 2 { Quotient(0.0, 0.0, 1.0); Positive(e.highHz - e.lowHz, (|run| - 1) as real); }
  }

  lemma Positive(x: real, d: real)
    requires x >= 0.0 && d > 0.0
    ensures x / d >= 0.0
  {
  }

  /** Bins lo..hi stand alone: present, spaced `s`, no present bin within 1.5 s of them. */
  ghost predicate Isolated(feats: seq<Feature>, r: Run, s: real) {
    && r.lo < r.hi <= |feats|
    && (forall m :: r.lo <= m < r.hi ==> feats[m].present)
    && (forall m :: r.lo < m < r.hi ==> feats[m].freqHz - feats[m - 1].freqHz == s)
    && (forall m :: 0 <= m < r.lo && feats[m].present ==> feats[r.lo].freqHz - feats[m].freqHz > 1.5 * s)
    && (forall m :: r.hi <= m < |feats| && feats[m].present ==> feats[m].freqHz - feats[r.hi - 1].freqHz > 1.5 * s)
  }

  /** On a grid whose majority spacing is s, two or more isolated neighbouring bins spaced
      s are one emission, of bandwidth exactly their number times s, whatever the outlying
      gaps of the sweep are. */
  lemma IsolatedIsOneEmission(feats: seq<Feature>, opts: ClassifyOptions, runs: seq<Run>, es: seq<Emission>, r: Run,
                              s: real)
    returns (k: nat)
    requires AreRuns(feats, MedianStep(Gaps(feats)), |feats|, runs) && AreEmissions(feats, runs, opts, es)
    requires 2 * CountIf(Gaps(feats), Equal(s)) > |Gaps(feats)|
    requires Isolated(feats, r, s) && r.hi - r.lo >= 2 && s > 0.0
    ensures k < |es| && runs[k] == r
    ensures es[k].lowHz == feats[r.lo].freqHz && es[k].bandwidthHz == (r.hi - r.lo) as real * s
  {
    hide Gaps, MedianStep, CountIf, AreRuns, IsRun, IsEmission, Isolated;
    MedianIsMajority(Gaps(feats), s);
    IsolatedIsRun(feats, r, s);
    k := RunsComplete(feats, s, runs, r);
    IsolatedWidth(feats, r, s, opts, es[k]);
  }

  lemma IsolatedIsRun(feats: seq<Feature>, r: Run, s: real)
    requires Isolated(feats, r, s) && s > 0.0
    ensures IsRun(feats, s, r)
  {
    forall m | r.lo <= m < r.hi - 1 ensures Linked(feats, s, m) {
      assert feats[m + 1].freqHz - feats[m + 1 - 1].freqHz == s;
    }
  }

  lemma IsolatedWidth(feats: seq<Feature>, r: Run, s: real, opts: ClassifyOptions, e: Emission)
    requires Isolated(feats, r, s) && r.hi - r.lo >= 2 && IsEmission(feats[r.lo..r.hi], opts, e)
    ensures e.lowHz == feats[r.lo].freqHz && e.bandwidthHz == (r.hi - r.lo) as real * s
  {
    RunWidth(feats, r, s);
    hide *;
    EmissionEdges(feats[r.lo..r.hi], opts, e);
  }

  lemma SliceSpan(feats: seq<Feature>, r: Run, s: real)
    requires Isolated(feats, r, s)
    ensures var run := feats[r.lo..r.hi];
      && |run| == r.hi - r.lo && run[0] == feats[r.lo]
      && run[r.hi - r.lo - 1].freqHz - run[0].freqHz == (r.hi - r.lo - 1) as real * s
  {
    RunSpan(feats, r, s, r.hi - 1);
    hide Isolated;
    assert feats[r.lo..r.hi][r.hi - r.lo - 1] == feats[r.hi - 1];
  }

  lemma RunWidth(feats: seq<Feature>, r: Run, s: real)
    requires Isolated(feats, r, s) && r.hi - r.lo >= 2
    ensures Width(feats[r.lo..r.hi]) == (r.hi - r.lo) as real * s
  {
    SliceSpan(feats, r, s);
    hide *;
    EvenWidth(feats[r.lo..r.hi], r.hi - r.lo, s);
  }

  lemma EmissionEdges(run: seq<Feature>, opts: ClassifyOptions, e: Emission)
    requires IsEmission(run, opts, e)
    ensures run != [] && e.lowHz == run[0].freqHz && e.bandwidthHz == Width(run)
  {
    hide Label, Width, IsMaxDuty, IsRunPeak;
  }

  lemma EvenWidth(run: seq<Feature>, n: nat, s: real)
    requires |run| == n >= 2 && run[n - 1].freqHz - run[0].freqHz == (n - 1) as real * s
    ensures Width(run) == n as real * s
  {
    Widths((n - 1) as real, s);
  }

  lemma {:induction false} RunSpan(feats: seq<Feature>, r: Run, s: real, m: nat)
    requires Isolated(feats, r, s) && r.lo <= m < r.hi
    ensures feats[m].freqHz - feats[r.lo].freqHz == (m - r.lo) as real * s
  {
    if m > r.lo { RunSpan(feats, r, s, m - 1); }
  }

  lemma Widths(n: real, s: real)
    requires n > 0.0
    ensures n * s + n * s / n == (n + 1.0) * s
  {
    assert n * s / n == s;
  }
}
