/** Occupancy of a band from a power sweep, and the band pooled into cells for display
  (internal/spectrum/spectrum.go and poolBins of spectrum_text.go). Exact reals. */
module Spectrum {
  import opened Numbers
  import opened Sorting

  datatype Bin = Bin(freqHz: real, powerDB: real)

  datatype Band = Band(name: string, lowHz: real, highHz: real)

  datatype Options = Options(thresholdMarginDB: real, noiseFloorPercentile: real)

  datatype BandStats = BandStats(
    band: Band, binCount: nat, occupiedBins: nat, occupancyPercent: real, noiseFloorDB: real,
    thresholdDB: real, meanDB: real, maxDB: real, peakFreqHz: real)

  // ----- Nearest rank

  /** Zero-based nearest rank of the p-th percentile of n values. */
  function Rank(n: nat, p: real): (r: nat)
    requires n > 0
    ensures r < n
  {
    if p <= 0.0 then 0
    else if p >= 100.0 then n - 1
    else
      var r := Ceil(p / 100.0 * n as real) - 1;
      if r < 0 then 0 else if r >= n then n - 1 else r
  }

  function Percentile(values: seq<real>, p: real): real {
    if values == [] then 0.0 else SortReals(values)[Rank(|values|, p)]
  }

  function Above(threshold: real): real -> bool { (v: real) => v > threshold }

  function Below(threshold: real): real -> bool { (v: real) => v < threshold }

  /** In sorted values at most those after position k exceed the one at k. */
  lemma SortedAbove(s: seq<real>, k: nat)
    requires k < |s| && forall i, j :: 0 <= i <= j < |s| ==> s[i] <= s[j]
    ensures CountIf(s, Above(s[k])) <= |s| - k - 1
  {
    var low, high, p := s[..k + 1], s[k + 1..], Above(s[k]);
    assert forall i :: 0 <= i < |low| ==> !p(low[i]);
    CountIfNone(low, p);
    hide CountIf;
    CountIfConcat(low, high, p);
    assert s == low + high;
  }

  /** In sorted values at most those before position k fall short of the one at k. */
  lemma SortedBelow(s: seq<real>, k: nat)
    requires k < |s| && forall i, j :: 0 <= i <= j < |s| ==> s[i] <= s[j]
    ensures CountIf(s, Below(s[k])) <= k
  {
    var low, high, p := s[..k], s[k..], Below(s[k]);
    assert forall i :: 0 <= i < |high| ==> !p(high[i]);
    CountIfNone(high, p);
    hide CountIf;
    CountIfConcat(low, high, p);
    assert s == low + high;
  }

  /** The percentile is one of the values; at most n - rank - 1 of them exceed it and at
      most rank of them fall short of it. */
  lemma PercentileRanks(values: seq<real>, p: real)
    requires values != []
    ensures var r, v := Rank(|values|, p), Percentile(values, p);
      && (exists i :: 0 <= i < |values| && values[i] == v)
      && CountIf(values, Above(v)) <= |values| - r - 1
      && CountIf(values, Below(v)) <= r
  {
    var s, r := SortReals(values), Rank(|values|, p);
    hide CountIf;
    SortedAbove(s, r);
    SortedBelow(s, r);
    CountIfPermuted(s, values, Above(s[r]));
    CountIfPermuted(s, values, Below(s[r]));
    Somewhere(s, values, r);
  }

  lemma Somewhere<T>(s: seq<T>, values: seq<T>, r: nat)
    requires multiset(s) == multiset(values) && r < |s|
    ensures exists i :: 0 <= i < |values| && values[i] == s[r]
  {
    assert s[r] in multiset(values);
  }

  /** Nearest rank: at least p percent of the values are no greater than the rank counts. */
  lemma RankCovers(n: nat, p: real)
    requires n > 0 && 0.0 <= p <= 100.0
    ensures (Rank(n, p) + 1) as real >= p / 100.0 * n as real
  {
    var x := p / 100.0 * n as real;
    Shrinks(p / 100.0, n as real);
    assert Ceil(x) as real >= x;
  }

  lemma Shrinks(f: real, x: real)
    requires f <= 1.0 && x >= 0.0
    ensures f * x <= x
  {
  }

  /** And no smaller rank would: the rank is the least that covers p percent. */
  lemma RankExact(n: nat, p: real)
    requires n > 0
    ensures p <= 100.0 ==> p * n as real <= 100.0 * (Rank(n, p) + 1) as real
    ensures Rank(n, p) > 0 ==> 100.0 * Rank(n, p) as real < p * n as real
    ensures p >= 100.0 ==> Rank(n, p) == n - 1
  {
    var x := p / 100.0 * n as real;
    assert 100.0 * x == p * n as real;
    if 0.0 < p < 100.0 {
      CeilIs(x);
      Shrinks(p / 100.0, n as real);
    } else if p <= 0.0 {
      NotPositive(p, n as real);
    } else {
      AtLeastWhole(p, n as real);
    }
  }

  lemma NotPositive(p: real, x: real)
    requires p <= 0.0 && x >= 0.0
    ensures p * x <= 0.0
  {
  }

  lemma AtLeastWhole(p: real, x: real)
    requires p >= 100.0 && x >= 0.0
    ensures p * x >= 100.0 * x
  {
  }

  /** Nearest rank, value by value: the percentile is one of the values, at least p percent
      of them are no greater, and unless it is the smallest fewer than p percent are less. */
  lemma PercentileExact(values: seq<real>, p: real)
    requires values != [] && 0.0 < p <= 100.0
    ensures var v, n := Percentile(values, p), |values|;
      && v in values
      && p * n as real <= 100.0 * (n - CountIf(values, Above(v))) as real
      && (CountIf(values, Below(v)) > 0 ==> 100.0 * CountIf(values, Below(v)) as real < p * n as real)
  {
    hide *;
    var v, n, r := Percentile(values, p), |values|, Rank(|values|, p);
    var above, below := CountIf(values, Above(v)), CountIf(values, Below(v));
    PercentileRanks(values, p);
    RankExact(n, p);
    RankCounts(n, r, above, below, p * n as real);
  }

  lemma RankCounts(n: nat, r: nat, above: nat, below: nat, pn: real)
    requires above <= n - r - 1 && below <= r && pn <= 100.0 * (r + 1) as real
    requires r > 0 ==> 100.0 * r as real < pn
    ensures pn <= 100.0 * (n - above) as real
    ensures below > 0 ==> 100.0 * below as real < pn
  {
  }

  // ----- Analyze

  predicate InBand(b: Bin, band: Band) { band.lowHz <= b.freqHz < band.highHz }

  function BandBins(bins: seq<Bin>, band: Band): seq<Bin> {
    if bins == [] then []
    else BandBins(bins[..|bins| - 1], band) + if InBand(bins[|bins| - 1], band) then [bins[|bins| - 1]] else []
  }

  function Powers(bins: seq<Bin>): (r: seq<real>)
    ensures |r| == |bins|
    ensures forall i :: 0 <= i < |bins| ==> r[i] == bins[i].powerDB
  {
    if bins == [] then [] else Powers(bins[..|bins| - 1]) + [bins[|bins| - 1].powerDB]
  }

  function Sum(s: seq<real>): real { if s == [] then 0.0 else Sum(s[..|s| - 1]) + s[|s| - 1] }

  /** `k` is the first of the strongest bins. */
  predicate IsPeak(bins: seq<Bin>, k: int) {
    && 0 <= k < |bins|
    && (forall i :: 0 <= i < |bins| ==> bins[i].powerDB <= bins[k].powerDB)
    && (forall i :: 0 <= i < k ==> bins[i].powerDB < bins[k].powerDB)
  }

  ghost predicate IsStats(bins: seq<Bin>, band: Band, opts: Options, stats: BandStats) {
    var inBand := BandBins(bins, band);
    var powers := Powers(inBand);
    && stats.band == band && stats.binCount == |powers|
    && if powers == [] then stats == BandStats(band, 0, 0, 0.0, 0.0, 0.0, 0.0, 0.0, 0.0)
       else
         && stats.noiseFloorDB == Percentile(powers, opts.noiseFloorPercentile)
         && stats.thresholdDB == stats.noiseFloorDB + opts.thresholdMarginDB
         && stats.occupiedBins == CountIf(powers, Above(stats.thresholdDB))
         && stats.occupancyPercent == stats.occupiedBins as real / |powers| as real * 100.0
         && stats.meanDB == Sum(powers) / |powers| as real
         && exists k :: IsPeak(inBand, k) && stats.maxDB == inBand[k].powerDB && stats.peakFreqHz == inBand[k].freqHz
  }

  method Analyze(bins: seq<Bin>, bands: seq<Band>, opts: Options) returns (out: seq<BandStats>)
    ensures |out| == |bands|
    ensures forall i :: 0 <= i < |bands| ==> IsStats(bins, bands[i], opts, out[i])
  {
    out := [];
    for i := 0 to |bands|
      invariant |out| == i && forall j :: 0 <= j < i ==> IsStats(bins, bands[j], opts, out[j])
    {
      hide IsStats;
      var stats := AnalyzeBand(bins, bands[i], opts);
      out := out + [stats];
    }
  }

  /** What the scan keeps after reading `seen`: the powers in the band, their sum and
      the first of the strongest. */
  ghost predicate Scanned(inBand: seq<Bin>, powers: seq<real>, sum: real, maxDB: real, peakFreq: real) {
    && powers == Powers(inBand) && sum == Sum(powers)
    && (powers != [] ==> HasPeak(inBand, maxDB, peakFreq))
  }

  ghost predicate HasPeak(inBand: seq<Bin>, maxDB: real, peakFreq: real) {
    exists k :: IsPeak(inBand, k) && inBand[k] == Bin(peakFreq, maxDB)
  }

  lemma SumsStep(inBand: seq<Bin>, b: Bin, powers: seq<real>)
    ensures Powers(inBand + [b]) == Powers(inBand) + [b.powerDB]
    ensures Sum(powers + [b.powerDB]) == Sum(powers) + b.powerDB
  {
    assert (inBand + [b])[..|inBand|] == inBand;
    assert (powers + [b.powerDB])[..|powers|] == powers;
  }

  lemma PeakStays(inBand: seq<Bin>, maxDB: real, peakFreq: real, b: Bin)
    requires HasPeak(inBand, maxDB, peakFreq) && b.powerDB <= maxDB
    ensures HasPeak(inBand + [b], maxDB, peakFreq)
  {
    var k :| IsPeak(inBand, k) && inBand[k] == Bin(peakFreq, maxDB);
    assert IsPeak(inBand + [b], k) && (inBand + [b])[k] == Bin(peakFreq, maxDB);
  }

  lemma ScanStep(inBand: seq<Bin>, powers: seq<real>, sum: real, maxDB: real, peakFreq: real, b: Bin)
    requires Scanned(inBand, powers, sum, maxDB, peakFreq)
    ensures |powers| == 0 || b.powerDB > maxDB ==>
              Scanned(inBand + [b], powers + [b.powerDB], sum + b.powerDB, b.powerDB, b.freqHz)
    ensures !(|powers| == 0 || b.powerDB > maxDB) ==>
              Scanned(inBand + [b], powers + [b.powerDB], sum + b.powerDB, maxDB, peakFreq)
  {
    hide Powers, Sum, HasPeak;
    SumsStep(inBand, b, powers);
    if |powers| == 0 || b.powerDB > maxDB {
      NewPeak(inBand, powers, maxDB, peakFreq, b);
    } else {
      PeakStays(inBand, maxDB, peakFreq, b);
    }
  }

  lemma NewPeak(inBand: seq<Bin>, powers: seq<real>, maxDB: real, peakFreq: real, b: Bin)
    requires |powers| == |inBand| && (powers != [] ==> HasPeak(inBand, maxDB, peakFreq))
    requires |powers| == 0 || b.powerDB > maxDB
    ensures HasPeak(inBand + [b], b.powerDB, b.freqHz)
  {
    assert IsPeak(inBand + [b], |inBand|);
  }

  lemma NextInBand(bins: seq<Bin>, i: nat, band: Band)
    requires i < |bins|
    ensures band.lowHz <= bins[i].freqHz < band.highHz ==>
              BandBins(bins[..i + 1], band) == BandBins(bins[..i], band) + [bins[i]]
    ensures !(band.lowHz <= bins[i].freqHz < band.highHz) ==>
              BandBins(bins[..i + 1], band) == BandBins(bins[..i], band)
  {
    assert bins[..i + 1][..i] == bins[..i];
  }

  lemma Nothing(bins: seq<Bin>, band: Band)
    ensures BandBins(bins[..0], band) == []
  {
  }

  method ScanBand(bins: seq<Bin>, band: Band) returns (powers: seq<real>, sum: real, maxDB: real, peakFreq: real)
    ensures Scanned(BandBins(bins, band), powers, sum, maxDB, peakFreq)
  {
    powers, sum, maxDB, peakFreq := [], 0.0, 0.0, 0.0;
    ghost var seen: seq<Bin> := [];
    hide BandBins;
    Nothing(bins, band);
    assert Scanned(seen, powers, sum, maxDB, peakFreq);
    hide *;
    for i := 0 to |bins|
      invariant seen == BandBins(bins[..i], band)
      invariant Scanned(seen, powers, sum, maxDB, peakFreq)
    {
      var b := bins[i];
      NextInBand(bins, i, band);
      if b.freqHz < band.lowHz || b.freqHz >= band.highHz {
        continue;
      }
      ScanStep(seen, powers, sum, maxDB, peakFreq, b);
      if |powers| == 0 || b.powerDB > maxDB {
        maxDB, peakFreq := b.powerDB, b.freqHz;
      }
      powers := powers + [b.powerDB];
      sum := sum + b.powerDB;
      seen := seen + [b];
    }
    assert bins[..|bins|] == bins;
  }

  method AnalyzeBand(bins: seq<Bin>, band: Band, opts: Options) returns (stats: BandStats)
    ensures IsStats(bins, band, opts, stats)
  {
    hide BandBins, Powers, Sum, CountIf, Percentile, IsPeak;
    var powers, sum, maxDB, peakFreq := ScanBand(bins, band);
    if |powers| == 0 {
      return BandStats(band, 0, 0, 0.0, 0.0, 0.0, 0.0, 0.0, 0.0);
    }
    var noise := Percentile(powers, opts.noiseFloorPercentile);
    var threshold := noise + opts.thresholdMarginDB;
    var occupied := CountAbove(powers, threshold);
    stats := BandStats(band, |powers|, occupied, occupied as real / |powers| as real * 100.0, noise, threshold,
                       sum / |powers| as real, maxDB, peakFreq);
  }

  method CountAbove(powers: seq<real>, threshold: real) returns (n: nat)
    ensures n == CountIf(powers, Above(threshold))
  {
    n := 0;
    for i := 0 to |powers|
      invariant n == CountIf(powers[..i], Above(threshold))
    {
      assert powers[..i + 1][..i] == powers[..i];
      if powers[i] > threshold { n := n + 1; }
    }
    assert powers[..|powers|] == powers;
  }

  /** The stated saturation limit: with a percentile in 0..100 and a margin that is not
      negative, occupancy never exceeds 100 minus the percentile. */
  lemma OccupancySaturates(bins: seq<Bin>, band: Band, opts: Options, stats: BandStats)
    requires IsStats(bins, band, opts, stats)
    requires 0.0 <= opts.noiseFloorPercentile <= 100.0 && opts.thresholdMarginDB >= 0.0
    ensures 0.0 <= stats.occupancyPercent <= 100.0 - opts.noiseFloorPercentile
  {
    var powers, p := Powers(BandBins(bins, band)), opts.noiseFloorPercentile;
    var n := |powers|;
    if n > 0 {
      PercentileRanks(powers, p);
      RankCovers(n, p);
      FewerAbove(powers, Percentile(powers, p), stats.thresholdDB);
      Fraction(stats.occupiedBins, n, Rank(n, p), p);
    }
  }

  lemma {:induction false} FewerAbove(s: seq<real>, low: real, high: real)
    requires low <= high
    ensures CountIf(s, Above(high)) <= CountIf(s, Above(low))
  {
    if s != [] { FewerAbove(s[..|s| - 1], low, high); }
  }

  lemma Fraction(occupied: nat, n: nat, rank: nat, p: real)
    requires n > 0 && occupied <= n - rank - 1 && (rank + 1) as real >= p / 100.0 * n as real
    ensures 0.0 <= occupied as real / n as real * 100.0 <= 100.0 - p
  {
    var x, d := occupied as real, n as real;
    assert x <= d - p / 100.0 * d;
    assert d - p / 100.0 * d == (1.0 - p / 100.0) * d;
    Quotient(x, 1.0 - p / 100.0, d);
  }

  lemma Quotient(x: real, f: real, d: real)
    requires 0.0 <= x <= f * d && d > 0.0
    ensures 0.0 <= x / d <= f
  {
    var q := x / d;
    assert q * d == x;
    if q > f { Strict(f, q, d); }
  }

  lemma Strict(f: real, q: real, d: real)
    requires f < q && d > 0.0
    ensures f * d < q * d
  {
  }

  // ----- The statistics of a band, counted bin by bin

  /** Bin `i` of the sweep lies in the band, its upper edge excluded. */
  predicate Inside(bins: seq<Bin>, band: Band, i: int) {
    0 <= i < |bins| && band.lowHz <= bins[i].freqHz && bins[i].freqHz < band.highHz
  }

  /** The bins of the sweep that lie in the band, by position. */
  function Members(bins: seq<Bin>, band: Band): set<int> { set i | 0 <= i < |bins| && Inside(bins, band, i) }

  function Louder(bins: seq<Bin>, band: Band, threshold: real): set<int> {
    set i | 0 <= i < |bins| && Inside(bins, band, i) && bins[i].powerDB > threshold
  }

  function Total(bins: seq<Bin>, band: Band): real {
    if bins == [] then 0.0
    else Total(bins[..|bins| - 1], band) + if Inside(bins, band, |bins| - 1) then bins[|bins| - 1].powerDB else 0.0
  }

  /** `i` is the first of the strongest bins in the band. */
  ghost predicate Strongest(bins: seq<Bin>, band: Band, i: int) {
    && Inside(bins, band, i)
    && (forall j :: Inside(bins, band, j) ==> bins[j].powerDB <= bins[i].powerDB)
    && (forall j :: Inside(bins, band, j) && j < i ==> bins[j].powerDB < bins[i].powerDB)
  }

  /** The statistics of a band, in terms of the sweep: how many bins it has, how many exceed
      the threshold, and the first strongest. */
  lemma StatsExact(bins: seq<Bin>, band: Band, opts: Options, stats: BandStats)
    requires IsStats(bins, band, opts, stats)
    ensures stats.band == band && stats.binCount == |Members(bins, band)|
    ensures if stats.binCount == 0 then stats == BandStats(band, 0, 0, 0.0, 0.0, 0.0, 0.0, 0.0, 0.0)
      else
        && stats.thresholdDB == stats.noiseFloorDB + opts.thresholdMarginDB
        && stats.occupiedBins == |Louder(bins, band, stats.thresholdDB)|
        && exists i :: 0 <= i < |bins| && Strongest(bins, band, i)
               && stats.maxDB == bins[i].powerDB && stats.peakFreqHz == bins[i].freqHz
  {
    Counted(bins, band, stats.thresholdDB);
    if BandBins(bins, band) != [] { PeakReported(bins, band, opts, stats); }
    hide BandBins, Powers, CountIf, Percentile, Members, Louder, Total, Sum, Strongest, IsPeak;
  }

  /** The share of a band's bins that exceed the threshold, and their mean. */
  lemma SharesExact(bins: seq<Bin>, band: Band, opts: Options, stats: BandStats)
    requires IsStats(bins, band, opts, stats) && stats.binCount > 0
    ensures stats.occupancyPercent * stats.binCount as real == 100.0 * stats.occupiedBins as real
    ensures stats.meanDB * stats.binCount as real == Total(bins, band)
  {
    var powers := Powers(BandBins(bins, band));
    Counted(bins, band, stats.thresholdDB);
    hide BandBins, Powers, CountIf, Percentile, Members, Louder, Total, Sum, Strongest, IsPeak;
    Shares(stats.occupiedBins, |powers|, Sum(powers));
  }

  lemma PeakReported(bins: seq<Bin>, band: Band, opts: Options, stats: BandStats)
    requires IsStats(bins, band, opts, stats) && BandBins(bins, band) != []
    ensures exists i :: 0 <= i < |bins| && Strongest(bins, band, i)
               && stats.maxDB == bins[i].powerDB && stats.peakFreqHz == bins[i].freqHz
  {
    var inBand := BandBins(bins, band);
    hide BandBins, Powers, CountIf, Percentile, Sum, Strongest;
    var k :| IsPeak(inBand, k) && stats.maxDB == inBand[k].powerDB && stats.peakFreqHz == inBand[k].freqHz;
    var i := PeakInSweep(bins, band, k);
  }

  lemma Shares(x: nat, n: nat, sum: real)
    requires n > 0
    ensures x as real / n as real * 100.0 * n as real == 100.0 * x as real
    ensures sum / n as real * n as real == sum
  {
    assert x as real / n as real * n as real == x as real;
  }

  lemma {:induction false} Counted(bins: seq<Bin>, band: Band, threshold: real)
    ensures |BandBins(bins, band)| == |Members(bins, band)|
    ensures CountIf(Powers(BandBins(bins, band)), Above(threshold)) == |Louder(bins, band, threshold)|
    ensures Sum(Powers(BandBins(bins, band))) == Total(bins, band)
  {
    if bins != [] {
      var n := |bins| - 1;
      var init, last := bins[..n], bins[n];
      Counted(init, band, threshold);
      MembersStep(bins, band, threshold);
      SumsStep(BandBins(init, band), last, Powers(BandBins(init, band)));
      CountIfConcat(Powers(BandBins(init, band)), [last.powerDB], Above(threshold));
      CountIfOne(last.powerDB, Above(threshold));
      assert BandBins(init, band) + [] == BandBins(init, band);
      hide Members, Louder, Sum, CountIf, Powers;
    }
  }

  lemma MembersStep(bins: seq<Bin>, band: Band, threshold: real)
    requires bins != []
    ensures var n, init := |bins| - 1, bins[..|bins| - 1];
      && |Members(bins, band)| == |Members(init, band)| + (if Inside(bins, band, n) then 1 else 0)
      && |Louder(bins, band, threshold)| == |Louder(init, band, threshold)|
           + if Inside(bins, band, n) && bins[n].powerDB > threshold then 1 else 0
  {
    var n, init := |bins| - 1, bins[..|bins| - 1];
    assert Members(bins, band) == Members(init, band) + if Inside(bins, band, n) then {n} else {};
    assert Louder(bins, band, threshold) == Louder(init, band, threshold)
           + if Inside(bins, band, n) && bins[n].powerDB > threshold then {n} else {};
  }

  /** The strongest bin of the band is the strongest of its members in the sweep. */
  lemma {:induction false} PeakInSweep(bins: seq<Bin>, band: Band, k: int) returns (i: int)
    requires IsPeak(BandBins(bins, band), k)
    ensures 0 <= i < |bins| && Strongest(bins, band, i) && bins[i] == BandBins(bins, band)[k]
  {
    var n := |bins| - 1;
    var init, last := bins[..n], bins[n];
    var before := BandBins(init, band);
    if Inside(bins, band, n) && k == |before| {
      i := n;
      forall j | Inside(bins, band, j) && j < n ensures bins[j].powerDB < last.powerDB {
        InsideListed(init, band, j);
        var m :| 0 <= m < |before| && before[m] == bins[j];
        assert (before + [last])[m] == bins[j];
      }
    } else {
      PeakBefore(before, last, Inside(bins, band, n), k);
      i := PeakInSweep(init, band, k);
      StillStrongest(bins, band, i);
    }
  }

  lemma {:induction false} InsideListed(bins: seq<Bin>, band: Band, j: int)
    requires Inside(bins, band, j)
    ensures bins[j] in BandBins(bins, band)
  {
    if j < |bins| - 1 { InsideListed(bins[..|bins| - 1], band, j); }
  }

  lemma PeakBefore(before: seq<Bin>, last: Bin, more: bool, k: int)
    requires IsPeak(before + if more then [last] else [], k) && (more ==> k != |before|)
    ensures IsPeak(before, k) && (more ==> last.powerDB <= before[k].powerDB)
  {
    if more {
      var all := before + [last];
      assert all[|before|] == last && forall i :: 0 <= i < |before| ==> all[i] == before[i];
    } else {
      assert before + [] == before;
    }
  }

  lemma StillStrongest(bins: seq<Bin>, band: Band, i: int)
    requires bins != [] && Strongest(bins[..|bins| - 1], band, i)
    requires Inside(bins, band, |bins| - 1) ==> bins[|bins| - 1].powerDB <= bins[i].powerDB
    ensures Strongest(bins, band, i)
  {
    var init := bins[..|bins| - 1];
    forall j | Inside(bins, band, j) && j < |bins| - 1 ensures Inside(init, band, j) && init[j] == bins[j] {}
  }

  // ----- Pooling

  function Start(i: nat, total: nat, n: nat): nat
    requires n > 0
  {
    i * total / n
  }

  /** The end of group `i`, widened to one bin and clipped to the band. */
  function End(i: nat, total: nat, n: nat): nat
    requires n > 0
  {
    var end := (i + 1) * total / n;
    var widened := if end <= Start(i, total, n) then Start(i, total, n) + 1 else end;
    if widened > total then total else widened
  }

  lemma ProductMonotone(i: nat, j: nat, k: nat)
    requires i <= j
    ensures i * k <= j * k
  {
  }

  lemma QuotientBelow(x: nat, n: nat, q: nat)
    requires n > 0 && x < q * n
    ensures x / n < q
  {
    assert x / n * n <= x;
    if x / n >= q { ProductMonotone(q, x / n, n); }
  }

  lemma QuotientStep(x: nat, t: nat, n: nat)
    requires 0 < n <= t
    ensures (x + t) / n >= x / n + 1
  {
    var q := x / n;
    assert x == q * n + x % n;
    assert x + t >= (q + 1) * n;
    var r := (x + t) / n;
    assert x + t == r * n + (x + t) % n;
    if r <= q { ProductMonotone(r, q, n); }
  }

  lemma QuotientWhole(t: nat, n: nat)
    requires n > 0
    ensures n * t / n == t
  {
    assert n * t == t * n + 0;
    var q := n * t / n;
    assert n * t == q * n + n * t % n;
    if q < t { ProductMonotone(q + 1, t, n); }
    if q > t { ProductMonotone(t + 1, q, n); }
  }

  /** Every group is a non-empty stretch of the band; each starts no later than the one
      before it ends; the first starts at the first bin and the last ends at the last. */
  lemma GroupBounds(i: nat, total: nat, n: nat)
    requires i < n && total > 0
    ensures Start(i, total, n) < End(i, total, n) <= total
    ensures i + 1 < n ==> Start(i + 1, total, n) <= End(i, total, n)
    ensures Start(0, total, n) == 0 && (i + 1 == n ==> End(i, total, n) == total)
  {
    ProductMonotone(i + 1, n, total);
    assert i * total < n * total by {
      assert (i + 1) * total == i * total + total;
    }
    assert n * total == total * n;
    QuotientBelow(i * total, n, total);
    if i + 1 == n {
      QuotientWhole(total, n);
    } else {
      ProductMonotone(i + 2, n, total);
      assert (i + 2) * total == (i + 1) * total + total;
      QuotientBelow((i + 1) * total, n, total);
    }
  }

  /** With no more cells than bins the groups cut the band: each starts where the one
      before it ends. */
  lemma GroupsPartition(i: nat, total: nat, n: nat)
    requires i + 1 < n <= total
    ensures End(i, total, n) == Start(i + 1, total, n)
  {
    assert (i + 1) * total == i * total + total;
    QuotientStep(i * total, total, n);
    GroupBounds(i + 1, total, n);
  }

  /** Every bin is in some group. */
  lemma {:induction false} BinCovered(x: nat, k: nat, total: nat, n: nat) returns (i: nat)
    requires k < n && x < total && x < End(k, total, n)
    ensures i <= k && Start(i, total, n) <= x < End(i, total, n)
    decreases k
  {
    GroupBounds(k, total, n);
    if x >= Start(k, total, n) {
      i := k;
    } else {
      GroupBounds(k - 1, total, n);
      i := BinCovered(x, k - 1, total, n);
    }
  }

  ghost predicate IsMax(s: seq<real>, lo: int, hi: int, m: real)
    requires 0 <= lo <= hi <= |s|
  {
    && (exists x :: lo <= x < hi && s[x] == m)
    && (forall x :: lo <= x < hi ==> s[x] <= m)
  }

  ghost predicate IsCell(powers: seq<real>, freqs: seq<real>, n: nat, i: nat, power: real, mid: real)
    requires i < n && |powers| == |freqs| > 0
  {
    GroupBounds(i, |powers|, n);
    var lo, hi := Start(i, |powers|, n), End(i, |powers|, n);
    IsMax(powers, lo, hi, power) && mid == freqs[(lo + hi - 1) / 2]
  }

  method PoolBins(powers: seq<real>, freqs: seq<real>, n: nat) returns (out: array<real>, mid: array<real>)
    requires |powers| == |freqs| > 0
    ensures fresh(out) && fresh(mid) && out.Length == mid.Length == n
    ensures forall i :: 0 <= i < n ==> IsCell(powers, freqs, n, i, out[i], mid[i])
  {
    out, mid := new real[n](_ => 0.0), new real[n](_ => 0.0);
    var total := |powers|;
    for i := 0 to n
      invariant forall j :: 0 <= j < i ==> IsCell(powers, freqs, n, j, out[j], mid[j])
    {
      hide IsCell;
      GroupBounds(i, total, n);
      var start := i * total / n;
      var end := (i + 1) * total / n;
      if end <= start {
        end := start + 1;
      }
      if end > total {
        end := total;
      }
      assert start == Start(i, total, n) && end == End(i, total, n);
      var maxP := MaxOf(powers, start, end);
      CellIs(powers, freqs, n, i, maxP);
      out[i] := maxP;
      mid[i] := freqs[(start + end - 1) / 2];
    }
  }

  lemma CellIs(powers: seq<real>, freqs: seq<real>, n: nat, i: nat, m: real)
    requires i < n && |powers| == |freqs| > 0
    requires Start(i, |powers|, n) < End(i, |powers|, n) <= |powers|
    requires IsMax(powers, Start(i, |powers|, n), End(i, |powers|, n), m)
    ensures IsCell(powers, freqs, n, i, m, freqs[(Start(i, |powers|, n) + End(i, |powers|, n) - 1) / 2])
  {
  }

  method MaxOf(powers: seq<real>, start: nat, end: nat) returns (maxP: real)
    requires start < end <= |powers|
    ensures IsMax(powers, start, end, maxP)
  {
    maxP := powers[start];
    for x := start to end
      invariant exists y :: start <= y < end && powers[y] == maxP
      invariant maxP >= powers[start] && forall y :: start <= y < x ==> powers[y] <= maxP
    {
      if powers[x] > maxP { maxP := powers[x]; }
    }
  }

  /** A cell of the pooled band, number by number: the largest power from bin i * t / n up to
      bin (i + 1) * t / n, or of the one bin at its start when that is no further, and the
      frequency midway. */
  lemma CellExact(powers: seq<real>, freqs: seq<real>, n: nat, i: nat, power: real, mid: real)
    requires i < n && |powers| == |freqs| > 0 && IsCell(powers, freqs, n, i, power, mid)
    ensures var t := |powers|;
      var lo := i * t / n;
      var hi := if (i + 1) * t / n > lo then (i + 1) * t / n else lo + 1;
      && 0 <= lo < hi <= t && mid == freqs[(lo + hi - 1) / 2]
      && (exists x :: lo <= x < hi && powers[x] == power) && (forall x :: lo <= x < hi ==> powers[x] <= power)
  {
    GroupBounds(i, |powers|, n);
    LastGroupEnds(i, |powers|, n);
  }

  lemma LastGroupEnds(i: nat, t: nat, n: nat)
    requires i < n
    ensures (i + 1) * t / n <= t
  {
    ProductMonotone(i + 1, n, t);
    QuotientWhole(t, n);
    QuotientOrder((i + 1) * t, n * t, n);
  }

  lemma QuotientOrder(x: nat, y: nat, n: nat)
    requires n > 0 && x <= y
    ensures x / n <= y / n
  {
    var q := y / n;
    assert y == q * n + y % n;
    assert (q + 1) * n == q * n + n;
    QuotientBelow(x, n, q + 1);
  }

  lemma EveryPowerPooled(powers: seq<real>, freqs: seq<real>, n: nat, cells: seq<real>, mids: seq<real>, x: nat)
    returns (i: nat)
    requires ArePooled(powers, freqs, n, cells, mids) && x < |powers|
    ensures i < n && powers[x] <= cells[i]
  {
    GroupBounds(n - 1, |powers|, n);
    i := BinCovered(x, n - 1, |powers|, n);
    hide Start, End;
    assert IsCell(powers, freqs, n, i, cells[i], mids[i]);
  }

  lemma EveryCellIsPower(powers: seq<real>, freqs: seq<real>, n: nat, cells: seq<real>, mids: seq<real>, i: nat)
    returns (x: nat)
    requires ArePooled(powers, freqs, n, cells, mids) && i < n
    ensures x < |powers| && powers[x] == cells[i]
  {
    hide Start, End;
    GroupBounds(i, |powers|, n);
    assert IsCell(powers, freqs, n, i, cells[i], mids[i]);
    x :| Start(i, |powers|, n) <= x < End(i, |powers|, n) && powers[x] == cells[i];
  }

  ghost predicate ArePooled(powers: seq<real>, freqs: seq<real>, n: nat, cells: seq<real>, mids: seq<real>) {
    && |powers| == |freqs| > 0 && n > 0 && |cells| == |mids| == n
    && forall i :: 0 <= i < n ==> IsCell(powers, freqs, n, i, cells[i], mids[i])
  }

  /** Pooling keeps the band's peak: the largest cell is the largest power. */
  lemma PoolKeepsPeak(powers: seq<real>, freqs: seq<real>, n: nat, cells: seq<real>, mids: seq<real>, m: real)
    requires ArePooled(powers, freqs, n, cells, mids)
    ensures IsMax(powers, 0, |powers|, m) <==> IsMax(cells, 0, n, m)
  {
    assert |cells| == n;
    hide ArePooled;
    if IsMax(powers, 0, |powers|, m) {
      forall i | 0 <= i < n ensures cells[i] <= m {
        var x := EveryCellIsPower(powers, freqs, n, cells, mids, i);
      }
      var x :| 0 <= x < |powers| && powers[x] == m;
      var i := EveryPowerPooled(powers, freqs, n, cells, mids, x);
      assert cells[i] == m;
    }
    if IsMax(cells, 0, n, m) {
      forall x | 0 <= x < |powers| ensures powers[x] <= m {
        var i := EveryPowerPooled(powers, freqs, n, cells, mids, x);
      }
      var i :| 0 <= i < n && cells[i] == m;
      var x := EveryCellIsPower(powers, freqs, n, cells, mids, i);
      assert powers[x] == m;
    }
  }
}
