/** LoRa time-on-air (internal/airtime/airtime.go): the formula of section 4.1.1.7 of
  the Semtech SX1276 datasheet, over exact reals, in nanoseconds. */
module Airtime {
  import opened ConfigTree
  import opened Numbers

  datatype Params = Params(spreadingFactor: int, bandwidthHz: int, codingRate: int)

  const PREAMBLE := 16
  const NANOS_PER_SECOND := 1000000000.0
  const NANOS_PER_MINUTE := 60000000000.0
  const RECOMMENDED_CHANNEL_UTILIZATION_PERCENT := 25.0
  const REPRESENTATIVE_FRAME_PAYLOAD_BYTES := 40
  const MESH_FRAME_HEADER_BYTES := 16

  const SHORT_TURBO := Params(7, 500000, 5)
  const SHORT_FAST := Params(7, 250000, 5)
  const SHORT_SLOW := Params(8, 250000, 5)
  const MEDIUM_FAST := Params(9, 250000, 5)
  const MEDIUM_SLOW := Params(10, 250000, 5)
  const LONG_FAST := Params(11, 250000, 5)
  const LONG_MODERATE := Params(11, 125000, 8)
  const LONG_SLOW := Params(12, 125000, 8)

  const PRESETS: map<string, Params> := map[
    "SHORT_TURBO" := SHORT_TURBO, "SHORT_FAST" := SHORT_FAST, "SHORT_SLOW" := SHORT_SLOW,
    "MEDIUM_FAST" := MEDIUM_FAST, "MEDIUM_SLOW" := MEDIUM_SLOW, "LONG_FAST" := LONG_FAST,
    "LONG_MODERATE" := LONG_MODERATE, "LONG_SLOW" := LONG_SLOW]

  function Exp2(n: nat): int { if n == 0 then 1 else 2 * Exp2(n - 1) }

  function Max(x: int, y: int): int { if x >= y then x else y }

  predicate Valid(p: Params) { 7 <= p.spreadingFactor <= 12 && p.bandwidthHz > 0 && p.codingRate >= 0 }

  /** Symbol time in seconds. */
  function SymbolTime(p: Params): (t: real)
    requires Valid(p)
    ensures t > 0.0
  {
    Exp2Positive(p.spreadingFactor);
    Exp2(p.spreadingFactor) as real / p.bandwidthHz as real
  }

  lemma Exp2Positive(n: nat)
    ensures Exp2(n) > 0
  {
  }

  function PayloadSymbols(p: Params, payloadBytes: int, explicitHeader: bool, crc: bool): int
    requires Valid(p)
  {
    var de := if SymbolTime(p) >= 0.016 then 1 else 0;
    var ih := if explicitHeader then 0 else 1;
    var crcBits := if crc then 1 else 0;
    var numerator := 8 * payloadBytes - 4 * p.spreadingFactor + 28 + 16 * crcBits - 20 * ih;
    var denominator := 4 * (p.spreadingFactor - 2 * de);
    8 + Max(Ceil(numerator as real / denominator as real) * p.codingRate, 0)
  }

  /** Preamble and payload symbols of the given length, in whole nanoseconds. */
  function Nanos(preambleSymbols: nat, payloadSymbols: int, symbolTime: real): int {
    (((preambleSymbols as real + 4.25) * symbolTime + payloadSymbols as real * symbolTime) * NANOS_PER_SECOND).Floor
  }

  function TimeOnAir(p: Params, payloadBytes: int, preambleSymbols: nat, explicitHeader: bool, crc: bool): int
    requires Valid(p)
  {
    Nanos(preambleSymbols, PayloadSymbols(p, payloadBytes, explicitHeader, crc), SymbolTime(p))
  }

  function FrameTime(p: Params, payloadBytes: int): int
    requires Valid(p)
  {
    TimeOnAir(p, payloadBytes, PREAMBLE, true, true)
  }

  lemma PresetsValid()
    ensures forall name :: name in PRESETS ==> Valid(PRESETS[name])
  {
  }

  function PresetTimeOnAir(preset: string, payloadBytes: int): Option<int> {
    PresetsValid();
    if preset in PRESETS then Some(FrameTime(PRESETS[preset], payloadBytes)) else None
  }

  // ----- Monotone in the payload

  lemma CeilMonotone(x: real, y: real)
    requires x <= y
    ensures Ceil(x) <= Ceil(y)
  {
  }

  lemma DivMonotone(m: int, n: int, d: int)
    requires m <= n && d > 0
    ensures m as real / d as real <= n as real / d as real
  {
  }

  lemma MulMonotone(x: real, y: real, t: real)
    requires x <= y && t >= 0.0
    ensures x * t <= y * t
  {
  }

  lemma MaxMulMonotone(x: int, y: int, c: int)
    requires x <= y && c >= 0
    ensures 0 <= Max(x * c, 0) <= Max(y * c, 0)
  {
  }

  lemma SymbolsFrom(p: Params, m: int, explicitHeader: bool, crc: bool, rest: int, d: int)
    requires Valid(p)
    requires d == 4 * (p.spreadingFactor - if SymbolTime(p) >= 0.016 then 2 else 0)
    requires rest == -4 * p.spreadingFactor + 28 + (if crc then 16 else 0) - (if explicitHeader then 0 else 20)
    ensures d > 0
    ensures PayloadSymbols(p, m, explicitHeader, crc)
          == 8 + Max(Ceil((8 * m + rest) as real / d as real) * p.codingRate, 0)
  {
    hide SymbolTime, Ceil, Max;
    assert d == 4 * (p.spreadingFactor - 2 * (if SymbolTime(p) >= 0.016 then 1 else 0));
  }

  lemma PayloadSymbolsMonotone(p: Params, m: int, n: int, explicitHeader: bool, crc: bool)
    requires Valid(p) && m <= n
    ensures 8 <= PayloadSymbols(p, m, explicitHeader, crc) <= PayloadSymbols(p, n, explicitHeader, crc)
  {
    var de := if SymbolTime(p) >= 0.016 then 1 else 0;
    var rest := -4 * p.spreadingFactor + 28 + (if crc then 16 else 0) - (if explicitHeader then 0 else 20);
    var d := 4 * (p.spreadingFactor - 2 * de);
    SymbolsFrom(p, m, explicitHeader, crc, rest, d);
    SymbolsFrom(p, n, explicitHeader, crc, rest, d);
    hide *;
    DivMonotone(8 * m + rest, 8 * n + rest, d);
    CeilMonotone((8 * m + rest) as real / d as real, (8 * n + rest) as real / d as real);
    MaxMulMonotone(Ceil((8 * m + rest) as real / d as real), Ceil((8 * n + rest) as real / d as real), p.codingRate);
  }

  lemma NanosMonotone(preamble: nat, a: int, b: int, t: real)
    requires 0 <= a <= b && t > 0.0
    ensures 0 <= Nanos(preamble, a, t) <= Nanos(preamble, b, t)
  {
    ProductMonotone(a as real, t, b as real, t);
    ProductMonotone(0.0, t, preamble as real + 4.25, t);
    var pre, x, y := (preamble as real + 4.25) * t, a as real * t, b as real * t;
    FloorScaled(pre + x, pre + y);
  }

  lemma FloorScaled(x: real, y: real)
    requires 0.0 <= x <= y
    ensures 0 <= (x * NANOS_PER_SECOND).Floor <= (y * NANOS_PER_SECOND).Floor
  {
  }

  /** A longer payload never takes less time, for any radio parameters. */
  lemma TimeOnAirMonotone(p: Params, m: int, n: int, preamble: nat, explicitHeader: bool, crc: bool)
    requires Valid(p) && m <= n
    ensures 0 <= TimeOnAir(p, m, preamble, explicitHeader, crc) <= TimeOnAir(p, n, preamble, explicitHeader, crc)
  {
    hide PayloadSymbols, SymbolTime, Nanos;
    PayloadSymbolsMonotone(p, m, n, explicitHeader, crc);
    NanosMonotone(preamble, PayloadSymbols(p, m, explicitHeader, crc), PayloadSymbols(p, n, explicitHeader, crc),
        SymbolTime(p));
  }

  // ----- The preset order

  /** For every preset the time on air is a whole number of nanoseconds: `unit` is a
      quarter symbol, and `d`, `r` are what the datasheet's ceiling comes to. */
  lemma PresetNanos(p: Params, unit: int, d: int, r: int, payload: nat)
    requires Valid(p)
    requires unit * 4 * p.bandwidthHz == Exp2(p.spreadingFactor) * 1000000000
    requires d == 4 * (p.spreadingFactor - if SymbolTime(p) >= 0.016 then 2 else 0)
    requires r == 44 - 4 * p.spreadingFactor
    ensures exists c :: d * (c - 1) < 8 * payload + r <= d * c
                     && FrameTime(p, payload) == (113 + 4 * Max(c * p.codingRate, 0)) * unit
  {
    hide SymbolTime, Nanos, Exp2;
    var c := Ceil((8 * payload + r) as real / d as real);
    CeilBounds(8 * payload + r, d);
    assert PayloadSymbols(p, payload, true, true) == 8 + Max(c * p.codingRate, 0) by {
      hide Ceil, Max;
      assert d == 4 * (p.spreadingFactor - 2 * (if SymbolTime(p) >= 0.016 then 1 else 0));
    }
    hide PayloadSymbols, Ceil, Max;
    NanosExact(p, unit, 8 + Max(c * p.codingRate, 0));
  }

  lemma CeilBounds(x: int, d: int)
    requires d > 0
    ensures var c := Ceil(x as real / d as real); d * (c - 1) < x <= d * c
  {
    var q := x as real / d as real;
    DivTimes(x, d);
    CeilIs(q);
    var c := Ceil(q);
    hide *;
    assert (c - 1) as real < q <= c as real;
    ScaledBounds(q, c - 1, c, x, d);
  }

  /** Bounds on a quotient are bounds on what is divided. */
  lemma ScaledBounds(q: real, low: int, c: int, x: int, d: int)
    requires d > 0 && q * d as real == x as real && low as real < q <= c as real
    ensures d * low < x <= d * c
  {
    ScaledOrder(low as real, q, c as real, d as real);
    CastProduct(d, low);
    CastProduct(d, c);
    Between(d * low, x, d * c, low as real * d as real, c as real * d as real);
  }

  lemma Between(p: int, x: int, r: int, low: real, high: real)
    requires p as real == low && r as real == high && low < x as real <= high
    ensures p < x <= r
  {
  }

  lemma ScaledOrder(x: real, y: real, z: real, t: real)
    requires x < y <= z && t > 0.0
    ensures x * t < y * t <= z * t
  {
    ScaleStrict(x, y, t);
    MulMonotone(y, z, t);
  }

  lemma DivTimes(x: int, d: int)
    requires d > 0
    ensures x as real / d as real * d as real == x as real
  {
  }

  lemma CastProduct(d: int, c: int)
    ensures (d * c) as real == c as real * d as real
  {
  }

  lemma ScaleStrict(x: real, y: real, t: real)
    requires x < y && t > 0.0
    ensures x * t < y * t
  {
  }

  lemma NanosExact(p: Params, unit: int, n: int)
    requires Valid(p)
    requires unit * 4 * p.bandwidthHz == Exp2(p.spreadingFactor) * 1000000000
    ensures Nanos(PREAMBLE, n, SymbolTime(p)) == (81 + 4 * n) * unit
  {
    QuarterSymbol(p, unit);
    var t := SymbolTime(p);
    hide SymbolTime;
    assert ((20.25 + n as real) * t) * NANOS_PER_SECOND == (20.25 + n as real) * (t * NANOS_PER_SECOND);
    assert (20.25 + n as real) * (unit as real * 4.0) == (81.0 + 4.0 * n as real) * unit as real;
    assert ((81 + 4 * n) * unit) as real == (81.0 + 4.0 * n as real) * unit as real;
  }

  lemma SymbolsFit(p: Params)
    requires Valid(p)
    ensures SymbolTime(p) * p.bandwidthHz as real == Exp2(p.spreadingFactor) as real
  {
    DivTimes(Exp2(p.spreadingFactor), p.bandwidthHz);
    hide Exp2;
  }

  lemma QuarterSymbol(p: Params, unit: int)
    requires Valid(p)
    requires unit * 4 * p.bandwidthHz == Exp2(p.spreadingFactor) * 1000000000
    ensures SymbolTime(p) * NANOS_PER_SECOND == unit as real * 4.0
  {
    SymbolsFit(p);
    hide *;
    QuarterOf(SymbolTime(p), p.bandwidthHz, Exp2(p.spreadingFactor), unit);
  }

  lemma QuarterOf(t: real, bw: int, e: int, unit: int)
    requires bw > 0 && t * bw as real == e as real && unit * 4 * bw == e * 1000000000
    ensures t * NANOS_PER_SECOND == unit as real * 4.0
  {
    SwapFactors(t, NANOS_PER_SECOND, bw as real);
    CastProduct(4 * bw, unit);
    CastProduct(bw, 4);
    CastProduct(1000000000, e);
    Regroup(unit, bw);
    Cancel(unit as real * 4.0, t * NANOS_PER_SECOND, bw as real);
  }

  lemma SwapFactors(t: real, n: real, b: real)
    ensures t * n * b == t * b * n
  {
  }

  lemma Regroup(unit: int, bw: int)
    ensures unit * 4 * bw == 4 * bw * unit
    ensures unit as real * 4.0 * bw as real == unit as real * (4.0 * bw as real)
  {
  }

  lemma Cancel(x: real, y: real, z: real)
    requires z > 0.0 && x * z == y * z
    ensures x == y
  {
  }

  lemma Exp2Table()
    ensures Exp2(7) == 128 && Exp2(8) == 256 && Exp2(9) == 512 && Exp2(10) == 1024 && Exp2(11) == 2048
          && Exp2(12) == 4096
  {
  }

  lemma ShortPresetsOrdered(n: nat)
    ensures FrameTime(SHORT_TURBO, n) < FrameTime(SHORT_FAST, n) < FrameTime(SHORT_SLOW, n) < FrameTime(MEDIUM_FAST, n)
  {
    Exp2Table();
    hide Exp2, FrameTime;
    PresetNanos(SHORT_TURBO, 64000, 28, 16, n);
    PresetNanos(SHORT_FAST, 128000, 28, 16, n);
    PresetNanos(SHORT_SLOW, 256000, 32, 12, n);
    PresetNanos(MEDIUM_FAST, 512000, 36, 8, n);
  }

  lemma LongPresetsOrdered(n: nat)
    ensures FrameTime(MEDIUM_FAST, n) < FrameTime(MEDIUM_SLOW, n) < FrameTime(LONG_FAST, n)
          < FrameTime(LONG_MODERATE, n) < FrameTime(LONG_SLOW, n)
  {
    Exp2Table();
    hide Exp2, FrameTime;
    PresetNanos(MEDIUM_FAST, 512000, 36, 8, n);
    PresetNanos(MEDIUM_SLOW, 1024000, 40, 4, n);
    PresetNanos(LONG_FAST, 2048000, 44, 0, n);
    PresetNanos(LONG_MODERATE, 4096000, 36, 0, n);
    PresetNanos(LONG_SLOW, 8192000, 40, -4, n);
  }

  const BY_SPEED := [
    "SHORT_TURBO", "SHORT_FAST", "SHORT_SLOW", "MEDIUM_FAST", "MEDIUM_SLOW", "LONG_FAST", "LONG_MODERATE", "LONG_SLOW"]

  /** The eight presets are strictly ordered by airtime for every payload, whatever the
      ceilings, coding rates and low-data-rate switching do. */
  lemma PresetsOrdered(n: nat, i: nat, j: nat)
    requires i < j < 8
    ensures BY_SPEED[i] in PRESETS && BY_SPEED[j] in PRESETS
    ensures PresetTimeOnAir(BY_SPEED[i], n).value < PresetTimeOnAir(BY_SPEED[j], n).value
  {
    ShortPresetsOrdered(n);
    LongPresetsOrdered(n);
    PresetTable();
    hide FrameTime;
  }

  lemma PresetTable()
    ensures forall i :: 0 <= i < 8 ==> BY_SPEED[i] in PRESETS
    ensures PRESETS[BY_SPEED[0]] == SHORT_TURBO && PRESETS[BY_SPEED[1]] == SHORT_FAST
         && PRESETS[BY_SPEED[2]] == SHORT_SLOW && PRESETS[BY_SPEED[3]] == MEDIUM_FAST
         && PRESETS[BY_SPEED[4]] == MEDIUM_SLOW && PRESETS[BY_SPEED[5]] == LONG_FAST
         && PRESETS[BY_SPEED[6]] == LONG_MODERATE && PRESETS[BY_SPEED[7]] == LONG_SLOW
  {
    assert |"SHORT_TURBO"| == 11 && |"SHORT_FAST"| == 10 && |"SHORT_SLOW"| == 10 && |"MEDIUM_FAST"| == 11
        && |"MEDIUM_SLOW"| == 11 && |"LONG_FAST"| == 9 && |"LONG_MODERATE"| == 13 && |"LONG_SLOW"| == 9;
    assert "SHORT_FAST"[6] == 'F' && "SHORT_SLOW"[6] == 'S' && "LONG_FAST"[5] == 'F' && "LONG_SLOW"[5] == 'S';
    assert "MEDIUM_FAST"[7] == 'F' && "MEDIUM_SLOW"[7] == 'S' && "SHORT_TURBO"[0] == 'S' && "MEDIUM_FAST"[0] == 'M'
        && "MEDIUM_SLOW"[0] == 'M';
  }

  /** A frame of so many bytes lasts a whole number of quarter symbols of `unit` nanoseconds:
      a preamble of 16 and a quarter, sync and header, then coded blocks of `rate` symbols
      that carry `bits` payload bits each, of which `spare` more than the payload's are sent. */
  ghost predicate Lasts(preset: string, n: nat, unit: int, bits: int, spare: int, rate: int) {
    exists c :: bits * (c - 1) < 8 * n + spare <= bits * c
             && PresetTimeOnAir(preset, n) == Some((113 + 4 * if c > 0 then c * rate else 0) * unit)
  }

  /** The eight presets and their times on air, number by number; no other is known. */
  lemma PresetExact(n: nat)
    ensures Lasts("SHORT_TURBO", n, 64000, 28, 16, 5) && Lasts("SHORT_FAST", n, 128000, 28, 16, 5)
    ensures Lasts("SHORT_SLOW", n, 256000, 32, 12, 5) && Lasts("MEDIUM_FAST", n, 512000, 36, 8, 5)
    ensures Lasts("MEDIUM_SLOW", n, 1024000, 40, 4, 5) && Lasts("LONG_FAST", n, 2048000, 44, 0, 5)
    ensures Lasts("LONG_MODERATE", n, 4096000, 36, 0, 8) && Lasts("LONG_SLOW", n, 8192000, 40, -4, 8)
    ensures forall preset :: PresetTimeOnAir(preset, n).Some? ==>
              preset in {"SHORT_TURBO", "SHORT_FAST", "SHORT_SLOW", "MEDIUM_FAST", "MEDIUM_SLOW", "LONG_FAST",
                         "LONG_MODERATE", "LONG_SLOW"}
  {
    PresetTable();
    Exp2Table();
    hide Exp2, FrameTime, Lasts;
    PresetLasts(0, n, 64000, 28, 16);
    PresetLasts(1, n, 128000, 28, 16);
    PresetLasts(2, n, 256000, 32, 12);
    PresetLasts(3, n, 512000, 36, 8);
    PresetLasts(4, n, 1024000, 40, 4);
    PresetLasts(5, n, 2048000, 44, 0);
    PresetLasts(6, n, 4096000, 36, 0);
    PresetLasts(7, n, 8192000, 40, -4);
  }

  lemma PresetLasts(i: nat, n: nat, unit: int, d: int, r: int)
    requires i < 8 && BY_SPEED[i] in PRESETS
    requires var p := PRESETS[BY_SPEED[i]];
      && Valid(p) && unit * 4 * p.bandwidthHz == Exp2(p.spreadingFactor) * 1000000000
      && d == 4 * (p.spreadingFactor - if SymbolTime(p) >= 0.016 then 2 else 0) && r == 44 - 4 * p.spreadingFactor
    ensures Lasts(BY_SPEED[i], n, unit, d, r, PRESETS[BY_SPEED[i]].codingRate)
  {
    var p := PRESETS[BY_SPEED[i]];
    assert PresetTimeOnAir(BY_SPEED[i], n) == Some(FrameTime(p, n)) by { hide FrameTime; }
    hide *;
    PresetNanos(p, unit, d, r, n);
    var c :| d * (c - 1) < 8 * n + r <= d * c && FrameTime(p, n) == (113 + 4 * Max(c * p.codingRate, 0)) * unit;
    SameMax(c, p.codingRate);
    LastsFor(BY_SPEED[i], n, unit, d, r, p.codingRate, c);
  }

  lemma LastsFor(preset: string, n: nat, unit: int, bits: int, spare: int, rate: int, c: int)
    requires bits * (c - 1) < 8 * n + spare <= bits * c
    requires PresetTimeOnAir(preset, n) == Some((113 + 4 * if c > 0 then c * rate else 0) * unit)
    ensures Lasts(preset, n, unit, bits, spare, rate)
  {
    hide PresetTimeOnAir;
  }

  lemma SameMax(c: int, rate: int)
    requires rate >= 0
    ensures Max(c * rate, 0) == if c > 0 then c * rate else 0
  {
  }

  // ----- The fleet's share of the channel

  predicate WithinChannelBudget(utilizationPercent: real) {
    utilizationPercent <= RECOMMENDED_CHANNEL_UTILIZATION_PERCENT
  }

  function PhyBytes(payloadBytes: int): int {
    if payloadBytes > 0 then payloadBytes + MESH_FRAME_HEADER_BYTES else payloadBytes
  }

  /** The percentage of a minute that so many frames of this length take. */
  function Load(nodeCount: int, messagesPerMinute: int, toa: int): real {
    (nodeCount as real * messagesPerMinute as real * toa as real) / NANOS_PER_MINUTE * 100.0
  }

  function FleetChannelUtilizationPercent(preset: string, nodeCount: int, messagesPerMinute: int,
                                          payloadBytes: int): Option<real> {
    match PresetTimeOnAir(preset, PhyBytes(payloadBytes))
    case None => None
    case Some(toa) =>
      if nodeCount <= 0 || messagesPerMinute <= 0 then Some(0.0) else Some(Load(nodeCount, messagesPerMinute, toa))
  }

  /** A share is what the frames take of a minute, in hundredths. */
  lemma LoadExact(nodeCount: int, messagesPerMinute: int, toa: int)
    ensures Load(nodeCount, messagesPerMinute, toa) * 60000000000.0
         == (nodeCount * messagesPerMinute * toa) as real * 100.0
  {
    var x := nodeCount as real * messagesPerMinute as real * toa as real;
    CastProducts(nodeCount, messagesPerMinute, toa);
    Hundredfold(x);
  }

  lemma CastProducts(a: int, b: int, c: int)
    ensures (a * b * c) as real == a as real * b as real * c as real
  {
    CastProduct(a, b);
    CastProduct(a * b, c);
  }

  lemma Hundredfold(x: real)
    ensures x / 60000000000.0 * 100.0 * 60000000000.0 == x * 100.0
  {
  }

  lemma LoadMonotone(n: int, r: int, t: int, n': int, r': int, t': int)
    requires 0 <= n <= n' && 0 <= r <= r' && 0 <= t <= t'
    ensures 0.0 <= Load(n, r, t) <= Load(n', r', t')
  {
    ProductMonotone(n as real, r as real, n' as real, r' as real);
    var f, f' := n as real * r as real, n' as real * r' as real;
    ProductMonotone(f, t as real, f', t' as real);
    ScaledMonotone(f * t as real, f' * t' as real);
  }

  lemma ProductMonotone(x: real, y: real, x': real, y': real)
    requires 0.0 <= x <= x' && 0.0 <= y <= y'
    ensures 0.0 <= x * y <= x' * y'
  {
    MulMonotone(0.0, x, y);
    MulMonotone(x, x', y);
    MulMonotone(y, y', x');
  }

  lemma ScaledMonotone(x: real, y: real)
    requires 0.0 <= x <= y
    ensures 0.0 <= x / NANOS_PER_MINUTE * 100.0 <= y / NANOS_PER_MINUTE * 100.0
  {
  }

  /** More nodes, more messages or a longer positive payload never lower the estimate. */
  lemma FleetMonotone(preset: string, nodes: int, rate: int, payload: int, nodes': int, rate': int, payload': int)
    requires preset in PRESETS && nodes <= nodes' && rate <= rate' && 0 < payload <= payload'
    ensures FleetChannelUtilizationPercent(preset, nodes, rate, payload).Some?
    ensures FleetChannelUtilizationPercent(preset, nodes', rate', payload').Some?
    ensures FleetChannelUtilizationPercent(preset, nodes, rate, payload).value
         <= FleetChannelUtilizationPercent(preset, nodes', rate', payload').value
  {
    PresetsValid();
    hide Load, TimeOnAir, PRESETS;
    TimeOnAirMonotone(PRESETS[preset], PhyBytes(payload), PhyBytes(payload'), PREAMBLE, true, true);
    var a, b := FrameTime(PRESETS[preset], PhyBytes(payload)), FrameTime(PRESETS[preset], PhyBytes(payload'));
    if nodes > 0 && rate > 0 {
      LoadMonotone(nodes, rate, a, nodes', rate', b);
    } else if nodes' > 0 && rate' > 0 {
      LoadMonotone(nodes', rate', b, nodes', rate', b);
    }
  }
}
