/**
 * `generateRealisticAnomaly`: the pattern injector. Given the sampled value of
 * one metric on one day, it adds a spike, a trend, an oscillation, or plain
 * noise. Each `Math.random()` call the source makes is an element of `draws`,
 * in call order; `sine` is the value of `Math.sin(dayIndex * 2.5)`.
 */
module Injector {
  import opened Wrappers
  import opened Numeric
  import opened Catalog

  /** Pattern kinds: 0 spike, 1 trend, 2 oscillation; anything else is plain noise. */
  const Spike: int := 0
  const Trend: int := 1
  const Oscillation: int := 2

  /** `Math.random() > 0.5 ? 1 : -1`. */
  function Direction(u: real): real {
    if u > 0.5 then 1.0 else -1.0
  }

  /**
   * A spike: `direction * randomInRange(nv, nv * max, 2)` added to the value,
   * the direction being +1 or -1.
   */
  function SpikeValue(nv: real, fmax: real, base: real, uDir: real, uMag: real): real {
    var magnitude := RandomInRange(nv, nv * fmax, 2, uMag);
    if uDir > 0.5 then base + magnitude else base - magnitude
  }

  /** A trend: `direction * nv * (dayIndex / totalDays) * totalDays * trend` added. */
  function TrendValue(nv: real, trend: real, base: real, dayIndex: nat, totalDays: nat, uDir: real): real
    requires totalDays > 0
  {
    var normalizedDay := (dayIndex as real) / (totalDays as real);
    base + Direction(uDir) * nv * normalizedDay * (totalDays as real) * trend
  }

  /** An oscillation: `nv * sin(dayIndex * 2.5) * 1.5` added. */
  function OscillationValue(nv: real, base: real, sine: real): real {
    base + nv * (sine * 1.5)
  }

  /** Plain noise: `randomInRange(-nv, nv, 2)` added. */
  function NoiseValue(nv: real, base: real, u: real): real {
    base + RandomInRange(-nv, nv, 2, u)
  }

  /**
   * The injected value for a metric whose normal variation is `nv` and whose
   * anomaly factors are `f`.
   */
  function Inject(nv: real, f: AnomalyFactor, base: real, dayIndex: nat, totalDays: nat,
                  pattern: int, draws: seq<real>, sine: real): real
    requires totalDays > 0 && |draws| >= 3
  {
    if pattern == Spike && draws[0] > 0.85 then SpikeValue(nv, f.max, base, draws[1], draws[2])
    else if pattern == Trend then TrendValue(nv, f.trend, base, dayIndex, totalDays, draws[0])
    else if pattern == Oscillation then OscillationValue(nv, base, sine)
    // a spike day that did not fire draws its noise after the gate draw
    else if pattern == Spike then NoiseValue(nv, base, draws[1])
    else NoiseValue(nv, base, draws[0])
  }

  /**
   * The injected value, or `None` where the source computes `NaN` (a code
   * without a normal variation).
   */
  function GenerateRealisticAnomaly(code: string, base: real, dayIndex: nat, totalDays: nat,
                                    pattern: int, draws: seq<real>, sine: real): (r: Option<real>)
    requires totalDays > 0 && |draws| >= 3
    ensures r.Some? <==> IsMetric(code)
  {
    match NormalVariation(code)
    case None => None
    case Some(nv) => Some(Inject(nv, Factor(code), base, dayIndex, totalDays, pattern, draws, sine))
  }

  ghost predicate ValidDraws(draws: seq<real>) {
    |draws| >= 3 && forall i :: 0 <= i < |draws| ==> IsDraw(draws[i])
  }

  /** The factors every metric's lookup satisfies. */
  predicate FactorInRange(nv: real, f: AnomalyFactor) {
    0.1 <= nv <= 8.0 && 1.5 <= f.max <= 2.0 && 0.2 <= f.trend <= 0.4
  }

  lemma LookupInRange(code: string)
    requires IsMetric(code)
    ensures NormalVariation(code).Some? && FactorInRange(NormalVariation(code).value, Factor(code))
  {
  }

  lemma LookupInject(code: string, base: real, dayIndex: nat, totalDays: nat, pattern: int, draws: seq<real>, sine: real)
    requires IsMetric(code) && totalDays > 0 && |draws| >= 3
    ensures GenerateRealisticAnomaly(code, base, dayIndex, totalDays, pattern, draws, sine)
         == Some(Inject(NormalVariation(code).value, Factor(code), base, dayIndex, totalDays, pattern, draws, sine))
  {
  }

  lemma TrendInject(nv: real, f: AnomalyFactor, base: real, dayIndex: nat, totalDays: nat, draws: seq<real>, sine: real)
    requires totalDays > 0 && |draws| >= 3
    ensures Inject(nv, f, base, dayIndex, totalDays, Trend, draws, sine)
         == base + Direction(draws[0]) * nv * (dayIndex as real) * f.trend
  {
    TrendCancels(nv, f.trend, base, dayIndex, totalDays, draws[0]);
  }

  lemma TrendCancels(nv: real, trend: real, base: real, dayIndex: nat, totalDays: nat, uDir: real)
    requires totalDays > 0
    ensures TrendValue(nv, trend, base, dayIndex, totalDays, uDir) == base + Direction(uDir) * nv * (dayIndex as real) * trend
  {
    var t := totalDays as real;
    var q := (dayIndex as real) / t;
    assert q * t == dayIndex as real;
    var dir := Direction(uDir);
    assert dir * nv * q * t * trend == dir * nv * (q * t) * trend;
  }

  /**
   * The trend offset is exactly ±normalVariation × dayIndex × trendFactor: the
   * division by the number of days cancels, and the sign comes from this
   * call's own draw.
   */
  lemma TrendOffsetExact(code: string, base: real, dayIndex: nat, totalDays: nat, draws: seq<real>, sine: real)
    requires IsMetric(code) && totalDays > 0 && |draws| >= 3
    ensures GenerateRealisticAnomaly(code, base, dayIndex, totalDays, Trend, draws, sine)
         == Some(base + Direction(draws[0]) * NormalVariation(code).value * (dayIndex as real) * Factor(code).trend)
  {
    LookupInject(code, base, dayIndex, totalDays, Trend, draws, sine);
    TrendInject(NormalVariation(code).value, Factor(code), base, dayIndex, totalDays, draws, sine);
  }

  lemma SpikeIsSpikeValue(nv: real, f: AnomalyFactor, base: real, dayIndex: nat, totalDays: nat, draws: seq<real>, sine: real)
    requires totalDays > 0 && |draws| >= 3 && draws[0] > 0.85
    ensures Inject(nv, f, base, dayIndex, totalDays, Spike, draws, sine) == SpikeValue(nv, f.max, base, draws[1], draws[2])
  {
  }

  lemma SpikeDirection(nv: real, fmax: real, base: real, uDir: real, uMag: real)
    ensures uDir > 0.5 ==> SpikeValue(nv, fmax, base, uDir, uMag) == base + RandomInRange(nv, nv * fmax, 2, uMag)
    ensures uDir <= 0.5 ==> SpikeValue(nv, fmax, base, uDir, uMag) == base - RandomInRange(nv, nv * fmax, 2, uMag)
  {
  }

  /**
   * A spike fires only when the gate draw exceeds 0.85; it then moves the
   * value by a magnitude between one normal variation and the metric's maximum
   * factor of it (up to the two-decimal rounding), upwards when the second
   * draw exceeds 0.5 and downwards otherwise.
   */
  lemma SpikeOffsetBounds(code: string, base: real, dayIndex: nat, totalDays: nat, draws: seq<real>, sine: real)
    requires IsMetric(code) && totalDays > 0 && ValidDraws(draws) && draws[0] > 0.85
    ensures var nv := NormalVariation(code).value;
            var mag := RandomInRange(nv, nv * Factor(code).max, 2, draws[2]);
            var v := GenerateRealisticAnomaly(code, base, dayIndex, totalDays, Spike, draws, sine);
            && v.Some?
            && SpikeMoves(v.value, base, draws[1], mag)
            && MagnitudeInRange(nv, Factor(code).max, mag)
  {
    LookupInRange(code);
    LookupInject(code, base, dayIndex, totalDays, Spike, draws, sine);
    SpikeInjectOffset(NormalVariation(code).value, Factor(code), base, dayIndex, totalDays, draws, sine);
  }

  /** The spike moves `base` by `mag`: upwards when the direction draw exceeds 0.5, else downwards. */
  predicate SpikeMoves(v: real, base: real, uDir: real, mag: real) {
    (uDir > 0.5 ==> v == base + mag) && (uDir <= 0.5 ==> v == base - mag)
  }

  /** A magnitude between one normal variation and `fmax` of them, up to two-decimal rounding. */
  predicate MagnitudeInRange(nv: real, fmax: real, mag: real) {
    nv - HalfUnit(2) <= mag <= nv * fmax + HalfUnit(2)
  }

  lemma SpikeInjectOffset(nv: real, f: AnomalyFactor, base: real, dayIndex: nat, totalDays: nat, draws: seq<real>, sine: real)
    requires FactorInRange(nv, f) && totalDays > 0 && ValidDraws(draws) && draws[0] > 0.85
    ensures var mag := RandomInRange(nv, nv * f.max, 2, draws[2]);
            && SpikeMoves(Inject(nv, f, base, dayIndex, totalDays, Spike, draws, sine), base, draws[1], mag)
            && MagnitudeInRange(nv, f.max, mag)
  {
    SpikeIsSpikeValue(nv, f, base, dayIndex, totalDays, draws, sine);
    assert IsDraw(draws[2]);
    SpikeValueOffset(nv, f.max, base, draws[1], draws[2]);
  }

  lemma SpikeValueOffset(nv: real, fmax: real, base: real, uDir: real, uMag: real)
    requires nv > 0.0 && fmax >= 1.0 && IsDraw(uMag)
    ensures var mag := RandomInRange(nv, nv * fmax, 2, uMag);
            && SpikeMoves(SpikeValue(nv, fmax, base, uDir, uMag), base, uDir, mag)
            && MagnitudeInRange(nv, fmax, mag)
  {
    SpikeDirection(nv, fmax, base, uDir, uMag);
    SpikeMagnitudeBounds(nv, fmax, uMag);
  }

  lemma SpikeMagnitudeBounds(nv: real, fmax: real, u: real)
    requires nv > 0.0 && fmax >= 1.0 && IsDraw(u)
    ensures nv - HalfUnit(2) <= RandomInRange(nv, nv * fmax, 2, u) <= nv * fmax + HalfUnit(2)
  {
    MulMonotone(1.0, fmax, nv);
    RandomInRangeBounds(nv, nv * fmax, 2, u);
  }

  lemma NoiseInject(nv: real, f: AnomalyFactor, base: real, dayIndex: nat, totalDays: nat, pattern: int, draws: seq<real>, sine: real)
    requires FactorInRange(nv, f) && totalDays > 0 && ValidDraws(draws)
    requires pattern != Trend && pattern != Oscillation && !(pattern == Spike && draws[0] > 0.85)
    ensures Abs(Inject(nv, f, base, dayIndex, totalDays, pattern, draws, sine) - base) <= nv + HalfUnit(2)
  {
    var u := if pattern == Spike then draws[1] else draws[0];
    assert Inject(nv, f, base, dayIndex, totalDays, pattern, draws, sine) == NoiseValue(nv, base, u);
    assert IsDraw(u);
    NoiseBounds(nv, base, u);
  }

  lemma NoiseBounds(nv: real, base: real, u: real)
    requires nv > 0.0 && IsDraw(u)
    ensures Abs(NoiseValue(nv, base, u) - base) <= nv + HalfUnit(2)
  {
    RandomInRangeBounds(-nv, nv, 2, u);
  }

  /** Plain noise, and a spike day whose gate did not fire, stay within one normal variation. */
  lemma NoiseOffsetBounds(code: string, base: real, dayIndex: nat, totalDays: nat, pattern: int, draws: seq<real>, sine: real)
    requires IsMetric(code) && totalDays > 0 && ValidDraws(draws)
    requires pattern != Trend && pattern != Oscillation && !(pattern == Spike && draws[0] > 0.85)
    ensures var nv := NormalVariation(code).value;
            Abs(GenerateRealisticAnomaly(code, base, dayIndex, totalDays, pattern, draws, sine).value - base)
              <= nv + HalfUnit(2)
  {
    LookupInRange(code);
    LookupInject(code, base, dayIndex, totalDays, pattern, draws, sine);
    NoiseInject(NormalVariation(code).value, Factor(code), base, dayIndex, totalDays, pattern, draws, sine);
  }

  lemma OscillationInject(nv: real, f: AnomalyFactor, base: real, dayIndex: nat, totalDays: nat, draws: seq<real>, sine: real)
    requires nv > 0.0 && totalDays > 0 && |draws| >= 3 && -1.0 <= sine <= 1.0
    ensures Inject(nv, f, base, dayIndex, totalDays, Oscillation, draws, sine) == OscillationValue(nv, base, sine)
    ensures Abs(OscillationValue(nv, base, sine) - base) <= 1.5 * nv
  {
    var off := nv * (sine * 1.5);
    AbsScaled(nv, sine * 1.5, 1.5);
    assert OscillationValue(nv, base, sine) - base == off;
  }

  /** The oscillation uses no draw at all, and stays within 1.5 normal variations. */
  lemma OscillationIsDeterministic(code: string, base: real, dayIndex: nat, totalDays: nat,
                                   draws: seq<real>, others: seq<real>, sine: real)
    requires IsMetric(code) && totalDays > 0 && |draws| >= 3 && |others| >= 3
    requires -1.0 <= sine <= 1.0
    ensures GenerateRealisticAnomaly(code, base, dayIndex, totalDays, Oscillation, draws, sine)
         == GenerateRealisticAnomaly(code, base, dayIndex, totalDays, Oscillation, others, sine)
    ensures Abs(GenerateRealisticAnomaly(code, base, dayIndex, totalDays, Oscillation, draws, sine).value - base)
              <= 1.5 * NormalVariation(code).value
  {
    LookupInRange(code);
    LookupInject(code, base, dayIndex, totalDays, Oscillation, draws, sine);
    LookupInject(code, base, dayIndex, totalDays, Oscillation, others, sine);
    OscillationInject(NormalVariation(code).value, Factor(code), base, dayIndex, totalDays, draws, sine);
    OscillationInject(NormalVariation(code).value, Factor(code), base, dayIndex, totalDays, others, sine);
  }

  /**
   * Whatever the pattern, within a window of at most five measured days the
   * injected value stays within two normal variations (plus rounding) of the
   * sampled value.
   */
  lemma InjectionBounded(code: string, base: real, dayIndex: nat, totalDays: nat, pattern: int, draws: seq<real>, sine: real)
    requires IsMetric(code) && dayIndex < totalDays <= 5 && ValidDraws(draws)
    requires -1.0 <= sine <= 1.0
    ensures Abs(GenerateRealisticAnomaly(code, base, dayIndex, totalDays, pattern, draws, sine).value - base)
              <= 2.0 * NormalVariation(code).value + HalfUnit(2)
  {
    LookupInRange(code);
    LookupInject(code, base, dayIndex, totalDays, pattern, draws, sine);
    InjectBounded(NormalVariation(code).value, Factor(code), base, dayIndex, totalDays, pattern, draws, sine);
  }

  lemma InjectBounded(nv: real, f: AnomalyFactor, base: real, dayIndex: nat, totalDays: nat, pattern: int, draws: seq<real>, sine: real)
    requires FactorInRange(nv, f) && dayIndex < totalDays <= 5 && ValidDraws(draws)
    requires -1.0 <= sine <= 1.0
    ensures Abs(Inject(nv, f, base, dayIndex, totalDays, pattern, draws, sine) - base) <= 2.0 * nv + HalfUnit(2)
  {
    if pattern == Spike && draws[0] > 0.85 {
      SpikeWithin(nv, f, base, dayIndex, totalDays, draws, sine);
    } else if pattern == Trend {
      TrendWithin(nv, f, base, dayIndex, totalDays, draws, sine);
    } else if pattern == Oscillation {
      OscillationWithin(nv, f, base, dayIndex, totalDays, draws, sine);
    } else {
      NoiseInject(nv, f, base, dayIndex, totalDays, pattern, draws, sine);
    }
  }

  lemma SpikeWithin(nv: real, f: AnomalyFactor, base: real, dayIndex: nat, totalDays: nat, draws: seq<real>, sine: real)
    requires FactorInRange(nv, f) && totalDays > 0 && ValidDraws(draws) && draws[0] > 0.85
    ensures Abs(Inject(nv, f, base, dayIndex, totalDays, Spike, draws, sine) - base) <= 2.0 * nv + HalfUnit(2)
  {
    SpikeIsSpikeValue(nv, f, base, dayIndex, totalDays, draws, sine);
    assert IsDraw(draws[2]);
    SpikeValueWithin(nv, f.max, base, draws[1], draws[2]);
  }

  lemma SpikeValueWithin(nv: real, fmax: real, base: real, uDir: real, uMag: real)
    requires 0.1 <= nv && 1.5 <= fmax <= 2.0 && IsDraw(uMag)
    ensures Abs(SpikeValue(nv, fmax, base, uDir, uMag) - base) <= 2.0 * nv + HalfUnit(2)
  {
    var mag := RandomInRange(nv, nv * fmax, 2, uMag);
    SpikeDirection(nv, fmax, base, uDir, uMag);
    SpikeMagnitudeBounds(nv, fmax, uMag);
    SpikeBound(nv, fmax, mag);
  }

  lemma TrendWithin(nv: real, f: AnomalyFactor, base: real, dayIndex: nat, totalDays: nat, draws: seq<real>, sine: real)
    requires FactorInRange(nv, f) && dayIndex < totalDays <= 5 && |draws| >= 3
    ensures Abs(Inject(nv, f, base, dayIndex, totalDays, Trend, draws, sine) - base) <= 2.0 * nv + HalfUnit(2)
  {
    TrendInject(nv, f, base, dayIndex, totalDays, draws, sine);
    var dir := Direction(draws[0]);
    TrendBound(nv, dir, dayIndex, f.trend);
    var off := dir * nv * (dayIndex as real) * f.trend;
    assert (base + off) - base == off;
  }

  lemma OscillationWithin(nv: real, f: AnomalyFactor, base: real, dayIndex: nat, totalDays: nat, draws: seq<real>, sine: real)
    requires FactorInRange(nv, f) && totalDays > 0 && |draws| >= 3 && -1.0 <= sine <= 1.0
    ensures Abs(Inject(nv, f, base, dayIndex, totalDays, Oscillation, draws, sine) - base) <= 2.0 * nv + HalfUnit(2)
  {
    OscillationInject(nv, f, base, dayIndex, totalDays, draws, sine);
  }

  lemma SpikeBound(nv: real, fmax: real, mag: real)
    requires nv > 0.0 && fmax <= 2.0
    requires 0.0 <= mag <= nv * fmax + HalfUnit(2)
    ensures mag <= 2.0 * nv + HalfUnit(2)
  {
    MulMonotone(fmax, 2.0, nv);
  }

  lemma TrendBound(nv: real, dir: real, dayIndex: nat, trend: real)
    requires nv > 0.0 && 0.0 <= trend <= 0.4 && dayIndex <= 4 && (dir == 1.0 || dir == -1.0)
    ensures Abs(dir * nv * (dayIndex as real) * trend) <= 2.0 * nv
  {
    var i := dayIndex as real;
    var k := i * trend;
    TrendFraction(i, trend);
    if dir == 1.0 {
      assert dir * k == k;
    } else {
      assert dir * k == -k;
    }
    AbsScaled(nv, dir * k, 1.6);
    assert dir * nv * i * trend == nv * (dir * k);
  }

  lemma TrendFraction(i: real, trend: real)
    requires 0.0 <= i <= 4.0 && 0.0 <= trend <= 0.4
    ensures 0.0 <= i * trend <= 1.6
  {
    MulMonotone(i, 4.0, trend);
    assert i * trend <= 4.0 * trend <= 1.6;
    MulMonotone(0.0, i, trend);
    assert 0.0 * trend <= i * trend;
  }

  /** A product with a factor bounded by `bound` in absolute value. */
  lemma AbsScaled(nv: real, x: real, bound: real)
    requires nv >= 0.0 && -bound <= x <= bound
    ensures Abs(nv * x) <= bound * nv
  {
    if x >= 0.0 {
      MulMonotone(x, bound, nv);
      MulMonotone(0.0, x, nv);
      assert nv * x == x * nv;
    } else {
      MulMonotone(-x, bound, nv);
      MulMonotone(0.0, -x, nv);
      assert nv * x == -((-x) * nv);
    }
  }
}
