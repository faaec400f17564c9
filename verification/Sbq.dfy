/**
 * Statistical binary quantization: running mean and spread of the samples, the level of a component against evenly
 * spaced thresholds, and the codes packed from the levels.
 */
module Sbq {
  import opened Arithmetic
  import opened Common
  import opened Bits
  import opened UnaryCodes

  type Sample = seq<real>

  datatype SbqConfig = SbqConfig(dimensions: nat, bits: nat, useMean: bool) {
    predicate Valid() { 0 < dimensions && 1 <= bits <= 32 }
  }

  // ----- two-pass statistics -----

  function Sum(samples: seq<Sample>, i: nat): real
    requires forall k :: 0 <= k < |samples| ==> i < |samples[k]|
  {
    if samples == [] then 0.0 else Sum(samples[..|samples| - 1], i) + samples[|samples| - 1][i]
  }

  /** The sum of squared deviations from `center`. */
  function Spread(samples: seq<Sample>, i: nat, center: real): real
    requires forall k :: 0 <= k < |samples| ==> i < |samples[k]|
  {
    if samples == [] then 0.0
    else Spread(samples[..|samples| - 1], i, center) + Square(samples[|samples| - 1][i] - center)
  }

  lemma {:induction false} SpreadNonNegative(samples: seq<Sample>, i: nat, center: real)
    requires forall k :: 0 <= k < |samples| ==> i < |samples[k]|
    ensures Spread(samples, i, center) >= 0.0
  {
    if samples != [] {
      hide Square;
      SpreadNonNegative(samples[..|samples| - 1], i, center);
      SquareNonNegative(samples[|samples| - 1][i] - center);
    }
  }

  lemma SquareNonNegative(x: real)
    ensures Square(x) >= 0.0
  {
    if x < 0.0 {
      assert (0.0 - x) * (0.0 - x) >= 0.0;
    } else {
      assert x * x >= 0.0;
    }
  }

  lemma SquareShift(x: real, a: real, b: real)
    ensures Square(x - a) == Square(x - b) + Square(b - a) + Mul(2.0 * (b - a), x - b)
  {}

  lemma ShiftTerms(n: real, q: real, k: real, sum: real, b: real, x: real)
    ensures Mul(n, q) + Mul(k, sum - Mul(n, b)) + q + Mul(k, x - b) == Mul(n + 1.0, q) + Mul(k, sum + x - Mul(n + 1.0, b))
  {}

  /** Moving the centre. */
  lemma {:induction false} SpreadShift(samples: seq<Sample>, i: nat, a: real, b: real)
    requires forall k :: 0 <= k < |samples| ==> i < |samples[k]|
    ensures var n := |samples| as real;
      Spread(samples, i, a)
        == Spread(samples, i, b) + Mul(n, Square(b - a)) + Mul(2.0 * (b - a), Sum(samples, i) - Mul(n, b))
  {
    if samples == [] {
      ShiftNothing(Square(b - a), 2.0 * (b - a), b);
    } else {
      hide Mul, Square;
      var front, x := samples[..|samples| - 1], samples[|samples| - 1][i];
      SpreadShift(front, i, a, b);
      SquareShift(x, a, b);
      ShiftTerms(|front| as real, Square(b - a), 2.0 * (b - a), Sum(front, i), b, x);
      assert |samples| as real == |front| as real + 1.0;
    }
  }

  lemma ShiftNothing(q: real, k: real, b: real)
    ensures Mul(0.0, q) + Mul(k, 0.0 - Mul(0.0, b)) == 0.0
  {}

  /** The arithmetic of one running step: `d` is the deviation from the old mean, `t` the move of the mean. */
  lemma StepTerms(n: real, mean: real, d: real, t: real, x: real)
    requires n + 1.0 != 0.0 && d == x - mean && t == d / (n + 1.0)
    ensures Mul(mean + t, n + 1.0) == Mul(mean, n) + x
    ensures Mul(n, Square(t)) + Square(d - t) == Mul(d, d - t)
  {
    assert d == (n + 1.0) * t;
    assert d - t == n * t;
    var u := n * t;
    assert n * (t * t) == u * t;
    assert d == u + t;
  }

  lemma Vanishes(n: real, mean: real, sum: real, k: real)
    requires Mul(mean, n) == sum
    ensures Mul(k, sum - Mul(n, mean)) == 0.0
  {}

  lemma SquareNegates(t: real)
    ensures Square(0.0 - t) == Square(t)
  {}

  /** One running step over exact statistics: the new mean and the new spread are exact again. */
  lemma RunningStep(samples: seq<Sample>, i: nat, x: Sample, mean: real, m2: real)
    requires forall k :: 0 <= k < |samples| ==> i < |samples[k]|
    requires i < |x|
    requires Mul(mean, |samples| as real) == Sum(samples, i) && m2 == Spread(samples, i, mean)
    ensures var n := |samples| as real;
      var next := mean + (x[i] - mean) / (n + 1.0);
      && Mul(next, n + 1.0) == Sum(samples + [x], i)
      && m2 + Mul(x[i] - mean, x[i] - next) == Spread(samples + [x], i, next)
  {
    hide Mul, Square;
    var n, d := |samples| as real, x[i] - mean;
    var t := d / (n + 1.0);
    var next := mean + t;
    StepTerms(n, mean, d, t, x[i]);
    assert (samples + [x])[..|samples|] == samples;
    SpreadShift(samples, i, next, mean);
    Vanishes(n, mean, Sum(samples, i), 2.0 * (mean - next));
    assert mean - next == 0.0 - t && x[i] - next == d - t;
    SquareNegates(t);
  }

  // ----- levels -----

  /** How many of `bits` evenly spaced thresholds a z-score reaches. */
  function ZLevel(z: real, bits: nat): nat
    requires bits >= 1
  {
    var index := (z + 2.0) / (4.0 / (bits + 1) as real);
    if index >= 1.0 then Min(index.Floor, bits) else 0
  }

  lemma IndexScales(z: real, ranges: real)
    requires ranges > 0.0
    ensures (z + 2.0) / (4.0 / ranges) == (z + 2.0) * ranges / 4.0
  {
    var step := 4.0 / ranges;
    assert step * ranges == 4.0;
    var index := (z + 2.0) / step;
    assert index * step == z + 2.0;
    assert index * 4.0 == index * step * ranges;
  }

  /** The k-th bit is set exactly from the k-th threshold on. */
  lemma LevelThreshold(z: real, bits: nat, k: nat)
    requires 1 <= k <= bits
    ensures ZLevel(z, bits) >= k <==> (z + 2.0) * (bits + 1) as real / 4.0 >= k as real
    ensures ZLevel(z, bits) <= bits
  {
    IndexScales(z, (bits + 1) as real);
  }

  /** A larger z-score never has a lower level. */
  lemma LevelMonotone(z: real, z': real, bits: nat)
    requires bits >= 1 && z <= z'
    ensures ZLevel(z, bits) <= ZLevel(z', bits) <= bits
  {
    var ranges := (bits + 1) as real;
    var low, high := (z + 2.0) / (4.0 / ranges), (z' + 2.0) / (4.0 / ranges);
    IndexOrdered(z, z', ranges);
    FloorOrdered(low, high);
  }

  lemma IndexOrdered(z: real, z': real, ranges: real)
    requires ranges > 0.0 && z <= z'
    ensures (z + 2.0) / (4.0 / ranges) <= (z' + 2.0) / (4.0 / ranges)
  {
    IndexScales(z, ranges);
    IndexScales(z', ranges);
    var gap := z' - z;
    assert gap * ranges >= 0.0;
    assert (z' + 2.0) * ranges == (z + 2.0) * ranges + gap * ranges;
  }

  lemma FloorOrdered(low: real, high: real)
    requires low <= high
    ensures low.Floor <= high.Floor
  {}

  /** The trained model: what `quantize` needs. */
  datatype Model = Model(config: SbqConfig, count: nat, mean: seq<real>, m2: seq<real>) {
    predicate Usable() {
      && config.Valid()
      && (config.useMean ==> count > 0 && |mean| == config.dimensions && (config.bits > 1 ==> |m2| == config.dimensions))
    }

    /** Bits that one dimension occupies: without means only the sign is stored. */
    function Stride(): nat { if config.useMean then config.bits else 1 }

    function ZScore(sqrt: real -> real, i: nat, v: real): real
      requires Usable() && config.useMean && config.bits > 1 && i < config.dimensions
    {
      var stdDev := sqrt(m2[i] / count as real);
      if stdDev <= EPSILON then 0.0 else (v - mean[i]) / stdDev
    }

    function Level(sqrt: real -> real, i: nat, v: real): nat
      requires Usable() && i < config.dimensions
    {
      if !config.useMean then (if v > 0.0 then 1 else 0)
      else if config.bits == 1 then (if v > mean[i] then 1 else 0)
      else ZLevel(ZScore(sqrt, i, v), config.bits)
    }

    function Levels(sqrt: real -> real, vector: Sample): (levels: seq<nat>)
      requires Usable() && |vector| == config.dimensions
      ensures |levels| == |vector|
      ensures forall i :: 0 <= i < |vector| ==> levels[i] == Level(sqrt, i, vector[i])
    {
      seq(|vector|, i requires 0 <= i < |vector| => Level(sqrt, i, vector[i]))
    }

    lemma LevelWithin(sqrt: real -> real, i: nat, v: real)
      requires Usable() && i < config.dimensions
      ensures Level(sqrt, i, v) <= Stride()
    {
      if config.useMean && config.bits > 1 {
        LevelMonotone(ZScore(sqrt, i, v), ZScore(sqrt, i, v), config.bits);
      }
    }

    lemma LevelsWithin(sqrt: real -> real, vector: Sample)
      requires Usable() && |vector| == config.dimensions
      ensures Within(Levels(sqrt, vector), Stride())
    {
      forall i | 0 <= i < |vector| ensures Level(sqrt, i, vector[i]) <= Stride() {
        LevelWithin(sqrt, i, vector[i]);
      }
    }

    /** In each dimension the level follows the component. */
    lemma LevelFollows(sqrt: real -> real, i: nat, v: real, v': real)
      requires Usable() && i < config.dimensions && v <= v'
      ensures Level(sqrt, i, v) <= Level(sqrt, i, v')
    {
      if config.useMean && config.bits > 1 {
        var stdDev := sqrt(m2[i] / count as real);
        if stdDev > EPSILON {
          Ordered(v - mean[i], v' - mean[i], stdDev);
        }
        LevelMonotone(ZScore(sqrt, i, v), ZScore(sqrt, i, v'), config.bits);
      }
    }
  }

  lemma Ordered(x: real, y: real, d: real)
    requires x <= y && d > 0.0
    ensures x / d <= y / d
  {}

  lemma RoomFor(dimensions: nat, bits: nat, stride: nat, i: nat)
    requires stride <= bits && i < dimensions
    ensures (i + 1) * stride <= WORD * QuantizedLen(dimensions, bits)
    ensures stride * dimensions <= WORD * QuantizedLen(dimensions, bits)
  {
    var total := dimensions * bits;
    assert WORD * QuantizedLen(dimensions, bits) >= total;
    MulMono(i + 1, dimensions, stride);
    MulMono(stride, bits, dimensions);
    assert dimensions * stride == stride * dimensions;
  }

  /** Encodes a vector: every dimension's level as a run of ones at its own place, and no other bit. */
  method Quantize(model: Model, sqrt: real -> real, vector: Sample) returns (r: Result<seq<bv64>>)
    requires model.config.Valid()
    requires model.config.useMean && model.count > 0 ==> model.Usable()
    ensures r.Ok? <==> |vector| == model.config.dimensions && (model.config.useMean ==> model.count > 0)
    ensures r.Ok? ==> |r.value| == QuantizedLen(model.config.dimensions, model.config.bits)
    ensures r.Ok? ==> Encodes(r.value, model.Levels(sqrt, vector), model.Stride())
    ensures r.Err? ==> r.error == if |vector| != model.config.dimensions then InvalidDimension else QuantizerState
  {
    hide Lit, BitOf;
    if |vector| != model.config.dimensions {
      return Err(InvalidDimension);
    }
    if model.config.useMean && model.count == 0 {
      return Err(QuantizerState);
    }
    var words := new bv64[QuantizedLen(model.config.dimensions, model.config.bits)](_ => 0);
    ghost var levels := model.Levels(sqrt, vector);
    Blank(words[..], model.Stride());
    model.LevelsWithin(sqrt, vector);
    for i := 0 to |vector|
      invariant Encodes(words[..], levels[..i], model.Stride())
    {
      ghost var was := words[..];
      RoomFor(model.config.dimensions, model.config.bits, model.Stride(), i);
      EncodeLevel(words, i, model.Stride(), model.Level(sqrt, i, vector[i]));
      EncodesMore(was, words[..], levels, i, model.Stride());
    }
    assert levels[..|vector|] == levels;
    r := Ok(words[..]);
  }

  lemma Blank(words: seq<bv64>, stride: nat)
    requires forall w :: 0 <= w < |words| ==> words[w] == 0
    ensures Encodes(words, [], stride)
  {
    hide Bit;
    forall p: nat ensures !BitOf(words, p) {
      BitZero(p % WORD);
    }
  }

  lemma EncodesMore(was: seq<bv64>, words: seq<bv64>, levels: seq<nat>, i: nat, stride: nat)
    requires i < |levels| && Within(levels, stride) && Encodes(was, levels[..i], stride)
    requires forall p: nat :: BitOf(words, p) <==> BitOf(was, p) || i * stride <= p < i * stride + levels[i]
    ensures Encodes(words, levels[..i + 1], stride)
  {
    hide BitOf, Lit;
    assert levels[..i + 1] == levels[..i] + [levels[i]];
    forall p: nat ensures BitOf(words, p) <==> Lit(levels[..i + 1], stride, p) {
      LitSnoc(levels[..i], levels[i], stride, p);
    }
  }

  /** The routing distance of two encoded vectors is the sum of their level differences. */
  lemma RoutingDistanceIsLevelDistance(model: Model, sqrt: real -> real, a: Sample, b: Sample, wa: seq<bv64>, wb: seq<bv64>)
    requires model.Usable() && |a| == |b| == model.config.dimensions
    requires |wa| == |wb| == QuantizedLen(model.config.dimensions, model.config.bits)
    requires Encodes(wa, model.Levels(sqrt, a), model.Stride()) && Encodes(wb, model.Levels(sqrt, b), model.Stride())
    ensures XorCount(wa, wb) == LevelDistance(model.Levels(sqrt, a), model.Levels(sqrt, b))
  {
    hide Encodes, XorCount, LevelDistance, QuantizedLen;
    model.LevelsWithin(sqrt, a);
    model.LevelsWithin(sqrt, b);
    RoomFor(model.config.dimensions, model.config.bits, model.Stride(), 0);
    XorIsLevelDistance(wa, wb, model.Levels(sqrt, a), model.Levels(sqrt, b), model.Stride());
  }

  // ----- training -----

  ghost predicate Uniform(samples: seq<Sample>, dimensions: nat) {
    forall k :: 0 <= k < |samples| ==> |samples[k]| == dimensions
  }

  /** The running statistics are those of a two-pass computation over the samples. */
  ghost predicate Exact(model: Model, samples: seq<Sample>) {
    && Uniform(samples, model.config.dimensions)
    && (if !model.config.useMean then model.count == 0
        else
          && model.count == |samples|
          && |model.mean| == model.config.dimensions
          && (model.config.bits > 1 ==> |model.m2| == model.config.dimensions)
          && forall i :: 0 <= i < model.config.dimensions ==> ExactAt(model, samples, i))
  }

  ghost predicate ExactAt(model: Model, samples: seq<Sample>, i: nat)
    requires Uniform(samples, model.config.dimensions) && i < |model.mean| == model.config.dimensions
    requires model.config.bits > 1 ==> |model.m2| == model.config.dimensions
  {
    && Mul(model.mean[i], model.count as real) == Sum(samples, i)
    && (model.config.bits > 1 ==> model.m2[i] == Spread(samples, i, model.mean[i]))
  }

  /** After any number of samples: the mean times the count is the sum, and the spread is that around the mean. */
  lemma TrainedStatistics(model: Model, samples: seq<Sample>, i: nat)
    requires model.config.useMean && Exact(model, samples) && i < model.config.dimensions
    ensures model.mean[i] * |samples| as real == Sum(samples, i)
    ensures model.config.bits > 1 ==> model.m2[i] == Spread(samples, i, model.mean[i]) && model.m2[i] >= 0.0
  {
    assert ExactAt(model, samples, i);
    SpreadNonNegative(samples, i, model.mean[i]);
  }

  class SbqQuantizer {
    const config: SbqConfig
    var training: bool
    var count: nat
    var mean: seq<real>
    var m2: seq<real>
    /** The samples since training began. */
    ghost var samples: seq<Sample>

    ghost function Stats(): Model
      reads this
    {
      Model(config, count, mean, m2)
    }

    ghost predicate Valid()
      reads this
    {
      config.Valid() && Exact(Stats(), samples)
    }

    constructor (config: SbqConfig)
      requires config.Valid()
      ensures Valid() && this.config == config && samples == [] && !training
    {
      this.config, training, count, samples := config, false, 0, [];
      mean := if config.useMean then Zeros(config.dimensions) else [];
      m2 := if config.useMean && config.bits > 1 then Zeros(config.dimensions) else [];
      new;
      Untrained(Stats());
    }

    method StartTraining()
      requires Valid()
      modifies this
      ensures Valid() && training && samples == []
    {
      training, count := true, 0;
      if config.useMean {
        mean := Zeros(config.dimensions);
        m2 := if config.bits > 1 then Zeros(config.dimensions) else [];
      }
      samples := [];
      Untrained(Stats());
    }

    /** Adds one sample; rejected samples change nothing. */
    method AddSample(sample: Sample) returns (r: Result<()>)
      requires Valid()
      modifies this
      ensures Valid() && training == old(training)
      ensures r.Ok? <==> old(training) && |sample| == config.dimensions
      ensures r.Ok? ==> samples == old(samples) + [sample]
      ensures r.Err? ==> samples == old(samples) && Stats() == old(Stats())
      ensures r.Err? ==> r.error == if !old(training) then QuantizerState else InvalidDimension
    {
      if !training {
        return Err(QuantizerState);
      }
      if |sample| != config.dimensions {
        return Err(InvalidDimension);
      }
      if !config.useMean {
        samples := samples + [sample];
        return Ok(());
      }
      ghost var was := Stats();
      var nextMean, nextM2 := Advance(Model(config, count, mean, m2), sample);
      count := count + 1;
      mean, m2 := nextMean, nextM2;
      AdvancedExact(was, Stats(), samples, sample);
      samples := samples + [sample];
      r := Ok(());
    }

    method FinishTraining() returns (r: Result<()>)
      requires Valid()
      modifies this
      ensures Valid() && !training && samples == old(samples) && Stats() == old(Stats())
      ensures r.Ok? <==> old(training) && (config.useMean ==> |samples| > 0)
      ensures r.Ok? ==> Stats().Usable()
      ensures r.Err? ==> r.error == QuantizerState
    {
      if !training {
        return Err(QuantizerState);
      }
      training := false;
      r := if !config.useMean || count > 0 then Ok(()) else Err(QuantizerState);
    }

    /** Encodes with the trained statistics; refused while training. */
    method Encode(sqrt: real -> real, vector: Sample) returns (r: Result<seq<bv64>>)
      requires Valid()
      ensures r.Ok? <==> |vector| == config.dimensions && !training && (config.useMean ==> |samples| > 0)
      ensures r.Ok? ==> Stats().Usable() && |r.value| == QuantizedLen(config.dimensions, config.bits)
      ensures r.Ok? ==> Encodes(r.value, Stats().Levels(sqrt, vector), Stats().Stride())
    {
      if |vector| != config.dimensions {
        return Err(InvalidDimension);
      }
      if training {
        return Err(QuantizerState);
      }
      r := Quantize(Model(config, count, mean, m2), sqrt, vector);
    }
  }

  function Zeros(n: nat): seq<real> { seq(n, _ => 0.0) }

  lemma Untrained(model: Model)
    requires model.count == 0
    requires model.config.useMean ==> model.mean == Zeros(model.config.dimensions)
    requires model.config.useMean && model.config.bits > 1 ==> model.m2 == Zeros(model.config.dimensions)
    ensures Exact(model, [])
  {}

  function NextMean(model: Model, sample: Sample, i: nat): real
    requires i < |model.mean| && i < |sample|
  {
    model.mean[i] + (sample[i] - model.mean[i]) / (model.count + 1) as real
  }

  ghost predicate Advanced(model: Model, sample: Sample, mean: seq<real>, m2: seq<real>)
    requires |sample| == |model.mean| && (model.config.bits > 1 ==> |model.m2| == |sample|)
  {
    && |mean| == |sample|
    && (forall i :: 0 <= i < |sample| ==> mean[i] == NextMean(model, sample, i))
    && (model.config.bits > 1 ==>
          && |m2| == |sample|
          && forall i :: 0 <= i < |sample| ==> m2[i] == model.m2[i] + Mul(sample[i] - model.mean[i], sample[i] - mean[i]))
  }

  /** The three passes over the dimensions: deviations, means, spreads. */
  method Advance(model: Model, sample: Sample) returns (mean: seq<real>, m2: seq<real>)
    requires |sample| == |model.mean| && (model.config.bits > 1 ==> |model.m2| == |sample|)
    ensures Advanced(model, sample, mean, m2)
  {
    hide Mul;
    mean := [];
    for i := 0 to |sample|
      invariant |mean| == i && forall k :: 0 <= k < i ==> mean[k] == NextMean(model, sample, k)
    {
      mean := mean + [model.mean[i] + (sample[i] - model.mean[i]) / (model.count + 1) as real];
    }
    m2 := model.m2;
    if model.config.bits > 1 {
      m2 := [];
      for i := 0 to |sample|
        invariant |m2| == i
        invariant forall k :: 0 <= k < i ==> m2[k] == model.m2[k] + Mul(sample[k] - model.mean[k], sample[k] - mean[k])
      {
        m2 := m2 + [model.m2[i] + Mul(sample[i] - model.mean[i], sample[i] - mean[i])];
      }
    }
  }

  /** A running step keeps the statistics exact. */
  lemma AdvancedExact(was: Model, now: Model, samples: seq<Sample>, sample: Sample)
    requires was.config.useMean && Exact(was, samples) && |sample| == was.config.dimensions
    requires now.config == was.config && now.count == was.count + 1 && Advanced(was, sample, now.mean, now.m2)
    ensures Exact(now, samples + [sample])
  {
    hide Mul, Sum, Spread;
    var all := samples + [sample];
    assert Uniform(all, now.config.dimensions);
    forall i | 0 <= i < now.config.dimensions ensures ExactAt(now, all, i) {
      assert ExactAt(was, samples, i);
      RunningStep(samples, i, sample, was.mean[i], Spread(samples, i, was.mean[i]));
    }
  }
}
