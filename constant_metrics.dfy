/**
  The uniform mode of the example Physiology Core gRPC server
  (grpc_continuous_example/example_physiology_core_grpc_server.py): a metrics
  buffer filled with one constant-valued entry per second in six parallel
  series (pulse rate and trace, breath rate and upper and lower traces, phasic
  pressure).
*/
module ConstantMetrics {
  import opened Wrappers

  /** `metr.Measurement`: a value at a time, with a stability flag. */
  datatype Measurement = Measurement(time: int, value: real, stable: bool)

  /** `metr.MeasurementWithConfidence`: a measurement that also carries a confidence. */
  datatype MeasurementWithConfidence =
    MeasurementWithConfidence(time: int, value: real, stable: bool, confidence: real)

  // The constant entries. Fields the server leaves unset keep the message
  // default, so `stable` is false.

  function PulseRateAt(t: int): MeasurementWithConfidence
  {
    MeasurementWithConfidence(t, 38.0, false, 1.0)
  }

  function PulseTraceAt(t: int): Measurement
  {
    Measurement(t, 0.5, false)
  }

  function BreathRateAt(t: int): MeasurementWithConfidence
  {
    MeasurementWithConfidence(t, 12.0, false, 1.0)
  }

  /** Both breathing traces, upper and lower, hold the same constant. */
  function BreathTraceAt(t: int): Measurement
  {
    Measurement(t, 0.5, false)
  }

  function PhasicPressureAt(t: int): MeasurementWithConfidence
  {
    MeasurementWithConfidence(t, 70.0, false, 1.0)
  }

  /** The entries of one series for the seconds `start`, ..., `start + n - 1`. */
  function Series<T>(start: int, n: nat, entry: int -> T): seq<T>
  {
    seq(n, k => entry(start + k))
  }

  /** Appending the entry of the next second extends a series by one second. */
  lemma SeriesStep<T>(prefix: seq<T>, start: int, n: nat, entry: int -> T)
    ensures prefix + Series(start, n, entry) + [entry(start + n)] == prefix + Series(start, n + 1, entry)
  {
    var s, t := Series(start, n + 1, entry), Series(start, n, entry) + [entry(start + n)];
    assert forall k :: 0 <= k < n + 1 ==> s[k] == t[k];
    assert s == t;
  }

  /** The times of a series of rate entries, in order. */
  function RateTimes(s: seq<MeasurementWithConfidence>): seq<int>
  {
    seq(|s|, i requires 0 <= i < |s| => s[i].time)
  }

  /** The times of a series of trace entries, in order. */
  function TraceTimes(s: seq<Measurement>): seq<int>
  {
    seq(|s|, i requires 0 <= i < |s| => s[i].time)
  }

  /** The times are `start`, `start + 1`, ...: consecutive seconds, strictly increasing. */
  predicate ConsecutiveFrom(times: seq<int>, start: int)
  {
    forall i :: 0 <= i < |times| ==> times[i] == start + i
  }

  /** Python's `range(length)` is empty for a negative length. */
  function RangeLength(length: int): nat
  {
    if length < 0 then 0 else length
  }

  /**
    Six series share one time line: equally long, entries at one index carry
    one time, and the times are 0, 1, 2, ... seconds.
  */
  ghost predicate OneTimeline(
    pulseRate: seq<MeasurementWithConfidence>, pulseTrace: seq<Measurement>,
    breathRate: seq<MeasurementWithConfidence>, breathUpperTrace: seq<Measurement>,
    breathLowerTrace: seq<Measurement>, pressurePhasic: seq<MeasurementWithConfidence>)
  {
    var times := RateTimes(pulseRate);
    && TraceTimes(pulseTrace) == times
    && RateTimes(breathRate) == times
    && TraceTimes(breathUpperTrace) == times
    && TraceTimes(breathLowerTrace) == times
    && RateTimes(pressurePhasic) == times
    && ConsecutiveFrom(times, 0)
  }

  /** Appending one second of constant entries at the next second keeps the time line. */
  lemma TimelineStep(
    pulseRate: seq<MeasurementWithConfidence>, pulseTrace: seq<Measurement>,
    breathRate: seq<MeasurementWithConfidence>, breathUpperTrace: seq<Measurement>,
    breathLowerTrace: seq<Measurement>, pressurePhasic: seq<MeasurementWithConfidence>, t: int)
    requires OneTimeline(pulseRate, pulseTrace, breathRate, breathUpperTrace, breathLowerTrace, pressurePhasic)
    requires t == |pulseRate|
    ensures OneTimeline(pulseRate + [PulseRateAt(t)], pulseTrace + [PulseTraceAt(t)],
                        breathRate + [BreathRateAt(t)], breathUpperTrace + [BreathTraceAt(t)],
                        breathLowerTrace + [BreathTraceAt(t)], pressurePhasic + [PhasicPressureAt(t)])
  {
    var times := RateTimes(pulseRate) + [t];
    assert RateTimes(pulseRate + [PulseRateAt(t)]) == times;
    assert TraceTimes(pulseTrace + [PulseTraceAt(t)]) == times;
    assert RateTimes(breathRate + [BreathRateAt(t)]) == times;
    assert TraceTimes(breathUpperTrace + [BreathTraceAt(t)]) == times;
    assert TraceTimes(breathLowerTrace + [BreathTraceAt(t)]) == times;
    assert RateTimes(pressurePhasic + [PhasicPressureAt(t)]) == times;
  }

  /**
    Appending `n` seconds of constant entries to all six series, from the
    second after the last one, keeps their common time line.
  */
  lemma {:induction false} AppendKeepsTimeline(
    pulseRate: seq<MeasurementWithConfidence>, pulseTrace: seq<Measurement>,
    breathRate: seq<MeasurementWithConfidence>, breathUpperTrace: seq<Measurement>,
    breathLowerTrace: seq<Measurement>, pressurePhasic: seq<MeasurementWithConfidence>, n: nat)
    requires OneTimeline(pulseRate, pulseTrace, breathRate, breathUpperTrace, breathLowerTrace, pressurePhasic)
    ensures var start := |pulseRate|;
            OneTimeline(pulseRate + Series(start, n, PulseRateAt), pulseTrace + Series(start, n, PulseTraceAt),
                        breathRate + Series(start, n, BreathRateAt), breathUpperTrace + Series(start, n, BreathTraceAt),
                        breathLowerTrace + Series(start, n, BreathTraceAt),
                        pressurePhasic + Series(start, n, PhasicPressureAt))
  {
    var start := |pulseRate|;
    if n == 0 {
      assert pulseRate + Series(start, 0, PulseRateAt) == pulseRate;
      assert pulseTrace + Series(start, 0, PulseTraceAt) == pulseTrace;
      assert breathRate + Series(start, 0, BreathRateAt) == breathRate;
      assert breathUpperTrace + Series(start, 0, BreathTraceAt) == breathUpperTrace;
      assert breathLowerTrace + Series(start, 0, BreathTraceAt) == breathLowerTrace;
      assert pressurePhasic + Series(start, 0, PhasicPressureAt) == pressurePhasic;
    } else {
      var m := n - 1;
      AppendKeepsTimeline(pulseRate, pulseTrace, breathRate, breathUpperTrace, breathLowerTrace, pressurePhasic, m);
      TimelineStep(pulseRate + Series(start, m, PulseRateAt), pulseTrace + Series(start, m, PulseTraceAt),
                   breathRate + Series(start, m, BreathRateAt), breathUpperTrace + Series(start, m, BreathTraceAt),
                   breathLowerTrace + Series(start, m, BreathTraceAt),
                   pressurePhasic + Series(start, m, PhasicPressureAt), start + m);
      SeriesStep(pulseRate, start, m, PulseRateAt);
      SeriesStep(pulseTrace, start, m, PulseTraceAt);
      SeriesStep(breathRate, start, m, BreathRateAt);
      SeriesStep(breathUpperTrace, start, m, BreathTraceAt);
      SeriesStep(breathLowerTrace, start, m, BreathTraceAt);
      SeriesStep(pressurePhasic, start, m, PhasicPressureAt);
    }
  }

  /** `metr.MetricsBuffer`: the six repeated fields the server fills. */
  class MetricsBuffer {
    var pulseRate: seq<MeasurementWithConfidence>
    var pulseTrace: seq<Measurement>
    var breathRate: seq<MeasurementWithConfidence>
    var breathUpperTrace: seq<Measurement>
    var breathLowerTrace: seq<Measurement>
    var pressurePhasic: seq<MeasurementWithConfidence>

    constructor ()
      ensures pulseRate == [] && pulseTrace == [] && breathRate == []
      ensures breathUpperTrace == [] && breathLowerTrace == [] && pressurePhasic == []
    {
      pulseRate, pulseTrace, breathRate := [], [], [];
      breathUpperTrace, breathLowerTrace, pressurePhasic := [], [], [];
    }

    /** One loop step: the constant entries of second `t`, appended to every series. */
    method AppendSecond(t: int)
      modifies this
      ensures pulseRate == old(pulseRate) + [PulseRateAt(t)]
      ensures pulseTrace == old(pulseTrace) + [PulseTraceAt(t)]
      ensures breathRate == old(breathRate) + [BreathRateAt(t)]
      ensures breathUpperTrace == old(breathUpperTrace) + [BreathTraceAt(t)]
      ensures breathLowerTrace == old(breathLowerTrace) + [BreathTraceAt(t)]
      ensures pressurePhasic == old(pressurePhasic) + [PhasicPressureAt(t)]
    {
      pulseRate := pulseRate + [PulseRateAt(t)];
      pulseTrace := pulseTrace + [PulseTraceAt(t)];
      breathRate := breathRate + [BreathRateAt(t)];
      breathUpperTrace := breathUpperTrace + [BreathTraceAt(t)];
      breathLowerTrace := breathLowerTrace + [BreathTraceAt(t)];
      pressurePhasic := pressurePhasic + [PhasicPressureAt(t)];
    }

    /**
      The six series share one time line: equally long, entries at one index
      carry one time, and the times are 0, 1, 2, ... seconds.
    */
    ghost predicate Timeline()
      reads this
    {
      OneTimeline(pulseRate, pulseTrace, breathRate, breathUpperTrace, breathLowerTrace, pressurePhasic)
    }
  }

  /**
    The first second `generate_and_append_constant_metrics` evidently means to
    generate: just after the last pulse-rate entry, or 0 for an empty buffer.
  */
  function InitialTimeSecond(pulseRate: seq<MeasurementWithConfidence>): (t: int)
    ensures pulseRate == [] ==> t == 0
    ensures pulseRate != [] ==> t > pulseRate[|pulseRate| - 1].time
  {
    if |pulseRate| > 0 then pulseRate[|pulseRate| - 1].time + 1 else 0
  }

  /**
    The first second of `generate_and_append_constant_metrics` as written: on a
    non-empty buffer it adds 1 to the last pulse-rate entry itself rather than
    to its time, which raises a TypeError (`None`).
  */
  function InitialTimeSecondAsWritten(pulseRate: seq<MeasurementWithConfidence>): (t: Option<int>)
    ensures t.Some? <==> pulseRate == []
    ensures t.Some? ==> t.value == InitialTimeSecond(pulseRate)
  {
    if |pulseRate| > 0 then None else Some(0)
  }

  /**
    A second call on the buffer that uniform `GetMetrics` fills shows the
    difference: as written it raises, where the evident intent continues the
    time line at second 4.
  */
  lemma AsWrittenRaisesOnFilledBuffer()
    ensures InitialTimeSecondAsWritten(Series(0, 4, PulseRateAt)) == None
    ensures InitialTimeSecond(Series(0, 4, PulseRateAt)) == 4
  {
    var filled := Series(0, 4, PulseRateAt);
    assert |filled| == 4 && filled[3] == PulseRateAt(3);
  }

  /** On a buffer whose time line is 0 .. n-1, generation resumes at second n. */
  lemma InitialTimeContinues(pulseRate: seq<MeasurementWithConfidence>)
    requires ConsecutiveFrom(RateTimes(pulseRate), 0)
    ensures InitialTimeSecond(pulseRate) == |pulseRate|
  {
    if pulseRate != [] {
      assert RateTimes(pulseRate)[|pulseRate| - 1] == |pulseRate| - 1;
    }
  }

  /**
    Appends `lengthSeconds` seconds (one by default) of constant metrics to
    every series, the k-th new entry of each at second `InitialTimeSecond + k`.
    The start is the corrected one: on a non-empty buffer the code as written
    raises instead (`InitialTimeSecondAsWritten`). On a buffer that keeps one
    time line from 0, the time line is kept.
  */
  method GenerateAndAppendConstantMetrics(buffer: MetricsBuffer, lengthSeconds: int := 1)
    modifies buffer
    ensures var start, n := InitialTimeSecond(old(buffer.pulseRate)), RangeLength(lengthSeconds);
            && buffer.pulseRate == old(buffer.pulseRate) + Series(start, n, PulseRateAt)
            && buffer.pulseTrace == old(buffer.pulseTrace) + Series(start, n, PulseTraceAt)
            && buffer.breathRate == old(buffer.breathRate) + Series(start, n, BreathRateAt)
            && buffer.breathUpperTrace == old(buffer.breathUpperTrace) + Series(start, n, BreathTraceAt)
            && buffer.breathLowerTrace == old(buffer.breathLowerTrace) + Series(start, n, BreathTraceAt)
            && buffer.pressurePhasic == old(buffer.pressurePhasic) + Series(start, n, PhasicPressureAt)
    ensures old(buffer.Timeline()) ==> buffer.Timeline()
  {
    var start := InitialTimeSecond(buffer.pulseRate);
    var n := RangeLength(lengthSeconds);
    var i := 0;
    while i < n
      invariant 0 <= i <= n
      invariant buffer.pulseRate == old(buffer.pulseRate) + Series(start, i, PulseRateAt)
      invariant buffer.pulseTrace == old(buffer.pulseTrace) + Series(start, i, PulseTraceAt)
      invariant buffer.breathRate == old(buffer.breathRate) + Series(start, i, BreathRateAt)
      invariant buffer.breathUpperTrace == old(buffer.breathUpperTrace) + Series(start, i, BreathTraceAt)
      invariant buffer.breathLowerTrace == old(buffer.breathLowerTrace) + Series(start, i, BreathTraceAt)
      invariant buffer.pressurePhasic == old(buffer.pressurePhasic) + Series(start, i, PhasicPressureAt)
    {
      SeriesStep(old(buffer.pulseRate), start, i, PulseRateAt);
      SeriesStep(old(buffer.pulseTrace), start, i, PulseTraceAt);
      SeriesStep(old(buffer.breathRate), start, i, BreathRateAt);
      SeriesStep(old(buffer.breathUpperTrace), start, i, BreathTraceAt);
      SeriesStep(old(buffer.breathLowerTrace), start, i, BreathTraceAt);
      SeriesStep(old(buffer.pressurePhasic), start, i, PhasicPressureAt);
      buffer.AppendSecond(start + i);
      i := i + 1;
    }
    if old(buffer.Timeline()) {
      InitialTimeContinues(old(buffer.pulseRate));
      AppendKeepsTimeline(old(buffer.pulseRate), old(buffer.pulseTrace), old(buffer.breathRate),
                          old(buffer.breathUpperTrace), old(buffer.breathLowerTrace),
                          old(buffer.pressurePhasic), n);
    }
  }

  /** The example server; only its uniform mode is deterministic. */
  class DummyPhysiologyServer {
    const useRandomSeed: bool
    const randomSeed: int
    const useUniform: bool

    constructor (useRandomSeed: bool, randomSeed: int, useUniform: bool)
      ensures this.useRandomSeed == useRandomSeed && this.randomSeed == randomSeed
      ensures this.useUniform == useUniform
    {
      this.useRandomSeed := useRandomSeed;
      this.randomSeed := randomSeed;
      this.useUniform := useUniform;
    }

    /**
      `GetMetrics` in uniform mode: a fresh buffer with four seconds, 0 to 3,
      of constant metrics in every series, on one time line.
    */
    method GetMetrics() returns (buffer: MetricsBuffer)
      requires useUniform
      ensures fresh(buffer)
      ensures buffer.pulseRate == Series(0, 4, PulseRateAt)
      ensures buffer.pulseTrace == Series(0, 4, PulseTraceAt)
      ensures buffer.breathRate == Series(0, 4, BreathRateAt)
      ensures buffer.breathUpperTrace == Series(0, 4, BreathTraceAt)
      ensures buffer.breathLowerTrace == Series(0, 4, BreathTraceAt)
      ensures buffer.pressurePhasic == Series(0, 4, PhasicPressureAt)
      ensures buffer.Timeline()
    {
      buffer := new MetricsBuffer();
      GenerateAndAppendConstantMetrics(buffer, 4);
      AppendKeepsTimeline([], [], [], [], [], [], 4);
      assert [] + Series(0, 4, PulseRateAt) == Series(0, 4, PulseRateAt);
      assert [] + Series(0, 4, PulseTraceAt) == Series(0, 4, PulseTraceAt);
      assert [] + Series(0, 4, BreathRateAt) == Series(0, 4, BreathRateAt);
      assert [] + Series(0, 4, BreathTraceAt) == Series(0, 4, BreathTraceAt);
      assert [] + Series(0, 4, PhasicPressureAt) == Series(0, 4, PhasicPressureAt);
    }
  }
}
