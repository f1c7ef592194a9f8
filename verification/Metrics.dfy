/** The running metrics of the audio thread (metrics.c and the frame loop of rpmsg_audio_example.c), over the reals. */
module Metrics {
  import opened Common
  import opened Text
  import opened DeviceLog
  import AudMon
  import opened LogPair

  // ---------- One series ----------

  datatype Series = Series(total: real, min: real, max: real) {
    function Add(v: real): Series {
      Series(total + v, if v < min then v else min, if v > max then v else max)
    }
  }

  const LATENCY_START := Series(0.0, 1000000.0, 0.0)
  const OTHER_START := Series(0.0, 1000000000.0, -1000000000.0)

  /** A series after a whole history. */
  function SeriesOf(start: Series, values: seq<real>): Series {
    if values == [] then start else SeriesOf(start, values[..|values| - 1]).Add(values[|values| - 1])
  }

  function Sum(values: seq<real>): real {
    if values == [] then 0.0 else Sum(values[..|values| - 1]) + values[|values| - 1]
  }

  /** The extremes bound every value and are sentinels or values; the total is the sum. */
  lemma {:induction false} SeriesMeaning(start: Series, values: seq<real>)
    requires start.total == 0.0
    ensures var s := SeriesOf(start, values);
      && s.total == Sum(values)
      && s.min <= start.min && s.max >= start.max
      && (forall v :: v in values ==> s.min <= v <= s.max)
      && (s.min == start.min || s.min in values) && (s.max == start.max || s.max in values)
  {
    if values != [] {
      var last := |values| - 1;
      SeriesMeaning(start, values[..last]);
      assert forall v :: v in values ==> v in values[..last] || v == values[last];
      assert forall v :: v in values[..last] ==> v in values;
    }
  }

  /** The sum of a longer history; with it Sum is determined. */
  lemma {:induction false} SumAdds(a: seq<real>, b: seq<real>)
    ensures Sum(a + b) == Sum(a) + Sum(b)
    ensures |b| == 1 ==> Sum(b) == b[0]
  {
    if b == [] {
      assert a + b == a;
    } else {
      var last := |b| - 1;
      assert (a + b)[..|a + b| - 1] == a + b[..last];
      SumAdds(a, b[..last]);
    }
  }

  lemma OneTimeMore(x: real, n: nat)
    ensures x * (n + 1) as real == x * n as real + x
  {
  }

  lemma {:induction false} SumIsBounded(values: seq<real>, low: real, high: real)
    requires forall v :: v in values ==> low <= v <= high
    ensures low * |values| as real <= Sum(values) <= high * |values| as real
  {
    if values != [] {
      var last := |values| - 1;
      assert values[last] in values && forall v :: v in values[..last] ==> v in values;
      SumIsBounded(values[..last], low, high);
      OneTimeMore(low, last);
      OneTimeMore(high, last);
    }
  }

  lemma Quotient(low: real, total: real, n: real, high: real)
    requires n > 0.0 && low * n <= total <= high * n
    ensures low <= total / n <= high
  {
    var q := total / n;
    assert q * n == total;
    assert (q - low) * n == total - low * n && (high - q) * n == high * n - total;
    NonNegativeFactor(q - low, n);
    NonNegativeFactor(high - q, n);
  }

  lemma NonNegativeFactor(a: real, n: real)
    requires n > 0.0 && a * n >= 0.0
    ensures a >= 0.0
  {
  }

  /** Every summary is ordered, whatever the values: a value beyond a sentinel only makes the extreme too wide. */
  lemma SummaryIsOrdered(start: Series, values: seq<real>)
    requires start.total == 0.0 && values != []
    ensures var s := SeriesOf(start, values); s.min <= s.total / |values| as real <= s.max
  {
    hide SeriesOf, Sum;
    var s := SeriesOf(start, values);
    SeriesMeaning(start, values);
    SumIsBounded(values, s.min, s.max);
    Quotient(s.min, s.total, |values| as real, s.max);
  }

  /** The printed minimum is a measured one exactly when some value does not exceed the sentinel; so for maxima. */
  lemma ExtremesAreMeasured(start: Series, values: seq<real>)
    requires start.total == 0.0 && values != []
    ensures SeriesOf(start, values).min in values <==> exists v :: v in values && v <= start.min
    ensures SeriesOf(start, values).max in values <==> exists v :: v in values && v >= start.max
  {
    SeriesMeaning(start, values);
  }

  // ---------- The totals of the audio thread ----------

  datatype Measurement = Measurement(latency: real, amp: real, cpu: real, dsp: real)

  function Latencies(h: seq<Measurement>): (r: seq<real>)
    ensures |r| == |h|
  {
    seq(|h|, i requires 0 <= i < |h| => h[i].latency)
  }

  function Amps(h: seq<Measurement>): (r: seq<real>)
    ensures |r| == |h|
  {
    seq(|h|, i requires 0 <= i < |h| => h[i].amp)
  }

  function Cpus(h: seq<Measurement>): (r: seq<real>)
    ensures |r| == |h|
  {
    seq(|h|, i requires 0 <= i < |h| => h[i].cpu)
  }

  function Dsps(h: seq<Measurement>): (r: seq<real>)
    ensures |r| == |h|
  {
    seq(|h|, i requires 0 <= i < |h| => h[i].dsp)
  }


  /** min, max and total / frames, as %.{p}f prints them. */
  function PrintedRange(s: Series, frames: nat, places: nat): Range
    requires frames > 0
  {
    Range(Round(s.min, places), Round(s.max, places), Round(s.total / frames as real, places))
  }

  /** What log_summary prints after a history of frames. */
  function SummaryOf(h: seq<Measurement>): SummaryMetrics
    requires h != []
  {
    SummaryMetrics(|h|,
      PrintedRange(SeriesOf(LATENCY_START, Latencies(h)), |h|, 2), PrintedRange(SeriesOf(OTHER_START, Amps(h)), |h|, 2),
      PrintedRange(SeriesOf(OTHER_START, Cpus(h)), |h|, 1), PrintedRange(SeriesOf(OTHER_START, Dsps(h)), |h|, 1))
  }

  function FrameOf(frame: nat, mode: ExecMode, v: Measurement): FrameMetrics {
    FrameMetrics(frame, Round(v.amp, 2), Round(v.latency, 2), mode, Round(v.cpu, 1), Round(v.dsp, 1))
  }

  /** A frame that shows a measurement: each value under its own name, at the precision of the format. */
  ghost predicate Measures(f: AudMon.Frame, frame: nat, mode: ExecMode, v: Measurement) {
    && f.number == frame && f.mode == (if mode.ExecArm? then "CPU" else "DSP")
    && Reads(f.amp, v.amp, 2) && Reads(f.latency, v.latency, 2) && Reads(f.cpu, v.cpu, 1) && Reads(f.dsp, v.dsp, 1)
  }

  /** What is logged for a frame are its measurements, and what is read back of it shows them. */
  lemma FrameIsMeasured(frame: nat, mode: ExecMode, v: Measurement)
    ensures var f := FrameOf(frame, mode, v);
      && f.frame == frame && f.mode == mode
      && Prints(f.amp, v.amp, 100.0) && Prints(f.latency, v.latency, 100.0)
      && Prints(f.cpu, v.cpu, 10.0) && Prints(f.dsp, v.dsp, 10.0)
    ensures v.latency >= 0.0 && v.amp >= 0.0 && v.cpu >= 0.0 && v.dsp >= 0.0 ==>
      Measures(Decoded(FrameOf(frame, mode, v)), frame, mode, v)
  {
    hide Round, Prints;
    RoundPrints(v.amp);
    RoundPrints(v.latency);
    RoundPrints(v.cpu);
    RoundPrints(v.dsp);
    RoundSign(v.amp);
    RoundSign(v.latency);
    RoundSign(v.cpu);
    RoundSign(v.dsp);
  }

  lemma RoundSign(v: real)
    ensures v >= 0.0 ==>
      Round(v, 1) == Fixed(false, Round(v, 1).units) && Round(v, 2) == Fixed(false, Round(v, 2).units)
  {
  }

  // ---------- What a summary says of the measurements ----------

  ghost predicate Least(x: real, values: seq<real>) {
    x in values && forall v :: v in values ==> x <= v
  }

  ghost predicate Greatest(x: real, values: seq<real>) {
    x in values && forall v :: v in values ==> v <= x
  }

  ghost predicate Mean(x: real, values: seq<real>) {
    x * |values| as real == Sum(values)
  }

  /** The printed range of a series: its least and greatest value and its mean. */
  ghost predicate PrintsRange(r: Range, values: seq<real>, scale: real) {
    exists least, greatest, mean ::
      && Least(least, values) && Greatest(greatest, values) && Mean(mean, values)
      && Prints(r.min, least, scale) && Prints(r.max, greatest, scale) && Prints(r.avg, mean, scale)
  }

  /** Values within the two that a series starts with. */
  ghost predicate Within(start: Series, values: seq<real>) {
    forall v :: v in values ==> start.max <= v <= start.min
  }

  lemma RangeIsMeasured(start: Series, values: seq<real>, places: nat)
    requires start.total == 0.0 && values != [] && Within(start, values) && 1 <= places <= 2
    ensures PrintsRange(
      PrintedRange(SeriesOf(start, values), |values|, places), values, if places == 1 then 10.0 else 100.0)
  {
    hide SeriesOf, Sum, Round, Prints;
    var s := SeriesOf(start, values);
    var n := |values| as real;
    SeriesMeaning(start, values);
    ExtremesAreMeasured(start, values);
    assert values[0] in values && start.max <= values[0] <= start.min;
    assert s.min in values && s.max in values;
    var mean := s.total / n;
    assert mean * n == s.total;
    assert Least(s.min, values) && Greatest(s.max, values) && Mean(mean, values);
    RoundPrints(s.min);
    RoundPrints(s.max);
    RoundPrints(mean);
  }

  /** Latencies of at most 1000 seconds, and other values of at most 10^9 either way. */
  ghost predicate Ordinary(h: seq<Measurement>) {
    forall v :: v in h ==>
      && 0.0 <= v.latency <= 1000000.0 && -1000000000.0 <= v.amp <= 1000000000.0
      && -1000000000.0 <= v.cpu <= 1000000000.0 && -1000000000.0 <= v.dsp <= 1000000000.0
  }

  lemma OrdinaryIsWithin(h: seq<Measurement>)
    requires Ordinary(h)
    ensures Within(LATENCY_START, Latencies(h)) && Within(OTHER_START, Amps(h))
    ensures Within(OTHER_START, Cpus(h)) && Within(OTHER_START, Dsps(h))
  {
    assert forall i :: 0 <= i < |h| ==> h[i] in h;
  }

  /** A summary has the number of frames, and of each of the four series the least and greatest value and the mean. */
  lemma SummaryIsMeasured(h: seq<Measurement>)
    requires h != [] && Ordinary(h)
    ensures var s := SummaryOf(h);
      && s.frames == |h|
      && PrintsRange(s.latency, Latencies(h), 100.0) && PrintsRange(s.amp, Amps(h), 100.0)
      && PrintsRange(s.cpu, Cpus(h), 10.0) && PrintsRange(s.dsp, Dsps(h), 10.0)
  {
    hide PrintsRange, PrintedRange, SeriesOf, Within, Ordinary, Latencies, Amps, Cpus, Dsps;
    OrdinaryIsWithin(h);
    RangeIsMeasured(LATENCY_START, Latencies(h), 2);
    RangeIsMeasured(OTHER_START, Amps(h), 2);
    RangeIsMeasured(OTHER_START, Cpus(h), 1);
    RangeIsMeasured(OTHER_START, Dsps(h), 1);
  }

  /**
   * A measured frame reaches the parser exactly when none of its values is negative; that of an unreadable /proc/stat,
   * for which get_cpu_load returns -1, does not.
   */
  lemma NegativeMeasurementIsNotShown(frame: nat, mode: ExecMode, v: Measurement)
    ensures AudMon.ParseFrame(FrameText(FrameOf(frame, mode, v))) ==
      if v.latency < 0.0 || v.amp < 0.0 || v.cpu < 0.0 || v.dsp < 0.0 then None
      else Some(Decoded(FrameOf(frame, mode, v)))
    ensures v.cpu == -1.0 ==> AudMon.ParseFrame(FrameText(FrameOf(frame, mode, v))) == None
  {
    hide AudMon.ParseFrame, FrameText, Decoded, NearestUnits;
    FrameRoundTrip(FrameOf(frame, mode, v));
  }

  /** Everything the audio thread logs for a history of frames: one line each, and a summary after every tenth. */
  function Log(mode: ExecMode, h: seq<Measurement>): seq<Message> {
    if h == [] then []
    else
      var last := |h| - 1;
      Log(mode, h[..last]) + [FrameMessage(FrameOf(|h|, mode, h[last]))] +
      if |h| % 10 == 0 then Messages(SummaryOf(h)) else []
  }

  // The log repeats itself every fifteen messages: ten frames, then the five lines of a summary.

  function LogLength(frames: nat): nat {
    15 * (frames / 10) + frames % 10
  }

  /** How many of the first `q` messages are frames. */
  function FrameCount(q: nat): nat {
    10 * (q / 15) + if q % 15 < 10 then q % 15 else 10
  }

  lemma CountsGrow(c: nat, e: nat, frames: nat)
    requires c <= e <= LogLength(frames)
    ensures FrameCount(c) <= FrameCount(e) <= frames
    ensures c > 0 ==> FrameCount(c) > 0
  {
  }

  lemma NextCount(e: nat)
    ensures FrameCount(e + 1) == FrameCount(e) + if e % 15 < 10 then 1 else 0
    ensures FrameCount(0) == 0
  {
  }

  /** The rounds that e messages of the log reach into. */
  lemma RoundsFit(e: nat, frames: nat)
    requires e <= LogLength(frames)
    ensures 10 * (e / 15) <= frames
    ensures e % 15 > 10 ==> 10 * (e / 15) + 10 <= frames
  {
  }

  /** Message `i` of the log, said without the ones before it. */
  function LoggedAt(mode: ExecMode, h: seq<Measurement>, i: nat): Message
    requires i < LogLength(|h|)
  {
    if i % 15 < 10 then FrameMessage(FrameOf(FrameCount(i) + 1, mode, h[FrameCount(i)]))
    else SummaryMessage(SummaryOf(h[..10 * (i / 15) + 10]), i % 15 - 10)
  }

  lemma SameBefore(mode: ExecMode, h: seq<Measurement>, i: nat)
    requires h != [] && i < LogLength(|h| - 1)
    ensures i < LogLength(|h|) && LoggedAt(mode, h[..|h| - 1], i) == LoggedAt(mode, h, i)
  {
    hide SummaryOf, FrameOf, LogLength, FrameCount;
    NextLength(|h| - 1);
    CountsGrow(i, i + 1, |h| - 1);
    NextCount(i);
    RoundsFit(i + 1, |h| - 1);
    var front := h[..|h| - 1];
    if i % 15 >= 10 {
      var k := 10 * (i / 15) + 10;
      assert k <= |front|;
      assert front[..k] == h[..k];
    } else {
      assert front[FrameCount(i)] == h[FrameCount(i)];
    }
  }

  lemma NextLength(frames: nat)
    ensures LogLength(frames + 1) == LogLength(frames) + if (frames + 1) % 10 == 0 then 6 else 1
    ensures FrameCount(LogLength(frames)) == frames && LogLength(frames) % 15 == frames % 10
  {
    var a, b := frames / 10, frames % 10;
    assert LogLength(frames) / 15 == a && LogLength(frames) % 15 == b;
  }

  /** The messages of one iteration. */
  lemma NewMessages(mode: ExecMode, h: seq<Measurement>, j: nat)
    requires h != [] && LogLength(|h| - 1) + j < LogLength(|h|)
    ensures LoggedAt(mode, h, LogLength(|h| - 1) + j) ==
      if j == 0 then FrameMessage(FrameOf(|h|, mode, h[|h| - 1])) else SummaryMessage(SummaryOf(h), j - 1)
  {
    hide SummaryOf, FrameOf;
    NextLength(|h| - 1);
    if j > 0 {
      assert h[..|h|] == h;
    }
  }

  /** The messages of the last iteration. */
  function LastIteration(mode: ExecMode, h: seq<Measurement>): (r: seq<Message>)
    requires h != []
    ensures |r| == if |h| % 10 == 0 then 6 else 1
    ensures r[0] == FrameMessage(FrameOf(|h|, mode, h[|h| - 1]))
    ensures forall j :: 0 < j < |r| ==> r[j] == SummaryMessage(SummaryOf(h), j - 1)
  {
    [FrameMessage(FrameOf(|h|, mode, h[|h| - 1]))] + if |h| % 10 == 0 then Messages(SummaryOf(h)) else []
  }

  lemma LogInIterations(mode: ExecMode, h: seq<Measurement>)
    requires h != []
    ensures Log(mode, h) == Log(mode, h[..|h| - 1]) + LastIteration(mode, h)
  {
    hide SummaryOf, FrameOf, Messages;
    var front, frame := Log(mode, h[..|h| - 1]), [FrameMessage(FrameOf(|h|, mode, h[|h| - 1]))];
    Regroup(front, frame, if |h| % 10 == 0 then Messages(SummaryOf(h)) else []);
  }

  lemma OneIterationLogged(mode: ExecMode, h: seq<Measurement>, before: seq<Message>, i: nat)
    requires h != [] && before == Log(mode, h[..|h| - 1]) && |before| == LogLength(|h| - 1)
    requires i < LogLength(|h|)
    requires i < |before| ==> before[i] == LoggedAt(mode, h[..|h| - 1], i)
    ensures |Log(mode, h)| == LogLength(|h|) && Log(mode, h)[i] == LoggedAt(mode, h, i)
  {
    hide SummaryOf, FrameOf, LoggedAt, LogLength, Log, LastIteration;
    NextLength(|h| - 1);
    LogInIterations(mode, h);
    if i < |before| { SameBefore(mode, h, i); } else { NewMessages(mode, h, i - |before|); }
  }

  lemma {:induction false} LogShape(mode: ExecMode, h: seq<Measurement>)
    ensures |Log(mode, h)| == LogLength(|h|)
    ensures forall i :: 0 <= i < LogLength(|h|) ==> Log(mode, h)[i] == LoggedAt(mode, h, i)
  {
    if h == [] {
      assert LogLength(0) == 0;
    } else {
      hide SummaryOf, FrameOf, LoggedAt, LogLength, Log;
      var last := |h| - 1;
      LogShape(mode, h[..last]);
      NextLength(last);
      OneIterationLogged(mode, h, Log(mode, h[..last]), 0);
      forall i | 0 <= i < LogLength(|h|)
        ensures Log(mode, h)[i] == LoggedAt(mode, h, i)
      {
        OneIterationLogged(mode, h, Log(mode, h[..last]), i);
      }
    }
  }

  class RunningMetrics {
    var frames: nat
    var latency: Series
    var amp: Series
    var cpu: Series
    var dsp: Series
    ghost var history: seq<Measurement>

    ghost predicate Valid()
      reads this
    {
      && frames == |history|
      && latency == SeriesOf(LATENCY_START, Latencies(history))
      && amp == SeriesOf(OTHER_START, Amps(history))
      && cpu == SeriesOf(OTHER_START, Cpus(history))
      && dsp == SeriesOf(OTHER_START, Dsps(history))
    }

    constructor ()
      ensures Valid() && history == []
    {
      frames, latency, amp, cpu, dsp, history := 0, LATENCY_START, OTHER_START, OTHER_START, OTHER_START, [];
    }

    /** update_metrics: twelve running values written through pointers. */
    method UpdateMetrics(v: Measurement)
      modifies this`latency, this`amp, this`cpu, this`dsp
      ensures latency == old(latency).Add(v.latency) && amp == old(amp).Add(v.amp)
      ensures cpu == old(cpu).Add(v.cpu) && dsp == old(dsp).Add(v.dsp)
    {
      latency := latency.Add(v.latency);
      amp := amp.Add(v.amp);
      cpu := cpu.Add(v.cpu);
      dsp := dsp.Add(v.dsp);
    }

    /** The logging part of one iteration of the frame loop. */
    method LogFrame(mode: ExecMode, v: Measurement) returns (out: seq<Message>)
      requires Valid()
      modifies this
      ensures Valid() && history == old(history) + [v]
      ensures Log(mode, history) == Log(mode, old(history)) + out
    {
      UpdateMetrics(v);
      frames := frames + 1;
      HistorySnoc(history, v);
      history := history + [v];
      assert history[..|history| - 1] == old(history);
      out := [FrameMessage(FrameOf(frames, mode, v))];
      if frames % 10 == 0 {
        var s := SummaryMetrics(frames, PrintedRange(latency, frames, 2), PrintedRange(amp, frames, 2),
          PrintedRange(cpu, frames, 1), PrintedRange(dsp, frames, 1));
        Regroup(Log(mode, old(history)), out, Messages(s));
        out := out + Messages(s);
      }
    }
  }

  lemma HistorySnoc(h: seq<Measurement>, v: Measurement)
    ensures SeriesOf(LATENCY_START, Latencies(h + [v])) == SeriesOf(LATENCY_START, Latencies(h)).Add(v.latency)
    ensures SeriesOf(OTHER_START, Amps(h + [v])) == SeriesOf(OTHER_START, Amps(h)).Add(v.amp)
    ensures SeriesOf(OTHER_START, Cpus(h + [v])) == SeriesOf(OTHER_START, Cpus(h)).Add(v.cpu)
    ensures SeriesOf(OTHER_START, Dsps(h + [v])) == SeriesOf(OTHER_START, Dsps(h)).Add(v.dsp)
  {
    assert Latencies(h + [v])[..|h|] == Latencies(h);
    assert Amps(h + [v])[..|h|] == Amps(h);
    assert Cpus(h + [v])[..|h|] == Cpus(h);
    assert Dsps(h + [v])[..|h|] == Dsps(h);
  }

  // ---------- Printed summaries ----------

  lemma NearestIsMonotone(x: real, y: real)
    requires 0.0 <= x <= y
    ensures Nearest(x) <= Nearest(y)
  {
    if x.Floor < y.Floor {
      assert Nearest(x) <= x.Floor + 1 <= y.Floor <= Nearest(y);
    }
  }

  lemma RoundIsMonotone(x: real, y: real, places: nat)
    requires 0.0 <= x <= y
    ensures Round(x, places).units <= Round(y, places).units && !Round(x, places).negative && !Round(y, places).negative
  {
    UnitsAreMonotone(x, y, places);
  }

  lemma UnitsAreMonotone(x: real, y: real, places: nat)
    requires 0.0 <= x <= y
    ensures NearestUnits(x, places) <= NearestUnits(y, places)
  {
    hide InUnits, Nearest;
    InUnitsIsMonotone(x, y, places);
    NearestIsMonotone(InUnits(x, places), InUnits(y, places));
  }

  /** For values that are not negative the five summary numbers of a series are printed, and read back, in order. */
  lemma PrintedRangeIsOrdered(start: Series, values: seq<real>, places: nat)
    requires start.total == 0.0 && start.min >= 0.0 && values != [] && forall v :: v in values ==> v >= 0.0
    ensures var r := PrintedRange(SeriesOf(start, values), |values|, places);
      !AnyNegativeIn(r) && r.min.units <= r.avg.units <= r.max.units
  {
    SeriesMeaning(start, values);
    SummaryIsOrdered(start, values);
    var s := SeriesOf(start, values);
    RoundIsMonotone(s.min, s.total / |values| as real, places);
    RoundIsMonotone(s.total / |values| as real, s.max, places);
  }

  // ---------- CPU load ----------

  datatype Counters = Counters(user: int, nice: int, system: int, idle: int) {
    function Busy(): int { user + nice + system }
    function All(): int { Busy() + idle }

    predicate AtMost(later: Counters) {
      user <= later.user && nice <= later.nice && system <= later.system && idle <= later.idle
    }
  }

  /** The busy share of the time in percent, or 0 when no time has passed. */
  function Load(busy: int, all: int): (r: real)
    ensures all != 0 ==> r * all as real == 100.0 * busy as real
    ensures all == 0 ==> r == 0.0
  {
    if all != 0 then 100.0 * busy as real / all as real else 0.0
  }

  lemma LoadIsPercentage(busy: int, all: int)
    requires 0 <= busy <= all
    ensures 0.0 <= Load(busy, all) <= 100.0
  {
    if all != 0 {
      Quotient(0.0, 100.0 * busy as real, all as real, 100.0);
    }
  }

  /** The static counters of get_cpu_load. The ghost fields add up what the calls have reported. */
  class CpuMeter {
    var last: Counters
    ghost var busySeen: int
    ghost var allSeen: int

    ghost predicate Valid()
      reads this
    {
      busySeen == last.Busy() && allSeen == last.All()
    }

    constructor ()
      ensures Valid() && last == Counters(0, 0, 0, 0) && busySeen == allSeen == 0
    {
      last, busySeen, allSeen := Counters(0, 0, 0, 0), 0, 0;
    }

    /**
     * get_cpu_load; None stands for a /proc/stat that cannot be opened. The reported deltas telescope: whatever calls
     * failed in between, they add up to the last counters read.
     */
    method GetCpuLoad(stat: Option<Counters>) returns (load: real, ghost busy: int, ghost all: int)
      requires Valid()
      modifies this
      ensures Valid() && busySeen == old(busySeen) + busy && allSeen == old(allSeen) + all
      ensures stat.None? ==> load == -1.0 && last == old(last) && busy == all == 0
      ensures stat.Some? ==> load == Load(busy, all) && last == stat.value
      ensures stat.Some? ==> all == busy + (stat.value.idle - old(last).idle)
      ensures stat.Some? ==> var (from, to) := (old(last), stat.value);
        busy == (to.user - from.user) + (to.nice - from.nice) + (to.system - from.system)
      ensures stat.Some? && old(last).AtMost(stat.value) ==> 0.0 <= load <= 100.0
    {
      if stat.None? {
        return -1.0, 0, 0;
      }
      var now := stat.value;
      var total := (now.user - last.user) + (now.nice - last.nice) + (now.system - last.system);
      var totalAll := total + (now.idle - last.idle);
      if last.AtMost(now) {
        LoadIsPercentage(total, totalAll);
      }
      last := now;
      busySeen, allSeen := busySeen + total, allSeen + totalAll;
      return if totalAll != 0 then 100.0 * total as real / totalAll as real else 0.0, total, totalAll;
    }
  }

  /** The monotone counter readings of a run, with failed ones in between, as deltas between consecutive readings. */
  function Deltas(from: Counters, stats: seq<Option<Counters>>): seq<(int, int)>
    decreases stats
  {
    if stats == [] then []
    else if stats[0].None? then Deltas(from, stats[1..])
    else
      var now := stats[0].value;
      [(now.Busy() - from.Busy(), now.All() - from.All())] + Deltas(now, stats[1..])
  }

  function LastRead(from: Counters, stats: seq<Option<Counters>>): Counters
    decreases stats
  {
    if stats == [] then from else LastRead(if stats[0].Some? then stats[0].value else from, stats[1..])
  }

  function Total(deltas: seq<(int, int)>): (int, int) {
    if deltas == [] then (0, 0)
    else
      var t := Total(deltas[1..]);
      (deltas[0].0 + t.0, deltas[0].1 + t.1)
  }

  /** Over a whole run the deltas add up to the final counters. */
  lemma {:induction false} DeltasTelescope(from: Counters, stats: seq<Option<Counters>>)
    ensures var end := LastRead(from, stats);
      Total(Deltas(from, stats)) == (end.Busy() - from.Busy(), end.All() - from.All())
    decreases stats
  {
    if stats != [] {
      var now := if stats[0].Some? then stats[0].value else from;
      DeltasTelescope(now, stats[1..]);
      if stats[0].Some? {
        assert Deltas(from, stats)[1..] == Deltas(now, stats[1..]);
      }
    }
  }

  /** The readings that succeeded. */
  function Readings(stats: seq<Option<Counters>>): seq<Counters> {
    if stats == [] then []
    else (if stats[0].Some? then [stats[0].value] else []) + Readings(stats[1..])
  }

  /** One delta for each of them, from the one before it. */
  lemma {:induction false} DeltasAreBetweenReadings(from: Counters, stats: seq<Option<Counters>>, k: nat)
    requires k < |Readings(stats)|
    ensures |Deltas(from, stats)| == |Readings(stats)|
    ensures var before, now := if k == 0 then from else Readings(stats)[k - 1], Readings(stats)[k];
      Deltas(from, stats)[k] == (now.Busy() - before.Busy(), now.All() - before.All())
    decreases stats
  {
    var now := if stats[0].Some? then stats[0].value else from;
    if stats[0].None? {
      DeltasAreBetweenReadings(from, stats[1..], k);
    } else if k > 0 {
      DeltasAreBetweenReadings(now, stats[1..], k - 1);
    } else if |Readings(stats)| > 1 {
      DeltasAreBetweenReadings(now, stats[1..], 0);
    } else {
      NoDeltas(now, stats[1..]);
    }
  }

  lemma {:induction false} NoDeltas(from: Counters, stats: seq<Option<Counters>>)
    requires Readings(stats) == []
    ensures Deltas(from, stats) == []
    decreases stats
  {
    if stats != [] {
      assert stats[0].None?;
      NoDeltas(from, stats[1..]);
    }
  }
}
