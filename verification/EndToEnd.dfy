/** The protocols from end to end: every interleaving on the device, every way the network cuts the bytes. */
module EndToEnd {
  import opened Common
  import opened Text
  import opened DeviceLog
  import opened AudMon
  import opened LogPair
  import opened LogRing
  import Metrics

  /** What dprintf("%s\n") has written for a list of texts. */
  function Stream(texts: seq<string>): string {
    if texts == [] then "" else texts[0] + ("\n" + Stream(texts[1..]))
  }

  lemma PrefixOfLine(line: string, rest: string, data: string)
    requires data <= line + ("\n" + rest)
    ensures |data| <= |line| ==> data <= line
    ensures |data| > |line| ==>
      data == line + ("\n" + data[|line| + 1..]) && data[|line| + 1..] <= rest
  {
    hide Stream;
    var all := line + ("\n" + rest);
    assert data == all[..|data|];
    assert rest == all[|line| + 1..];
  }

  /** One whole line received before the lines of the rest. */
  lemma OneMoreLine(texts: seq<string>, more: string)
    requires texts != [] && All(texts[0], NotNewline)
    requires SplitLines(more).lines <= texts[1..]
    ensures SplitLines(texts[0] + ("\n" + more)).lines == [texts[0]] + SplitLines(more).lines <= texts
  {
    hide RunLength, SplitLines;
    SplitFirstLine(texts[0], more);
    assert texts == [texts[0]] + texts[1..];
  }

  /** Receiving a prefix of a stream of lines yields the first so many of them; the whole stream yields them all. */
  lemma {:induction false} PrefixOfStream(texts: seq<string>, data: string)
    requires forall t :: t in texts ==> All(t, NotNewline)
    requires data <= Stream(texts)
    ensures SplitLines(data).lines <= texts
    ensures data == Stream(texts) ==> SplitLines(data).lines == texts
  {
    hide RunLength, SplitLines;
    if texts == [] {
      SplitWithoutNewline("");
    } else {
      var line := texts[0];
      assert line in texts;
      PrefixOfLine(line, Stream(texts[1..]), data);
      if |data| <= |line| {
        SplitWithoutNewline(data);
      } else {
        PrefixOfStream(texts[1..], data[|line| + 1..]);
        OneMoreLine(texts, data[|line| + 1..]);
      }
    }
  }

  /** The messages enqueued during a run were printed from these values. */
  ghost predicate Logged(ms: seq<Message>, hist: seq<string>) {
    && |hist| == |ms|
    && forall i :: 0 <= i < |ms| ==> InRange(ms[i]) && hist[i] == Line(ms[i].Text())
  }

  /**
   * What a GUI receives that connects after the writer has printed `c` lines: those went to descriptor 0, the value of
   * client_log_fd until accept returns. Of the rest it receives any prefix.
   */
  ghost predicate Received(n: nat, steps: seq<Step>, s: State, c: nat, data: string)
    requires n > 0
  {
    Exec(n, steps) == Some(s) && c <= |s.out| && data <= Stream(s.out[c..])
  }

  /** The messages behind the dequeues number `from` to `to`. */
  ghost function Picked(ms: seq<Message>, taken: seq<Read>, from: nat, to: nat): (r: seq<Message>)
    requires from <= to <= |taken| && forall i :: from <= i < to ==> taken[i].index < |ms|
    ensures |r| == to - from && forall j :: 0 <= j < to - from ==> r[j] == ms[taken[from + j].index]
  {
    seq(to - from, i requires 0 <= i < to - from => ms[taken[from + i].index])
  }

  function FramesOfMessages(mode: GuiMode, ms: seq<Message>): seq<Frame> {
    if ms == [] then [] else FramesOfMessage(mode, ms[0]) + FramesOfMessages(mode, ms[1..])
  }

  ghost predicate AllValid(ms: seq<Message>) {
    forall i :: 0 <= i < |ms| ==> ms[i].Valid()
  }

  function Texts(ms: seq<Message>): (r: seq<string>)
    ensures |r| == |ms| && forall i :: 0 <= i < |ms| ==> r[i] == ms[i].Text()
  {
    seq(|ms|, i requires 0 <= i < |ms| => ms[i].Text())
  }

  lemma OneMessageMore(mode: GuiMode, prev: LiveSummary, m: Message, lines: seq<string>)
    requires m.Valid()
    ensures FramesOfLines(mode, [m.Text()] + lines) == FramesOfMessage(mode, m) + FramesOfLines(mode, lines)
    ensures SummaryAfterLines(prev, [m.Text()] + lines) == SummaryAfterLines(SummaryAfterMessage(prev, m), lines)
  {
    MessageIsRead(mode, prev, m);
    var all := [m.Text()] + lines;
    assert all[0] == m.Text() && all[1..] == lines;
  }

  lemma {:induction false} MessagesAreRead(mode: GuiMode, prev: LiveSummary, ms: seq<Message>)
    requires AllValid(ms)
    ensures FramesOfLines(mode, Texts(ms)) == FramesOfMessages(mode, ms)
    ensures SummaryAfterLines(prev, Texts(ms)) == SummaryAfterMessages(prev, ms)
    decreases ms
  {
    hide FramesOfRawLine, SummaryAfterLine, FramesOfMessage, SummaryAfterMessage, Message.Text;
    if ms != [] {
      assert ms[0] in ms;
      OneMessageMore(mode, prev, ms[0], Texts(ms[1..]));
      assert Texts(ms) == [ms[0].Text()] + Texts(ms[1..]);
      MessagesAreRead(mode, SummaryAfterMessage(prev, ms[0]), ms[1..]);
    }
  }

  lemma ShortMessagesSurvive(m: Message)
    requires InRange(m)
    ensures Printed(Line(m.Text())) == m.Text()
    ensures All(m.Text(), NotNewline)
  {
    MessageLength(m);
    MessageIsRead(Both, NO_SUMMARY, m);
  }

  /** What the writer has printed is the text of the messages it picked, none of them truncated. */
  lemma OutputIsPicked(n: nat, steps: seq<Step>, s: State, ms: seq<Message>)
    requires n > 0 && Exec(n, steps) == Some(s) && Logged(ms, s.hist)
    ensures |s.out| <= |s.taken| && forall i :: 0 <= i < |s.out| ==> s.taken[i].index < |ms|
    ensures AllValid(Picked(ms, s.taken, 0, |s.out|))
    ensures s.out == Texts(Picked(ms, s.taken, 0, |s.out|))
    ensures forall t :: t in s.out ==> All(t, NotNewline)
  {
    WriterDeliversFreshSubsequence(n, steps, s);
    var picked := Picked(ms, s.taken, 0, |s.out|);
    forall i | 0 <= i < |s.out|
      ensures picked[i].Valid() && s.out[i] == picked[i].Text() && All(s.out[i], NotNewline)
    {
      ShortMessagesSurvive(picked[i]);
    }
  }

  lemma PickedInPieces(ms: seq<Message>, taken: seq<Read>, c: nat, e: nat, end: nat)
    requires c <= e <= end <= |taken| && forall i :: 0 <= i < end ==> taken[i].index < |ms|
    requires AllValid(Picked(ms, taken, 0, end))
    ensures AllValid(Picked(ms, taken, c, e))
    ensures Texts(Picked(ms, taken, c, e)) == Texts(Picked(ms, taken, 0, end))[c..e]
  {
    hide Message.Text, Message.Valid, Picked, Texts;
    var part, whole := Picked(ms, taken, c, e), Picked(ms, taken, 0, end);
    forall j | 0 <= j < e - c
      ensures part[j] == whole[c + j] && part[j].Valid() && Texts(part)[j] == Texts(whole)[c..e][j]
    {
      assert whole[c + j] == ms[taken[0 + (c + j)].index];
    }
  }

  /** The lines received are the texts of the messages picked from the moment of connection on. */
  lemma LinesArePicked(n: nat, steps: seq<Step>, s: State, ms: seq<Message>, c: nat, data: string)
    requires n > 0 && Received(n, steps, s, c, data) && Logged(ms, s.hist)
    ensures var k := |SplitLines(data).lines|;
      && c + k <= |s.out| <= |s.taken| && (forall i :: c <= i < c + k ==> s.taken[i].index < |ms|)
      && AllValid(Picked(ms, s.taken, c, c + k))
      && SplitLines(data).lines == Texts(Picked(ms, s.taken, c, c + k))
      && (data == Stream(s.out[c..]) ==> c + k == |s.out|)
  {
    hide Exec, SplitLines, Stream, Message.Text, Message.Valid, Logged, Texts, Picked;
    OutputIsPicked(n, steps, s, ms);
    PrefixOfStream(s.out[c..], data);
    var lines := SplitLines(data).lines;
    PickedInPieces(ms, s.taken, c, c + |lines|, |s.out|);
    assert lines == s.out[c..][..|lines|] == s.out[c..c + |lines|];
  }

  /**
   * The log from the audio thread to the plots, for every schedule, any overflow, every moment of connection and every
   * way recv cuts the bytes: k lines received mean that the series gain, and the live summary follows, exactly the
   * messages behind the k dequeues after the first c. Their numbers in the order of logging strictly increase, so
   * nothing is shown twice or out of order.
   */
  lemma LogEndToEnd(
      n: nat, steps: seq<Step>, s: State, ms: seq<Message>, c: nat, mode: GuiMode, prev: LiveSummary,
      pieces: seq<string>)
    requires n > 0 && Received(n, steps, s, c, Flatten(pieces)) && Logged(ms, s.hist)
    ensures var received := SplitLines(Flatten(pieces)).lines;
      var k := |received|;
      && c + k <= |s.out| <= |s.taken| && (forall i :: c <= i < c + k ==> s.taken[i].index < |ms|)
      && FramesOfLines(mode, received) == FramesOfMessages(mode, Picked(ms, s.taken, c, c + k))
      && SummaryAfterLines(prev, received) == SummaryAfterMessages(prev, Picked(ms, s.taken, c, c + k))
    ensures forall i, j :: 0 <= i < j < |s.taken| ==> s.taken[i].index < s.taken[j].index
  {
    hide FramesOfLines, SummaryAfterLines, FramesOfMessages, SummaryAfterMessages;
    hide SplitLines, Stream, Exec, Message.Text;
    WriterDeliversFreshSubsequence(n, steps, s);
    LinesArePicked(n, steps, s, ms, c, Flatten(pieces));
    MessagesAreRead(mode, prev, Picked(ms, s.taken, c, c + |SplitLines(Flatten(pieces)).lines|));
  }

  /** While fewer than n messages are ever waiting, the lines received are those of the log from number c on. */
  lemma LinesAreLog(n: nat, steps: seq<Step>, s: State, ms: seq<Message>, c: nat, data: string)
    requires n > 0 && Received(n, steps, s, c, data) && Logged(ms, s.hist) && !OverrunThenRead(n, steps)
    ensures var e := c + |SplitLines(data).lines|;
      e <= |ms| && AllValid(ms[c..e]) && SplitLines(data).lines == Texts(ms[c..e])
  {
    hide SplitLines, Stream, Exec, Message.Text, Message.Valid, Logged, OverrunThenRead;
    LinesArePicked(n, steps, s, ms, c, data);
    FifoIffNeverOverrun(n, steps, s);
    NeverMoreTaken(n, steps, s);
    AsManyLogged(ms, s.hist);
    var e := c + |SplitLines(data).lines|;
    assert Picked(ms, s.taken, c, e) == ms[c..e];
  }

  lemma AsManyLogged(ms: seq<Message>, hist: seq<string>)
    requires Logged(ms, hist)
    ensures |ms| == |hist|
  {
  }

  /**
   * While fewer than n messages are ever waiting, the GUI has read the messages that the device logged, without a gap,
   * from number c on: the first ones if it was connected before the first line was printed.
   */
  lemma MetricsEndToEnd(
      n: nat, steps: seq<Step>, s: State, ms: seq<Message>, c: nat, mode: GuiMode, prev: LiveSummary,
      pieces: seq<string>)
    requires n > 0 && Received(n, steps, s, c, Flatten(pieces)) && Logged(ms, s.hist)
    requires !OverrunThenRead(n, steps)
    ensures var received := SplitLines(Flatten(pieces)).lines;
      var k := |received|;
      && c + k <= |ms|
      && FramesOfLines(mode, received) == FramesOfMessages(mode, ms[c..c + k])
      && SummaryAfterLines(prev, received) == SummaryAfterMessages(prev, ms[c..c + k])
  {
    hide *;
    LinesAreLog(n, steps, s, ms, c, Flatten(pieces));
    MessagesAreRead(mode, prev, ms[c..c + |SplitLines(Flatten(pieces)).lines|]);
  }

  // ---------- From the measurements to the plots ----------

  /** The frames the GUI should show for a history of measurements: numbered from 1, rounded as printed. */
  function FramesOfHistory(mode: ExecMode, h: seq<Metrics.Measurement>): (r: seq<Frame>)
    ensures |r| == |h|
  {
    seq(|h|, i requires 0 <= i < |h| => Decoded(Metrics.FrameOf(i + 1, mode, h[i])))
  }

  predicate NonNegative(v: Metrics.Measurement) {
    v.latency >= 0.0 && v.amp >= 0.0 && v.cpu >= 0.0 && v.dsp >= 0.0
  }

  lemma IsNonNegative(v: Metrics.Measurement)
    ensures NonNegative(v) <==> v.latency >= 0.0 && v.amp >= 0.0 && v.cpu >= 0.0 && v.dsp >= 0.0
  {
  }

  ghost predicate AllNonNegative(h: seq<Metrics.Measurement>) {
    forall v :: v in h ==> NonNegative(v)
  }

  lemma SignsOfFrame(frame: nat, mode: ExecMode, v: Metrics.Measurement)
    ensures AnyNegative(Metrics.FrameOf(frame, mode, v)) <==> !NonNegative(v)
    ensures Metrics.FrameOf(frame, mode, v).mode == mode
  {
    hide NearestUnits;
  }

  /** A frame message carries a minus sign exactly when one of its measured values is negative. */
  lemma MinusSigns(mode: ExecMode, h: seq<Metrics.Measurement>, i: nat)
    requires i < Metrics.LogLength(|h|)
    ensures var m := Metrics.LoggedAt(mode, h, i);
      m.FrameMessage? ==> m.f.mode == mode && (AnyNegative(m.f) <==> !NonNegative(h[Metrics.FrameCount(i)]))
  {
    hide Metrics.SummaryOf, Metrics.LogLength, Metrics.FrameCount, Metrics.FrameOf, AnyNegative, NonNegative;
    Metrics.CountsGrow(i, i + 1, |h|);
    Metrics.NextCount(i);
    if i % 15 < 10 {
      SignsOfFrame(Metrics.FrameCount(i) + 1, mode, h[Metrics.FrameCount(i)]);
    }
  }

  /** Measurements that are not negative print without minus signs, in the mode of the device. */
  lemma LogHasNoMinusSigns(mode: ExecMode, h: seq<Metrics.Measurement>)
    requires AllNonNegative(h)
    ensures forall m :: m in Metrics.Log(mode, h) && m.FrameMessage? ==> !AnyNegative(m.f) && m.f.mode == mode
  {
    hide Metrics.Log, Metrics.LogLength, Metrics.FrameCount, Metrics.SummaryOf, Metrics.FrameOf, AnyNegative;
    hide NonNegative;
    Metrics.LogShape(mode, h);
    forall i | 0 <= i < |Metrics.Log(mode, h)| && Metrics.Log(mode, h)[i].FrameMessage?
      ensures !AnyNegative(Metrics.Log(mode, h)[i].f) && Metrics.Log(mode, h)[i].f.mode == mode
    {
      MinusSigns(mode, h, i);
      Metrics.CountsGrow(i, i + 1, |h|);
      Metrics.NextCount(i);
      assert h[Metrics.FrameCount(i)] in h;
    }
  }

  /** The frames number a + 1 to b that can be shown: a frame with a negative value is not. */
  function VisibleFrames(mode: ExecMode, h: seq<Metrics.Measurement>, a: nat, b: nat): seq<Frame>
    requires a <= b <= |h|
    decreases b
  {
    if a == b then []
    else VisibleFrames(mode, h, a, b - 1) + if NonNegative(h[b - 1]) then [FramesOfHistory(mode, h)[b - 1]] else []
  }

  lemma {:induction false} VisibleInPieces(mode: ExecMode, h: seq<Metrics.Measurement>, a: nat, b: nat, d: nat)
    requires a <= b <= d <= |h|
    ensures VisibleFrames(mode, h, a, d) == VisibleFrames(mode, h, a, b) + VisibleFrames(mode, h, b, d)
    decreases d
  {
    hide FramesOfHistory, NonNegative;
    if b < d {
      VisibleInPieces(mode, h, a, b, d - 1);
      Regroup(VisibleFrames(mode, h, a, b), VisibleFrames(mode, h, b, d - 1),
        if NonNegative(h[d - 1]) then [FramesOfHistory(mode, h)[d - 1]] else []);
    }
  }

  /** Without negative values every frame is visible. */
  lemma {:induction false} AllVisible(mode: ExecMode, h: seq<Metrics.Measurement>, a: nat, b: nat)
    requires a <= b <= |h| && AllNonNegative(h)
    ensures VisibleFrames(mode, h, a, b) == FramesOfHistory(mode, h)[a..b]
    decreases b
  {
    hide NonNegative, FramesOfHistory;
    if a < b {
      AllVisible(mode, h, a, b - 1);
      assert h[b - 1] in h;
      assert FramesOfHistory(mode, h)[a..b] == FramesOfHistory(mode, h)[a..b - 1] + [FramesOfHistory(mode, h)[b - 1]];
    }
  }

  lemma {:induction false} VisibleInMode(mode: ExecMode, h: seq<Metrics.Measurement>, a: nat, b: nat)
    requires a <= b <= |h|
    ensures forall f :: f in VisibleFrames(mode, h, a, b) ==> f.mode == ModeName(mode)
    decreases b
  {
    hide NonNegative, NearestUnits;
    if a < b {
      VisibleInMode(mode, h, a, b - 1);
    }
  }

  /**
   * Frames that show exactly the measurements number a + 1 to b without a negative value, each once and in order, every
   * value under its own name and at the precision of the format.
   */
  ghost predicate ShowMeasurements(mode: ExecMode, h: seq<Metrics.Measurement>, a: nat, b: nat, frames: seq<Frame>)
    requires a <= b <= |h|
  {
    && (forall j :: 0 <= j < |frames| ==> ShowsOneOf(mode, h, a, b, frames[j]))
    && (forall i, j :: 0 <= i < j < |frames| ==> frames[i].number < frames[j].number)
    && (forall k :: a <= k < b && NonNegative(h[k]) ==> ShowsNumber(frames, k + 1))
  }

  ghost predicate ShowsOneOf(mode: ExecMode, h: seq<Metrics.Measurement>, a: nat, b: nat, f: Frame)
    requires a <= b <= |h|
  {
    a < f.number <= b && NonNegative(h[f.number - 1]) && Metrics.Measures(f, f.number, mode, h[f.number - 1])
  }

  ghost predicate ShowsNumber(frames: seq<Frame>, number: nat) {
    exists j :: 0 <= j < |frames| && frames[j].number == number
  }

  lemma NumberStays(before: seq<Frame>, more: seq<Frame>, number: nat)
    requires ShowsNumber(before, number) || (|more| == 1 && more[0].number == number)
    ensures ShowsNumber(before + more, number)
  {
    var frames := before + more;
    if ShowsNumber(before, number) {
      var j :| 0 <= j < |before| && before[j].number == number;
      assert frames[j].number == number;
    } else {
      assert frames[|before|].number == number;
    }
  }

  lemma OneMoreMeasured(
      mode: ExecMode, h: seq<Metrics.Measurement>, a: nat, b: nat, before: seq<Frame>, more: seq<Frame>)
    requires a < b <= |h| && ShowMeasurements(mode, h, a, b - 1, before)
    requires if NonNegative(h[b - 1]) then |more| == 1 && more[0].number == b && ShowsOneOf(mode, h, a, b, more[0])
      else more == []
    ensures ShowMeasurements(mode, h, a, b, before + more)
  {
    hide Metrics.Measures, NonNegative, ShowsNumber;
    var frames := before + more;
    assert forall j :: 0 <= j < |before| ==> ShowsOneOf(mode, h, a, b - 1, before[j]);
    assert forall j :: 0 <= j < |frames| ==> frames[j] == if j < |before| then before[j] else more[0];
    forall k | a <= k < b && NonNegative(h[k])
      ensures ShowsNumber(frames, k + 1)
    {
      NumberStays(before, more, k + 1);
    }
  }

  lemma {:induction false} VisibleAreMeasured(mode: ExecMode, h: seq<Metrics.Measurement>, a: nat, b: nat)
    requires a <= b <= |h|
    ensures ShowMeasurements(mode, h, a, b, VisibleFrames(mode, h, a, b))
    decreases b
  {
    hide Metrics.Measures, Metrics.FrameOf, Decoded, ShowMeasurements;
    if a == b {
      NothingMeasured(mode, h, a);
    } else {
      VisibleAreMeasured(mode, h, a, b - 1);
      Metrics.FrameIsMeasured(b, mode, h[b - 1]);
      MeasuredNumber(b, mode, h[b - 1]);
      OneMoreMeasured(mode, h, a, b, VisibleFrames(mode, h, a, b - 1),
        if NonNegative(h[b - 1]) then [FramesOfHistory(mode, h)[b - 1]] else []);
    }
  }

  lemma NothingMeasured(mode: ExecMode, h: seq<Metrics.Measurement>, a: nat)
    requires a <= |h|
    ensures ShowMeasurements(mode, h, a, a, [])
  {
  }

  lemma MeasuredNumber(number: nat, mode: ExecMode, v: Metrics.Measurement)
    ensures Decoded(Metrics.FrameOf(number, mode, v)).number == number
  {
    hide Round;
  }

  lemma {:induction false} FramesInMessagePieces(gui: GuiMode, a: seq<Message>, b: seq<Message>)
    ensures FramesOfMessages(gui, a + b) == FramesOfMessages(gui, a) + FramesOfMessages(gui, b)
  {
    hide FramesOfMessage;
    if a == [] {
      assert a + b == b;
    } else {
      assert (a + b)[0] == a[0] && (a + b)[1..] == a[1..] + b;
      FramesInMessagePieces(gui, a[1..], b);
    }
  }

  /** The visible frames among messages c to e of the log, if the GUI shows the mode of the device. */
  function ShownFrames(gui: GuiMode, mode: ExecMode, h: seq<Metrics.Measurement>, c: nat, e: nat): seq<Frame>
    requires c <= e <= Metrics.LogLength(|h|)
  {
    Metrics.CountsGrow(c, e, |h|);
    if gui.Admits(ModeName(mode)) then VisibleFrames(mode, h, Metrics.FrameCount(c), Metrics.FrameCount(e)) else []
  }

  lemma MessageShown(gui: GuiMode, mode: ExecMode, h: seq<Metrics.Measurement>, e: nat)
    requires e < Metrics.LogLength(|h|)
    ensures FramesOfMessages(gui, [Metrics.LoggedAt(mode, h, e)]) == ShownFrames(gui, mode, h, e, e + 1)
  {
    hide Metrics.SummaryOf, Metrics.FrameCount, Metrics.LogLength, NonNegative, AnyNegative, Decoded, NearestUnits;
    MinusSigns(mode, h, e);
    Metrics.CountsGrow(e, e + 1, |h|);
    Metrics.NextCount(e);
    var m, k := Metrics.LoggedAt(mode, h, e), Metrics.FrameCount(e);
    OnlyMessage(gui, m);
    if e % 15 < 10 {
      assert m == FrameMessage(Metrics.FrameOf(k + 1, mode, h[k]));
      assert VisibleFrames(mode, h, k, k) == [];
    }
  }

  lemma OnlyMessage(gui: GuiMode, m: Message)
    ensures FramesOfMessages(gui, [m]) == FramesOfMessage(gui, m)
  {
    hide FramesOfMessage;
    assert FramesOfMessages(gui, [m]) == FramesOfMessage(gui, m) + FramesOfMessages(gui, []);
  }

  lemma ShownInPieces(gui: GuiMode, mode: ExecMode, h: seq<Metrics.Measurement>, c: nat, d: nat, e: nat)
    requires c <= d <= e <= Metrics.LogLength(|h|)
    ensures ShownFrames(gui, mode, h, c, e) == ShownFrames(gui, mode, h, c, d) + ShownFrames(gui, mode, h, d, e)
  {
    hide Metrics.FrameCount, Metrics.LogLength, VisibleFrames;
    Metrics.CountsGrow(c, d, |h|);
    Metrics.CountsGrow(d, e, |h|);
    VisibleInPieces(mode, h, Metrics.FrameCount(c), Metrics.FrameCount(d), Metrics.FrameCount(e));
  }

  lemma {:induction false} FramesOfLog(gui: GuiMode, mode: ExecMode, h: seq<Metrics.Measurement>, c: nat, e: nat)
    requires c <= e <= |Metrics.Log(mode, h)| == Metrics.LogLength(|h|)
    ensures FramesOfMessages(gui, Metrics.Log(mode, h)[c..e]) == ShownFrames(gui, mode, h, c, e)
    decreases e
  {
    hide Metrics.Log, Metrics.LoggedAt, Metrics.LogLength, ShownFrames, FramesOfMessage;
    var ms := Metrics.Log(mode, h);
    if c == e {
      NothingShown(gui, mode, h, c);
    } else {
      FramesOfLog(gui, mode, h, c, e - 1);
      Metrics.LogShape(mode, h);
      MessageShown(gui, mode, h, e - 1);
      ShownInPieces(gui, mode, h, c, e - 1, e);
      assert ms[c..e] == ms[c..e - 1] + [ms[e - 1]];
      FramesInMessagePieces(gui, ms[c..e - 1], [ms[e - 1]]);
    }
  }

  lemma NothingShown(gui: GuiMode, mode: ExecMode, h: seq<Metrics.Measurement>, c: nat)
    requires c <= Metrics.LogLength(|h|)
    ensures ShownFrames(gui, mode, h, c, c) == []
  {
  }

  // ---------- The live summary after a measured history ----------

  lemma {:induction false} SummaryInMessagePieces(prev: LiveSummary, a: seq<Message>, b: seq<Message>)
    ensures SummaryAfterMessages(prev, a + b) == SummaryAfterMessages(SummaryAfterMessages(prev, a), b)
    decreases a
  {
    hide SummaryAfterMessage;
    if a == [] {
      assert a + b == b;
    } else {
      assert (a + b)[0] == a[0] && (a + b)[1..] == a[1..] + b;
      SummaryInMessagePieces(SummaryAfterMessage(prev, a[0]), a[1..], b);
    }
  }

  lemma {:induction false} FramesLeaveSummary(prev: LiveSummary, ms: seq<Message>)
    requires forall m :: m in ms ==> m.FrameMessage?
    ensures SummaryAfterMessages(prev, ms) == prev
    decreases ms
  {
    if ms != [] {
      assert ms[0] in ms;
      FramesLeaveSummary(prev, ms[1..]);
    }
  }

  lemma MessageOfRound(mode: ExecMode, h: seq<Metrics.Measurement>, t: nat, j: nat)
    requires j < 15 && 15 * t + j < Metrics.LogLength(|h|)
    ensures j < 10 ==> Metrics.LoggedAt(mode, h, 15 * t + j).FrameMessage?
    ensures j >= 10 ==> 10 * t + 10 <= |h|
    ensures j >= 10 ==>
      Metrics.LoggedAt(mode, h, 15 * t + j) == SummaryMessage(Metrics.SummaryOf(h[..10 * t + 10]), j - 10)
  {
    hide Metrics.SummaryOf, Metrics.FrameOf;
    assert (15 * t + j) / 15 == t && (15 * t + j) % 15 == j;
  }

  /** Of the fifteen messages of round t, the first ten are frames. */
  lemma FramesOfRound(mode: ExecMode, h: seq<Metrics.Measurement>, t: nat, e: nat)
    requires 15 * t <= e <= 15 * t + 10 && e <= Metrics.LogLength(|h|) == |Metrics.Log(mode, h)|
    ensures forall m :: m in Metrics.Log(mode, h)[15 * t..e] ==> m.FrameMessage?
  {
    hide Metrics.LoggedAt, Metrics.Log, Metrics.LogLength;
    Metrics.LogShape(mode, h);
    forall i | 15 * t <= i < e
      ensures Metrics.Log(mode, h)[i].FrameMessage?
    {
      MessageOfRound(mode, h, t, i - 15 * t);
    }
  }

  /** The last five are the summary of the first 10 t + 10 measurements. */
  lemma SummaryOfRound(mode: ExecMode, h: seq<Metrics.Measurement>, t: nat, e: nat)
    requires 15 * t + 10 < e <= 15 * t + 15 && e <= Metrics.LogLength(|h|) == |Metrics.Log(mode, h)|
    ensures 10 * t + 10 <= |h|
    ensures Metrics.Log(mode, h)[15 * t + 10..e] ==
      Messages(Metrics.SummaryOf(h[..10 * t + 10]))[..e - 15 * t - 10]
  {
    hide Metrics.LoggedAt, Metrics.Log, Metrics.LogLength, Metrics.SummaryOf;
    Metrics.LogShape(mode, h);
    MessageOfRound(mode, h, t, 10);
    var lines := Messages(Metrics.SummaryOf(h[..10 * t + 10]));
    forall i | 15 * t + 10 <= i < e
      ensures Metrics.Log(mode, h)[i] == lines[i - 15 * t - 10]
    {
      MessageOfRound(mode, h, t, i - 15 * t);
    }
  }

  /** After e messages of the log: the last complete summary, and as many lines of the next as were received. */
  function ShownSummary(h: seq<Metrics.Measurement>, e: nat): LiveSummary
    requires 15 <= e <= Metrics.LogLength(|h|)
  {
    Metrics.RoundsFit(e, |h|);
    var t := e / 15;
    var full := DecodedSummary(Metrics.SummaryOf(h[..10 * t]));
    if e % 15 <= 10 then full
    else SummaryAfterMessages(full, Messages(Metrics.SummaryOf(h[..10 * t + 10]))[..e % 15 - 10])
  }

  lemma SummaryHasNoMinusSigns(h: seq<Metrics.Measurement>)
    requires h != [] && AllNonNegative(h)
    ensures var s := Metrics.SummaryOf(h);
      !AnyNegativeIn(s.latency) && !AnyNegativeIn(s.amp) && !AnyNegativeIn(s.cpu) && !AnyNegativeIn(s.dsp)
  {
    hide Metrics.SeriesOf, Metrics.PrintedRange, AnyNegativeIn;
    assert forall i :: 0 <= i < |h| ==> NonNegative(h[i]);
    Metrics.PrintedRangeIsOrdered(Metrics.LATENCY_START, Metrics.Latencies(h), 2);
    Metrics.PrintedRangeIsOrdered(Metrics.OTHER_START, Metrics.Amps(h), 2);
    Metrics.PrintedRangeIsOrdered(Metrics.OTHER_START, Metrics.Cpus(h), 1);
    Metrics.PrintedRangeIsOrdered(Metrics.OTHER_START, Metrics.Dsps(h), 1);
  }

  /** The number of frames measured when the line of the given kind was logged that is the last among e messages. */
  function FramesAtLine(e: nat, part: nat): nat {
    10 * (e / 15) + if e % 15 > 10 + part then 10 else 0
  }

  /** A range of the live summary shows the least and greatest value and the mean of a series. */
  ghost predicate ShowsRange(t: Triple<Number>, values: seq<real>, places: nat) {
    exists least, greatest, mean ::
      && Metrics.Least(least, values) && Metrics.Greatest(greatest, values) && Metrics.Mean(mean, values)
      && Reads(t.min, least, places) && Reads(t.max, greatest, places) && Reads(t.avg, mean, places)
  }

  /** The same for amplitudes, which the live summary keeps as levels. */
  ghost predicate ShowsLevels(t: Option<Triple<Level>>, values: seq<real>) {
    exists min, max, avg ::
      && ShowsRange(Triple(min, max, avg), values, 2)
      && t == Some(Triple(AmplitudeToDbfs(min), AmplitudeToDbfs(max), AmplitudeToDbfs(avg)))
  }

  /** Every entry shows its own series up to the frame behind which its line was logged. */
  ghost predicate ShowsSeries(summary: LiveSummary, h: seq<Metrics.Measurement>, e: nat)
    requires 15 <= e <= Metrics.LogLength(|h|)
  {
    Metrics.RoundsFit(e, |h|);
    && summary.frames == FramesAtLine(e, 0)
    && ShowsRange(summary.latency, Metrics.Latencies(h[..FramesAtLine(e, 1)]), 2)
    && ShowsLevels(summary.amp, Metrics.Amps(h[..FramesAtLine(e, 2)]))
    && ShowsRange(summary.cpu, Metrics.Cpus(h[..FramesAtLine(e, 3)]), 1)
    && ShowsRange(summary.dsp, Metrics.Dsps(h[..FramesAtLine(e, 4)]), 1)
  }

  lemma RangeIsShown(r: Range, values: seq<real>, places: nat)
    requires 1 <= places <= 2 && Metrics.PrintsRange(r, values, if places == 1 then 10.0 else 100.0)
    requires !AnyNegativeIn(r)
    ensures ShowsRange(DecodedRange(r, places), values, places)
    ensures places == 2 ==> ShowsLevels(Some(DecodedAmp(r)), values)
  {
    hide Metrics.Least, Metrics.Greatest, Metrics.Mean;
    var t := DecodedRange(r, places);
    assert r.min == Fixed(false, r.min.units) && r.max == Fixed(false, r.max.units);
    assert r.avg == Fixed(false, r.avg.units);
    assert ShowsRange(Triple(t.min, t.max, t.avg), values, places);
  }

  lemma EntriesAreShown(h: seq<Metrics.Measurement>)
    requires h != [] && AllNonNegative(h) && Metrics.Ordinary(h)
    ensures var s := Metrics.SummaryOf(h);
      && s.frames == |h| && ShowsRange(DecodedRange(s.latency, 2), Metrics.Latencies(h), 2)
      && ShowsLevels(Some(DecodedAmp(s.amp)), Metrics.Amps(h))
      && ShowsRange(DecodedRange(s.cpu, 1), Metrics.Cpus(h), 1)
      && ShowsRange(DecodedRange(s.dsp, 1), Metrics.Dsps(h), 1)
  {
    hide Metrics.SummaryOf, Metrics.PrintsRange, ShowsRange, ShowsLevels, DecodedRange, DecodedAmp, AnyNegativeIn;
    hide Metrics.Ordinary;
    Metrics.SummaryIsMeasured(h);
    SummaryHasNoMinusSigns(h);
    var s := Metrics.SummaryOf(h);
    RangeIsShown(s.latency, Metrics.Latencies(h), 2);
    RangeIsShown(s.amp, Metrics.Amps(h), 2);
    RangeIsShown(s.cpu, Metrics.Cpus(h), 1);
    RangeIsShown(s.dsp, Metrics.Dsps(h), 1);
  }

  /** What the first k lines of a summary leave of the one before. */
  lemma FirstLines(full: LiveSummary, s: SummaryMetrics, k: nat)
    requires k <= 5 && !AnyNegativeIn(s.latency) && !AnyNegativeIn(s.amp) && !AnyNegativeIn(s.cpu)
    requires !AnyNegativeIn(s.dsp)
    ensures SummaryAfterMessages(full, Messages(s)[..k]) == LiveSummary(
      if k > 0 then s.frames else full.frames,
      if k > 1 then DecodedRange(s.latency, 2) else full.latency,
      if k > 2 then Some(DecodedAmp(s.amp)) else full.amp,
      if k > 3 then DecodedRange(s.cpu, 1) else full.cpu,
      if k > 4 then DecodedRange(s.dsp, 1) else full.dsp)
    decreases k
  {
    hide AnyNegativeIn, DecodedRange, DecodedAmp;
    if k > 0 {
      FirstLines(full, s, k - 1);
      var ms := Messages(s);
      assert ms[..k] == ms[..k - 1] + [ms[k - 1]];
      SummaryInMessagePieces(full, ms[..k - 1], [ms[k - 1]]);
      OnlyMessageRead(SummaryAfterMessages(full, ms[..k - 1]), ms[k - 1]);
    }
  }

  lemma SummaryShowsSeries(h: seq<Metrics.Measurement>, e: nat)
    requires 15 <= e <= Metrics.LogLength(|h|) && AllNonNegative(h) && Metrics.Ordinary(h)
    ensures ShowsSeries(ShownSummary(h, e), h, e)
  {
    hide Metrics.SummaryOf, SummaryAfterMessages, ShowsRange, ShowsLevels, DecodedRange, DecodedAmp, AnyNegativeIn;
    hide Metrics.LogLength, Metrics.Latencies, Metrics.Amps, Metrics.Cpus, Metrics.Dsps, NonNegative;
    Metrics.RoundsFit(e, |h|);
    var t := e / 15;
    var before := h[..10 * t];
    assert forall v :: v in before ==> v in h;
    EntriesAreShown(before);
    if e % 15 > 10 {
      var now := h[..10 * t + 10];
      assert forall v :: v in now ==> v in h;
      EntriesAreShown(now);
      SummaryHasNoMinusSigns(now);
      FirstLines(DecodedSummary(Metrics.SummaryOf(before)), Metrics.SummaryOf(now), e % 15 - 10);
    }
  }

  /** Whatever was shown before, the last complete summary replaces it. */
  lemma SummaryOfLog(mode: ExecMode, h: seq<Metrics.Measurement>, c: nat, e: nat, prev: LiveSummary)
    requires e <= |Metrics.Log(mode, h)| == Metrics.LogLength(|h|) && AllNonNegative(h)
    requires c + 5 <= 15 * (e / 15)
    ensures SummaryAfterMessages(prev, Metrics.Log(mode, h)[c..e]) == ShownSummary(h, e)
  {
    hide Metrics.Log, Metrics.LogLength, Metrics.SummaryOf, SummaryAfterMessages, DecodedSummary;
    var t := e / 15;
    var ms := Metrics.Log(mode, h);
    var before, full, after := ms[c..15 * t - 5], ms[15 * t - 5..15 * t], ms[15 * t..e];
    assert ms[c..e] == before + (full + after);
    SummaryInMessagePieces(prev, before, full + after);
    var shown := SummaryAfterMessages(prev, before);
    SummaryInMessagePieces(shown, full, after);
    CompleteRound(mode, h, t);
    SummaryRoundTrip(shown, Metrics.SummaryOf(h[..10 * t]));
    StartOfRound(mode, h, t, e, DecodedSummary(Metrics.SummaryOf(h[..10 * t])));
  }

  lemma CompleteRound(mode: ExecMode, h: seq<Metrics.Measurement>, t: nat)
    requires 0 < t && 15 * t <= |Metrics.Log(mode, h)| == Metrics.LogLength(|h|) && AllNonNegative(h)
    ensures 10 * t <= |h|
    ensures var s := Metrics.SummaryOf(h[..10 * t]);
      && Metrics.Log(mode, h)[15 * t - 5..15 * t] == Messages(s)
      && !AnyNegativeIn(s.latency) && !AnyNegativeIn(s.amp) && !AnyNegativeIn(s.cpu) && !AnyNegativeIn(s.dsp)
  {
    hide Metrics.Log, Metrics.LogLength, Metrics.SummaryOf, AnyNegativeIn, Messages;
    SummaryOfRound(mode, h, t - 1, 15 * t);
    assert 10 * (t - 1) + 10 == 10 * t && 15 * (t - 1) + 10 == 15 * t - 5;
    assert forall v :: v in h[..10 * t] ==> v in h;
    SummaryHasNoMinusSigns(h[..10 * t]);
    var lines := Messages(Metrics.SummaryOf(h[..10 * t]));
    assert lines[..5] == lines;
  }

  lemma StartOfRound(mode: ExecMode, h: seq<Metrics.Measurement>, t: nat, e: nat, prev: LiveSummary)
    requires 15 * t <= e < 15 * t + 15 && e <= |Metrics.Log(mode, h)| == Metrics.LogLength(|h|)
    ensures e > 15 * t + 10 ==> 10 * t + 10 <= |h|
    ensures SummaryAfterMessages(prev, Metrics.Log(mode, h)[15 * t..e]) ==
      if e <= 15 * t + 10 then prev
      else SummaryAfterMessages(prev, Messages(Metrics.SummaryOf(h[..10 * t + 10]))[..e - 15 * t - 10])
  {
    hide Metrics.Log, Metrics.LogLength, Metrics.SummaryOf, SummaryAfterMessages, Messages;
    var ms := Metrics.Log(mode, h);
    if e <= 15 * t + 10 {
      FramesOfRound(mode, h, t, e);
      FramesLeaveSummary(prev, ms[15 * t..e]);
    } else {
      FramesOfRound(mode, h, t, 15 * t + 10);
      SummaryOfRound(mode, h, t, e);
      var frames, rest := ms[15 * t..15 * t + 10], ms[15 * t + 10..e];
      assert ms[15 * t..e] == frames + rest;
      SummaryInMessagePieces(prev, frames, rest);
      FramesLeaveSummary(prev, frames);
    }
  }

  /** The summary whose line of the given kind was read last. */
  function LastRead(ms: seq<Message>, part: nat): Option<SummaryMetrics> {
    if ms == [] then None
    else
      var m := ms[|ms| - 1];
      if m.SummaryMessage? && m.part == part && (part == 0 || !AnyNegativeIn(RangeOf(m.s, part))) then Some(m.s)
      else LastRead(ms[..|ms| - 1], part)
  }

  /** Every entry of the live summary is that of the last line of its kind. */
  function EntriesLastRead(prev: LiveSummary, ms: seq<Message>): LiveSummary {
    var frames, latency, amp := LastRead(ms, 0), LastRead(ms, 1), LastRead(ms, 2);
    var cpu, dsp := LastRead(ms, 3), LastRead(ms, 4);
    LiveSummary(
      if frames.Some? then frames.value.frames else prev.frames,
      if latency.Some? then DecodedRange(latency.value.latency, 2) else prev.latency,
      if amp.Some? then Some(DecodedAmp(amp.value.amp)) else prev.amp,
      if cpu.Some? then DecodedRange(cpu.value.cpu, 1) else prev.cpu,
      if dsp.Some? then DecodedRange(dsp.value.dsp, 1) else prev.dsp)
  }

  lemma OneEntryMore(prev: LiveSummary, ms: seq<Message>, m: Message)
    requires m.Valid()
    ensures EntriesLastRead(prev, ms + [m]) == SummaryAfterMessage(EntriesLastRead(prev, ms), m)
  {
    hide AnyNegativeIn, DecodedRange, DecodedAmp;
    assert (ms + [m])[..|ms|] == ms;
  }

  lemma {:induction false} SummaryIsLastRead(prev: LiveSummary, ms: seq<Message>)
    requires AllValid(ms)
    ensures SummaryAfterMessages(prev, ms) == EntriesLastRead(prev, ms)
  {
    hide SummaryAfterMessage, EntriesLastRead;
    if ms == [] {
      NoEntryRead(prev);
    } else {
      var last := |ms| - 1;
      SummaryIsLastRead(prev, ms[..last]);
      assert ms == ms[..last] + [ms[last]];
      SummaryInMessagePieces(prev, ms[..last], [ms[last]]);
      OnlyMessageRead(SummaryAfterMessages(prev, ms[..last]), ms[last]);
      OneEntryMore(prev, ms[..last], ms[last]);
    }
  }

  lemma NoEntryRead(prev: LiveSummary)
    ensures EntriesLastRead(prev, []) == prev
  {
  }

  lemma OnlyMessageRead(prev: LiveSummary, m: Message)
    ensures SummaryAfterMessages(prev, [m]) == SummaryAfterMessage(prev, m)
  {
    hide SummaryAfterMessage;
    assert SummaryAfterMessages(SummaryAfterMessage(prev, m), [m][1..]) == SummaryAfterMessage(prev, m);
  }

  // ---------- The whole way ----------

  /** The device has enqueued the first q messages of its log; a summary may be half enqueued. */
  ghost predicate Measured(mode: ExecMode, h: seq<Metrics.Measurement>, q: nat, hist: seq<string>) {
    q <= |Metrics.Log(mode, h)| && Logged(Metrics.Log(mode, h)[..q], hist)
  }

  /**
   * What a GUI shows that has received messages c to e of the log: exactly the visible frames among them, and the
   * entries that the last line of each kind among them left. Without negative values, and once a complete summary is
   * among them, that is the summary of all frames measured up to it.
   */
  ghost predicate Shows(
      gui: GuiMode, mode: ExecMode, h: seq<Metrics.Measurement>, c: nat, e: nat, prev: LiveSummary,
      frames: seq<Frame>, summary: LiveSummary)
  {
    && c <= e <= Metrics.LogLength(|h|) == |Metrics.Log(mode, h)|
    && frames == ShownFrames(gui, mode, h, c, e)
    && summary == EntriesLastRead(prev, Metrics.Log(mode, h)[c..e])
    && (AllNonNegative(h) && c + 5 <= 15 * (e / 15) ==> summary == ShownSummary(h, e))
    && MeasuredShown(gui, mode, h, c, e, frames, summary)
  }

  /**
   * The same said of the measurements themselves: in the mode of the device, or showing both, the frames are those of
   * the measurements logged by the messages c to e, else there are none; and the summary is that of the series.
   */
  ghost predicate MeasuredShown(
      gui: GuiMode, mode: ExecMode, h: seq<Metrics.Measurement>, c: nat, e: nat, frames: seq<Frame>,
      summary: LiveSummary)
    requires c <= e <= Metrics.LogLength(|h|)
  {
    Metrics.CountsGrow(c, e, |h|);
    && (if gui.Both? || (gui.Arm? && mode.ExecArm?) || (gui.Dsp? && mode.ExecDsp?) then
          ShowMeasurements(mode, h, Metrics.FrameCount(c), Metrics.FrameCount(e), frames)
        else frames == [])
    && (AllNonNegative(h) && Metrics.Ordinary(h) && c + 5 <= 15 * (e / 15) ==> ShowsSeries(summary, h, e))
  }

  lemma ShownIsMeasured(
      gui: GuiMode, mode: ExecMode, h: seq<Metrics.Measurement>, c: nat, e: nat, summary: LiveSummary)
    requires c <= e <= Metrics.LogLength(|h|)
    requires AllNonNegative(h) && c + 5 <= 15 * (e / 15) ==> summary == ShownSummary(h, e)
    ensures MeasuredShown(gui, mode, h, c, e, ShownFrames(gui, mode, h, c, e), summary)
  {
    hide ShowMeasurements, ShowsSeries, ShownSummary, Metrics.LogLength, Metrics.FrameCount, VisibleFrames;
    hide NonNegative, Metrics.Ordinary, AllNonNegative;
    Metrics.CountsGrow(c, e, |h|);
    VisibleAreMeasured(mode, h, Metrics.FrameCount(c), Metrics.FrameCount(e));
    if AllNonNegative(h) && Metrics.Ordinary(h) && c + 5 <= 15 * (e / 15) {
      SummaryShowsSeries(h, e);
    }
  }

  lemma MessagesShown(
      gui: GuiMode, prev: LiveSummary, mode: ExecMode, h: seq<Metrics.Measurement>, c: nat, e: nat,
      lines: seq<string>)
    requires c <= e <= |Metrics.Log(mode, h)| && AllValid(Metrics.Log(mode, h)[c..e])
    requires lines == Texts(Metrics.Log(mode, h)[c..e])
    ensures Shows(gui, mode, h, c, e, prev, FramesOfLines(gui, lines), SummaryAfterLines(prev, lines))
  {
    hide FramesOfLines, SummaryAfterLines, FramesOfMessages, SummaryAfterMessages, ShownFrames, ShownSummary;
    hide Metrics.Log, Metrics.LogLength, NonNegative, AllValid, Texts, EntriesLastRead, MeasuredShown;
    Metrics.LogShape(mode, h);
    var ms := Metrics.Log(mode, h)[c..e];
    MessagesAreRead(gui, prev, ms);
    FramesOfLog(gui, mode, h, c, e);
    SummaryIsLastRead(prev, ms);
    if AllNonNegative(h) && c + 5 <= 15 * (e / 15) {
      SummaryOfLog(mode, h, c, e, prev);
    }
    ShownIsMeasured(gui, mode, h, c, e, SummaryAfterLines(prev, lines));
  }

  lemma MeasuredLines(
      n: nat, steps: seq<Step>, s: State, mode: ExecMode, h: seq<Metrics.Measurement>, q: nat, c: nat, data: string)
    returns (e: nat)
    requires n > 0 && Received(n, steps, s, c, data) && Measured(mode, h, q, s.hist)
    requires !OverrunThenRead(n, steps)
    ensures e == c + |SplitLines(data).lines| <= |Metrics.Log(mode, h)|
    ensures AllValid(Metrics.Log(mode, h)[c..e]) && SplitLines(data).lines == Texts(Metrics.Log(mode, h)[c..e])
  {
    hide SplitLines, Received, OverrunThenRead, Stream, Metrics.Log, Logged, Texts, AllValid;
    var ms := Metrics.Log(mode, h);
    LinesAreLog(n, steps, s, ms[..q], c, data);
    e := c + |SplitLines(data).lines|;
    assert ms[..q][c..e] == ms[c..e];
  }

  /**
   * The measurements of the audio thread, through the running totals, the printer, the ring with its two threads, the
   * network and the parser: while fewer than n messages are ever waiting, a GUI that connected after c lines and
   * received k of them shows messages c to c + k of the log, in order, without gaps, at the printed precision, but for
   * those that carry a minus sign.
   */
  lemma MeasurementsEndToEnd(
      n: nat, steps: seq<Step>, s: State, mode: ExecMode, h: seq<Metrics.Measurement>, q: nat, c: nat, gui: GuiMode,
      prev: LiveSummary, pieces: seq<string>)
    requires n > 0 && Received(n, steps, s, c, Flatten(pieces)) && Measured(mode, h, q, s.hist)
    requires !OverrunThenRead(n, steps)
    ensures var received := SplitLines(Flatten(pieces)).lines;
      Shows(gui, mode, h, c, c + |received|, prev, FramesOfLines(gui, received), SummaryAfterLines(prev, received))
  {
    hide *;
    var e := MeasuredLines(n, steps, s, mode, h, q, c, Flatten(pieces));
    MessagesShown(gui, prev, mode, h, c, e, SplitLines(Flatten(pieces)).lines);
  }

  /**
   * When the GUI was connected before the first line was printed, and only then, the frames shown, if any, are the
   * first ones measured, provided that no value is negative.
   */
  lemma ShownFromTheFirst(
      n: nat, steps: seq<Step>, s: State, mode: ExecMode, h: seq<Metrics.Measurement>, q: nat, c: nat,
      pieces: seq<string>)
    requires n > 0 && Received(n, steps, s, c, Flatten(pieces)) && Measured(mode, h, q, s.hist)
    requires !OverrunThenRead(n, steps) && AllNonNegative(h)
    ensures var shown := FramesOfLines(Both, SplitLines(Flatten(pieces)).lines);
      shown <= FramesOfHistory(mode, h) <==> c == 0 || shown == []
  {
    hide *;
    MeasurementsEndToEnd(n, steps, s, mode, h, q, c, Both, NO_SUMMARY, pieces);
    var received := SplitLines(Flatten(pieces)).lines;
    FirstShown(mode, h, c, c + |received|, FramesOfLines(Both, received), SummaryAfterLines(NO_SUMMARY, received));
  }

  lemma FirstShown(
      mode: ExecMode, h: seq<Metrics.Measurement>, c: nat, e: nat, frames: seq<Frame>, summary: LiveSummary)
    requires Shows(Both, mode, h, c, e, NO_SUMMARY, frames, summary) && AllNonNegative(h)
    ensures Metrics.FrameCount(c) <= Metrics.FrameCount(e) <= |h|
    ensures frames == FramesOfHistory(mode, h)[Metrics.FrameCount(c)..Metrics.FrameCount(e)]
    ensures frames <= FramesOfHistory(mode, h) <==> c == 0 || frames == []
  {
    hide Metrics.FrameCount, Metrics.LogLength, Metrics.Log, ShownSummary, EntriesLastRead, VisibleFrames;
    Metrics.CountsGrow(c, e, |h|);
    Metrics.NextCount(0);
    AllVisible(mode, h, Metrics.FrameCount(c), Metrics.FrameCount(e));
    var all := FramesOfHistory(mode, h);
    if frames != [] && c > 0 {
      assert frames[0].number == Metrics.FrameCount(c) + 1 && all[0].number == 1;
    }
  }

  /** A run in which the device logs a whole history and the writer prints all of it. */
  lemma WholeLogIsPrinted(n: nat, mode: ExecMode, h: seq<Metrics.Measurement>) returns (steps: seq<Step>, s: State)
    requires n > 1
    requires forall m :: m in Metrics.Log(mode, h) ==> InRange(m)
    ensures Exec(n, steps) == Some(s) && !OverrunThenRead(n, steps)
    ensures Measured(mode, h, |Metrics.Log(mode, h)|, s.hist) && |s.out| == |Metrics.Log(mode, h)|
  {
    hide Exec, Metrics.Log, OverrunThenRead, InRange, NonNegative, Message.Text, Line;
    var ms := Metrics.Log(mode, h);
    steps, s := EveryLogCanGetThrough(n, PrintedLog(ms), seq(|ms|, _ => true));
    assert ms[..|ms|] == ms;
  }

  lemma AllIsReceived(n: nat, steps: seq<Step>, s: State, ms: seq<Message>, c: nat)
    requires n > 0 && Exec(n, steps) == Some(s) && Logged(ms, s.hist) && c <= |s.out|
    ensures Received(n, steps, s, c, Flatten([Stream(s.out[c..])]))
    ensures |SplitLines(Flatten([Stream(s.out[c..])])).lines| == |s.out| - c
  {
    hide Exec, Stream, SplitLines, Logged;
    WholeStream(s.out[c..]);
    LinesArePicked(n, steps, s, ms, c, Stream(s.out[c..]));
  }

  lemma LateFrames(mode: ExecMode, h: seq<Metrics.Measurement>, c: nat, frames: seq<Frame>, summary: LiveSummary)
    requires 0 < c && Metrics.FrameCount(c) < |h| && AllNonNegative(h)
    requires Shows(Both, mode, h, c, Metrics.LogLength(|h|), NO_SUMMARY, frames, summary)
    ensures frames == FramesOfHistory(mode, h)[Metrics.FrameCount(c)..] && !(frames <= FramesOfHistory(mode, h))
  {
    hide Metrics.FrameCount, Metrics.LogLength, Decoded, Shows;
    Metrics.NextLength(|h|);
    FirstShown(mode, h, c, Metrics.LogLength(|h|), frames, summary);
  }

  /**
   * A late connection is possible at every moment: for every measured history and every c messages of its log after
   * which some frame follows, there is a run, without an overrun, in which a GUI connects after c lines, receives all
   * the others, and shows frames that are not the first ones measured.
   */
  lemma LateConnectionMissesFrames(n: nat, mode: ExecMode, h: seq<Metrics.Measurement>, c: nat)
    returns (steps: seq<Step>, s: State, pieces: seq<string>)
    requires n > 1 && 0 < c && Metrics.FrameCount(c) < |h| && AllNonNegative(h)
    requires forall m :: m in Metrics.Log(mode, h) ==> InRange(m)
    ensures Received(n, steps, s, c, Flatten(pieces)) && Measured(mode, h, |Metrics.Log(mode, h)|, s.hist)
    ensures !OverrunThenRead(n, steps)
    ensures var shown := FramesOfLines(Both, SplitLines(Flatten(pieces)).lines);
      shown == FramesOfHistory(mode, h)[Metrics.FrameCount(c)..] && !(shown <= FramesOfHistory(mode, h))
  {
    hide *;
    steps, s := WholeLogIsPrinted(n, mode, h);
    Metrics.LogShape(mode, h);
    MessagesBefore(|h|, c);
    pieces := [Stream(s.out[c..])];
    LoggedWhole(mode, h, s.hist);
    AllIsReceived(n, steps, s, Metrics.Log(mode, h), c);
    MeasurementsEndToEnd(n, steps, s, mode, h, |Metrics.Log(mode, h)|, c, Both, NO_SUMMARY, pieces);
    var received := SplitLines(Flatten(pieces)).lines;
    LateFrames(mode, h, c, FramesOfLines(Both, received), SummaryAfterLines(NO_SUMMARY, received));
  }

  lemma LoggedWhole(mode: ExecMode, h: seq<Metrics.Measurement>, hist: seq<string>)
    requires Measured(mode, h, |Metrics.Log(mode, h)|, hist)
    ensures Logged(Metrics.Log(mode, h), hist)
  {
    hide Metrics.Log, NonNegative, Logged;
    assert Metrics.Log(mode, h)[..|Metrics.Log(mode, h)|] == Metrics.Log(mode, h);
  }

  lemma WholeStream(texts: seq<string>)
    ensures Flatten([Stream(texts)]) == Stream(texts)
  {
    assert Flatten([Stream(texts)]) == Stream(texts) + Flatten<char>([]);
  }

  function PrintedLog(ms: seq<Message>): (r: seq<string>)
    ensures |r| == |ms| && forall i :: 0 <= i < |ms| ==> r[i] == Line(ms[i].Text())
  {
    seq(|ms|, i requires 0 <= i < |ms| => Line(ms[i].Text()))
  }

  lemma MessagesBefore(frames: nat, c: nat)
    requires Metrics.FrameCount(c) < frames
    ensures c < Metrics.LogLength(frames) && Metrics.FrameCount(Metrics.LogLength(frames)) == frames
  {
    Metrics.NextLength(frames);
  }

  // ---------- Whatever is lost ----------

  /** Measured frames with strictly increasing numbers. */
  ghost predicate InMeasuredOrder(mode: ExecMode, h: seq<Metrics.Measurement>, frames: seq<Frame>) {
    && (forall i :: 0 <= i < |frames| ==>
         ShowsOneOf(mode, h, 0, |h|, frames[i]) && frames[i] == FramesOfHistory(mode, h)[frames[i].number - 1])
    && forall i, j :: 0 <= i < j < |frames| ==> frames[i].number < frames[j].number
  }

  ghost predicate NumbersUpTo(frames: seq<Frame>, bound: nat) {
    forall i :: 0 <= i < |frames| ==> frames[i].number <= bound
  }

  /** What message i of the log can add: nothing, or frame number FrameCount(i) + 1. */
  ghost predicate AddsOwnFrame(mode: ExecMode, h: seq<Metrics.Measurement>, i: nat, frames: seq<Frame>) {
    frames == [] ||
    (Metrics.FrameCount(i) < |h| && NonNegative(h[Metrics.FrameCount(i)]) &&
     Metrics.FrameCount(i + 1) == Metrics.FrameCount(i) + 1 &&
     frames == [FramesOfHistory(mode, h)[Metrics.FrameCount(i)]])
  }

  lemma LoggedMessageAdds(gui: GuiMode, mode: ExecMode, h: seq<Metrics.Measurement>, i: nat)
    requires i < Metrics.LogLength(|h|)
    ensures AddsOwnFrame(mode, h, i, FramesOfMessage(gui, Metrics.LoggedAt(mode, h, i)))
  {
    hide Metrics.SummaryOf, Metrics.LogLength, NearestUnits, AnyNegative, NonNegative, Metrics.FrameCount;
    Metrics.CountsGrow(i, i + 1, |h|);
    Metrics.NextCount(i);
    MinusSigns(mode, h, i);
  }

  lemma OneFrameMore(mode: ExecMode, h: seq<Metrics.Measurement>, frames: seq<Frame>, i: nat, more: seq<Frame>)
    requires InMeasuredOrder(mode, h, frames) && NumbersUpTo(frames, Metrics.FrameCount(i))
    requires AddsOwnFrame(mode, h, i, more) && Metrics.FrameCount(i) <= Metrics.FrameCount(i + 1)
    ensures InMeasuredOrder(mode, h, frames + more) && NumbersUpTo(frames + more, Metrics.FrameCount(i + 1))
  {
    hide Metrics.FrameCount, NearestUnits, Metrics.Measures, NonNegative;
    if more == [] {
      assert frames + more == frames;
    } else {
      var k := Metrics.FrameCount(i);
      Metrics.FrameIsMeasured(k + 1, mode, h[k]);
      IsNonNegative(h[k]);
      assert more[0].number == Metrics.FrameCount(i) + 1;
    }
  }

  lemma {:induction false} PickedInOrder(
      gui: GuiMode, mode: ExecMode, h: seq<Metrics.Measurement>, picks: seq<nat>, ms: seq<Message>, end: nat)
    requires |picks| == |ms| && end <= Metrics.LogLength(|h|)
    requires forall j :: 0 <= j < |picks| ==> picks[j] < end
    requires forall j :: 0 <= j < |picks| ==> ms[j] == Metrics.LoggedAt(mode, h, picks[j])
    requires forall i, j :: 0 <= i < j < |picks| ==> picks[i] < picks[j]
    ensures InMeasuredOrder(mode, h, FramesOfMessages(gui, ms))
    ensures NumbersUpTo(FramesOfMessages(gui, ms), Metrics.FrameCount(end))
    decreases |ms|
  {
    hide Metrics.LoggedAt, Metrics.LogLength, Metrics.FrameCount, FramesOfMessage, NonNegative, FramesOfHistory;
    hide InMeasuredOrder, AddsOwnFrame, NumbersUpTo;
    if ms == [] {
      NothingInOrder(mode, h, Metrics.FrameCount(end));
    } else {
      var last := |ms| - 1;
      var i := picks[last];
      PickedInOrder(gui, mode, h, picks[..last], ms[..last], i);
      assert ms == ms[..last] + [ms[last]];
      FramesInMessagePieces(gui, ms[..last], [ms[last]]);
      OnlyMessage(gui, ms[last]);
      LoggedMessageAdds(gui, mode, h, i);
      Metrics.CountsGrow(i, i + 1, |h|);
      OneFrameMore(mode, h, FramesOfMessages(gui, ms[..last]), i, FramesOfMessage(gui, ms[last]));
      Metrics.CountsGrow(i + 1, end, |h|);
      BoundGrows(FramesOfMessages(gui, ms), Metrics.FrameCount(i + 1), Metrics.FrameCount(end));
    }
  }

  lemma NothingInOrder(mode: ExecMode, h: seq<Metrics.Measurement>, bound: nat)
    ensures InMeasuredOrder(mode, h, []) && NumbersUpTo([], bound)
  {
  }

  lemma BoundGrows(frames: seq<Frame>, bound: nat, larger: nat)
    requires NumbersUpTo(frames, bound) && bound <= larger
    ensures NumbersUpTo(frames, larger)
  {
  }

  /**
   * With any overflow of the ring, for every schedule, moment of connection and cutting: the frames shown are measured
   * ones, each at most once and in order; and every entry of the live summary is that of the last line of its kind
   * among the messages received, so it mixes two summaries exactly when such last lines come from different ones.
   */
  lemma OverrunEndToEnd(
      n: nat, steps: seq<Step>, s: State, mode: ExecMode, h: seq<Metrics.Measurement>, q: nat, c: nat, gui: GuiMode,
      prev: LiveSummary, pieces: seq<string>)
    requires n > 0 && Received(n, steps, s, c, Flatten(pieces)) && Measured(mode, h, q, s.hist)
    ensures var received := SplitLines(Flatten(pieces)).lines;
      var e := c + |received|;
      var ms := Metrics.Log(mode, h)[..q];
      && InMeasuredOrder(mode, h, FramesOfLines(gui, received))
      && e <= |s.taken| && (forall i :: c <= i < e ==> s.taken[i].index < q)
      && SummaryAfterLines(prev, received) == EntriesLastRead(prev, Picked(ms, s.taken, c, e))
  {
    hide FramesOfLines, SummaryAfterLines, FramesOfMessages, SummaryAfterMessages, EntriesLastRead, InMeasuredOrder;
    hide SplitLines, Stream, Exec, Metrics.Log, Metrics.LogLength, Metrics.LoggedAt, Logged, NonNegative;
    var ms, e := Metrics.Log(mode, h)[..q], c + |SplitLines(Flatten(pieces)).lines|;
    LogEndToEnd(n, steps, s, ms, c, gui, prev, pieces);
    LinesArePicked(n, steps, s, ms, c, Flatten(pieces));
    Metrics.LogShape(mode, h);
    var picks := seq(e - c, j requires 0 <= j < e - c => s.taken[c + j].index);
    PickedInOrder(gui, mode, h, picks, Picked(ms, s.taken, c, e), |Metrics.Log(mode, h)|);
    SummaryIsLastRead(prev, Picked(ms, s.taken, c, e));
  }

  // ---------- After a reconnection ----------

  /**
   * What a GUI shows whose recv_buffer still held `kept` when it was connected: the first line received, message c of
   * the log, is glued to it; the others are read as ever.
   */
  ghost predicate ShowsAfterRest(
      gui: GuiMode, mode: ExecMode, h: seq<Metrics.Measurement>, kept: string, c: nat, e: nat, prev: LiveSummary,
      frames: seq<Frame>, summary: LiveSummary)
  {
    if c == e then frames == [] && summary == prev
    else
      && c < e <= Metrics.LogLength(|h|)
      && var first := kept + Metrics.LoggedAt(mode, h, c).Text();
      && var others := ShownFrames(gui, mode, h, c + 1, e);
      && frames == FramesOfRawLine(gui, first) + others
      && Shows(gui, mode, h, c + 1, e, SummaryAfterLine(prev, first), others, summary)
  }

  lemma OneLineFirst(gui: GuiMode, prev: LiveSummary, line: string, others: seq<string>)
    ensures FramesOfLines(gui, [line] + others) == FramesOfRawLine(gui, line) + FramesOfLines(gui, others)
    ensures SummaryAfterLines(prev, [line] + others) == SummaryAfterLines(SummaryAfterLine(prev, line), others)
  {
    hide FramesOfRawLine, SummaryAfterLine;
    assert ([line] + others)[0] == line && ([line] + others)[1..] == others;
  }

  /** The lines that follow the first one received. */
  lemma OtherLines(
      gui: GuiMode, prev: LiveSummary, mode: ExecMode, h: seq<Metrics.Measurement>, ms: seq<Message>, c: nat, e: nat)
    requires ms == Metrics.Log(mode, h)
    requires c < e <= |ms| && AllValid(ms[c..e])
    ensures e <= Metrics.LogLength(|h|) && Texts(ms[c..e])[0] == Metrics.LoggedAt(mode, h, c).Text()
    ensures var others := Texts(ms[c..e])[1..];
      Shows(gui, mode, h, c + 1, e, prev, FramesOfLines(gui, others), SummaryAfterLines(prev, others))
  {
    hide FramesOfLines, SummaryAfterLines, Shows;
    hide Metrics.Log, Metrics.LogLength, Message.Text, Message.Valid;
    Metrics.LogShape(mode, h);
    assert ms[c..e][1..] == ms[c + 1..e];
    assert Texts(ms[c..e])[1..] == Texts(ms[c + 1..e]);
    assert AllValid(ms[c + 1..e]);
    MessagesShown(gui, prev, mode, h, c + 1, e, Texts(ms[c + 1..e]));
  }

  function Glued(kept: string, lines: seq<string>): seq<string> {
    if lines == [] then [] else [kept + lines[0]] + lines[1..]
  }

  lemma GluedLinesShown(
      gui: GuiMode, prev: LiveSummary, mode: ExecMode, h: seq<Metrics.Measurement>, kept: string, c: nat, e: nat)
    requires c <= e <= |Metrics.Log(mode, h)| && AllValid(Metrics.Log(mode, h)[c..e])
    ensures var lines := Glued(kept, Texts(Metrics.Log(mode, h)[c..e]));
      ShowsAfterRest(gui, mode, h, kept, c, e, prev, FramesOfLines(gui, lines), SummaryAfterLines(prev, lines))
  {
    hide Metrics.Log, Metrics.LogLength, NonNegative, Message.Text, Message.Valid, Shows, ShownFrames;
    hide FramesOfRawLine, SummaryAfterLine;
    var received := Texts(Metrics.Log(mode, h)[c..e]);
    if c < e {
      var first := kept + received[0];
      OneLineFirst(gui, prev, first, received[1..]);
      OtherLines(gui, SummaryAfterLine(prev, first), mode, h, Metrics.Log(mode, h), c, e);
      ShownAsShown(gui, mode, h, c + 1, e, SummaryAfterLine(prev, first), FramesOfLines(gui, received[1..]),
        SummaryAfterLines(prev, Glued(kept, received)));
    }
  }

  lemma ShownAsShown(
      gui: GuiMode, mode: ExecMode, h: seq<Metrics.Measurement>, c: nat, e: nat, prev: LiveSummary,
      frames: seq<Frame>, summary: LiveSummary)
    requires Shows(gui, mode, h, c, e, prev, frames, summary)
    ensures c <= e <= Metrics.LogLength(|h|) && frames == ShownFrames(gui, mode, h, c, e)
  {
  }

  /** The theorem above for a GUI that kept a partial line from an earlier connection. */
  lemma MeasurementsAfterRest(
      n: nat, steps: seq<Step>, s: State, mode: ExecMode, h: seq<Metrics.Measurement>, q: nat, c: nat, gui: GuiMode,
      prev: LiveSummary, kept: string, data: string)
    requires n > 0 && Received(n, steps, s, c, data) && Measured(mode, h, q, s.hist)
    requires !OverrunThenRead(n, steps) && All(kept, NotNewline)
    ensures var lines := SplitLines(kept + data).lines;
      ShowsAfterRest(
        gui, mode, h, kept, c, c + |lines|, prev, FramesOfLines(gui, lines), SummaryAfterLines(prev, lines))
  {
    hide *;
    var e := MeasuredLines(n, steps, s, mode, h, q, c, data);
    GluedLines(kept, data);
    GluedLinesShown(gui, prev, mode, h, kept, c, e);
  }

  lemma GluedLines(kept: string, data: string)
    requires All(kept, NotNewline)
    ensures var received := SplitLines(data).lines;
      SplitLines(kept + data).lines == Glued(kept, received) && |SplitLines(kept + data).lines| == |received|
  {
    hide SplitLines, RunLength;
    KeptRestGoesFirst(kept, data);
  }

  /**
   * The monitor itself, cleared at the start of the connection and fed with the pieces: after all of them its windows
   * hold the latest of those frames, its live summary is that one and its buffer the last partial line, whatever was
   * kept of a line before. When nothing was kept, the latency plot labels every frame with the mode of the device,
   * however long the session lasts.
   */
  method Watch(
      monitor: Monitor, pieces: seq<string>,
      ghost n: nat, ghost steps: seq<Step>, ghost s: State, ghost mode: ExecMode, ghost h: seq<Metrics.Measurement>,
      ghost q: nat, ghost c: nat)
    returns (ghost e: nat)
    requires n > 0 && Received(n, steps, s, c, Flatten(pieces)) && Measured(mode, h, q, s.hist)
    requires !OverrunThenRead(n, steps)
    requires monitor.Valid() && monitor.pushed == [] && All(monitor.recvBuffer, NotNewline)
    modifies monitor
    ensures var text := SplitLines(old(monitor.recvBuffer) + Flatten(pieces));
      e == c + |text.lines| && monitor.recvBuffer == text.rest
    ensures monitor.Valid() && ShowsAfterRest(
      monitor.currentMode, mode, h, old(monitor.recvBuffer), c, e, old(monitor.liveSummary), monitor.pushed,
      monitor.liveSummary)
    ensures old(monitor.recvBuffer) == "" ==>
      && Shows(
        monitor.currentMode, mode, h, c, e, old(monitor.liveSummary), monitor.pushed, monitor.liveSummary)
      && LabelledRight(monitor.pushed)
  {
    hide ShownFrames, ShownSummary, Received, Measured, OverrunThenRead, SplitLines, FramesOfLines, SummaryAfterLines;
    hide Metrics.LogLength, Metrics.Log, LabelledRight, ShowsAfterRest, EntriesLastRead;
    ghost var kept := monitor.recvBuffer;
    MeasurementsAfterRest(
      n, steps, s, mode, h, q, c, monitor.currentMode, monitor.liveSummary, kept, Flatten(pieces));
    MeasurementsEndToEnd(n, steps, s, mode, h, q, c, monitor.currentMode, monitor.liveSummary, pieces);
    e := c + |SplitLines(kept + Flatten(pieces)).lines|;
    monitor.ReadData(pieces);
    assert monitor.pushed == FramesOfLines(monitor.currentMode, SplitLines(kept + Flatten(pieces)).lines);
    if kept == "" {
      assert kept + Flatten(pieces) == Flatten(pieces);
      ShownInOneMode(monitor.currentMode, mode, h, c, e);
    }
  }

  lemma ShownInOneMode(gui: GuiMode, mode: ExecMode, h: seq<Metrics.Measurement>, c: nat, e: nat)
    requires c <= e <= Metrics.LogLength(|h|)
    ensures LabelledRight(ShownFrames(gui, mode, h, c, e))
  {
    hide LabelledRight, Metrics.FrameCount, Metrics.LogLength, VisibleFrames;
    Metrics.CountsGrow(c, e, |h|);
    VisibleInMode(mode, h, Metrics.FrameCount(c), Metrics.FrameCount(e));
    OneModeIsLabelledRight(ShownFrames(gui, mode, h, c, e), ModeName(mode));
  }
}
