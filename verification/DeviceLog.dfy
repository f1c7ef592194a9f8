/** The log lines printed by the device (metrics.c). Numbers are given as printf rounds them. */
module DeviceLog {
  import opened Common
  import opened Text

  const LINE_SIZE: nat := 256

  datatype FrameMetrics = FrameMetrics(
    frame: nat, amp: Fixed, latency: Fixed, mode: ExecMode, cpu: Fixed, dsp: Fixed)

  datatype Range = Range(min: Fixed, max: Fixed, avg: Fixed)

  datatype SummaryMetrics = SummaryMetrics(frames: nat, latency: Range, amp: Range, cpu: Range, dsp: Range)

  /** No character that the line protocol or the search for a frame line could trip over. */
  predicate IsPlain(c: char) {
    ' ' <= c <= '~' && c != 'F'
  }

  function ModeName(mode: ExecMode): (s: string)
    ensures All(s, IsUpper) && |s| == 3 && All(s, IsPlain)
  {
    if mode.ExecArm? then "CPU" else "DSP"
  }

  /** A named value, the separator after it, and the rest of the line. */
  function Field(name: string, value: string, separator: string, rest: string): string {
    " " + (name + (value + (separator + rest)))
  }

  // The text of log_frame_metrics, from its last field to its first.

  function DspText(f: FrameMetrics): string {
    Field("DSPLoad=", PrintFixed(f.dsp, 1), "", "%")
  }

  function CpuText(f: FrameMetrics): string {
    Field("CPULoad=", PrintFixed(f.cpu, 1), "%", DspText(f))
  }

  function ModeText(f: FrameMetrics): string {
    Field("Mode=", ModeName(f.mode), "", CpuText(f))
  }

  function LatencyText(f: FrameMetrics): string {
    Field("Latency=", PrintFixed(f.latency, 2), "ms,", ModeText(f))
  }

  function AmpText(f: FrameMetrics): string {
    Field("AvgAmp=", PrintFixed(f.amp, 2), ",", LatencyText(f))
  }

  function NumberText(f: FrameMetrics): string {
    Field("", PrintNat(f.frame), ":", AmpText(f))
  }

  /** Frame %d: AvgAmp=%.2f, Latency=%.2fms, Mode=%s CPULoad=%.1f%% DSPLoad=%.1f%% */
  function FrameText(f: FrameMetrics): string {
    "Frame" + NumberText(f)
  }

  /** A field written behind what comes before it, with the name that `start` spells with its blank. */
  lemma FieldBehind(text: string, before: string, start: string, name: string, value: string, end: string, rest: string)
    requires text == before + Field(name, value, end, rest) && start == " " + name
    ensures text == before + start + value + end + rest
  {
  }

  /** The format of log_frame_metrics, with its six arguments in their places. */
  lemma FrameFormat(f: FrameMetrics)
    ensures FrameText(f) ==
      "Frame" + " " + PrintNat(f.frame) + ":" + " AvgAmp=" + PrintFixed(f.amp, 2) + "," +
      " Latency=" + PrintFixed(f.latency, 2) + "ms," + " Mode=" + (if f.mode.ExecArm? then "CPU" else "DSP") + "" +
      " CPULoad=" + PrintFixed(f.cpu, 1) + "%" + " DSPLoad=" + PrintFixed(f.dsp, 1) + "" + "%"
  {
    hide Field, PrintFixed, PrintNat;
    var text := FrameText(f);
    var number := "Frame" + " " + PrintNat(f.frame) + ":";
    FieldBehind(text, "Frame", " ", "", PrintNat(f.frame), ":", AmpText(f));
    FieldBehind(text, number, " AvgAmp=", "AvgAmp=", PrintFixed(f.amp, 2), ",", LatencyText(f));
    var amp := number + " AvgAmp=" + PrintFixed(f.amp, 2) + ",";
    FieldBehind(text, amp, " Latency=", "Latency=", PrintFixed(f.latency, 2), "ms,", ModeText(f));
    var latency := amp + " Latency=" + PrintFixed(f.latency, 2) + "ms,";
    FieldBehind(text, latency, " Mode=", "Mode=", ModeName(f.mode), "", CpuText(f));
    var mode := latency + " Mode=" + ModeName(f.mode) + "";
    FieldBehind(text, mode, " CPULoad=", "CPULoad=", PrintFixed(f.cpu, 1), "%", DspText(f));
    var cpu := mode + " CPULoad=" + PrintFixed(f.cpu, 1) + "%";
    FieldBehind(text, cpu, " DSPLoad=", "DSPLoad=", PrintFixed(f.dsp, 1), "", "%");
  }

  ghost predicate EndsLine(s: string) {
    All(s, IsPlain) && s != "" && s[|s| - 1] == '%'
  }

  lemma FieldEndsLine(name: string, value: string, separator: string, rest: string)
    requires All(name, IsPlain) && All(value, IsPlain) && All(separator, IsPlain) && EndsLine(rest)
    ensures EndsLine(Field(name, value, separator, rest))
  {
  }

  lemma DspEndsLine(f: FrameMetrics)
    ensures EndsLine(DspText(f))
  {
    FieldEndsLine("DSPLoad=", PrintFixed(f.dsp, 1), "", "%");
  }

  lemma CpuEndsLine(f: FrameMetrics)
    ensures EndsLine(CpuText(f))
  {
    hide DspText;
    DspEndsLine(f);
    FieldEndsLine("CPULoad=", PrintFixed(f.cpu, 1), "%", DspText(f));
  }

  lemma ModeEndsLine(f: FrameMetrics)
    ensures EndsLine(ModeText(f))
  {
    hide CpuText;
    CpuEndsLine(f);
    FieldEndsLine("Mode=", ModeName(f.mode), "", CpuText(f));
  }

  lemma LatencyEndsLine(f: FrameMetrics)
    ensures EndsLine(LatencyText(f))
  {
    hide ModeText;
    ModeEndsLine(f);
    FieldEndsLine("Latency=", PrintFixed(f.latency, 2), "ms,", ModeText(f));
  }

  lemma AmpEndsLine(f: FrameMetrics)
    ensures EndsLine(AmpText(f))
  {
    hide LatencyText;
    LatencyEndsLine(f);
    FieldEndsLine("AvgAmp=", PrintFixed(f.amp, 2), ",", LatencyText(f));
  }

  /** After the word Frame the line has no capital F and no control character, and it ends with a percent sign. */
  lemma FrameTextIsPlain(f: FrameMetrics)
    ensures EndsLine(NumberText(f))
  {
    hide AmpText;
    AmpEndsLine(f);
    FieldEndsLine("", PrintNat(f.frame), ":", AmpText(f));
  }

  // The texts of log_summary.

  /** " %.{p}f" and what follows it. */
  function SpacedNumber(x: Fixed, places: nat, rest: string): string
    requires places > 0
  {
    " " + (PrintFixed(x, places) + rest)
  }

  function MaxText(r: Range, places: nat): string
    requires places > 0
  {
    "Max:" + SpacedNumber(r.max, places, "," + (" " + ("Avg:" + SpacedNumber(r.avg, places, ""))))
  }

  /** Min: %.{p}f, Max: %.{p}f, Avg: %.{p}f */
  function RangeText(r: Range, places: nat): string
    requires places > 0
  {
    "Min:" + SpacedNumber(r.min, places, "," + (" " + MaxText(r, places)))
  }

  const SUMMARY_START := "[Live Summary] "

  function Kind(part: nat): (kind: string)
    ensures part > 0 ==> All(kind, IsPlain) && 'M' !in kind
  {
    if part == 0 then "Frames: "
    else if part == 1 then "Latency (ms): "
    else if part == 2 then "Amp: "
    else if part == 3 then "CPU Load (%): "
    else "DSP Load (%): "
  }

  function Head(part: nat): string {
    SUMMARY_START + Kind(part)
  }

  function RangeOf(s: SummaryMetrics, part: nat): Range {
    if part == 1 then s.latency else if part == 2 then s.amp else if part == 3 then s.cpu else s.dsp
  }

  function Places(part: nat): (k: nat)
    ensures 0 < k <= 2
  {
    if part <= 2 then 2 else 1
  }

  /** The five lines of one log_summary call, in the order in which they are enqueued. */
  function SummaryText(s: SummaryMetrics, part: nat): string {
    Head(part) + if part == 0 then PrintNat(s.frames) else RangeText(RangeOf(s, part), Places(part))
  }

  lemma RangeFormat(r: Range, places: nat)
    requires places > 0
    ensures RangeText(r, places) ==
      "Min: " + PrintFixed(r.min, places) + ", Max: " + PrintFixed(r.max, places) + ", Avg: " +
      PrintFixed(r.avg, places)
  {
    hide PrintFixed;
    var min, max, avg := PrintFixed(r.min, places), PrintFixed(r.max, places), PrintFixed(r.avg, places);
    assert SpacedNumber(r.avg, places, "") == " " + avg;
    assert MaxText(r, places) == "Max: " + max + ", Avg: " + avg;
    assert RangeText(r, places) == "Min: " + min + ", " + MaxText(r, places);
  }

  /** The formats of log_summary. */
  lemma SummaryFormats(s: SummaryMetrics, part: nat)
    requires part < 5
    ensures var kind := ["Frames: ", "Latency (ms): ", "Amp: ", "CPU Load (%): ", "DSP Load (%): "][part];
      var range, places := [s.latency, s.latency, s.amp, s.cpu, s.dsp][part], [2, 2, 2, 1, 1][part];
      SummaryText(s, part) ==
        "[Live Summary] " + kind + if part == 0 then PrintNat(s.frames) else RangeText(range, places)
  {
    hide PrintNat, RangeText;
  }

  /** snprintf into the local buffer of the logging functions. */
  function Line(text: string): string {
    CopyInto(text, LINE_SIZE)
  }

  lemma LineIs(text: string)
    ensures Line(text) == if |text| < 256 then text else text[..255]
  {
  }
}
