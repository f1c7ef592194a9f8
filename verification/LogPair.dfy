/** The device prints a line and the GUI reads it: what each printed line means to the parsers. */
module LogPair {
  import opened Common
  import opened Text
  import opened Regex
  import opened DeviceLog
  import opened AudMon

  // ---------- One printed field against one field of the pattern ----------

  /** Any white space in front of its name will do, if there is some. */
  lemma FieldMatches(blanks: string, name: string, cls: Class, value: string, rest: string, next: Pattern)
    requires blanks != "" && PythonBlank(blanks) && name != "" && !IsPythonSpace(name[0])
    requires value != "" && All(value, c => cls.Has(c)) && rest != "" && !cls.Has(rest[0])
    ensures MatchAt(FieldPattern(name, cls, next), blanks + (name + (value + rest))) ==
      Prepend([value], MatchAt(next, rest))
  {
    MatchMany(cls, 1, true, next, value, rest);
    MatchLit(name, Many(cls, 1, true, next), value + rest);
    MatchMany(Space, 1, false, Lit(name, Many(cls, 1, true, next)), blanks, name + (value + rest));
    var r := Prepend([value], MatchAt(next, rest));
    assert r.Some? ==> [] + r.value == r.value;
  }

  lemma FieldFails(name: string, cls: Class, text: string, next: Pattern)
    requires name != "" && !IsPythonSpace(name[0]) && text != "" && !cls.Has(text[0])
    ensures MatchAt(FieldPattern(name, cls, next), " " + (name + text)) == None
  {
    MatchMany(cls, 1, true, next, "", text);
    assert "" + text == text;
    MatchLit(name, Many(cls, 1, true, next), text);
    MatchMany(Space, 1, false, Lit(name, Many(cls, 1, true, next)), " ", name + text);
  }

  /** A printed number is read back digit for digit, unless it carries a minus sign. */
  lemma NumberMatches(name: string, x: Fixed, places: nat, rest: string, next: Pattern)
    requires name != "" && !IsPythonSpace(name[0]) && places > 0 && rest != "" && !IsDigitOrDot(rest[0])
    ensures MatchAt(FieldPattern(name, DigitsAndDots, next), " " + (name + (PrintFixed(x, places) + rest))) ==
      if x.negative then None else Prepend([PrintUnits(x.units, places)], MatchAt(next, rest))
  {
    if x.negative {
      FieldFails(name, DigitsAndDots, PrintFixed(x, places) + rest, next);
    } else {
      assert PrintFixed(x, places) == PrintUnits(x.units, places);
      FieldMatches(" ", name, DigitsAndDots, PrintFixed(x, places), rest, next);
    }
  }

  // ---------- The frame line ----------

  predicate AnyNegative(f: FrameMetrics) {
    f.amp.negative || f.latency.negative || f.cpu.negative || f.dsp.negative
  }

  function DspGroups(f: FrameMetrics): Option<seq<string>> {
    if f.dsp.negative then None else Some([PrintUnits(f.dsp.units, 1)])
  }

  function CpuGroups(f: FrameMetrics): Option<seq<string>> {
    if f.cpu.negative then None else Prepend([PrintUnits(f.cpu.units, 1)], DspGroups(f))
  }

  function LatencyGroups(f: FrameMetrics): Option<seq<string>> {
    if f.latency.negative then None
    else Prepend([PrintUnits(f.latency.units, 2)], Prepend([ModeName(f.mode)], CpuGroups(f)))
  }

  function FrameGroups(f: FrameMetrics): Option<seq<string>> {
    if f.amp.negative then None
    else Prepend([PrintNat(f.frame)], Prepend([PrintUnits(f.amp.units, 2)], LatencyGroups(f)))
  }

  lemma DspMatches(f: FrameMetrics)
    ensures MatchAt(DSP_PATTERN, DspText(f)) == DspGroups(f)
  {
    assert "" + "%" == "%";
    NumberMatches("DSPLoad=", f.dsp, 1, "%", Lit("%", End));
    assert MatchAt(Lit("%", End), "%") == Some([]);
    assert [PrintUnits(f.dsp.units, 1)] + [] == [PrintUnits(f.dsp.units, 1)];
  }

  lemma CpuMatches(f: FrameMetrics)
    ensures MatchAt(CPU_PATTERN, CpuText(f)) == CpuGroups(f)
  {
    NumberMatches("CPULoad=", f.cpu, 1, "%" + DspText(f), Lit("%", DSP_PATTERN));
    MatchLit("%", DSP_PATTERN, DspText(f));
    DspMatches(f);
  }

  lemma ModeMatches(f: FrameMetrics)
    ensures MatchAt(MODE_PATTERN, ModeText(f)) == Prepend([ModeName(f.mode)], CpuGroups(f))
  {
    hide MatchAt, RunLength;
    assert "" + CpuText(f) == CpuText(f);
    FieldMatches(" ", "Mode=", Capitals, ModeName(f.mode), CpuText(f), CPU_PATTERN);
    CpuMatches(f);
  }

  lemma LatencyMatches(f: FrameMetrics)
    ensures MatchAt(LATENCY_PATTERN, LatencyText(f)) == LatencyGroups(f)
  {
    NumberMatches("Latency=", f.latency, 2, "ms," + ModeText(f), Lit("ms,", MODE_PATTERN));
    MatchLit("ms,", MODE_PATTERN, ModeText(f));
    ModeMatches(f);
  }

  lemma AmpMatches(f: FrameMetrics)
    ensures MatchAt(AMP_PATTERN, AmpText(f)) ==
      if f.amp.negative then None else Prepend([PrintUnits(f.amp.units, 2)], LatencyGroups(f))
  {
    NumberMatches("AvgAmp=", f.amp, 2, "," + LatencyText(f), Lit(",", LATENCY_PATTERN));
    MatchLit(",", LATENCY_PATTERN, LatencyText(f));
    LatencyMatches(f);
  }

  lemma FrameNumberMatches(number: string, rest: string, next: Pattern)
    requires number != "" && All(number, IsDigit) && rest != "" && !IsDigit(rest[0])
    ensures MatchAt(Many(Space, 1, false, Many(Digits, 1, true, next)), " " + ("" + (number + rest))) ==
      Prepend([number], MatchAt(next, rest))
  {
    MatchMany(Digits, 1, true, next, number, rest);
    MatchMany(Space, 1, false, Many(Digits, 1, true, next), " ", number + rest);
    assert "" + (number + rest) == number + rest;
    var r := Prepend([number], MatchAt(next, rest));
    assert r.Some? ==> [] + r.value == r.value;
  }

  lemma FrameMatches(f: FrameMetrics)
    ensures MatchAt(LOG_PATTERN, FrameText(f)) == FrameGroups(f)
  {
    AmpMatches(f);
    MatchLit(":", AMP_PATTERN, AmpText(f));
    FrameNumberMatches(PrintNat(f.frame), ":" + AmpText(f), Lit(":", AMP_PATTERN));
    MatchLit("Frame", NUMBER_PATTERN, NumberText(f));
  }

  lemma SearchFinds(p: Pattern, s: string)
    requires MatchAt(p, s).Some?
    ensures Search(p, s) == MatchAt(p, s)
  {
  }

  lemma FrameSearch(f: FrameMetrics)
    ensures Search(LOG_PATTERN, FrameText(f)) == FrameGroups(f)
  {
    hide MatchAt, Search, FrameGroups, NumberText;
    FrameMatches(f);
    if FrameGroups(f).Some? {
      SearchFinds(LOG_PATTERN, FrameText(f));
    } else {
      FrameTextIsPlain(f);
      assert FrameText(f)[1..] == "rame" + NumberText(f);
      SearchRetries(LOG_PATTERN, FrameText(f));
      SearchFails(LOG_PATTERN, FrameText(f)[1..]);
    }
  }

  /** The frame the GUI should see: the same numbers at the precision of the format. */
  function Decoded(f: FrameMetrics): Frame {
    Frame(f.frame, Number(f.amp.units, 2), Number(f.latency.units, 2), ModeName(f.mode),
      Number(f.cpu.units, 1), Number(f.dsp.units, 1))
  }

  lemma GroupsRoundTrip(f: FrameMetrics)
    ensures FrameOfGroups([PrintNat(f.frame), PrintUnits(f.amp.units, 2), PrintUnits(f.latency.units, 2),
      ModeName(f.mode), PrintUnits(f.cpu.units, 1), PrintUnits(f.dsp.units, 1)]) == Some(Decoded(f))
  {
    PrintedNatValue(f.frame);
    FloatRoundTrip(f.amp.units, 2);
    FloatRoundTrip(f.latency.units, 2);
    FloatRoundTrip(f.cpu.units, 1);
    FloatRoundTrip(f.dsp.units, 1);
  }

  lemma GroupsOfFrame(f: FrameMetrics)
    ensures FrameGroups(f) == if AnyNegative(f) then None
      else Some([PrintNat(f.frame), PrintUnits(f.amp.units, 2), PrintUnits(f.latency.units, 2),
        ModeName(f.mode), PrintUnits(f.cpu.units, 1), PrintUnits(f.dsp.units, 1)])
  {
    if !AnyNegative(f) {
      var latency, cpu, dsp := PrintUnits(f.latency.units, 2), PrintUnits(f.cpu.units, 1), PrintUnits(f.dsp.units, 1);
      assert [cpu] + [dsp] == [cpu, dsp];
      assert CpuGroups(f) == Some([cpu, dsp]);
      var mode, number, amp := ModeName(f.mode), PrintNat(f.frame), PrintUnits(f.amp.units, 2);
      assert [latency] + ([mode] + [cpu, dsp]) == [latency, mode, cpu, dsp];
      assert [number] + ([amp] + [latency, mode, cpu, dsp]) == [number, amp, latency, mode, cpu, dsp];
    }
  }

  /** A printed frame line is read back exactly when none of its four numbers carries a minus sign. */
  lemma FrameRoundTrip(f: FrameMetrics)
    ensures ParseFrame(FrameText(f)) == if AnyNegative(f) then None else Some(Decoded(f))
  {
    FrameSearch(f);
    GroupsOfFrame(f);
    GroupsRoundTrip(f);
  }

  /** The series gain one frame per frame line without a minus sign, if the mode shown admits it, else none. */
  lemma FrameLineIsRead(mode: GuiMode, prev: LiveSummary, f: FrameMetrics)
    ensures FramesOfRawLine(mode, FrameText(f)) ==
      if AnyNegative(f) || !mode.Admits(ModeName(f.mode)) then [] else [Decoded(f)]
  {
    hide NumberText, ParseFrame, Clean, Contains, RunLength;
    FrameTextIsPlain(f);
    CleanKeeps(FrameText(f));
    FrameRoundTrip(f);
    assert "Frame" <= FrameText(f);
  }

  // ---------- The summary lines ----------

  predicate AnyNegativeIn(r: Range) {
    r.min.negative || r.max.negative || r.avg.negative
  }

  lemma SpacedMatches(x: Fixed, places: nat, rest: string, next: Pattern)
    requires places > 0 && (rest == "" || !IsDigitOrDot(rest[0]))
    ensures MatchAt(SpacedPattern(next), SpacedNumber(x, places, rest)) ==
      if x.negative then None else Prepend([PrintUnits(x.units, places)], MatchAt(next, rest))
  {
    hide MatchAt, RunLength, PrintUnits;
    var text := PrintFixed(x, places) + rest;
    if x.negative {
      MatchMany(DigitsAndDots, 1, true, next, "", text);
      assert "" + text == text;
    } else {
      assert PrintFixed(x, places) == PrintUnits(x.units, places);
      MatchMany(DigitsAndDots, 1, true, next, PrintFixed(x, places), rest);
      var r := Prepend([PrintUnits(x.units, places)], MatchAt(next, rest));
      assert r.Some? ==> [] + r.value == r.value;
    }
    MatchMany(Space, 0, false, Many(DigitsAndDots, 1, true, next), " ", text);
  }

  /** A comma, a space and the rest. */
  lemma CommaMatches(next: Pattern, rest: string)
    requires rest != "" && !IsPythonSpace(rest[0])
    ensures MatchAt(Lit(",", Many(Space, 0, false, next)), "," + (" " + rest)) == MatchAt(next, rest)
  {
    MatchLit(",", Many(Space, 0, false, next), " " + rest);
    MatchMany(Space, 0, false, next, " ", rest);
    var r := MatchAt(next, rest);
    assert r.Some? ==> [] + r.value == r.value;
  }

  lemma LabelledMatches(name: string, x: Fixed, places: nat, rest: string, next: Pattern)
    requires places > 0 && (rest == "" || !IsDigitOrDot(rest[0]))
    ensures MatchAt(Lit(name, SpacedPattern(next)), name + SpacedNumber(x, places, rest)) ==
      if x.negative then None else Prepend([PrintUnits(x.units, places)], MatchAt(next, rest))
  {
    MatchLit(name, SpacedPattern(next), SpacedNumber(x, places, rest));
    SpacedMatches(x, places, rest, next);
  }

  function MaxGroups(r: Range, places: nat): Option<seq<string>>
    requires places > 0
  {
    if r.max.negative || r.avg.negative then None
    else Some([PrintUnits(r.max.units, places), PrintUnits(r.avg.units, places)])
  }

  lemma MaxMatches(r: Range, places: nat)
    requires places > 0
    ensures MatchAt(MAX_PATTERN, MaxText(r, places)) == MaxGroups(r, places)
  {
    var avgPattern, avgText := Lit("Avg:", SpacedPattern(End)), "Avg:" + SpacedNumber(r.avg, places, "");
    LabelledMatches("Avg:", r.avg, places, "", End);
    CommaMatches(avgPattern, avgText);
    LabelledMatches("Max:", r.max, places, "," + (" " + avgText), Lit(",", Many(Space, 0, false, avgPattern)));
    var max, avg := PrintUnits(r.max.units, places), PrintUnits(r.avg.units, places);
    assert [avg] + [] == [avg];
    assert [max] + [avg] == [max, avg];
  }

  lemma RangeMatches(r: Range, places: nat)
    requires places > 0
    ensures MatchAt(SUMMARY_PATTERN, RangeText(r, places)) ==
      if r.min.negative then None else Prepend([PrintUnits(r.min.units, places)], MaxGroups(r, places))
  {
    MaxMatches(r, places);
    CommaMatches(MAX_PATTERN, MaxText(r, places));
    LabelledMatches("Min:", r.min, places, "," + (" " + MaxText(r, places)),
      Lit(",", Many(Space, 0, false, MAX_PATTERN)));
  }

  lemma SearchRetries(p: Pattern, s: string)
    requires MatchAt(p, s) == None && s != ""
    ensures Search(p, s) == Search(p, s[1..])
  {
  }

  lemma OnlyFirstCapital(r: Range, places: nat)
    requires places > 0
    ensures 'M' !in MaxText(r, places)[1..]
  {
    hide PrintUnits;
    var avg := SpacedNumber(r.avg, places, "");
    assert 'M' !in avg;
    var rest := "," + (" " + ("Avg:" + avg));
    assert 'M' !in rest;
    assert 'M' !in SpacedNumber(r.max, places, rest);
    assert MaxText(r, places)[1..] == "ax:" + SpacedNumber(r.max, places, rest);
  }

  lemma AfterFirstCapital(r: Range, places: nat)
    requires places > 0
    ensures RangeText(r, places)[1..] == "in: " + PrintFixed(r.min, places) + ", " + MaxText(r, places)
    ensures 'M' !in "in: " + PrintFixed(r.min, places) + ", "
  {
    hide MaxText, PrintFixed;
    var min, max := PrintFixed(r.min, places), MaxText(r, places);
    assert "," + (" " + max) == ", " + max;
    Regroup(min, ", ", max);
    assert RangeText(r, places)[1..] == "in: " + (min + ", " + max);
    Regroup("in: ", min + ", ", max);
    Regroup("in: ", min, ", ");
  }

  /** A range with a minus sign is nowhere matched: the only other capital M starts "Max:". */
  lemma RangeSearchFails(r: Range, places: nat)
    requires places > 0 && MatchAt(SUMMARY_PATTERN, RangeText(r, places)) == None
    ensures Search(SUMMARY_PATTERN, RangeText(r, places)) == None
  {
    var max := MaxText(r, places);
    var before := "in: " + PrintFixed(r.min, places) + ", ";
    OnlyFirstCapital(r, places);
    AfterFirstCapital(r, places);
    SearchRetries(SUMMARY_PATTERN, RangeText(r, places));
    SearchSkips(SUMMARY_PATTERN, before, max);
    NoMatchAtMax(r, places);
    SearchRetries(SUMMARY_PATTERN, max);
    SearchFails(SUMMARY_PATTERN, max[1..]);
  }

  lemma NoMatchAtMax(r: Range, places: nat)
    requires places > 0
    ensures MaxText(r, places) != "" && MatchAt(SUMMARY_PATTERN, MaxText(r, places)) == None
  {
    assert MaxText(r, places)[1] == 'a' && "Min:"[1] == 'i';
  }

  lemma RangeSearch(before: string, r: Range, places: nat)
    requires places > 0 && 'M' !in before
    ensures Search(SUMMARY_PATTERN, before + RangeText(r, places)) ==
      if AnyNegativeIn(r) then None
      else Some([PrintUnits(r.min.units, places), PrintUnits(r.max.units, places), PrintUnits(r.avg.units, places)])
  {
    SearchSkips(SUMMARY_PATTERN, before, RangeText(r, places));
    RangeMatches(r, places);
    if AnyNegativeIn(r) {
      RangeSearchFails(r, places);
    } else {
      var min, max := PrintUnits(r.min.units, places), PrintUnits(r.max.units, places);
      var avg := PrintUnits(r.avg.units, places);
      assert [min] + [max, avg] == [min, max, avg];
    }
  }

  function DecodedRange(r: Range, places: nat): Triple<Number> {
    Triple(Number(r.min.units, places), Number(r.max.units, places), Number(r.avg.units, places))
  }

  function DecodedAmp(r: Range): Triple<Level> {
    Triple(AmplitudeToDbfs(Number(r.min.units, 2)), AmplitudeToDbfs(Number(r.max.units, 2)),
      AmplitudeToDbfs(Number(r.avg.units, 2)))
  }

  /** A printed range replaces the three stored numbers, or none of them when one carries a minus sign. */
  lemma RangeRoundTrip(prev: Triple<Number>, prevAmp: Option<Triple<Level>>, before: string, r: Range, places: nat)
    requires places > 0 && 'M' !in before
    ensures UpdatedRange(prev, before + RangeText(r, places)) ==
      if AnyNegativeIn(r) then prev else DecodedRange(r, places)
    ensures places == 2 ==>
      UpdatedAmp(prevAmp, before + RangeText(r, places)) == if AnyNegativeIn(r) then prevAmp else Some(DecodedAmp(r))
  {
    RangeSearch(before, r, places);
    FloatRoundTrip(r.min.units, places);
    FloatRoundTrip(r.max.units, places);
    FloatRoundTrip(r.avg.units, places);
  }

  // ---------- Whole log messages ----------

  /** A message handed to enqueue_log: a frame line, or one of the five lines of a summary. */
  datatype Message = FrameMessage(f: FrameMetrics) | SummaryMessage(s: SummaryMetrics, part: nat) {
    ghost predicate Valid() {
      SummaryMessage? ==> part < 5
    }

    function Text(): string {
      if FrameMessage? then FrameText(f) else SummaryText(s, part)
    }
  }

  function FramesOfMessage(mode: GuiMode, m: Message): seq<Frame> {
    if m.SummaryMessage? || AnyNegative(m.f) || !mode.Admits(ModeName(m.f.mode)) then [] else [Decoded(m.f)]
  }

  function SummaryAfterMessage(prev: LiveSummary, m: Message): LiveSummary {
    if m.FrameMessage? then prev
    else if m.part == 0 then prev.(frames := m.s.frames)
    else
      var r := RangeOf(m.s, m.part);
      if AnyNegativeIn(r) then prev
      else if m.part == 1 then prev.(latency := DecodedRange(r, 2))
      else if m.part == 2 then prev.(amp := Some(DecodedAmp(r)))
      else if m.part == 3 then prev.(cpu := DecodedRange(r, 1))
      else prev.(dsp := DecodedRange(r, 1))
  }

  lemma SummaryIsNoFrame(line: string)
    requires 'F' !in line
    ensures ParseFrame(line) == None
  {
    hide MatchAt, Search, RunLength, FrameOfGroups;
    SearchFails(LOG_PATTERN, line);
  }

  /** "Frame" not followed by white space does not start a frame line. */
  lemma FrameWithoutSpace(rest: string)
    requires rest != "" && !IsPythonSpace(rest[0])
    ensures MatchAt(LOG_PATTERN, "Frame" + rest) == None
  {
    hide RunLength;
    MatchLit("Frame", NUMBER_PATTERN, rest);
    MatchMany(Space, 1, false, Many(Digits, 1, true, Lit(":", AMP_PATTERN)), "", rest);
    assert "" + rest == rest;
  }

  lemma CountIsNoFrame(before: string, rest: string)
    requires 'F' !in before && 'F' !in rest && rest != "" && !IsPythonSpace(rest[0])
    ensures ParseFrame(before + ("Frame" + rest)) == None
  {
    hide MatchAt, Search, RunLength, FrameOfGroups;
    var line := "Frame" + rest;
    SearchSkips(LOG_PATTERN, before, line);
    FrameWithoutSpace(rest);
    SearchRetries(LOG_PATTERN, line);
    assert line[1..] == "rame" + rest;
    SearchFails(LOG_PATTERN, line[1..]);
  }

  ghost predicate PlainNumberText(s: string) {
    All(s, IsPlain) && s != "" && IsDigit(s[|s| - 1])
  }

  lemma LabelledIsPlain(name: string, x: Fixed, places: nat, rest: string)
    requires places > 0 && All(name, IsPlain) && (rest == "" || PlainNumberText(rest))
    ensures PlainNumberText(name + SpacedNumber(x, places, rest))
  {
  }

  lemma CommaIsPlain(rest: string)
    requires PlainNumberText(rest)
    ensures PlainNumberText("," + (" " + rest))
  {
  }

  lemma MaxIsPlain(r: Range, places: nat)
    requires places > 0
    ensures PlainNumberText(MaxText(r, places))
  {
    var avg := "Avg:" + SpacedNumber(r.avg, places, "");
    LabelledIsPlain("Avg:", r.avg, places, "");
    CommaIsPlain(avg);
    LabelledIsPlain("Max:", r.max, places, "," + (" " + avg));
  }

  lemma RangeIsPlain(r: Range, places: nat)
    requires places > 0
    ensures PlainNumberText(RangeText(r, places))
  {
    MaxIsPlain(r, places);
    CommaIsPlain(MaxText(r, places));
    LabelledIsPlain("Min:", r.min, places, "," + (" " + MaxText(r, places)));
  }

  /** What the two parsers do with a summary line, given what they do with its text. */
  lemma SummaryLineIsRead(mode: GuiMode, prev: LiveSummary, before: string, rest: string)
    requires "[Live Summary]" <= before && All(before[1..], c => ' ' <= c <= '~')
    requires All(rest, c => ' ' <= c <= '~') && rest != "" && IsDigit(rest[|rest| - 1])
    requires ParseFrame(before + rest) == None
    ensures FramesOfRawLine(mode, before + rest) == []
    ensures SummaryAfterLine(prev, before + rest) == UpdatedSummary(prev, before + rest)
  {
    var line := before + rest;
    assert line[0] == '[' && line[|line| - 1] == rest[|rest| - 1];
    CleanKeeps(line);
    assert "[Live Summary]" <= line;
  }

  lemma RangeLineIsRead(mode: GuiMode, prev: LiveSummary, before: string, r: Range, places: nat)
    requires places > 0 && "[Live Summary]" <= before && All(before[1..], IsPlain)
    ensures FramesOfRawLine(mode, before + RangeText(r, places)) == []
    ensures SummaryAfterLine(prev, before + RangeText(r, places)) == UpdatedSummary(prev, before + RangeText(r, places))
  {
    hide ParseFrame, RangeText, FramesOfRawLine, SummaryAfterLine, UpdatedSummary;
    RangeIsPlain(r, places);
    assert before[0] == '[';
    SummaryIsNoFrame(before + RangeText(r, places));
    SummaryLineIsRead(mode, prev, before, RangeText(r, places));
  }

  lemma FramesLineIsRead(mode: GuiMode, prev: LiveSummary, frames: nat)
    ensures FramesOfRawLine(mode, "[Live Summary] Frames: " + PrintNat(frames)) == []
    ensures SummaryAfterLine(prev, "[Live Summary] Frames: " + PrintNat(frames)) == prev.(frames := frames)
  {
    hide ParseFrame, Clean, Contains, AfterColon, RunLength, PrintNat;
    var before, digits := "[Live Summary] Frames: ", PrintNat(frames);
    var line := before + digits;
    assert "Frame" + "s: " == "Frames: " && "[Live Summary] " + "Frames: " == before;
    Regroup("Frame", "s: ", digits);
    Regroup("[Live Summary] ", "Frames: ", digits);
    CountIsNoFrame("[Live Summary] ", "s: " + digits);
    assert ParseFrame(line) == None;
    SummaryLineIsRead(mode, prev, before, digits);
    CountAfterColon(digits);
    PrintedNatValue(frames);
    assert "[Live Summary] Frames:" <= line;
  }

  lemma CountAfterColon(digits: string)
    requires digits != "" && All(digits, IsDigit)
    ensures AfterColon("[Live Summary] Frames: " + digits) == digits
  {
    var line, rest := "[Live Summary] Frames: " + digits, " " + digits;
    assert ":" + " " == ": " && "[Live Summary] Frames" + ": " == "[Live Summary] Frames: ";
    Regroup(":", " ", digits);
    Regroup("[Live Summary] Frames", ": ", digits);
    RunOf("[Live Summary] Frames", ":" + rest, NotColon);
    assert line[22..] == rest;
    RunOf(rest, "", NotColon);
    assert rest + "" == rest && rest[..|rest|] == rest;
    RunOf(" ", digits, IsPythonSpace);
    assert rest[1..] == digits;
  }

  lemma FrameLeavesSummary(prev: LiveSummary, f: FrameMetrics)
    ensures SummaryAfterLine(prev, FrameText(f)) == prev
    ensures All(FrameText(f), NotNewline)
  {
    hide Clean, Contains, UpdatedSummary, NumberText;
    FrameTextIsPlain(f);
    CleanKeeps(FrameText(f));
    OtherLineLeavesSummary(prev, FrameText(f));
  }

  lemma OtherLineLeavesSummary(prev: LiveSummary, line: string)
    requires line != "" && line[0] != '['
    ensures UpdatedSummary(prev, line) == prev
  {
    hide UpdatedRange, UpdatedAmp, AfterColon, ParseInt;
  }

  // Which entry a summary line updates is decided by its sixteenth character.

  lemma LatencyUpdates(prev: LiveSummary, line: string)
    requires "[Live Summary] Latency" <= line
    ensures UpdatedSummary(prev, line) == prev.(latency := UpdatedRange(prev.latency, line))
  {
    hide UpdatedRange, UpdatedAmp, AfterColon, ParseInt;
    assert line[15] == 'L';
  }

  lemma AmpUpdates(prev: LiveSummary, line: string)
    requires "[Live Summary] Amp" <= line
    ensures UpdatedSummary(prev, line) == prev.(amp := UpdatedAmp(prev.amp, line))
  {
    hide UpdatedRange, UpdatedAmp, AfterColon, ParseInt;
    assert line[15] == 'A';
  }

  lemma CpuUpdates(prev: LiveSummary, line: string)
    requires "[Live Summary] CPU" <= line
    ensures UpdatedSummary(prev, line) == prev.(cpu := UpdatedRange(prev.cpu, line))
  {
    hide UpdatedRange, UpdatedAmp, AfterColon, ParseInt;
    assert line[15] == 'C';
  }

  lemma DspUpdates(prev: LiveSummary, line: string)
    requires "[Live Summary] DSP" <= line
    ensures UpdatedSummary(prev, line) == prev.(dsp := UpdatedRange(prev.dsp, line))
  {
    hide UpdatedRange, UpdatedAmp, AfterColon, ParseInt;
    assert line[15] == 'D';
  }

  function UpdatedEntry(prev: LiveSummary, part: nat, line: string): LiveSummary {
    if part == 1 then prev.(latency := UpdatedRange(prev.latency, line))
    else if part == 2 then prev.(amp := UpdatedAmp(prev.amp, line))
    else if part == 3 then prev.(cpu := UpdatedRange(prev.cpu, line))
    else prev.(dsp := UpdatedRange(prev.dsp, line))
  }

  /** The word that decides which entry a summary line updates. */
  function Word(part: nat): string {
    if part == 1 then "Latency" else if part == 2 then "Amp" else if part == 3 then "CPU" else "DSP"
  }

  lemma HeadStarts(part: nat, rest: string)
    requires 0 < part < 5
    ensures "[Live Summary] " + Word(part) <= Head(part) + rest
  {
    assert Word(part) <= Kind(part);
    assert SUMMARY_START + Word(part) <= SUMMARY_START + Kind(part);
  }

  lemma EntryOfHead(prev: LiveSummary, part: nat, rest: string)
    requires 0 < part < 5
    ensures UpdatedSummary(prev, Head(part) + rest) == UpdatedEntry(prev, part, Head(part) + rest)
  {
    var line := Head(part) + rest;
    HeadStarts(part, rest);
    match part
    case 1 =>
      assert "[Live Summary] " + "Latency" == "[Live Summary] Latency";
      LatencyUpdates(prev, line);
    case 2 =>
      assert "[Live Summary] " + "Amp" == "[Live Summary] Amp";
      AmpUpdates(prev, line);
    case 3 =>
      assert "[Live Summary] " + "CPU" == "[Live Summary] CPU";
      CpuUpdates(prev, line);
    case _ =>
      assert "[Live Summary] " + "DSP" == "[Live Summary] DSP";
      DspUpdates(prev, line);
  }

  lemma EntryRoundTrip(prev: LiveSummary, s: SummaryMetrics, part: nat, head: string)
    requires 0 < part < 5 && 'M' !in head
    ensures UpdatedEntry(prev, part, head + RangeText(RangeOf(s, part), Places(part))) ==
      SummaryAfterMessage(prev, SummaryMessage(s, part))
  {
    var t := if part == 1 then prev.latency else if part == 3 then prev.cpu else prev.dsp;
    RangeRoundTrip(t, prev.amp, head, RangeOf(s, part), Places(part));
  }

  ghost predicate RangeHead(head: string) {
    "[Live Summary]" <= head && All(head[1..], IsPlain) && 'M' !in head
  }

  lemma HeadParts(kind: string)
    requires All(kind, IsPlain) && 'M' !in kind
    ensures RangeHead(SUMMARY_START + kind)
  {
    var start := SUMMARY_START;
    assert forall i :: 1 <= i < |start| ==> IsPlain(start[i]);
  }

  lemma HeadsAreRangeHeads(part: nat)
    requires 0 < part < 5
    ensures RangeHead(Head(part))
  {
    HeadParts(Kind(part));
  }

  lemma NoNewlineInParts(head: string, text: string)
    requires RangeHead(head) && PlainNumberText(text)
    ensures All(head + text, NotNewline)
  {
    assert head[0] == '[';
  }

  /** The printed message has no line break, and both parsers make of it what the message says. */
  ghost predicate MessageReads(mode: GuiMode, prev: LiveSummary, m: Message)
    requires m.Valid()
  {
    && All(m.Text(), NotNewline)
    && FramesOfRawLine(mode, m.Text()) == FramesOfMessage(mode, m)
    && SummaryAfterLine(prev, m.Text()) == SummaryAfterMessage(prev, m)
  }

  lemma RangeIsRead(mode: GuiMode, prev: LiveSummary, s: SummaryMetrics, part: nat)
    requires 0 < part < 5
    ensures MessageReads(mode, prev, SummaryMessage(s, part))
  {
    var head, r, places := Head(part), RangeOf(s, part), Places(part);
    HeadsAreRangeHeads(part);
    RangeIsPlain(r, places);
    NoNewlineInParts(head, RangeText(r, places));
    RangeLineIsRead(mode, prev, head, r, places);
    EntryOfHead(prev, part, RangeText(r, places));
    EntryRoundTrip(prev, s, part, head);
  }

  lemma CountIsRead(mode: GuiMode, prev: LiveSummary, s: SummaryMetrics)
    ensures MessageReads(mode, prev, SummaryMessage(s, 0))
  {
    hide FramesOfRawLine, SummaryAfterLine, PrintNat;
    assert Head(0) == "[Live Summary] Frames: ";
    FramesLineIsRead(mode, prev, s.frames);
  }

  lemma FrameIsRead(mode: GuiMode, prev: LiveSummary, f: FrameMetrics)
    ensures MessageReads(mode, prev, FrameMessage(f))
  {
    hide FrameText, FramesOfRawLine, SummaryAfterLine, Decoded;
    FrameLineIsRead(mode, prev, f);
    FrameLeavesSummary(prev, f);
  }

  /** Reading a printed message back: what it adds to the series and what it does to the live summary. */
  lemma MessageIsRead(mode: GuiMode, prev: LiveSummary, m: Message)
    requires m.Valid()
    ensures MessageReads(mode, prev, m)
  {
    match m
    case FrameMessage(f) => FrameIsRead(mode, prev, f);
    case SummaryMessage(s, part) =>
      if part == 0 { CountIsRead(mode, prev, s); } else { RangeIsRead(mode, prev, s, part); }
  }

  function Messages(s: SummaryMetrics): (ms: seq<Message>)
    ensures |ms| == 5 && forall m :: m in ms ==> m.Valid()
  {
    [SummaryMessage(s, 0), SummaryMessage(s, 1), SummaryMessage(s, 2), SummaryMessage(s, 3), SummaryMessage(s, 4)]
  }

  function SummaryAfterMessages(prev: LiveSummary, ms: seq<Message>): LiveSummary
    decreases ms
  {
    if ms == [] then prev else SummaryAfterMessages(SummaryAfterMessage(prev, ms[0]), ms[1..])
  }

  /** The live summary that the five lines of one summary should leave. */
  function DecodedSummary(s: SummaryMetrics): LiveSummary {
    LiveSummary(s.frames, DecodedRange(s.latency, 2), Some(DecodedAmp(s.amp)), DecodedRange(s.cpu, 1),
      DecodedRange(s.dsp, 1))
  }

  /** One complete summary replaces the whole live summary, whatever was shown before. */
  lemma SummaryRoundTrip(prev: LiveSummary, s: SummaryMetrics)
    requires !AnyNegativeIn(s.latency) && !AnyNegativeIn(s.amp) && !AnyNegativeIn(s.cpu) && !AnyNegativeIn(s.dsp)
    ensures SummaryAfterMessages(prev, Messages(s)) == DecodedSummary(s)
  {
    var ms := Messages(s);
    var a := SummaryAfterMessage(prev, ms[0]);
    var b := SummaryAfterMessage(a, ms[1]);
    var c := SummaryAfterMessage(b, ms[2]);
    var d := SummaryAfterMessage(c, ms[3]);
    assert SummaryAfterMessages(prev, ms) == SummaryAfterMessages(a, ms[1..]);
    assert ms[1..][1..] == ms[2..] && ms[2..][1..] == ms[3..] && ms[3..][1..] == ms[4..] && ms[4..][1..] == [];
    assert SummaryAfterMessages(a, ms[1..]) == SummaryAfterMessages(b, ms[2..]);
    assert SummaryAfterMessages(c, ms[3..]) == SummaryAfterMessages(d, ms[4..]);
  }

  // ---------- No printed line is truncated ----------

  /** At most 39 digits before the point, as every float printed with %f has. */
  ghost predicate FloatSized(x: Fixed, places: nat) {
    |PrintNat(DropDigits(x.units, places))| <= 39
  }

  ghost predicate FloatRange(r: Range, places: nat) {
    FloatSized(r.min, places) && FloatSized(r.max, places) && FloatSized(r.avg, places)
  }

  /** The metrics that the types of log_frame_metrics and the running totals of floats can hold. */
  ghost predicate InRange(m: Message) {
    && m.Valid()
    && match m
       case FrameMessage(f) =>
         && f.frame < 0x8000_0000
         && FloatSized(f.amp, 2) && FloatSized(f.latency, 2) && FloatSized(f.cpu, 1) && FloatSized(f.dsp, 1)
       case SummaryMessage(s, _) =>
         && s.frames < 0x8000_0000
         && FloatRange(s.latency, 2) && FloatRange(s.amp, 2) && FloatRange(s.cpu, 1) && FloatRange(s.dsp, 1)
  }

  lemma FixedLength(x: Fixed, places: nat)
    requires 0 < places <= 2 && FloatSized(x, places)
    ensures |PrintFixed(x, places)| <= 43
  {
  }

  lemma CountLength(n: nat)
    requires n < 0x8000_0000
    ensures |PrintNat(n)| <= 10
  {
    assert Pow10(10) == 10_000_000_000;
    NatLength(n, 10);
  }

  lemma RangeLength(r: Range, places: nat)
    requires 0 < places <= 2 && FloatRange(r, places)
    ensures |RangeText(r, places)| <= 148
  {
    FixedLength(r.min, places);
    FixedLength(r.max, places);
    FixedLength(r.avg, places);
  }

  lemma FrameLength(f: FrameMetrics)
    requires InRange(FrameMessage(f))
    ensures |FrameText(f)| < LINE_SIZE
  {
    CountLength(f.frame);
    FixedLength(f.amp, 2);
    FixedLength(f.latency, 2);
    FixedLength(f.cpu, 1);
    FixedLength(f.dsp, 1);
    assert |CpuText(f)| <= 2 * 43 + 21;
    assert |LatencyText(f)| <= |CpuText(f)| + 43 + 21;
    assert |AmpText(f)| <= |LatencyText(f)| + 52;
  }

  lemma MessageLength(m: Message)
    requires InRange(m)
    ensures |m.Text()| < LINE_SIZE
  {
    match m
    case FrameMessage(f) => FrameLength(f);
    case SummaryMessage(s, part) => SummaryLength(s, part);
  }

  lemma SummaryLength(s: SummaryMetrics, part: nat)
    requires InRange(SummaryMessage(s, part))
    ensures |SummaryText(s, part)| < LINE_SIZE
  {
    assert |Head(part)| <= 29;
    if part == 0 { CountLength(s.frames); } else { RangeLength(RangeOf(s, part), Places(part)); }
  }
}
