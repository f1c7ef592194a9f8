/** The log side of the GUI (audmon.py): line reassembly, the two line parsers and the bounded series they fill. */
module AudMon {
  import opened Common
  import opened Text
  import opened Regex

  const MAX_FRAMES: nat := 2048

  // ---------- Lines ----------

  /** The complete lines of a text and what follows the last newline. */
  function SplitLines(s: string): (r: Split)
    ensures All(r.rest, NotNewline)
  {
    var k := RunLength(s, NotNewline);
    if k == |s| then Split([], s)
    else
      var t := SplitLines(s[k + 1..]);
      Split([s[..k]] + t.lines, t.rest)
  }

  lemma SplitFirstLine(line: string, s: string)
    requires All(line, NotNewline)
    ensures var t := SplitLines(s); SplitLines(line + ("\n" + s)) == Split([line] + t.lines, t.rest)
  {
    var all := line + ("\n" + s);
    RunOf(line, "\n" + s, NotNewline);
    assert all[..|line|] == line && all[|line| + 1..] == s;
  }

  lemma SplitWithoutNewline(s: string)
    requires All(s, NotNewline)
    ensures SplitLines(s) == Split([], s)
  {
    RunOf(s, "", NotNewline);
    assert s + "" == s;
  }

  lemma CutAt(a: string, k: nat)
    requires k < |a| && a[k] == '\n'
    ensures a == a[..k] + ("\n" + a[k + 1..])
  {
  }

  ghost predicate MayBeCut(a: string, b: string) {
    var x := SplitLines(a);
    var y := SplitLines(x.rest + b);
    SplitLines(a + b) == Split(x.lines + y.lines, y.rest)
  }

  lemma CutLater(line: string, rest: string, b: string)
    requires All(line, NotNewline) && MayBeCut(rest, b)
    ensures MayBeCut(line + ("\n" + rest), b)
  {
    SplitFirstLine(line, rest);
    SplitFirstLine(line, rest + b);
    Regroup("\n", rest, b);
    Regroup(line, "\n" + rest, b);
    var x := SplitLines(rest);
    var y := SplitLines(x.rest + b);
    Regroup([line], x.lines, y.lines);
  }

  /** Keeping the rest between two reads loses nothing: a text may be cut anywhere. */
  lemma {:induction false} SplitInPieces(a: string, b: string)
    ensures MayBeCut(a, b)
  {
    var k := RunLength(a, NotNewline);
    if k == |a| {
      SplitWithoutNewline(a);
      assert [] + SplitLines(a + b).lines == SplitLines(a + b).lines;
    } else {
      SplitInPieces(a[k + 1..], b);
      CutLater(a[..k], a[k + 1..], b);
      CutAt(a, k);
    }
  }

  /** What was kept from before goes in front of the first line, and changes no other. */
  lemma KeptRestGoesFirst(kept: string, data: string)
    requires All(kept, NotNewline)
    ensures var t := SplitLines(data);
      SplitLines(kept + data) ==
        if t.lines == [] then Split([], kept + data) else Split([kept + t.lines[0]] + t.lines[1..], t.rest)
  {
    hide RunLength;
    var k := RunLength(data, NotNewline);
    if k == |data| {
      SplitWithoutNewline(kept + data);
    } else {
      var line, more := data[..k], data[k + 1..];
      CutAt(data, k);
      SplitFirstLine(kept + line, more);
      Regroup(kept, line, "\n" + more);
    }
  }

  /** str.strip() */
  function Strip(s: string): string {
    DropTrailing(s[RunLength(s, IsPythonSpace)..], IsPythonSpace)
  }

  /** line.strip().replace('\r', '') */
  function Clean(line: string): string {
    DropReturns(Strip(line))
  }

  lemma CleanKeeps(line: string)
    requires line != "" && !IsPythonSpace(line[0]) && !IsPythonSpace(line[|line| - 1]) && '\r' !in line
    ensures Clean(line) == line
  {
    NoReturnsToDrop(line);
  }

  function Contains(s: string, word: string): bool {
    word <= s || (s != "" && Contains(s[1..], word))
  }

  lemma {:induction false} ContainsAt(s: string, word: string) returns (i: nat)
    requires Contains(s, word)
    ensures i + |word| <= |s| && s[i..i + |word|] == word
  {
    if word <= s {
      i := 0;
    } else {
      i := ContainsAt(s[1..], word);
      i := i + 1;
    }
  }

  ghost predicate StandsAt(s: string, word: string, i: int) {
    0 <= i && i + |word| <= |s| && s[i..i + |word|] == word
  }

  ghost predicate Occurs(s: string, word: string) {
    exists i :: StandsAt(s, word, i)
  }

  /** `word in s` of Python. */
  lemma {:induction false} ContainsIs(s: string, word: string)
    ensures Contains(s, word) <==> Occurs(s, word)
  {
    if Contains(s, word) {
      var i := ContainsAt(s, word);
      assert StandsAt(s, word, i);
    }
    forall i | StandsAt(s, word, i)
      ensures Contains(s, word)
    {
      ContainsBehind(s, word, i);
    }
  }

  lemma {:induction false} ContainsBehind(s: string, word: string, i: nat)
    requires StandsAt(s, word, i)
    ensures Contains(s, word)
  {
    if i > 0 {
      assert s[1..][i - 1..i - 1 + |word|] == word;
      ContainsBehind(s[1..], word, i - 1);
    } else {
      assert s[0..|word|] == s[..|word|];
    }
  }

  /** The white space of Python: blanks, and the characters 9 to 13 and 28 to 31. */
  ghost predicate PythonBlank(s: string) {
    forall i :: 0 <= i < |s| ==> s[i] == ' ' || 9 <= s[i] as int <= 13 || 28 <= s[i] as int <= 31
  }

  lemma StripEnd(text: string, behind: string)
    requires PythonBlank(behind) && text != "" && !IsPythonSpace(text[|text| - 1])
    ensures DropTrailing(text + behind, IsPythonSpace) == text
  {
    hide DropTrailing;
    var rest := text + behind;
    assert rest[|text| - 1] == text[|text| - 1] && rest[..|text|] == text;
    DropTrailingAt(rest, |text|, IsPythonSpace);
  }

  lemma StripStart(before: string, rest: string)
    requires PythonBlank(before) && rest != "" && !IsPythonSpace(rest[0])
    ensures Strip(before + rest) == DropTrailing(rest, IsPythonSpace)
  {
    hide RunLength, DropTrailing;
    RunOf(before, rest, IsPythonSpace);
    assert (before + rest)[|before|..] == rest;
  }

  /** White space around a line goes, and so does every carriage return in it. */
  lemma CleanIs(before: string, text: string, behind: string)
    requires PythonBlank(before) && PythonBlank(behind)
    requires text != "" && !IsPythonSpace(text[0]) && !IsPythonSpace(text[|text| - 1])
    ensures Clean(before + (text + behind)) == DropReturns(text)
    ensures '\r' !in text ==> Clean(before + (text + behind)) == text
  {
    hide Strip, DropReturns, PythonBlank;
    StripStart(before, text + behind);
    StripEnd(text, behind);
    if '\r' !in text { NoReturnsToDrop(text); }
  }

  // ---------- Frame lines ----------

  /** \s+name([..]+) followed by the rest of the pattern. */
  function FieldPattern(name: string, cls: Class, next: Pattern): Pattern {
    Many(Space, 1, false, Lit(name, Many(cls, 1, true, next)))
  }

  const DSP_PATTERN := FieldPattern("DSPLoad=", DigitsAndDots, Lit("%", End))
  const CPU_PATTERN := FieldPattern("CPULoad=", DigitsAndDots, Lit("%", DSP_PATTERN))
  const MODE_PATTERN := FieldPattern("Mode=", Capitals, CPU_PATTERN)
  const LATENCY_PATTERN := FieldPattern("Latency=", DigitsAndDots, Lit("ms,", MODE_PATTERN))
  const AMP_PATTERN := FieldPattern("AvgAmp=", DigitsAndDots, Lit(",", LATENCY_PATTERN))
  const NUMBER_PATTERN := Many(Space, 1, false, Many(Digits, 1, true, Lit(":", AMP_PATTERN)))

  /** Frame\s+(\d+):\s+AvgAmp=([\d.]+),\s+Latency=([\d.]+)ms,\s+Mode=([A-Z]+)\s+CPULoad=([\d.]+)%\s+DSPLoad=([\d.]+)% */
  const LOG_PATTERN := Lit("Frame", NUMBER_PATTERN)

  /** The log pattern has one way to match at a place, so the greedy matcher is the regular expression. */
  lemma LogPatternIsSeparated()
    ensures Separated(LOG_PATTERN)
  {
    assert Separated(DSP_PATTERN) && Separated(CPU_PATTERN) && Separated(MODE_PATTERN);
    assert Separated(LATENCY_PATTERN) && Separated(AMP_PATTERN) && Separated(NUMBER_PATTERN);
  }

  /** So the frame parser finds a frame exactly in the lines that contain a word of the expression. */
  lemma FrameSearchIsExact(line: string)
    ensures Search(LOG_PATTERN, line).Some? <==> exists k :: 0 <= k <= |line| && MatchesAt(LOG_PATTERN, line, k)
  {
    hide MatchesAt, Search, SeparatedToEnd;
    assert SeparatedToEnd(LOG_PATTERN) by {
      LogPatternIsSeparated();
      SeparatedIsToEnd(LOG_PATTERN);
    }
    SearchIsLeftmost(LOG_PATTERN, line);
  }

  datatype Frame = Frame(number: nat, amp: Number, latency: Number, mode: string, cpu: Number, dsp: Number)

  /** The six conversions of parse_log_line; None stands for a ValueError of int() or float(). */
  function FrameOfGroups(g: seq<string>): Option<Frame>
    requires |g| == 6
  {
    var number, amp, latency := ParseInt(g[0]), ParseFloat(g[1]), ParseFloat(g[2]);
    var cpu, dsp := ParseFloat(g[4]), ParseFloat(g[5]);
    if number.None? || amp.None? || latency.None? || cpu.None? || dsp.None? then None
    else Some(Frame(number.value, amp.value, latency.value, g[3], cpu.value, dsp.value))
  }

  function ParseFrame(line: string): Option<Frame> {
    var m := Search(LOG_PATTERN, line);
    if m.Some? && |m.value| == 6 then FrameOfGroups(m.value) else None
  }

  /** The global current_mode and the mode names it admits. */
  datatype GuiMode = Arm | Dsp | Both {
    predicate Admits(mode: string) {
      Both? || mode == (if Arm? then "CPU" else "DSP")
    }
  }

  /** The frames that one line adds to the series: at most one. */
  function FramesOfLine(mode: GuiMode, line: string): seq<Frame> {
    var f := ParseFrame(line);
    if f.Some? && mode.Admits(f.value.mode) then [f.value] else []
  }

  predicate LooksLikeFrame(line: string) {
    Contains(line, "[Summary]") || Contains(line, "Frames Processed") || Contains(line, "Latency:") || "Frame" <= line
  }

  /** What one received line adds: read_data cleans it, skips it when empty and filters it before parsing. */
  function FramesOfRawLine(mode: GuiMode, raw: string): seq<Frame> {
    var line := Clean(raw);
    if line != "" && LooksLikeFrame(line) then FramesOfLine(mode, line) else []
  }

  function FramesOfLines(mode: GuiMode, lines: seq<string>): seq<Frame> {
    if lines == [] then [] else FramesOfRawLine(mode, lines[0]) + FramesOfLines(mode, lines[1..])
  }

  /** Only lines with one of three words, or that begin with "Frame", are given to the frame parser. */
  lemma LineIsFiltered(mode: GuiMode, line: string)
    requires Clean(line) == line && line != ""
    ensures Occurs(line, "[Summary]") ==> FramesOfRawLine(mode, line) == FramesOfLine(mode, line)
    ensures Occurs(line, "Frames Processed") ==> FramesOfRawLine(mode, line) == FramesOfLine(mode, line)
    ensures Occurs(line, "Latency:") || "Frame" <= line ==> FramesOfRawLine(mode, line) == FramesOfLine(mode, line)
    ensures FramesOfRawLine(mode, line) == [] || Occurs(line, "[Summary]") || Occurs(line, "Frames Processed") ||
      Occurs(line, "Latency:") || "Frame" <= line
  {
    hide FramesOfLine, Clean, Contains, Occurs;
    ContainsIs(line, "[Summary]");
    ContainsIs(line, "Frames Processed");
    ContainsIs(line, "Latency:");
  }

  // ---------- Summary lines ----------

  /** amplitude_to_dbfs: a constant for a zero amplitude, else 20 log10(amp / 32767), kept symbolic. */
  datatype Level = Silent | Decibels(amp: Number)

  function AmplitudeToDbfs(amp: Number): Level {
    if amp.units == 0 then Silent else Decibels(amp)
  }

  /** Zero alone is silent, and other amplitudes have levels of their own. */
  lemma LevelsDiffer(a: Number, b: Number)
    ensures AmplitudeToDbfs(a).Silent? <==> a.Value() == 0.0
    ensures AmplitudeToDbfs(a) == AmplitudeToDbfs(b) <==> a == b || (a.Value() == 0.0 && b.Value() == 0.0)
  {
    ValueIsZero(a);
    ValueIsZero(b);
  }

  lemma ValueIsZero(a: Number)
    ensures a.Value() == 0.0 <==> a.units == 0
  {
    var p := Pow10(a.places) as real;
    assert a.Value() * p == a.units as real;
  }

  datatype Triple<T> = Triple(min: T, max: T, avg: T)

  const ZERO := Number(0, 0)
  const NO_RANGE := Triple(ZERO, ZERO, ZERO)

  /** The dictionary live_summary. The amplitude entries are None while they hold the initial 0.0. */
  datatype LiveSummary = LiveSummary(
    frames: nat, latency: Triple<Number>, amp: Option<Triple<Level>>, cpu: Triple<Number>, dsp: Triple<Number>)

  const NO_SUMMARY := LiveSummary(0, NO_RANGE, None, NO_RANGE, NO_RANGE)

  /** \s*([\d.]+) followed by the rest of the pattern. */
  function SpacedPattern(next: Pattern): Pattern {
    Many(Space, 0, false, Many(DigitsAndDots, 1, true, next))
  }

  const MAX_PATTERN := Lit("Max:", SpacedPattern(Lit(",", Many(Space, 0, false, Lit("Avg:", SpacedPattern(End))))))

  /** Min:\s*([\d.]+),\s*Max:\s*([\d.]+),\s*Avg:\s*([\d.]+) */
  const SUMMARY_PATTERN := Lit("Min:", SpacedPattern(Lit(",", Many(Space, 0, false, MAX_PATTERN))))

  /** The summary pattern ends in a repetition; greedy matching is what a backtracking engine does with it. */
  lemma SummaryPatternIsSeparated()
    ensures SeparatedToEnd(SUMMARY_PATTERN) && !Separated(SUMMARY_PATTERN)
  {
    assert SeparatedToEnd(MAX_PATTERN) && !Separated(MAX_PATTERN);
  }

  /** And a range is read exactly from the lines that contain a word of the other. */
  lemma SummarySearchIsExact(line: string)
    ensures Search(SUMMARY_PATTERN, line).Some? <==>
      exists k :: 0 <= k <= |line| && MatchesAt(SUMMARY_PATTERN, line, k)
  {
    hide MatchesAt, Search;
    SummaryPatternIsSeparated();
    SearchIsLeftmost(SUMMARY_PATTERN, line);
  }

  /** Three assignments in a row; a ValueError keeps those already made. */
  function AssignInTurn(prev: Triple<Number>, min: Option<Number>, max: Option<Number>, avg: Option<Number>)
    : (r: Triple<Number>)
    ensures r.min == if min.Some? then min.value else prev.min
    ensures r.max == if min.Some? && max.Some? then max.value else prev.max
    ensures r.avg == if min.Some? && max.Some? && avg.Some? then avg.value else prev.avg
  {
    if min.None? then prev
    else if max.None? then prev.(min := min.value)
    else if avg.None? then prev.(min := min.value, max := max.value)
    else Triple(min.value, max.value, avg.value)
  }

  function UpdatedRange(prev: Triple<Number>, line: string): Triple<Number> {
    var m := Search(SUMMARY_PATTERN, line);
    if m.None? || |m.value| != 3 then prev
    else AssignInTurn(prev, ParseFloat(m.value[0]), ParseFloat(m.value[1]), ParseFloat(m.value[2]))
  }

  /** The amplitude branch converts all three numbers before it assigns any. */
  function UpdatedAmp(prev: Option<Triple<Level>>, line: string): Option<Triple<Level>> {
    var m := Search(SUMMARY_PATTERN, line);
    if m.None? || |m.value| != 3 then prev
    else
      var min, max, avg := ParseFloat(m.value[0]), ParseFloat(m.value[1]), ParseFloat(m.value[2]);
      if min.None? || max.None? || avg.None? then prev
      else Some(Triple(AmplitudeToDbfs(min.value), AmplitudeToDbfs(max.value), AmplitudeToDbfs(avg.value)))
  }

  predicate NotColon(c: char) { c != ':' }

  /** line.split(":")[1].strip() of a line that has a colon. */
  function AfterColon(line: string): string {
    var k := RunLength(line, NotColon);
    if k == |line| then "" else
    var rest := line[k + 1..];
    var part := rest[..RunLength(rest, NotColon)];
    Strip(part)
  }

  function UpdatedSummary(prev: LiveSummary, line: string): LiveSummary {
    if "[Live Summary] Frames:" <= line then
      var n := ParseInt(AfterColon(line));
      if n.Some? then prev.(frames := n.value) else prev
    else if "[Live Summary] Latency" <= line then prev.(latency := UpdatedRange(prev.latency, line))
    else if "[Live Summary] Amp" <= line then prev.(amp := UpdatedAmp(prev.amp, line))
    else if "[Live Summary] CPU" <= line then prev.(cpu := UpdatedRange(prev.cpu, line))
    else if "[Live Summary] DSP" <= line then prev.(dsp := UpdatedRange(prev.dsp, line))
    else prev
  }

  function SummaryAfterLine(prev: LiveSummary, raw: string): LiveSummary {
    var line := Clean(raw);
    if line != "" && Contains(line, "[Live Summary]") then UpdatedSummary(prev, line) else prev
  }

  function SummaryAfterLines(prev: LiveSummary, lines: seq<string>): LiveSummary
    decreases lines
  {
    if lines == [] then prev else SummaryAfterLines(SummaryAfterLine(prev, lines[0]), lines[1..])
  }

  lemma {:induction false} FramesInPieces(mode: GuiMode, a: seq<string>, b: seq<string>)
    ensures FramesOfLines(mode, a + b) == FramesOfLines(mode, a) + FramesOfLines(mode, b)
  {
    hide FramesOfRawLine;
    if a == [] {
      assert a + b == b;
    } else {
      assert (a + b)[0] == a[0] && (a + b)[1..] == a[1..] + b;
      FramesInPieces(mode, a[1..], b);
    }
  }

  lemma {:induction false} SummaryInPieces(prev: LiveSummary, a: seq<string>, b: seq<string>)
    ensures SummaryAfterLines(prev, a + b) == SummaryAfterLines(SummaryAfterLines(prev, a), b)
    decreases a
  {
    hide SummaryAfterLine;
    if a == [] {
      assert a + b == b;
    } else {
      assert (a + b)[0] == a[0] && (a + b)[1..] == a[1..] + b;
      SummaryInPieces(SummaryAfterLine(prev, a[0]), a[1..], b);
    }
  }

  lemma OnePieceMore(start: string, pieces: seq<string>, i: nat)
    requires i < |pieces|
    ensures start + Flatten(pieces[..i + 1]) == start + Flatten(pieces[..i]) + pieces[i]
  {
    assert pieces[..i + 1] == pieces[..i] + [pieces[i]];
    FlattenSnoc(pieces[..i], pieces[i]);
  }

  lemma ReceiveMore(mode: GuiMode, frames: seq<Frame>, prev: LiveSummary, text: string, piece: string)
    ensures var a := SplitLines(text);
      var b := SplitLines(a.rest + piece);
      var all := SplitLines(text + piece);
      && all.rest == b.rest
      && frames + FramesOfLines(mode, a.lines) + FramesOfLines(mode, b.lines) == frames + FramesOfLines(mode, all.lines)
      && SummaryAfterLines(SummaryAfterLines(prev, a.lines), b.lines) == SummaryAfterLines(prev, all.lines)
  {
    var a := SplitLines(text);
    var b := SplitLines(a.rest + piece);
    SplitInPieces(text, piece);
    FramesInPieces(mode, a.lines, b.lines);
    SummaryInPieces(prev, a.lines, b.lines);
    Regroup(frames, FramesOfLines(mode, a.lines), FramesOfLines(mode, b.lines));
  }

  // ---------- The monitor ----------

  function Numbers(fs: seq<Frame>): seq<nat> { seq(|fs|, i requires 0 <= i < |fs| => fs[i].number) }
  function Amps(fs: seq<Frame>): seq<Level> { seq(|fs|, i requires 0 <= i < |fs| => AmplitudeToDbfs(fs[i].amp)) }
  function Latencies(fs: seq<Frame>): seq<Number> { seq(|fs|, i requires 0 <= i < |fs| => fs[i].latency) }
  function Modes(fs: seq<Frame>): seq<string> { seq(|fs|, i requires 0 <= i < |fs| => fs[i].mode) }
  function CpuLoads(fs: seq<Frame>): seq<Number> { seq(|fs|, i requires 0 <= i < |fs| => fs[i].cpu) }
  function DspLoads(fs: seq<Frame>): seq<Number> { seq(|fs|, i requires 0 <= i < |fs| => fs[i].dsp) }

  /** The globals of the log thread. `pushed` is the full history since the last clear. */
  class Monitor {
    var frameNumbers: seq<nat>
    var avgAmps: seq<Level>
    var latencies: seq<Number>
    var modes: seq<string>
    var cpuLoads: seq<Number>
    var dspLoads: seq<Number>
    var liveSummary: LiveSummary
    var recvBuffer: string
    const currentMode: GuiMode
    ghost var pushed: seq<Frame>

    /** Five deques bounded to the latest 2048 frames, and one list that is not bounded. */
    ghost predicate Valid()
      reads this
    {
      && frameNumbers == Latest(Numbers(pushed), MAX_FRAMES)
      && avgAmps == Latest(Amps(pushed), MAX_FRAMES)
      && latencies == Latest(Latencies(pushed), MAX_FRAMES)
      && cpuLoads == Latest(CpuLoads(pushed), MAX_FRAMES)
      && dspLoads == Latest(DspLoads(pushed), MAX_FRAMES)
      && modes == Modes(pushed)
    }

    constructor (mode: GuiMode)
      ensures Valid() && pushed == [] && liveSummary == NO_SUMMARY && recvBuffer == "" && currentMode == mode
    {
      frameNumbers, avgAmps, latencies, modes, cpuLoads, dspLoads := [], [], [], [], [], [];
      liveSummary, recvBuffer, currentMode, pushed := NO_SUMMARY, "", mode, [];
    }

    /** clear_data. The partial line in recv_buffer survives it. */
    method ClearData()
      requires Valid()
      modifies this
      ensures Valid() && pushed == [] && liveSummary == NO_SUMMARY && recvBuffer == old(recvBuffer)
    {
      frameNumbers, avgAmps, latencies, modes, cpuLoads, dspLoads := [], [], [], [], [], [];
      liveSummary, pushed := NO_SUMMARY, [];
    }

    /** The six appends at the end of parse_log_line. */
    method Push(f: Frame)
      requires Valid()
      modifies this
      ensures Valid() && pushed == old(pushed) + [f]
      ensures liveSummary == old(liveSummary) && recvBuffer == old(recvBuffer)
    {
      frameNumbers := Latest(frameNumbers + [f.number], MAX_FRAMES);
      avgAmps := Latest(avgAmps + [AmplitudeToDbfs(f.amp)], MAX_FRAMES);
      latencies := Latest(latencies + [f.latency], MAX_FRAMES);
      modes := modes + [f.mode];
      cpuLoads := Latest(cpuLoads + [f.cpu], MAX_FRAMES);
      dspLoads := Latest(dspLoads + [f.dsp], MAX_FRAMES);
      WindowsSlide(pushed, f);
      pushed := pushed + [f];
    }

    /** parse_log_line: a malformed line, or one of another mode, changes nothing. */
    method ParseLogLine(line: string)
      requires Valid()
      modifies this
      ensures Valid() && pushed == old(pushed) + FramesOfLine(currentMode, line)
      ensures FramesOfLine(currentMode, line) == [] ==>
        frameNumbers == old(frameNumbers) && avgAmps == old(avgAmps) && latencies == old(latencies) &&
        modes == old(modes) && cpuLoads == old(cpuLoads) && dspLoads == old(dspLoads)
      ensures liveSummary == old(liveSummary) && recvBuffer == old(recvBuffer)
    {
      var parsed := ParseFrame(line);
      if parsed.None? {
        return;
      }
      var f := parsed.value;
      if !currentMode.Admits(f.mode) {
        return;
      }
      Push(f);
    }

    /** update_live_summary. */
    method UpdateLiveSummary(line: string)
      modifies this`liveSummary
      ensures liveSummary == UpdatedSummary(old(liveSummary), line)
    {
      if "[Live Summary] Frames:" <= line {
        var n := ParseInt(AfterColon(line));
        if n.Some? {
          liveSummary := liveSummary.(frames := n.value);
        }
      } else if "[Live Summary] Latency" <= line {
        liveSummary := liveSummary.(latency := UpdatedRange(liveSummary.latency, line));
      } else if "[Live Summary] Amp" <= line {
        liveSummary := liveSummary.(amp := UpdatedAmp(liveSummary.amp, line));
      } else if "[Live Summary] CPU" <= line {
        liveSummary := liveSummary.(cpu := UpdatedRange(liveSummary.cpu, line));
      } else if "[Live Summary] DSP" <= line {
        liveSummary := liveSummary.(dsp := UpdatedRange(liveSummary.dsp, line));
      }
    }

    /** One received line. */
    method HandleLine(raw: string)
      requires Valid()
      modifies this
      ensures Valid() && pushed == old(pushed) + FramesOfRawLine(currentMode, raw)
      ensures liveSummary == SummaryAfterLine(old(liveSummary), raw) && recvBuffer == old(recvBuffer)
    {
      var line := Clean(raw);
      if line == "" {
        return;
      }
      if Contains(line, "[Live Summary]") {
        UpdateLiveSummary(line);
      }
      if LooksLikeFrame(line) {
        ParseLogLine(line);
      }
    }

    /** read_data over a connection: the outcome depends on the text received, not on the pieces it came in. */
    method ReadData(pieces: seq<string>)
      requires Valid() && All(recvBuffer, NotNewline)
      modifies this
      ensures Valid() && All(recvBuffer, NotNewline)
      ensures var s := SplitLines(old(recvBuffer) + Flatten(pieces));
        && recvBuffer == s.rest
        && pushed == old(pushed) + FramesOfLines(currentMode, s.lines)
        && liveSummary == SummaryAfterLines(old(liveSummary), s.lines)
    {
      ghost var text := recvBuffer;
      SplitWithoutNewline(text);
      assert old(recvBuffer) + Flatten(pieces[..0]) == text;
      for i := 0 to |pieces|
        invariant Valid()
        invariant text == old(recvBuffer) + Flatten(pieces[..i])
        invariant Received(old(pushed), old(liveSummary), text)
      {
        ReceiveMore(currentMode, old(pushed), old(liveSummary), text, pieces[i]);
        OnData(pieces[i]);
        OnePieceMore(old(recvBuffer), pieces, i);
        text := text + pieces[i];
      }
      assert pieces[..|pieces|] == pieces;
    }

    /** The state reached from an earlier one by receiving the rest of `text`. */
    ghost predicate Received(frames: seq<Frame>, summary: LiveSummary, text: string)
      reads this
    {
      var s := SplitLines(text);
      && recvBuffer == s.rest
      && pushed == frames + FramesOfLines(currentMode, s.lines)
      && liveSummary == SummaryAfterLines(summary, s.lines)
    }

    /** The body of the read_data loop for one received piece of text. */
    method OnData(data: string)
      requires Valid()
      modifies this
      ensures Valid()
      ensures var s := SplitLines(old(recvBuffer) + data);
        && recvBuffer == s.rest
        && pushed == old(pushed) + FramesOfLines(currentMode, s.lines)
        && liveSummary == SummaryAfterLines(old(liveSummary), s.lines)
    {
      hide FramesOfRawLine, SummaryAfterLine, RunLength;
      recvBuffer := recvBuffer + data;
      ghost var all := SplitLines(recvBuffer);
      while RunLength(recvBuffer, NotNewline) < |recvBuffer|
        invariant Valid()
        invariant SplitLines(recvBuffer).rest == all.rest
        invariant pushed + FramesOfLines(currentMode, SplitLines(recvBuffer).lines) ==
          old(pushed) + FramesOfLines(currentMode, all.lines)
        invariant SummaryAfterLines(liveSummary, SplitLines(recvBuffer).lines) ==
          SummaryAfterLines(old(liveSummary), all.lines)
        decreases |recvBuffer|
      {
        var k := RunLength(recvBuffer, NotNewline);
        ghost var lines := SplitLines(recvBuffer).lines;
        assert lines[0] == recvBuffer[..k] && lines[1..] == SplitLines(recvBuffer[k + 1..]).lines;
        var raw := recvBuffer[..k];
        recvBuffer := recvBuffer[k + 1..];
        Regroup(pushed, FramesOfRawLine(currentMode, raw), FramesOfLines(currentMode, lines[1..]));
        HandleLine(raw);
      }
      SplitWithoutNewline(recvBuffer);
    }
  }

  lemma SeriesSnoc(pushed: seq<Frame>, f: Frame)
    ensures Numbers(pushed + [f]) == Numbers(pushed) + [f.number]
    ensures Amps(pushed + [f]) == Amps(pushed) + [AmplitudeToDbfs(f.amp)]
    ensures Latencies(pushed + [f]) == Latencies(pushed) + [f.latency]
    ensures CpuLoads(pushed + [f]) == CpuLoads(pushed) + [f.cpu]
    ensures DspLoads(pushed + [f]) == DspLoads(pushed) + [f.dsp]
    ensures Modes(pushed + [f]) == Modes(pushed) + [f.mode]
  {
    hide AmplitudeToDbfs;
  }

  lemma WindowsSlide(pushed: seq<Frame>, f: Frame)
    ensures Latest(Latest(Numbers(pushed), MAX_FRAMES) + [f.number], MAX_FRAMES) ==
      Latest(Numbers(pushed + [f]), MAX_FRAMES)
    ensures Latest(Latest(Amps(pushed), MAX_FRAMES) + [AmplitudeToDbfs(f.amp)], MAX_FRAMES) ==
      Latest(Amps(pushed + [f]), MAX_FRAMES)
    ensures Latest(Latest(Latencies(pushed), MAX_FRAMES) + [f.latency], MAX_FRAMES) ==
      Latest(Latencies(pushed + [f]), MAX_FRAMES)
    ensures Latest(Latest(CpuLoads(pushed), MAX_FRAMES) + [f.cpu], MAX_FRAMES) ==
      Latest(CpuLoads(pushed + [f]), MAX_FRAMES)
    ensures Latest(Latest(DspLoads(pushed), MAX_FRAMES) + [f.dsp], MAX_FRAMES) ==
      Latest(DspLoads(pushed + [f]), MAX_FRAMES)
    ensures Modes(pushed) + [f.mode] == Modes(pushed + [f])
  {
    hide Numbers, Amps, Latencies, CpuLoads, DspLoads, Modes, Latest, AmplitudeToDbfs;
    SeriesSnoc(pushed, f);
    LatestAppend(Numbers(pushed), [f.number], MAX_FRAMES);
    LatestAppend(Amps(pushed), [AmplitudeToDbfs(f.amp)], MAX_FRAMES);
    LatestAppend(Latencies(pushed), [f.latency], MAX_FRAMES);
    LatestAppend(CpuLoads(pushed), [f.cpu], MAX_FRAMES);
    LatestAppend(DspLoads(pushed), [f.dsp], MAX_FRAMES);
  }

  // ---------- What the windows hold ----------

  /**
   * The five bounded series always have the same length, index j of each comes from the same frame, and that frame's
   * mode stands at the same distance from the end of the unbounded list of modes.
   */
  lemma SeriesStayAligned(m: Monitor, j: nat)
    requires m.Valid() && j < |m.latencies|
    ensures |m.latencies| == |m.frameNumbers| == |m.avgAmps| == |m.cpuLoads| == |m.dspLoads| <= 2048
    ensures |m.latencies| == if |m.pushed| < 2048 then |m.pushed| else 2048
    ensures var f := m.pushed[|m.pushed| - |m.latencies| + j];
      && m.frameNumbers[j] == f.number && m.avgAmps[j] == AmplitudeToDbfs(f.amp) && m.latencies[j] == f.latency
      && m.cpuLoads[j] == f.cpu && m.dspLoads[j] == f.dsp
      && m.modes[|m.modes| - |m.latencies| + j] == f.mode
  {
    assert |Numbers(m.pushed)| == |Latencies(m.pushed)| == |Amps(m.pushed)| == |m.pushed|;
  }

  /** The mode that animate() attaches to point j of the latency plot: it indexes both lists from the start. */
  function PlottedMode(pushed: seq<Frame>, j: nat): string
    requires j < |Latest(Latencies(pushed), MAX_FRAMES)|
  {
    Modes(pushed)[j]
  }

  /** The mode of the frame whose latency is plotted there. */
  function ActualMode(pushed: seq<Frame>, j: nat): string
    requires j < |Latest(Latencies(pushed), MAX_FRAMES)|
  {
    pushed[|pushed| - |Latest(Latencies(pushed), MAX_FRAMES)| + j].mode
  }

  ghost predicate LabelledRight(pushed: seq<Frame>) {
    forall j: nat :: j < |Latest(Latencies(pushed), MAX_FRAMES)| ==> PlottedMode(pushed, j) == ActualMode(pushed, j)
  }

  /**
   * One run of the device has one mode, and its frames are labelled right however many they are. An IP session shows
   * one run when no line was kept from before it, since it begins by clearing the display.
   */
  lemma OneModeIsLabelledRight(pushed: seq<Frame>, mode: string)
    requires forall f :: f in pushed ==> f.mode == mode
    ensures LabelledRight(pushed)
    ensures forall j: nat :: j < |Latest(Latencies(pushed), MAX_FRAMES)| ==> PlottedMode(pushed, j) == mode
  {
  }

  /**
   * On a serial line nothing clears the display when the device is started again in the other mode. Then the labels
   * are right exactly while the two runs together fit the window, or one of them is empty.
   */
  lemma ModeChangeIsLabelledRight(first: seq<Frame>, second: seq<Frame>, before: string, after: string)
    requires before != after
    requires (forall f :: f in first ==> f.mode == before) && forall f :: f in second ==> f.mode == after
    ensures LabelledRight(first + second) <==> first == [] || second == [] || |first| + |second| <= 2048
  {
    var pushed := first + second;
    if first == [] || second == [] {
      OneModeIsLabelledRight(pushed, if first == [] then after else before);
    } else if |pushed| > MAX_FRAMES {
      var j := if |first| <= MAX_FRAMES then |first| - 1 else MAX_FRAMES - 1;
      assert PlottedMode(pushed, j) == pushed[j].mode == before;
      assert ActualMode(pushed, j) == after;
    }
  }

  function FramesInMode(count: nat, mode: string): (frames: seq<Frame>)
    ensures |frames| == count && forall f :: f in frames ==> f.mode == mode
  {
    seq(count, i requires 0 <= i < count => Frame(i, ZERO, ZERO, mode, ZERO, ZERO))
  }

  /** Among all histories of a given length, mixed ones included, all are labelled right exactly up to 2048 frames. */
  lemma PlotIsRightIffWindowIsWhole(total: nat)
    ensures (forall pushed: seq<Frame> :: |pushed| == total ==> LabelledRight(pushed)) <==> total <= 2048
  {
    if total > MAX_FRAMES {
      var first, second := FramesInMode(1, "CPU"), FramesInMode(total - 1, "DSP");
      ModeChangeIsLabelledRight(first, second, "CPU", "DSP");
      assert |first + second| == total;
    }
  }
}
