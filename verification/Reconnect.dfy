/**
 * The first line after a reconnection: recv_buffer still holds what was received of the last line before it. Here that
 * was a frame line.
 */
module Reconnect {
  import opened Common
  import opened Text
  import opened Regex
  import opened DeviceLog
  import opened AudMon
  import opened LogPair

  // ---------- A cut frame line is not a frame ----------

  lemma FieldNeeds(name: string, cls: Class, next: Pattern)
    requires !next.End?
    ensures Needed(FieldPattern(name, cls, next)) == 1 + |name| + Needed(next)
    ensures EndsIn(FieldPattern(name, cls, next), '%') == EndsIn(next, '%')
    ensures Avoids(FieldPattern(name, cls, next), 'r') == ('r' !in name && Avoids(next, 'r'))
  {
    var value := Many(cls, 1, true, next);
    assert Needed(value) == Needed(next) && EndsIn(value, '%') == EndsIn(next, '%');
    assert Avoids(value, 'r') == Avoids(next, 'r');
    LitNeeds(name, value);
  }

  lemma LitNeeds(text: string, next: Pattern)
    ensures Needed(Lit(text, next)) == |text| + Needed(next)
    ensures !next.End? ==> EndsIn(Lit(text, next), '%') == EndsIn(next, '%')
    ensures Avoids(Lit(text, next), 'r') == ('r' !in text && Avoids(next, 'r'))
  {
  }

  /** The pattern has 54 characters beside its groups; after the first word it has no letter r, and it ends in %. */
  lemma LogPatternNeeds()
    ensures Needed(LOG_PATTERN) == 54
    ensures EndsIn(NUMBER_PATTERN, '%') && Avoids(NUMBER_PATTERN, 'r')
  {
    assert Needed(Lit("%", End)) == 1 && EndsIn(Lit("%", End), '%') && Avoids(Lit("%", End), 'r');
    LogFieldsNeed();
  }

  lemma LogFieldsNeed()
    requires Needed(Lit("%", End)) == 1 && EndsIn(Lit("%", End), '%') && Avoids(Lit("%", End), 'r')
    ensures Needed(LOG_PATTERN) == 54
    ensures EndsIn(NUMBER_PATTERN, '%') && Avoids(NUMBER_PATTERN, 'r')
  {
    hide FieldPattern;
    FieldNeeds("DSPLoad=", DigitsAndDots, Lit("%", End));
    LitNeeds("%", DSP_PATTERN);
    FieldNeeds("CPULoad=", DigitsAndDots, Lit("%", DSP_PATTERN));
    FieldNeeds("Mode=", Capitals, CPU_PATTERN);
    LitNeeds("ms,", MODE_PATTERN);
    FieldNeeds("Latency=", DigitsAndDots, Lit("ms,", MODE_PATTERN));
    LitNeeds(",", LATENCY_PATTERN);
    FieldNeeds("AvgAmp=", DigitsAndDots, Lit(",", LATENCY_PATTERN));
    LitNeeds(":", AMP_PATTERN);
    var number := Many(Digits, 1, true, Lit(":", AMP_PATTERN));
    assert Needed(number) == 48 && EndsIn(number, '%') && Avoids(number, 'r');
    LitNeeds("Frame", NUMBER_PATTERN);
  }

  lemma FrameLengths(f: FrameMetrics)
    ensures |FrameText(f)| == 54 + |PrintNat(f.frame)| + |PrintFixed(f.amp, 2)| + |PrintFixed(f.latency, 2)| +
      |ModeName(f.mode)| + |PrintFixed(f.cpu, 1)| + |PrintFixed(f.dsp, 1)|
  {
    hide PrintFixed, PrintNat, ModeName;
    assert |DspText(f)| == 10 + |PrintFixed(f.dsp, 1)|;
    assert |CpuText(f)| == 10 + |PrintFixed(f.cpu, 1)| + |DspText(f)|;
    assert |ModeText(f)| == 6 + |ModeName(f.mode)| + |CpuText(f)|;
    assert |LatencyText(f)| == 12 + |PrintFixed(f.latency, 2)| + |ModeText(f)|;
    assert |AmpText(f)| == 9 + |PrintFixed(f.amp, 2)| + |LatencyText(f)|;
    assert |NumberText(f)| == 2 + |PrintNat(f.frame)| + |AmpText(f)|;
  }

  lemma GroupLengths(f: FrameMetrics)
    requires FrameGroups(f).Some?
    ensures TotalLength(FrameGroups(f).value) + 54 == |FrameText(f)|
  {
    hide PrintUnits, PrintNat, ModeName, FrameText;
    GroupsOfFrame(f);
    FrameLengths(f);
    var a, b, c, d, e, g := PrintNat(f.frame), PrintUnits(f.amp.units, 2), PrintUnits(f.latency.units, 2),
      ModeName(f.mode), PrintUnits(f.cpu.units, 1), PrintUnits(f.dsp.units, 1);
    SixLengths(a, b, c, d, e, g);
  }

  lemma OneLength(s: string, rest: seq<string>)
    ensures TotalLength([s] + rest) == |s| + TotalLength(rest)
  {
    assert ([s] + rest)[1..] == rest;
  }

  lemma SixLengths(a: string, b: string, c: string, d: string, e: string, g: string)
    ensures TotalLength([a, b, c, d, e, g]) == |a| + |b| + |c| + |d| + |e| + |g|
  {
    hide TotalLength;
    OneLength(g, []);
    OneLength(e, [g]);
    OneLength(d, [e, g]);
    OneLength(c, [d, e, g]);
    OneLength(b, [c, d, e, g]);
    OneLength(a, [b, c, d, e, g]);
    NoLength();
    assert [g] + [] == [g] && [e] + [g] == [e, g] && [d] + [e, g] == [d, e, g];
    assert [c] + [d, e, g] == [c, d, e, g] && [b] + [c, d, e, g] == [b, c, d, e, g];
    assert [a] + [b, c, d, e, g] == [a, b, c, d, e, g];
  }

  lemma NoLength()
    ensures TotalLength([]) == 0
  {
  }

  /** No proper part of a frame line, cut anywhere, starts with a frame. */
  lemma CutFrameIsNoFrame(cut: string, f: FrameMetrics)
    requires cut < FrameText(f)
    ensures MatchAt(LOG_PATTERN, cut).None?
  {
    hide MatchAt, FrameText, FrameGroups, Needed, Separated, EndsIn, Avoids;
    if MatchAt(LOG_PATTERN, cut).Some? {
      LogPatternIsSeparated();
      var rest := FrameText(f)[|cut|..];
      assert cut + rest == FrameText(f);
      MatchStays(LOG_PATTERN, cut, rest);
      FrameMatches(f);
      MatchIsLong(LOG_PATTERN, cut);
      LogPatternNeeds();
      GroupLengths(f);
    }
  }

  /** Nor does it with the next line glued to it: no frame reaches over the capital F of the next. */
  lemma MatchStopsBeforeFrame(front: string, f: FrameMetrics)
    requires MatchAt(LOG_PATTERN, front + FrameText(f)).Some? && "Frame" <= front
    ensures MatchAt(LOG_PATTERN, front) == MatchAt(LOG_PATTERN, front + FrameText(f))
  {
    hide MatchAt, MatchEnd, FrameText, Needed, EndsIn, Avoids;
    var line := front + FrameText(f);
    LogPatternNeeds();
    NumberEndsBefore(front[5..], f);
    assert line[5..] == front[5..] + FrameText(f);
    StartsWithFrame(line);
    MatchInFront(LOG_PATTERN, front, FrameText(f));
  }

  lemma StartsWithFrame(line: string)
    requires MatchAt(LOG_PATTERN, line).Some?
    ensures "Frame" <= line && MatchAt(NUMBER_PATTERN, line[5..]).Some?
    ensures MatchEnd(LOG_PATTERN, line) == 5 + MatchEnd(NUMBER_PATTERN, line[5..])
  {
    hide NUMBER_PATTERN;
  }

  lemma NumberEndsBefore(front: string, f: FrameMetrics)
    ensures var line := front + FrameText(f);
      MatchAt(NUMBER_PATTERN, line).Some? ==> MatchEnd(NUMBER_PATTERN, line) <= |front|
  {
    hide MatchAt, MatchEnd, Needed, EndsIn, Avoids;
    var line := front + FrameText(f);
    if MatchAt(NUMBER_PATTERN, line).Some? {
      LogPatternNeeds();
      MatchAvoids(NUMBER_PATTERN, line, 'r');
      MatchEndsIn(NUMBER_PATTERN, line, '%');
      var end := MatchEnd(NUMBER_PATTERN, line);
      assert line[|front|] == 'F' && line[|front| + 1] == 'r';
    }
  }

  // ---------- Which lines are looked at ----------

  lemma ContainsFirst(s: string, word: string)
    requires Contains(s, word) && word != ""
    ensures word[0] in s
  {
    var i := ContainsAt(s, word);
    assert s[i] == s[i..i + |word|][0];
  }

  lemma FieldAvoids(name: string, value: string, separator: string, rest: string, c: char)
    requires c != ' ' && c !in name && c !in value && c !in separator && c !in rest
    ensures c !in Field(name, value, separator, rest)
  {
  }

  /** After the number of a frame line there is no colon, no bracket, no i and no r. */
  lemma AmpAvoids(f: FrameMetrics, c: char)
    requires c in ":[ir"
    ensures c !in AmpText(f)
  {
    hide Field, PrintFixed;
    FieldAvoids("DSPLoad=", PrintFixed(f.dsp, 1), "", "%", c);
    FieldAvoids("CPULoad=", PrintFixed(f.cpu, 1), "%", DspText(f), c);
    assert c !in ModeName(f.mode);
    FieldAvoids("Mode=", ModeName(f.mode), "", CpuText(f), c);
    FieldAvoids("Latency=", PrintFixed(f.latency, 2), "ms,", ModeText(f), c);
    FieldAvoids("AvgAmp=", PrintFixed(f.amp, 2), ",", LatencyText(f), c);
  }

  lemma ShapeOf(digits: string, rest: string) returns (colon: nat)
    requires digits != "" && All(digits, IsDigit) && rest != ""
    requires ':' !in rest && '[' !in rest && 'i' !in rest && 'r' !in rest
    ensures var text := "Frame" + (" " + (digits + (":" + rest)));
      && "Frame " <= text && 6 < colon < |text|
      && (forall i :: 6 <= i < colon ==> IsDigit(text[i]))
      && (forall i :: 0 <= i < |text| && i != colon ==> text[i] != ':')
      && '[' !in text && 'i' !in text
      && forall i :: 2 <= i < |text| ==> text[i] != 'r'
  {
    colon := 6 + |digits|;
    var text := "Frame" + (" " + (digits + (":" + rest)));
    assert forall i :: 6 <= i < colon ==> text[i] == digits[i - 6];
    assert forall i :: colon < i < |text| ==> text[i] == rest[i - colon - 1];
  }

  /** The start of a frame line: the word, a space, digits, a colon; and no other colon, no bracket, i or second r. */
  lemma FrameShape(f: FrameMetrics) returns (colon: nat)
    ensures "Frame " <= FrameText(f) && 6 < colon < |FrameText(f)|
    ensures forall i :: 6 <= i < colon ==> IsDigit(FrameText(f)[i])
    ensures forall i :: 0 <= i < |FrameText(f)| && i != colon ==> FrameText(f)[i] != ':'
    ensures '[' !in FrameText(f) && 'i' !in FrameText(f)
    ensures forall i :: 2 <= i < |FrameText(f)| ==> FrameText(f)[i] != 'r'
  {
    hide AmpText, PrintNat;
    var digits, rest := PrintNat(f.frame), AmpText(f);
    AmpAvoids(f, ':');
    AmpAvoids(f, '[');
    AmpAvoids(f, 'i');
    AmpAvoids(f, 'r');
    assert rest != "" by { AmpEndsLine(f); }
    assert "" + (digits + (":" + rest)) == digits + (":" + rest);
    colon := ShapeOf(digits, rest);
  }

  /** The two capital Fs of a line glued to a cut first word do not start "Frames Processed". */
  lemma NoFrames(cut: string, f: FrameMetrics, i: nat)
    requires cut < "Frame" && cut != "" && i + 16 <= |cut + FrameText(f)|
    ensures (cut + FrameText(f))[i..i + 16] != "Frames Processed"
  {
    hide NumberText;
    FrameTextIsPlain(f);
    var colon := FrameShape(f);
    var line, text := cut + FrameText(f), FrameText(f);
    var word := line[i..i + 16];
    assert word[0] == line[i];
    if i < |cut| {
      assert line[i] == "Frame"[i];
      assert i == 0 ==> word[|cut|] == line[|cut|] == 'F';
    } else {
      assert line[i] == text[i - |cut|];
      assert i == |cut| ==> word[5] == line[i + 5] == text[5] == "Frame "[5];
      assert i > |cut| + 4 ==> text[i - |cut|] == NumberText(f)[i - |cut| - 5];
    }
  }

  lemma NoLatency(cut: string, f: FrameMetrics, i: nat)
    requires cut < "Frame" && i + 8 <= |cut + FrameText(f)|
    ensures (cut + FrameText(f))[i..i + 8] != "Latency:"
  {
    hide FrameText;
    var colon := FrameShape(f);
    var line, text := cut + FrameText(f), FrameText(f);
    var word := line[i..i + 8];
    assert word[6] == line[i + 6] && word[7] == line[i + 7];
    assert line[i + 7] == text[i + 7 - |cut|];
    assert i + 7 - |cut| == colon ==> line[i + 6] == text[colon - 1];
  }

  /** A line cut within its first word makes a line that read_data does not look at. */
  lemma ShortCutIsSkipped(cut: string, f: FrameMetrics)
    requires cut < "Frame" && cut != ""
    ensures !LooksLikeFrame(cut + FrameText(f))
  {
    hide Contains, FrameText;
    var colon := FrameShape(f);
    var line := cut + FrameText(f);
    assert '[' !in line;
    if Contains(line, "[Summary]") {
      ContainsFirst(line, "[Summary]");
    }
    if Contains(line, "Latency:") {
      var i := ContainsAt(line, "Latency:");
      NoLatency(cut, f, i);
    }
    if Contains(line, "Frames Processed") {
      var i := ContainsAt(line, "Frames Processed");
      NoFrames(cut, f, i);
    }
    assert line[|cut|] == 'F' && "Frame"[|cut|] != 'F';
  }

  // ---------- The glued line ----------

  lemma NoMatchAtCut(cut: string, before: FrameMetrics, f: FrameMetrics)
    requires cut <= FrameText(before) && cut != "" && (cut == FrameText(before) ==> AnyNegative(before))
    ensures MatchAt(LOG_PATTERN, cut + FrameText(f)).None?
  {
    hide MatchAt, FrameText, FrameGroups;
    var line := cut + FrameText(f);
    if MatchAt(LOG_PATTERN, line).Some? {
      StartsWithFrame(line);
      CutIsLong(cut, before, f);
      MatchStopsBeforeFrame(cut, f);
      if cut == FrameText(before) {
        FrameMatches(before);
        GroupsOfFrame(before);
      } else {
        CutFrameIsNoFrame(cut, before);
      }
    }
  }

  lemma CutIsLong(cut: string, before: FrameMetrics, f: FrameMetrics)
    requires cut <= FrameText(before) && cut != "" && "Frame" <= cut + FrameText(f)
    ensures "Frame" <= cut
  {
    hide NumberText;
    var line := cut + FrameText(f);
    assert line[|cut|] == FrameText(f)[0] == 'F';
    assert "Frame" <= FrameText(before);
  }

  /** What the frame parser makes of a line that a cut frame line and a whole one make together. */
  lemma GluedParse(cut: string, before: FrameMetrics, f: FrameMetrics)
    requires cut <= FrameText(before) && cut != ""
    ensures ParseFrame(cut + FrameText(f)) ==
      if cut == FrameText(before) && !AnyNegative(before) then Some(Decoded(before)) else ParseFrame(FrameText(f))
  {
    hide MatchAt, Search, NumberText, FrameGroups, FrameOfGroups, Separated;
    var line := cut + FrameText(f);
    if cut == FrameText(before) && !AnyNegative(before) {
      FrameMatches(before);
      GroupsOfFrame(before);
      LogPatternIsSeparated();
      MatchStays(LOG_PATTERN, cut, FrameText(f));
      SearchFinds(LOG_PATTERN, cut);
      SearchFinds(LOG_PATTERN, line);
      FrameRoundTrip(before);
    } else {
      NoMatchAtCut(cut, before, f);
      FrameTextIsPlain(before);
      assert line[1..] == cut[1..] + FrameText(f);
      assert 'F' !in cut[1..] by {
        assert forall i :: 1 <= i < |cut| ==> cut[i] == FrameText(before)[i];
      }
      SearchRetries(LOG_PATTERN, line);
      SearchSkips(LOG_PATTERN, cut[1..], FrameText(f));
    }
  }

  lemma GluedIsClean(cut: string, before: FrameMetrics, f: FrameMetrics)
    requires cut <= FrameText(before) && cut != ""
    ensures var line := cut + FrameText(f); line != "" && Clean(line) == line
  {
    hide NumberText, Clean;
    FrameTextIsPlain(before);
    FrameTextIsPlain(f);
    var line := cut + FrameText(f);
    assert cut[0] == 'F' && line[|line| - 1] == '%';
    assert forall i :: 0 <= i < |cut| ==> cut[i] == FrameText(before)[i];
    CleanKeeps(line);
  }

  /**
   * The first frame line after a reconnection, when the connection before it was lost within or just behind a frame
   * line: the new frame is lost exactly if the cut is within the word "Frame", and replaced by the old one exactly if
   * only the line end was missing; otherwise it is shown.
   */
  lemma GluedFrame(mode: GuiMode, cut: string, before: FrameMetrics, f: FrameMetrics)
    requires cut <= FrameText(before)
    ensures FramesOfRawLine(mode, cut + FrameText(f)) ==
      if 0 < |cut| < 5 then []
      else if cut == FrameText(before) && !AnyNegative(before) then FramesOfMessage(mode, FrameMessage(before))
      else FramesOfMessage(mode, FrameMessage(f))
  {
    hide ParseFrame, Clean, Contains, NumberText;
    FrameRoundTrip(f);
    if cut == "" {
      assert cut + FrameText(f) == FrameText(f);
      FrameLineIsRead(mode, NO_SUMMARY, f);
    } else {
      GluedParse(cut, before, f);
      GluedIsClean(cut, before, f);
      if |cut| < 5 {
        assert cut == FrameText(before)[..|cut|] == "Frame"[..|cut|];
        ShortCutIsSkipped(cut, f);
      } else {
        assert "Frame" <= cut;
      }
    }
  }
}
