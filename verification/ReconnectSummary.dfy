/** The first line after a reconnection when what recv_buffer still holds was cut from a summary line. */
module ReconnectSummary {
  import opened Common
  import opened Text
  import opened Regex
  import opened DeviceLog
  import opened AudMon
  import opened LogPair
  import opened Reconnect

  // ---------- Patterns that match no beginning of a text ----------

  ghost predicate NeverMatches(p: Pattern, t: string) {
    forall x :: x <= t ==> MatchAt(p, x).None?
  }

  lemma NoLit(text: string, next: Pattern, rest: string)
    requires NeverMatches(next, rest)
    ensures NeverMatches(Lit(text, next), text + rest)
  {
    forall x | x <= text + rest
      ensures MatchAt(Lit(text, next), x).None?
    {
      if text <= x {
        assert x[|text|..] <= rest by {
          assert rest == (text + rest)[|text|..];
        }
      }
    }
  }

  lemma NoMany(cls: Class, min: nat, capture: bool, next: Pattern, run: string, rest: string)
    requires NeverMatches(next, rest) && All(run, c => cls.Has(c)) && (rest == "" || !cls.Has(rest[0]))
    ensures NeverMatches(Many(cls, min, capture, next), run + rest)
  {
    forall x | x <= run + rest
      ensures MatchAt(Many(cls, min, capture, next), x).None?
    {
      var k := Run(cls, x);
      assert forall i :: 0 <= i < |x| ==> x[i] == (run + rest)[i];
      assert forall i :: 0 <= i < |run| ==> cls.Has(run[i]);
      if |x| <= |run| {
        assert x[k..] == "";
      } else {
        assert x[|run|] == rest[0];
        assert k == |run| && x[k..] <= rest by {
          assert rest == (run + rest)[|run|..];
        }
      }
    }
  }

  lemma NoFirst(cls: Class, min: nat, capture: bool, next: Pattern, t: string)
    requires min > 0 && (t == "" || !cls.Has(t[0]))
    ensures NeverMatches(Many(cls, min, capture, next), t)
  {
    forall x | x <= t
      ensures MatchAt(Many(cls, min, capture, next), x).None?
    {
      assert x != "" ==> x[0] == t[0];
    }
  }

  // ---------- A range, cut within its last number or before it ----------

  /** The text of a range with something else in the place of its last number. */
  function RangeWith(r: Range, places: nat, tail: string): string
    requires places > 0
  {
    "Min:" + SpacedNumber(r.min, places, "," + (" " + ("Max:" +
      SpacedNumber(r.max, places, "," + (" " + ("Avg:" + (" " + tail)))))))
  }

  lemma RangeIsRangeWith(r: Range, places: nat)
    requires places > 0
    ensures RangeText(r, places) == RangeWith(r, places, PrintFixed(r.avg, places))
  {
    hide PrintFixed;
    assert PrintFixed(r.avg, places) + "" == PrintFixed(r.avg, places);
  }

  lemma SpacedAppend(x: Fixed, places: nat, a: string, b: string)
    requires places > 0
    ensures SpacedNumber(x, places, a + b) == SpacedNumber(x, places, a) + b
  {
    hide PrintFixed;
    Regroup(PrintFixed(x, places), a, b);
    Regroup(" ", PrintFixed(x, places) + a, b);
  }

  lemma LabelAppend(name: string, rest: string, b: string)
    ensures "," + (" " + (name + (rest + b))) == "," + (" " + (name + rest)) + b
  {
    Regroup(name, rest, b);
    Regroup(" ", name + rest, b);
    Regroup(",", " " + (name + rest), b);
  }

  lemma RangeAppend(r: Range, places: nat, a: string, b: string)
    requires places > 0
    ensures RangeWith(r, places, a + b) == RangeWith(r, places, a) + b
  {
    hide SpacedNumber;
    Regroup(" ", a, b);
    LabelAppend("Avg:", " " + a, b);
    var avg := "," + (" " + ("Avg:" + (" " + a)));
    SpacedAppend(r.max, places, avg, b);
    LabelAppend("Max:", SpacedNumber(r.max, places, avg), b);
    var max := "," + (" " + ("Max:" + SpacedNumber(r.max, places, avg)));
    SpacedAppend(r.min, places, max, b);
    Regroup("Min:", SpacedNumber(r.min, places, max), b);
  }

  lemma NoSpaced(x: Fixed, places: nat, rest: string, next: Pattern)
    requires places > 0 && (rest == "" || !IsDigitOrDot(rest[0])) && (x.negative || NeverMatches(next, rest))
    ensures NeverMatches(SpacedPattern(next), SpacedNumber(x, places, rest))
  {
    hide NeverMatches;
    var text := PrintFixed(x, places) + rest;
    if x.negative {
      NoFirst(DigitsAndDots, 1, true, next, text);
    } else {
      assert All(PrintFixed(x, places), c => DigitsAndDots.Has(c));
      NoMany(DigitsAndDots, 1, true, next, PrintFixed(x, places), rest);
    }
    NoMany(Space, 0, false, Many(DigitsAndDots, 1, true, next), " ", text);
  }

  lemma NoComma(next: Pattern, rest: string)
    requires NeverMatches(next, rest) && rest != "" && !IsPythonSpace(rest[0])
    ensures NeverMatches(Lit(",", Many(Space, 0, false, next)), "," + (" " + rest))
  {
    hide NeverMatches;
    NoMany(Space, 0, false, next, " ", rest);
    NoLit(",", Many(Space, 0, false, next), " " + rest);
  }

  const AVG_PATTERN := Lit("Avg:", SpacedPattern(End))

  /** Without a number behind "Avg:", or with a minus sign anywhere, no beginning of a range matches. */
  lemma NoRange(r: Range, places: nat, tail: string)
    requires places > 0
    requires r.min.negative || r.max.negative || NeverMatches(SpacedPattern(End), " " + tail)
    ensures NeverMatches(SUMMARY_PATTERN, RangeWith(r, places, tail))
  {
    hide NeverMatches, SpacedPattern;
    var avg := "Avg:" + (" " + tail);
    if !r.min.negative && !r.max.negative {
      NoLit("Avg:", SpacedPattern(End), " " + tail);
      NoComma(AVG_PATTERN, avg);
    }
    var max := "Max:" + SpacedNumber(r.max, places, "," + (" " + avg));
    if !r.min.negative {
      NoSpaced(r.max, places, "," + (" " + avg), Lit(",", Many(Space, 0, false, AVG_PATTERN)));
      NoLit("Max:", SpacedPattern(Lit(",", Many(Space, 0, false, AVG_PATTERN))),
        SpacedNumber(r.max, places, "," + (" " + avg)));
      NoComma(MAX_PATTERN, max);
    }
    NoSpaced(r.min, places, "," + (" " + max), Lit(",", Many(Space, 0, false, MAX_PATTERN)));
    NoLit("Min:", SpacedPattern(Lit(",", Many(Space, 0, false, MAX_PATTERN))),
      SpacedNumber(r.min, places, "," + (" " + max)));
  }

  lemma DigitsMatch(digits: string, tail: string)
    requires digits != "" && All(digits, IsDigitOrDot) && (tail == "" || !IsDigitOrDot(tail[0]))
    ensures MatchAt(SpacedPattern(End), " " + (digits + tail)) == Some([digits])
  {
    assert All(digits, c => DigitsAndDots.Has(c));
    MatchMany(DigitsAndDots, 1, true, End, digits, tail);
    MatchMany(Space, 0, false, Many(DigitsAndDots, 1, true, End), " ", digits + tail);
    assert [digits] + [] == [digits] && [] + [digits] == [digits];
  }

  /** With some digits behind "Avg:" the range matches, whatever follows them. */
  lemma CutRangeMatches(r: Range, places: nat, digits: string, tail: string)
    requires places > 0 && !r.min.negative && !r.max.negative
    requires digits != "" && All(digits, IsDigitOrDot) && (tail == "" || !IsDigitOrDot(tail[0]))
    ensures MatchAt(SUMMARY_PATTERN, RangeWith(r, places, digits + tail)) ==
      Some([PrintUnits(r.min.units, places), PrintUnits(r.max.units, places), digits])
  {
    hide MatchAt, SpacedPattern, PrintUnits;
    var avg := "Avg:" + (" " + (digits + tail));
    DigitsMatch(digits, tail);
    MatchLit("Avg:", SpacedPattern(End), " " + (digits + tail));
    CommaMatches(AVG_PATTERN, avg);
    LabelledMatches("Max:", r.max, places, "," + (" " + avg), Lit(",", Many(Space, 0, false, AVG_PATTERN)));
    var max := "Max:" + SpacedNumber(r.max, places, "," + (" " + avg));
    CommaMatches(MAX_PATTERN, max);
    LabelledMatches("Min:", r.min, places, "," + (" " + max), Lit(",", Many(Space, 0, false, MAX_PATTERN)));
    var a, b := PrintUnits(r.min.units, places), PrintUnits(r.max.units, places);
    assert [b] + [digits] == [b, digits] && [a] + [b, digits] == [a, b, digits];
  }

  /**
   * A number with two dots ends the reading of a range half way: in the third place it leaves the average alone, while
   * the other two have been replaced. Of an amplitude nothing is replaced then.
   */
  lemma HalfReadRange(
      prev: Triple<Number>, prevAmp: Option<Triple<Level>>, before: string, r: Range, places: nat, digits: string)
    requires places > 0 && !r.min.negative && !r.max.negative && 'M' !in before
    requires digits != "" && All(digits, IsDigitOrDot) && ParseFloat(digits).None?
    ensures var line := before + RangeWith(r, places, digits);
      && UpdatedRange(prev, line) ==
         Triple(Number(r.min.units, places), Number(r.max.units, places), prev.avg)
      && UpdatedAmp(prevAmp, line) == prevAmp
  {
    hide MatchAt, Search, RangeWith, PrintUnits, ParseFloat;
    assert digits + "" == digits;
    CutRangeMatches(r, places, digits, "");
    SearchSkips(SUMMARY_PATTERN, before, RangeWith(r, places, digits));
    SearchFinds(SUMMARY_PATTERN, RangeWith(r, places, digits));
    FloatRoundTrip(r.min.units, places);
    FloatRoundTrip(r.max.units, places);
  }

  // ---------- Characters that stand next to each other ----------

  ghost predicate NoPair(s: string, a: char, b: char) {
    forall i :: 0 <= i && i + 1 < |s| && s[i] == a ==> s[i + 1] != b
  }

  lemma NoPairJoin(x: string, y: string, a: char, b: char)
    requires NoPair(x, a, b) && NoPair(y, a, b)
    requires x == "" || y == "" || x[|x| - 1] != a || y[0] != b
    ensures NoPair(x + y, a, b)
  {
    var s := x + y;
    forall i | 0 <= i && i + 1 < |s| && s[i] == a
      ensures s[i + 1] != b
    {
      if i + 1 < |x| {
        assert s[i] == x[i] && s[i + 1] == x[i + 1];
      } else if i >= |x| {
        assert s[i] == y[i - |x|] && s[i + 1] == y[i + 1 - |x|];
      }
    }
  }

  lemma PairInside(s: string, word: string, j: nat)
    requires Contains(s, word) && j + 1 < |word|
    ensures !NoPair(s, word[j], word[j + 1])
  {
    var i := ContainsAt(s, word);
    assert s[i + j] == s[i..i + |word|][j] && s[i + j + 1] == s[i..i + |word|][j + 1];
  }

  /** The three pairs without which no line but one that starts with "Frame" is taken for a frame line. */
  ghost predicate NotFrameLike(s: string) {
    NoPair(s, '[', 'S') && NoPair(s, 'P', 'r') && NoPair(s, 'y', ':')
  }

  lemma NotFrameLikeJoin(x: string, y: string)
    requires NotFrameLike(x) && NotFrameLike(y) && (y != "" ==> y[0] != 'S' && y[0] != 'r' && y[0] != ':')
    ensures NotFrameLike(x + y)
  {
    hide NoPair;
    NoPairJoin(x, y, '[', 'S');
    NoPairJoin(x, y, 'P', 'r');
    NoPairJoin(x, y, 'y', ':');
  }

  lemma PairsAbsent(s: string)
    requires '[' !in s && ('P' !in s || 'r' !in s) && ('y' !in s || ':' !in s)
    ensures NotFrameLike(s)
  {
    assert forall i :: 0 <= i < |s| ==> s[i] in s;
  }

  lemma KindIsNotFrameLike(part: nat)
    ensures NotFrameLike(Kind(part)) && Kind(part) != "" && Kind(part)[0] in "FLACD"
  {
    hide NotFrameLike;
    match part
    case 0 => PairsAbsent("Frames: ");
    case 1 =>
      PairsAbsent("Latency");
      PairsAbsent(" (ms): ");
      NotFrameLikeJoin("Latency", " (ms): ");
      assert "Latency" + " (ms): " == Kind(1);
    case 2 => PairsAbsent("Amp: ");
    case 3 => PairsAbsent("CPU Load (%): ");
    case _ => PairsAbsent("DSP Load (%): ");
  }

  lemma HeadIsNotFrameLike(part: nat)
    ensures NotFrameLike(Head(part))
  {
    hide Kind;
    KindIsNotFrameLike(part);
    assert SUMMARY_START[1] == 'L';
    assert NotFrameLike(SUMMARY_START);
    NotFrameLikeJoin(SUMMARY_START, Kind(part));
  }

  /** The characters of a range. */
  predicate IsRangeChar(c: char) { IsDigitOrDot(c) || c in "MinMaxAvg:, -" }

  lemma RangeChars(r: Range, places: nat)
    requires places > 0
    ensures All(RangeText(r, places), IsRangeChar) && "Mi" <= RangeText(r, places)
    ensures forall i :: 2 <= i < |RangeText(r, places)| ==> RangeText(r, places)[i] != 'i'
  {
    hide PrintFixed;
    var avg := "Avg:" + SpacedNumber(r.avg, places, "");
    assert All(avg, IsRangeChar) && 'i' !in avg;
    var max := MaxText(r, places);
    assert max == "Max:" + SpacedNumber(r.max, places, "," + (" " + avg));
    assert All(max, IsRangeChar) && 'i' !in max;
    var numbers := SpacedNumber(r.min, places, "," + (" " + max));
    assert All(numbers, IsRangeChar) && 'i' !in numbers;
    assert RangeText(r, places) == "Min:" + numbers;
  }

  lemma SummaryIsNotFrameLike(s: SummaryMetrics, part: nat)
    ensures NotFrameLike(SummaryText(s, part))
  {
    hide Head, RangeText, PrintNat, NotFrameLike;
    HeadIsNotFrameLike(part);
    var rest := if part == 0 then PrintNat(s.frames) else RangeText(RangeOf(s, part), Places(part));
    if part > 0 {
      RangeChars(RangeOf(s, part), Places(part));
      assert rest[0] == 'M';
    }
    assert forall c :: c in rest ==> IsRangeChar(c);
    PairsAbsent(rest);
    NotFrameLikeJoin(Head(part), rest);
  }

  lemma FrameIsNotFrameLike(f: FrameMetrics)
    ensures NotFrameLike(FrameText(f))
  {
    hide FrameText;
    var colon := FrameShape(f);
  }

  lemma PrefixIsNotFrameLike(cut: string, s: string)
    requires cut <= s && NotFrameLike(s)
    ensures NotFrameLike(cut)
  {
    assert forall i :: 0 <= i < |cut| ==> cut[i] == s[i];
  }

  /** A line that starts with a bracket and has none of the pairs is not looked at by the frame parser. */
  lemma NotLookedAt(line: string)
    requires NotFrameLike(line) && line != "" && line[0] == '['
    ensures !LooksLikeFrame(line)
  {
    hide Contains, NoPair;
    if Contains(line, "[Summary]") { PairInside(line, "[Summary]", 0); }
    if Contains(line, "Frames Processed") { PairInside(line, "Frames Processed", 7); }
    if Contains(line, "Latency:") { PairInside(line, "Latency:", 6); }
  }

  // ---------- A cut summary line and a frame line ----------

  lemma SearchFindsNothing(p: Pattern, s: string)
    requires forall i :: 0 <= i <= |s| ==> MatchAt(p, s[i..]).None?
    ensures Search(p, s) == None
  {
    hide MatchAt, Search;
    var k := Leftmost(p, s);
  }

  lemma SummaryPatternAvoidsF()
    ensures Avoids(SUMMARY_PATTERN, 'F')
  {
    assert Avoids(AVG_PATTERN, 'F') && Avoids(MAX_PATTERN, 'F');
  }

  lemma StartsWithMin(s: string)
    requires MatchAt(SUMMARY_PATTERN, s).Some?
    ensures "Min:" <= s && s[0] == 'M' && s[1] == 'i'
  {
    hide SpacedPattern;
  }

  lemma HeadHasNoM(part: nat)
    requires 0 < part < 5
    ensures 'M' !in Head(part) && |Head(part)| > 15
  {
    HeadsAreRangeHeads(part);
    assert Kind(part) != "";
  }

  /** A match in the glued line would be one in the cut one. */
  lemma NoMatchInCut(part: nat, range: string, cut: string, f: FrameMetrics, i: nat)
    requires 0 < part < 5 && NeverMatches(SUMMARY_PATTERN, range) && cut <= Head(part) + range
    requires forall j :: 0 <= j < |range| && range[j] == 'i' ==> j == 1
    requires i <= |cut + FrameText(f)|
    ensures MatchAt(SUMMARY_PATTERN, (cut + FrameText(f))[i..]).None?
  {
    hide MatchAt, FrameText, Head;
    var line, head := cut + FrameText(f), Head(part);
    if MatchAt(SUMMARY_PATTERN, line[i..]).Some? {
      var colon := FrameShape(f);
      HeadHasNoM(part);
      StartsWithMin(line[i..]);
      assert line[i] == line[i..][0] && line[i + 1] == line[i..][1];
      assert forall j :: |cut| <= j < |line| ==> line[j] == FrameText(f)[j - |cut|];
      assert forall j :: 0 <= j < |cut| ==> line[j] == cut[j] == (head + range)[j];
      assert forall j :: 0 <= j < |head| ==> (head + range)[j] == head[j];
      assert i == |head|;
      assert line[i..] == cut[|head|..] + FrameText(f) && range == (head + range)[|head|..];
      CutRangeDecides(range, cut[|head|..], f);
    }
  }

  lemma CutRangeDecides(range: string, cut: string, f: FrameMetrics)
    requires NeverMatches(SUMMARY_PATTERN, range) && cut <= range
    ensures MatchAt(SUMMARY_PATTERN, cut + FrameText(f)).None?
  {
    hide MatchAt, FrameText, MatchEnd;
    var line := cut + FrameText(f);
    if MatchAt(SUMMARY_PATTERN, line).Some? {
      var colon := FrameShape(f);
      SummaryPatternAvoidsF();
      MatchAvoids(SUMMARY_PATTERN, line, 'F');
      assert line[|cut|] == FrameText(f)[0] == 'F';
      MatchInFront(SUMMARY_PATTERN, cut, FrameText(f));
    }
  }

  lemma NoRangeFound(part: nat, range: string, cut: string, f: FrameMetrics)
    requires 0 < part < 5 && NeverMatches(SUMMARY_PATTERN, range) && cut <= Head(part) + range
    requires forall j :: 0 <= j < |range| && range[j] == 'i' ==> j == 1
    ensures Search(SUMMARY_PATTERN, cut + FrameText(f)) == None
  {
    hide MatchAt, FrameText, Head, Search, NeverMatches;
    forall i | 0 <= i <= |cut + FrameText(f)|
      ensures MatchAt(SUMMARY_PATTERN, (cut + FrameText(f))[i..]).None?
    {
      NoMatchInCut(part, range, cut, f, i);
    }
    SearchFindsNothing(SUMMARY_PATTERN, cut + FrameText(f));
  }

  /** What was received of the last number of a summary line. */
  function AvgDigits(s: SummaryMetrics, part: nat, cut: string): string {
    var front := Head(part) + RangeWith(RangeOf(s, part), Places(part), "");
    if part > 0 && |cut| > |front| then cut[|front|..] else ""
  }

  lemma RangeFound(s: SummaryMetrics, part: nat, digits: string, f: FrameMetrics)
    requires 0 < part < 5 && !AnyNegativeIn(RangeOf(s, part))
    requires digits != "" && digits <= PrintFixed(RangeOf(s, part).avg, Places(part))
    ensures var r, places := RangeOf(s, part), Places(part);
      Search(SUMMARY_PATTERN, Head(part) + RangeWith(r, places, digits) + FrameText(f)) ==
        Some([PrintUnits(r.min.units, places), PrintUnits(r.max.units, places), digits])
  {
    hide MatchAt, Search, RangeWith, Head, NumberText, PrintUnits;
    var r, places := RangeOf(s, part), Places(part);
    HeadHasNoM(part);
    RangeAppend(r, places, digits, FrameText(f));
    Regroup(Head(part), RangeWith(r, places, digits), FrameText(f));
    assert All(digits, IsDigitOrDot) by {
      assert PrintFixed(r.avg, places) == "" + PrintUnits(r.avg.units, places);
    }
    CutRangeMatches(r, places, digits, FrameText(f));
    SearchSkips(SUMMARY_PATTERN, Head(part), RangeWith(r, places, digits + FrameText(f)));
    SearchFinds(SUMMARY_PATTERN, RangeWith(r, places, digits + FrameText(f)));
  }

  // ---------- What the live summary makes of it ----------

  lemma UpdatesNothing(prev: LiveSummary, line: string)
    requires Search(SUMMARY_PATTERN, line) == None
    requires "[Live Summary] Frames:" <= line ==> ParseInt(AfterColon(line)).None?
    ensures UpdatedSummary(prev, line) == prev
  {
    hide Search, AfterColon, ParseInt, Clean, Contains;
  }

  const FRAMES_LABEL := "[Live Summary] Frames:"

  /** A cut of a line that ends before the colon of "Frames:", or is of another kind, does not have that label. */
  lemma NoFramesLabel(s: SummaryMetrics, part: nat, cut: string, f: FrameMetrics)
    requires part < 5 && cut <= SummaryText(s, part) && (part == 0 ==> |cut| < |FRAMES_LABEL|)
    ensures !(FRAMES_LABEL <= cut + FrameText(f))
  {
    hide FrameText, RangeText, PrintNat, Kind;
    KindIsNotFrameLike(part);
    var colon := FrameShape(f);
    var line := cut + FrameText(f);
    assert |SUMMARY_START| == 15;
    assert FrameText(f)[0] == 'F' && FrameText(f)[5] == ' ';
    assert forall j :: 0 <= j < |cut| ==> line[j] == SummaryText(s, part)[j];
    if |cut| == 15 {
      assert line[20] == FrameText(f)[5] && FRAMES_LABEL[20] == 's';
    } else if |cut| < |FRAMES_LABEL| && (part == 0 || |cut| < 15) {
      assert line[|cut|] == 'F' && FRAMES_LABEL[|cut|] != 'F';
    } else {
      SixteenthOfHead(part);
      assert line[15] == Head(part)[15] && FRAMES_LABEL[15] == 'F';
    }
  }

  lemma SixteenthOfHead(part: nat)
    requires 0 < part < 5
    ensures |Head(part)| > 15 && Head(part)[15] != 'F'
  {
    assert Kind(part)[0] in "LACD";
  }

  lemma AfterFirstColon(front: string, rest: string)
    requires All(front, NotColon)
    ensures AfterColon(front + (":" + rest)) == Strip(rest[..RunLength(rest, NotColon)])
  {
    hide RunLength, Strip;
    var line := front + (":" + rest);
    assert (":" + rest)[0] == ':';
    RunOf(front, ":" + rest, NotColon);
    BehindColon(front, rest);
    assert RunLength(line, NotColon) == |front| < |line|;
  }

  lemma BehindColon(front: string, rest: string)
    ensures (front + (":" + rest))[|front| + 1..] == rest
  {
  }

  lemma AfterLabel(rest: string)
    ensures AfterColon(FRAMES_LABEL + rest) == Strip(rest[..RunLength(rest, NotColon)])
  {
    hide RunLength, Strip, AfterColon;
    assert FRAMES_LABEL == "[Live Summary] Frames" + ":";
    Regroup("[Live Summary] Frames", ":", rest);
    AfterFirstColon("[Live Summary] Frames", rest);
  }

  /** Stripping does not remove a capital F, and with one no text is a number. */
  lemma StrippedIsNoNumber(part: string, k: nat)
    requires k < |part| && part[k] == 'F'
    ensures ParseInt(Strip(part)).None?
  {
    hide RunLength, DropTrailing;
    var left := RunLength(part, IsPythonSpace);
    assert part[left..][k - left] == 'F';
    assert Strip(part)[k - left] == 'F';
  }

  /** A count with the word "Frame" behind it is no number. */
  lemma GluedCountIsNone(digits: string, f: FrameMetrics)
    requires forall j :: 0 <= j < |digits| ==> NotColon(digits[j])
    ensures ParseInt(AfterColon(FRAMES_LABEL + (digits + FrameText(f)))).None?
  {
    hide FrameText, RunLength, Strip, AfterColon, ParseInt;
    var colon := FrameShape(f);
    var rest := digits + FrameText(f);
    assert forall j :: 0 <= j < |digits| ==> rest[j] == digits[j];
    assert rest[|digits|] == FrameText(f)[0] == 'F';
    AfterLabel(rest);
    StrippedIsNoNumber(rest[..RunLength(rest, NotColon)], |digits|);
  }

  /** A cut count line changes nothing. */
  lemma CutCountIsLost(s: SummaryMetrics, cut: string, f: FrameMetrics)
    requires cut <= SummaryText(s, 0)
    ensures FRAMES_LABEL <= cut + FrameText(f) ==> ParseInt(AfterColon(cut + FrameText(f))).None?
  {
    hide FrameText, PrintNat, AfterColon, ParseInt;
    if |cut| < |FRAMES_LABEL| {
      NoFramesLabel(s, 0, cut, f);
    } else {
      var text := SummaryText(s, 0);
      assert text == FRAMES_LABEL + (" " + PrintNat(s.frames)) by {
        assert Head(0) == FRAMES_LABEL + " ";
        Regroup(FRAMES_LABEL, " ", PrintNat(s.frames));
      }
      var digits := cut[|FRAMES_LABEL|..];
      assert digits <= " " + PrintNat(s.frames) by {
        assert text[|FRAMES_LABEL|..] == " " + PrintNat(s.frames);
      }
      assert cut == FRAMES_LABEL + digits;
      assert forall j :: 0 <= j < |digits| ==> digits[j] == (" " + PrintNat(s.frames))[j];
      GluedCountIsNone(digits, f);
      Regroup(FRAMES_LABEL, digits, FrameText(f));
    }
  }

  /** What float() makes of the beginning of a printed number. */
  lemma CutNumberIsNumber(units: nat, places: nat, digits: string)
    requires places > 0 && digits != "" && digits <= PrintUnits(units, places)
    ensures ParseFloat(digits).Some?
  {
    hide RunLength, NatValue;
    var whole, after := PrintNat(DropDigits(units, places)), PrintDigits(units, places);
    var all := whole + ("." + after);
    assert PrintUnits(units, places) == all;
    if |digits| <= |whole| {
      assert digits == whole[..|digits|];
      RunOf(digits, "", IsDigit);
      assert digits + "" == digits;
    } else {
      var back := digits[|whole| + 1..];
      assert digits == whole + ("." + back);
      RunOf(whole, "." + back, IsDigit);
      assert digits[..|whole|] == whole && digits[|whole|] == '.';
      assert All(back, IsDigit) by {
        assert forall i :: 0 <= i < |back| ==> back[i] == all[|whole| + 1 + i] == after[i];
      }
    }
  }

  /** The live summary with a truncated average in one of its entries. */
  function WithAvg(prev: LiveSummary, s: SummaryMetrics, part: nat, avg: Number): LiveSummary {
    var r, places := RangeOf(s, part), Places(part);
    var min, max := Number(r.min.units, places), Number(r.max.units, places);
    if part == 1 then prev.(latency := Triple(min, max, avg))
    else if part == 2 then prev.(amp := Some(Triple(AmplitudeToDbfs(min), AmplitudeToDbfs(max), AmplitudeToDbfs(avg))))
    else if part == 3 then prev.(cpu := Triple(min, max, avg))
    else prev.(dsp := Triple(min, max, avg))
  }

  lemma NoAvg(tail: string)
    requires tail == "" || tail[0] == '-'
    ensures NeverMatches(SpacedPattern(End), " " + tail)
  {
    hide NeverMatches;
    NoFirst(DigitsAndDots, 1, true, End, tail);
    NoMany(Space, 0, false, Many(DigitsAndDots, 1, true, End), " ", tail);
  }

  /** A cut line of which no digit of the last number was received, or which carries a minus sign, has no range. */
  lemma CutRangeIsLost(s: SummaryMetrics, part: nat, cut: string, f: FrameMetrics)
    requires 0 < part < 5 && cut <= SummaryText(s, part)
    requires AvgDigits(s, part, cut) == "" || AnyNegativeIn(RangeOf(s, part))
    ensures Search(SUMMARY_PATTERN, cut + FrameText(f)) == None
  {
    hide Head, RangeWith, RangeText, PrintFixed, Search, FrameText, NeverMatches;
    var r, places := RangeOf(s, part), Places(part);
    var avg := PrintFixed(r.avg, places);
    var tail := if AnyNegativeIn(r) then avg else "";
    NoAvg(if r.avg.negative then avg else "");
    NoRange(r, places, tail);
    RangeIsRangeWith(r, places);
    RangeAppend(r, places, tail, if AnyNegativeIn(r) then "" else avg);
    assert tail + (if AnyNegativeIn(r) then "" else avg) == avg;
    RangeChars(r, places);
    var range := RangeWith(r, places, tail);
    assert range <= RangeText(r, places);
    assert forall j :: 0 <= j < |range| ==> range[j] == RangeText(r, places)[j];
    CutOfFront(Head(part), range, RangeText(r, places), cut);
    NoRangeFound(part, range, cut, f);
  }

  lemma CutOfFront(head: string, range: string, whole: string, cut: string)
    requires range <= whole && cut <= head + whole && (|cut| <= |head + range| || range == whole)
    ensures cut <= head + range
  {
    assert head + range <= head + whole;
  }

  /** Otherwise the line is the head, the range and those digits. */
  lemma CutInAvg(s: SummaryMetrics, part: nat, cut: string)
    requires 0 < part < 5 && cut <= SummaryText(s, part) && AvgDigits(s, part, cut) != ""
    ensures var digits := AvgDigits(s, part, cut);
      && digits <= PrintFixed(RangeOf(s, part).avg, Places(part))
      && cut == Head(part) + RangeWith(RangeOf(s, part), Places(part), digits)
  {
    hide Head, RangeWith, RangeText, PrintFixed;
    var r, places, digits := RangeOf(s, part), Places(part), AvgDigits(s, part, cut);
    var front, avg := RangeWith(r, places, ""), PrintFixed(r.avg, places);
    RangeIsRangeWith(r, places);
    RangeAppend(r, places, "", avg);
    RangeAppend(r, places, "", digits);
    assert "" + avg == avg && "" + digits == digits;
    Regroup(Head(part), front, avg);
    Regroup(Head(part), front, digits);
    assert cut == Head(part) + front + digits;
    assert digits <= avg by {
      assert avg == (Head(part) + front + avg)[|Head(part) + front|..];
    }
  }

  lemma EntryWithAvg(prev: LiveSummary, s: SummaryMetrics, part: nat, line: string, digits: string)
    requires 0 < part < 5 && ParseFloat(digits).Some?
    requires var r, places := RangeOf(s, part), Places(part);
      Search(SUMMARY_PATTERN, line) ==
        Some([PrintUnits(r.min.units, places), PrintUnits(r.max.units, places), digits])
    ensures UpdatedEntry(prev, part, line) == WithAvg(prev, s, part, ParseFloat(digits).value)
  {
    hide Search, PrintUnits, ParseFloat;
    FloatRoundTrip(RangeOf(s, part).min.units, Places(part));
    FloatRoundTrip(RangeOf(s, part).max.units, Places(part));
  }

  lemma CutEntry(prev: LiveSummary, s: SummaryMetrics, part: nat, cut: string, f: FrameMetrics)
    requires 0 < part < 5 && cut <= SummaryText(s, part)
    requires AvgDigits(s, part, cut) != "" && !AnyNegativeIn(RangeOf(s, part))
    ensures ParseFloat(AvgDigits(s, part, cut)).Some? && "[Live Summary]" <= cut
    ensures UpdatedSummary(prev, cut + FrameText(f)) ==
      WithAvg(prev, s, part, ParseFloat(AvgDigits(s, part, cut)).value)
  {
    hide Head, RangeWith, PrintUnits, Search, FrameText, UpdatedSummary, UpdatedEntry, ParseFloat, WithAvg, AvgDigits;
    hide SummaryText;
    var r, places, digits := RangeOf(s, part), Places(part), AvgDigits(s, part, cut);
    CutInAvg(s, part, cut);
    var range := RangeWith(r, places, digits);
    PrintedWithoutSign(r.avg, places);
    CutNumberIsNumber(r.avg.units, places, digits);
    RangeFound(s, part, digits, f);
    Regroup(Head(part), range, FrameText(f));
    EntryOfHead(prev, part, range + FrameText(f));
    EntryWithAvg(prev, s, part, cut + FrameText(f), digits);
    HeadsAreRangeHeads(part);
  }

  lemma PrintedWithoutSign(x: Fixed, places: nat)
    requires places > 0 && !x.negative
    ensures PrintFixed(x, places) == PrintUnits(x.units, places)
  {
    hide PrintUnits;
    assert "" + PrintUnits(x.units, places) == PrintUnits(x.units, places);
  }

  lemma SummaryIsPrintable(s: SummaryMetrics, part: nat)
    requires part < 5
    ensures var text := SummaryText(s, part);
      "[Live Summary] " <= text && forall i :: 0 <= i < |text| ==> ' ' <= text[i] <= '~'
  {
    hide RangeText, PrintNat;
    if part == 0 {
      assert Head(0) == "[Live Summary] Frames: ";
    } else {
      HeadsAreRangeHeads(part);
      RangeIsPlain(RangeOf(s, part), Places(part));
    }
  }

  lemma CutSummaryIsClean(s: SummaryMetrics, part: nat, cut: string, f: FrameMetrics)
    requires part < 5 && cut <= SummaryText(s, part) && cut != ""
    ensures var line := cut + FrameText(f); line[0] == '[' && Clean(line) == line
  {
    hide SummaryText, NumberText, Clean;
    SummaryIsPrintable(s, part);
    FrameTextIsPlain(f);
    var line := cut + FrameText(f);
    assert line[|line| - 1] == '%';
    assert forall i :: 0 <= i < |cut| ==> cut[i] == SummaryText(s, part)[i];
    CleanKeeps(line);
  }

  lemma CutSummaryIsNoFrame(mode: GuiMode, s: SummaryMetrics, part: nat, cut: string, f: FrameMetrics)
    requires part < 5 && cut <= SummaryText(s, part) && cut != ""
    ensures FramesOfRawLine(mode, cut + FrameText(f)) == []
  {
    hide SummaryText, FrameText, Clean, LooksLikeFrame, NotFrameLike, FramesOfLine;
    CutSummaryIsClean(s, part, cut, f);
    SummaryIsNotFrameLike(s, part);
    PrefixIsNotFrameLike(cut, SummaryText(s, part));
    FrameIsNotFrameLike(f);
    var colon := FrameShape(f);
    assert FrameText(f)[0] == 'F';
    NotFrameLikeJoin(cut, FrameText(f));
    NotLookedAt(cut + FrameText(f));
  }

  lemma NothingUpdated(prev: LiveSummary, s: SummaryMetrics, part: nat, cut: string, f: FrameMetrics)
    requires part < 5 && cut <= SummaryText(s, part)
    requires AvgDigits(s, part, cut) == "" || AnyNegativeIn(RangeOf(s, part))
    ensures UpdatedSummary(prev, cut + FrameText(f)) == prev
  {
    hide SummaryText, FrameText, Search, UpdatedSummary, AfterColon, ParseInt, AnyNegativeIn;
    if part == 0 {
      CutCountIsLost(s, cut, f);
      CountHasNoRange(s, cut, f);
    } else {
      NoFramesLabel(s, part, cut, f);
      CutRangeIsLost(s, part, cut, f);
    }
    UpdatesNothing(prev, cut + FrameText(f));
  }

  lemma CountHasNoRange(s: SummaryMetrics, cut: string, f: FrameMetrics)
    requires cut <= SummaryText(s, 0)
    ensures Search(SUMMARY_PATTERN, cut + FrameText(f)) == None
  {
    hide MatchAt, FrameText, Search, PrintNat;
    var line, text := cut + FrameText(f), SummaryText(s, 0);
    var colon := FrameShape(f);
    assert Head(0) == "[Live Summary] Frames: " && 'M' !in Head(0);
    assert forall j :: 0 <= j < |cut| ==> line[j] == text[j];
    assert 'M' !in text;
    assert forall j :: |cut| <= j < |line| ==> line[j] == FrameText(f)[j - |cut|];
    forall i | 0 <= i <= |line|
      ensures MatchAt(SUMMARY_PATTERN, line[i..]).None?
    {
      if MatchAt(SUMMARY_PATTERN, line[i..]).Some? {
        StartsWithMin(line[i..]);
      }
    }
    SearchFindsNothing(SUMMARY_PATTERN, line);
  }

  /**
   * The first line after a reconnection, when it is a frame line and the connection before it was lost within or just
   * behind a summary line: the new frame is never shown, and the live summary changes exactly if some digit of the last
   * number of a range had been received and the range has no minus sign. Then its entry gets that range, with the
   * average cut short where the connection was lost.
   */
  lemma GluedSummary(mode: GuiMode, prev: LiveSummary, s: SummaryMetrics, part: nat, cut: string, f: FrameMetrics)
    requires part < 5 && cut <= SummaryText(s, part) && cut != ""
    ensures FramesOfRawLine(mode, cut + FrameText(f)) == []
    ensures var digits := AvgDigits(s, part, cut);
      if digits == "" || AnyNegativeIn(RangeOf(s, part)) then SummaryAfterLine(prev, cut + FrameText(f)) == prev
      else
        && ParseFloat(digits).Some?
        && SummaryAfterLine(prev, cut + FrameText(f)) == WithAvg(prev, s, part, ParseFloat(digits).value)
  {
    hide SummaryText, FrameText, FramesOfRawLine, Clean, UpdatedSummary, AnyNegativeIn, WithAvg, ParseFloat;
    CutSummaryIsNoFrame(mode, s, part, cut, f);
    CutSummaryIsClean(s, part, cut, f);
    if AvgDigits(s, part, cut) == "" || AnyNegativeIn(RangeOf(s, part)) {
      NothingUpdated(prev, s, part, cut, f);
    } else {
      CutEntry(prev, s, part, cut, f);
      assert "[Live Summary]" <= cut + FrameText(f);
    }
  }
}
