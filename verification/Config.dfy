/** The configuration file reader (config.c). */
module Config {
  import opened Common
  import opened Text

  const LINE_SIZE: nat := 256
  const KEY_MAX: nat := 63
  const VALUE_MAX: nat := 127

  predicate NotEquals(c: char) { c != '=' }

  // ---------- trim ----------

  /**
   * What trim leaves in its caller's buffer: trailing white space goes, leading white space stays, since only a local
   * pointer moves past it, and a string of white space alone is not touched at all.
   */
  function Trimmed(s: string): (r: string)
    ensures r <= s
    ensures All(s, IsSpace) ==> r == s
    ensures !All(s, IsSpace) ==> r != "" && !IsSpace(r[|r| - 1]) && forall i :: |r| <= i < |s| ==> IsSpace(s[i])
  {
    if All(s, IsSpace) then s else DropTrailing(s, IsSpace)
  }

  /** trim, in place. */
  method Trim(buf: array<char>)
    requires |CString(buf[..])| < buf.Length
    modifies buf
    ensures |CString(buf[..])| < buf.Length
    ensures CString(buf[..]) == Trimmed(CString(old(buf[..])))
  {
    hide RunLength, DropTrailing;
    ghost var text := CString(buf[..]);
    var str := 0;
    while IsSpace(buf[str])
      invariant str <= |text| && forall i :: 0 <= i < str ==> IsSpace(text[i])
      decreases |text| - str
    {
      assert buf[str] == buf[..][str];
      str := str + 1;
    }
    assert buf[str] == buf[..][str];
    if buf[str] == '\0' {
      return;
    }
    var end := StrLen(buf);
    end := end - 1;
    while end > str && IsSpace(buf[end])
      invariant str <= end < |text| && forall i :: end < i < |text| ==> IsSpace(text[i])
    {
      end := end - 1;
    }
    DropTrailingAt(text, end + 1, IsSpace);
    buf[end + 1] := '\0';
    CutString(buf[..], text, end + 1);
  }

  /** strlen */
  method StrLen(buf: array<char>) returns (n: nat)
    requires |CString(buf[..])| < buf.Length
    ensures n == |CString(buf[..])|
  {
    n := 0;
    while buf[n] != '\0'
      invariant n <= |CString(buf[..])|
      decreases buf.Length - n
    {
      assert buf[n] == buf[..][n];
      n := n + 1;
    }
    assert buf[n] == buf[..][n];
  }

  lemma CutString(s: string, text: string, k: nat)
    requires k <= |text| && All(text, NotNul) && k < |s| && s[k] == '\0' && s[..k] == text[..k]
    ensures CString(s) == text[..k]
  {
    assert s == s[..k] + s[k..];
    RunOf(s[..k], s[k..], NotNul);
  }

  // ---------- One line ----------

  datatype Kind = StringKey | IntKey | FlagKey

  datatype Value = Str(s: string) | Int(n: int) | Flag(b: bool)

  predicate IsPathKey(key: string) {
    key == "FW_LINK_PATH" || key == "C7_OLD_FW_PATH" || key == "C7_NEW_FW_PATH" || key == "C7_STATE_PATH"
  }

  predicate IsDeviceKey(key: string) {
    key == "PCM_DEVICE" || key == "UART_DEVICE" || key == "RPROC_DEV_NAME" || key == "DMA_HEAP_RESERVED" ||
    key == "SAMPLE_AUDIO_FILE"
  }

  predicate IsIntKey(key: string) {
    key == "C7_PROC_ID" || key == "REMOTE_ENDPT" || key == "DATA_SIZE" || key == "PARAM_SIZE"
  }

  predicate IsFlagKey(key: string) {
    key == "DSP_EXEC_MODE" || key == "HOST_ETH_INTERFACE" || key == "FILTER_ENABLE" || key == "AUDIO_LOGGING_ENABLE"
  }

  /** Which of the seventeen comparisons of load_config succeeds; no two can. */
  function KindOf(key: string): Option<Kind> {
    if IsDeviceKey(key) || IsPathKey(key) then Some(StringKey)
    else if IsIntKey(key) then Some(IntKey)
    else if IsFlagKey(key) then Some(FlagKey)
    else None
  }

  /** atoi: 0 when there is no number. */
  function Atoi(s: string): int {
    var n := LeadingInt(s);
    if n.Some? then n.value else 0
  }

  function ValueOf(kind: Kind, text: string): Value {
    match kind
    case StringKey => Str(text)
    case IntKey => Int(Atoi(text))
    case FlagKey => Flag(Atoi(text) != 0)
  }

  /** sscanf(line, "%63[^=]=%127[^\n]") when it assigns both. */
  function ScanPair(line: string): Option<(string, string)> {
    var run := RunLength(line, NotEquals);
    var k := if run > KEY_MAX then KEY_MAX else run;
    if k == 0 || k == |line| || line[k] != '=' then None
    else
      var rest := line[k + 1..];
      var n := RunLength(rest, NotNewline);
      var v := if n > VALUE_MAX then VALUE_MAX else n;
      if v == 0 then None else Some((line[..k], rest[..v]))
  }

  type Settings = map<string, Value>

  function Assign(settings: Settings, key: string, text: string): Settings {
    var kind := KindOf(key);
    if kind.Some? then settings[key := ValueOf(kind.value, text)] else settings
  }

  /** The body of the loop for one buffer filled by fgets. */
  function ApplyLine(settings: Settings, raw: string): Settings {
    var line := Trimmed(CString(raw));
    if line == "" || line[0] == '#' then settings
    else
      var pair := ScanPair(line);
      if pair.None? then settings else Assign(settings, Trimmed(pair.value.0), Trimmed(pair.value.1))
  }

  // ---------- The whole file ----------

  /** How many characters fgets takes: through the newline, but 255 at most. */
  function LineLength(file: string): (k: nat)
    ensures k <= |file| && k <= LINE_SIZE - 1 && (file != "" ==> k > 0)
  {
    var run := RunLength(file, NotNewline);
    var whole := if run < |file| then run + 1 else run;
    if whole > LINE_SIZE - 1 then LINE_SIZE - 1 else whole
  }

  function Load(settings: Settings, file: string): Settings
    decreases |file|
  {
    if file == "" then settings
    else
      var k := LineLength(file);
      Load(ApplyLine(settings, file[..k]), file[k..])
  }

  /** The global app_config. */
  class AppConfig {
    var settings: Settings

    /** load_config; None stands for a file that cannot be opened. */
    method LoadConfig(file: Option<string>)
      modifies this
      ensures settings == if file.Some? then Load(old(settings), file.value) else old(settings)
    {
      if file.None? {
        return;
      }
      var rest := file.value;
      var line := new char[LINE_SIZE];
      while rest != ""
        invariant Load(settings, rest) == Load(old(settings), file.value)
        decreases |rest|
      {
        var k := LineLength(rest);
        FillBuffer(line, rest[..k]);
        ApplyBuffer(line, rest[..k]);
        rest := rest[k..];
      }
    }

    method ApplyBuffer(line: array<char>, ghost raw: string)
      requires CString(line[..]) == CString(raw) && |CString(raw)| < line.Length
      modifies this, line
      ensures settings == ApplyLine(old(settings), raw)
    {
      Trim(line);
      var n := StrLen(line);
      assert line[..n] == CString(line[..]);
      if line[0] == '#' || line[0] == '\0' {
        return;
      }
      var pair := ScanPair(line[..n]);
      if pair.Some? {
        var key := TrimString(pair.value.0);
        var val := TrimString(pair.value.1);
        settings := Assign(settings, key, val);
      }
    }
  }

  method FillBuffer(buf: array<char>, s: string)
    requires |s| < buf.Length
    modifies buf
    ensures CString(buf[..]) == CString(s) && |CString(s)| < buf.Length
  {
    for i := 0 to |s|
      invariant forall j :: 0 <= j < i ==> buf[j] == s[j]
    {
      buf[i] := s[i];
    }
    buf[|s|] := '\0';
    assert buf[..|s|] == s;
    var k := RunLength(s, NotNul);
    CutString(buf[..], s[..k], k);
  }

  /** trim of a scanned key or value, in a buffer of its own. */
  method TrimString(s: string) returns (r: string)
    requires All(s, NotNul)
    ensures r == Trimmed(s)
  {
    var buf := new char[|s| + 1];
    FillBuffer(buf, s);
    RunOf(s, "", NotNul);
    assert s + "" == s;
    Trim(buf);
    var n := StrLen(buf);
    r := buf[..n];
  }

  // ---------- Writing a configuration and reading it back ----------

  function ValueText(v: Value): string {
    match v
    case Str(s) => s
    case Int(n) => PrintInt(n)
    case Flag(b) => if b then "1" else "0"
  }

  /** A value of the right kind that one line can carry. Leading blanks are fine, trailing ones are not. */
  ghost predicate Printable(key: string, v: Value) {
    match KindOf(key)
    case None => false
    case Some(StringKey) =>
      && v.Str? && 0 < |v.s| <= VALUE_MAX
      && (forall i :: 0 <= i < |v.s| ==> NotNul(v.s[i]) && NotNewline(v.s[i]))
      && !IsSpace(v.s[|v.s| - 1])
    case Some(IntKey) => v.Int? && InInt32(v.n)
    case Some(FlagKey) => v.Flag?
  }

  /** A line of the file, without its newline: a setting, or something to be ignored. */
  datatype Item = Set(key: string, value: Value) | Other(text: string)

  /** A comment, a blank line, a line without an equals sign, or one whose key is not known. */
  ghost predicate Ignorable(text: string) {
    && |text| <= LINE_SIZE - 2
    && (forall i :: 0 <= i < |text| ==> NotNul(text[i]) && NotNewline(text[i]))
    && (text == "" || text[0] == '#' || '=' !in text || KindOf(Trimmed(text[..RunLength(text, NotEquals)])) == None)
  }

  ghost predicate ValidItem(item: Item) {
    match item
    case Set(key, value) => Printable(key, value)
    case Other(text) => Ignorable(text)
  }

  function ItemText(item: Item): string {
    match item
    case Set(key, value) => key + "=" + ValueText(value)
    case Other(text) => text
  }

  function Render(items: seq<Item>): string {
    if items == [] then "" else ItemText(items[0]) + ("\n" + Render(items[1..]))
  }

  /** The settings one after the other. */
  function Apply(settings: Settings, items: seq<Item>): Settings
    decreases items
  {
    if items == [] then settings
    else Apply(if items[0].Set? then settings[items[0].key := items[0].value] else settings, items[1..])
  }

  predicate IsKeyChar(c: char) { 'A' <= c <= 'Z' || IsDigit(c) || c == '_' }

  ghost predicate PlainKey(key: string) {
    0 < |key| <= 20 && All(key, IsKeyChar)
  }

  lemma PathKeyIsPlain(key: string)
    requires IsPathKey(key)
    ensures PlainKey(key)
  {
  }

  lemma DeviceKeyIsPlain(key: string)
    requires IsDeviceKey(key)
    ensures PlainKey(key)
  {
  }

  lemma IntKeyIsPlain(key: string)
    requires IsIntKey(key)
    ensures PlainKey(key)
  {
  }

  lemma FlagKeyIsPlain(key: string)
    requires IsFlagKey(key)
    ensures PlainKey(key)
  {
  }

  lemma KnownKeysArePlain(key: string)
    ensures KindOf(key).Some? ==> PlainKey(key)
  {
    hide IsPathKey, IsDeviceKey, IsIntKey, IsFlagKey, PlainKey;
    if IsPathKey(key) { PathKeyIsPlain(key); }
    if IsDeviceKey(key) { DeviceKeyIsPlain(key); }
    if IsIntKey(key) { IntKeyIsPlain(key); }
    if IsFlagKey(key) { FlagKeyIsPlain(key); }
  }

  /** What a printed value looks like, and that it is read back. */
  lemma ValueRoundTrip(key: string, v: Value)
    requires Printable(key, v)
    ensures var text := ValueText(v);
      && 0 < |text| <= VALUE_MAX && !IsSpace(text[|text| - 1])
      && (forall i :: 0 <= i < |text| ==> NotNul(text[i]) && NotNewline(text[i]))
      && ValueOf(KindOf(key).value, text) == v
  {
    hide KindOf, LeadingInt;
    match v
    case Str(_) =>
    case Int(n) =>
      IntRoundTrip(n);
      IntLength(n);
    case Flag(b) =>
      IntRoundTrip(if b then 1 else 0);
      assert PrintInt(if b then 1 else 0) == if b then "1" else "0";
  }

  lemma TrimNewline(text: string)
    requires text != "" && !IsSpace(text[|text| - 1])
    requires forall i :: 0 <= i < |text| ==> NotNul(text[i])
    ensures Trimmed(CString(text + "\n")) == text && Trimmed(text) == text
  {
    var line := text + "\n";
    RunOf(line, "", NotNul);
    assert line + "" == line && line[..|line|] == line;
    assert line[|text| - 1] == text[|text| - 1];
    DropTrailingAt(line, |text|, IsSpace);
    assert line[..|text|] == text;
  }

  lemma ScanSetting(key: string, text: string)
    requires 0 < |key| <= KEY_MAX && '=' !in key && 0 < |text| <= VALUE_MAX && All(text, NotNewline)
    ensures ScanPair(key + "=" + text) == Some((key, text))
  {
    var line := key + "=" + text;
    assert line == key + ("=" + text);
    RunOf(key, "=" + text, NotEquals);
    assert line[|key| + 1..] == text && line[..|key|] == key;
    RunOf(text, "", NotNewline);
    assert text + "" == text && text[..|text|] == text;
  }

  /** A line of text followed by white space and its newline is trimmed to the text. */
  lemma TrimBlanks(text: string, blanks: string)
    requires text != "" && !IsSpace(text[|text| - 1]) && All(text, NotNul) && All(blanks, IsSpace)
    ensures Trimmed(CString(text + blanks)) == text
  {
    hide RunLength;
    var line := text + blanks;
    RunOf(line, "", NotNul);
    assert line + "" == line && line[..|line|] == line;
    assert line[|text| - 1] == text[|text| - 1];
    DropTrailingAt(line, |text|, IsSpace);
    assert line[..|text|] == text;
  }

  /** A known key, white space, an equals sign and more than nothing: at most 63 and 127 characters of the two count. */
  lemma ScanSpaced(key: string, before: string, text: string)
    requires 0 < |key + before| <= 63 && '=' !in key && All(before, IsSpace) && 0 < |text| && All(text, NotNewline)
    ensures ScanPair(key + before + ("=" + text)) ==
      Some((key + before, if |text| > VALUE_MAX then text[..VALUE_MAX] else text))
  {
    hide RunLength;
    var front := key + before;
    var line := front + ("=" + text);
    RunOf(front, "=" + text, NotEquals);
    assert line[|front| + 1..] == text && line[..|front|] == front;
    RunOf(text, "", NotNewline);
    assert text + "" == text && text[..|text|] == text;
  }

  /** Blanks, tabs and line ends of any kind. */
  ghost predicate Blank(s: string) {
    forall i :: 0 <= i < |s| ==> s[i] == ' ' || 9 <= s[i] as int <= 13
  }

  /**
   * A line that sets a known key: white space in front of the equals sign, at the end of the line and in front of the
   * end of a value of more than 127 characters does not count, and more than those characters are not read.
   */
  lemma SpacedLine(settings: Settings, key: string, before: string, text: string, behind: string)
    requires KindOf(key).Some? && |key + before| <= 63 && Blank(before) && Blank(behind)
    requires text != "" && !IsSpace(text[|text| - 1]) && All(text, NotNul) && All(text, NotNewline)
    ensures ApplyLine(settings, key + before + ("=" + text) + behind) ==
      settings[key := ValueOf(KindOf(key).value, Trimmed(if |text| > VALUE_MAX then text[..VALUE_MAX] else text))]
  {
    hide KindOf, ScanPair, CString, Trimmed, ValueOf;
    KnownKeysArePlain(key);
    var line := key + before + ("=" + text);
    assert line[0] == key[0];
    TrimBlanks(line, behind);
    ScanSpaced(key, before, text);
    TrimSpaced(key, before);
  }

  lemma TrimSpaced(text: string, blanks: string)
    requires text != "" && !IsSpace(text[|text| - 1]) && All(blanks, IsSpace)
    ensures Trimmed(text + blanks) == text
  {
    var line := text + blanks;
    assert line[|text| - 1] == text[|text| - 1];
    DropTrailingAt(line, |text|, IsSpace);
    assert line[..|text|] == text;
  }

  lemma SettingLine(settings: Settings, key: string, v: Value)
    requires Printable(key, v)
    ensures ApplyLine(settings, key + "=" + ValueText(v) + "\n") == settings[key := v]
    ensures |key + "=" + ValueText(v)| <= LINE_SIZE - 2
    ensures All(key + "=" + ValueText(v), NotNewline)
  {
    hide KindOf, ApplyLine, Trimmed, ValueText, ValueOf;
    var text := ValueText(v);
    KnownKeysArePlain(key);
    ValueRoundTrip(key, v);
    SpacedLine(settings, key, "", text, "\n");
    TrimSpaced(text, "");
    assert text + "" == text && key + "" + ("=" + text) == key + "=" + text;
  }

  /** A key without a value, or with white space for one, is not set. */
  lemma EmptyValueIsIgnored(settings: Settings, key: string, before: string, behind: string)
    requires KindOf(key).Some? && |key + before| <= 63 && Blank(before) && Blank(behind)
    ensures ApplyLine(settings, key + before + "=" + behind) == settings
  {
    hide KindOf, Trimmed, CString, Assign;
    KnownKeysArePlain(key);
    var line := key + before + "=";
    TrimBlanks(line, behind);
    RunOf(key + before, "=", NotEquals);
    assert line[|key + before| + 1..] == "";
  }

  /** A string beyond 127 characters is cut there. */
  lemma LongValueIsCut(settings: Settings, key: string, text: string)
    requires KindOf(key) == Some(StringKey) && |text| > 127 && All(text, NotNul) && All(text, NotNewline)
    requires !IsSpace(text[126]) && !IsSpace(text[|text| - 1])
    ensures ApplyLine(settings, key + "=" + text + "\n") == settings[key := Str(text[..127])]
  {
    hide KindOf, ApplyLine, Trimmed;
    KnownKeysArePlain(key);
    SpacedLine(settings, key, "", text, "\n");
    var cut := text[..VALUE_MAX];
    assert cut[|cut| - 1] == text[126];
    TrimSpaced(cut, "");
    assert cut + "" == cut && key + "" + ("=" + text) == key + "=" + text;
  }

  /** A flag is on for every number but 0, and off for a value that does not begin with a number. */
  lemma FlagLine(settings: Settings, key: string, text: string)
    requires KindOf(key) == Some(FlagKey) && 0 < |text| <= VALUE_MAX && !IsSpace(text[|text| - 1])
    requires All(text, NotNul) && All(text, NotNewline)
    ensures ApplyLine(settings, key + "=" + text + "\n") ==
      settings[key := Flag(LeadingInt(text).Some? && LeadingInt(text).value != 0)]
    ensures forall n :: text == PrintInt(n) ==>
      ApplyLine(settings, key + "=" + text + "\n") == settings[key := Flag(n != 0)]
  {
    hide KindOf, ApplyLine, Trimmed, LeadingInt, PrintInt;
    KnownKeysArePlain(key);
    SpacedLine(settings, key, "", text, "\n");
    TrimSpaced(text, "");
    assert text + "" == text && key + "" + ("=" + text) == key + "=" + text;
    forall n | text == PrintInt(n)
      ensures LeadingInt(text) == Some(n)
    {
      IntRoundTrip(n);
    }
  }

  /** More than 63 characters in front of the equals sign are no key, whatever they begin with. */
  lemma LongKeyIsIgnored(settings: Settings, raw: string)
    requires RunLength(Trimmed(CString(raw)), NotEquals) > 63
    ensures ApplyLine(settings, raw) == settings
  {
    hide Assign, Trimmed, CString;
  }

  /** Load takes a line of at most 254 characters as a whole. */
  lemma LoadOneLine(settings: Settings, line: string, rest: string)
    requires |line| <= 254 && All(line, NotNewline)
    ensures Load(settings, line + ("\n" + rest)) == Load(ApplyLine(settings, line + "\n"), rest)
  {
    hide ApplyLine;
    var file := line + ("\n" + rest);
    RunOf(line, "\n" + rest, NotNewline);
    assert LineLength(file) == |line| + 1;
    assert file[..|line| + 1] == line + "\n" && file[|line| + 1..] == rest;
  }

  lemma ScannedKey(line: string)
    ensures ScanPair(line).Some? ==>
      var r := RunLength(line, NotEquals); r < |line| && ScanPair(line).value.0 == line[..r]
  {
  }

  lemma RunStops(s: string, k: nat)
    requires k < |s| && s[k] == '=' && forall i :: 0 <= i < k ==> NotEquals(s[i])
    ensures RunLength(s, NotEquals) == k
  {
    hide RunLength;
    assert s == s[..k] + s[k..];
    RunOf(s[..k], s[k..], NotEquals);
  }

  /** Trimming the line does not move its first equals sign. */
  lemma SameFirstEquals(text: string, line: string)
    requires |line| <= |text| + 1 && forall i :: 0 <= i < |line| ==> line[i] == if i < |text| then text[i] else '\n'
    requires RunLength(line, NotEquals) < |line|
    ensures var r := RunLength(line, NotEquals);
      '=' in text && RunLength(text, NotEquals) == r <= |text| && text[..r] == line[..r]
  {
    hide RunLength;
    var r := RunLength(line, NotEquals);
    assert line[r] == '=';
    RunStops(text, r);
    assert text[r] in text;
  }

  /** A line without an equals sign, or whose key is not known, scans to nothing that matters. */
  lemma UnknownKeyIsIgnored(settings: Settings, text: string, line: string)
    requires line <= text + "\n"
    requires '=' !in text || KindOf(Trimmed(text[..RunLength(text, NotEquals)])) == None
    ensures var pair := ScanPair(line);
      pair.None? || Assign(settings, Trimmed(pair.value.0), Trimmed(pair.value.1)) == settings
  {
    hide KindOf, Trimmed, ScanPair, RunLength;
    ScannedKey(line);
    if ScanPair(line).Some? {
      assert forall i :: 0 <= i < |line| ==> line[i] == (text + "\n")[i];
      SameFirstEquals(text, line);
    }
  }

  lemma IgnoredLine(settings: Settings, text: string)
    requires Ignorable(text)
    ensures ApplyLine(settings, text + "\n") == settings
  {
    hide KindOf, Assign, ScanPair;
    var all := text + "\n";
    RunOf(all, "", NotNul);
    assert all + "" == all && all[..|all|] == all;
    var line := Trimmed(all);
    assert line != "" ==> line[0] == all[0];
    if text == "" || text[0] != '#' {
      UnknownKeyIsIgnored(settings, text, line);
    }
  }

  // ---------- Comments longer than the buffer ----------

  /** fgets stops after 255 characters; what is left of a comment is a line of its own. */
  lemma CommentBlock(settings: Settings, block: string, rest: string)
    requires |block| == LINE_SIZE - 1 && block[0] == '#' && All(block, NotNewline)
    ensures Load(settings, block + rest) == Load(settings, rest)
  {
    hide RunLength, ScanPair, Assign;
    var file := block + rest;
    assert forall i :: 0 <= i < |block| ==> file[i] == block[i];
    assert LineLength(file) == |block| && file[..|block|] == block && file[|block|..] == rest;
    CommentIsSkipped(settings, block);
  }

  lemma CommentIsSkipped(settings: Settings, raw: string)
    requires raw != "" && raw[0] == '#'
    ensures ApplyLine(settings, raw) == settings
  {
    hide ScanPair, Assign;
    var text := CString(raw);
    assert text[0] == '#';
    assert Trimmed(text) != "" ==> Trimmed(text)[0] == '#';
  }

  /** A line without the blocks of 255 characters that fgets takes from its front as comments. */
  function AfterComment(text: string): string {
    if |text| >= LINE_SIZE - 1 && text[0] == '#' then AfterComment(text[LINE_SIZE - 1..]) else text
  }

  /**
   * A long comment has exactly the effect of what is left after those blocks: none if that is empty or a comment
   * again, but the effect of a setting if it is one.
   */
  lemma {:induction false} LongComment(settings: Settings, text: string, rest: string)
    requires All(text, NotNewline)
    ensures Load(settings, text + ("\n" + rest)) == Load(settings, AfterComment(text) + ("\n" + rest))
    decreases |text|
  {
    hide Load;
    if |text| >= LINE_SIZE - 1 && text[0] == '#' {
      var block, tail := text[..LINE_SIZE - 1], text[LINE_SIZE - 1..];
      assert text == block + tail;
      Regroup(block, tail, "\n" + rest);
      CommentBlock(settings, block, tail + ("\n" + rest));
      LongComment(settings, tail, rest);
    }
  }

  /** So a comment is harmless, however long it is, when what is left can be ignored. */
  lemma LongCommentIsIgnored(settings: Settings, text: string, rest: string)
    requires All(text, NotNewline) && Ignorable(AfterComment(text))
    ensures Load(settings, text + ("\n" + rest)) == Load(settings, rest)
  {
    hide Load, ApplyLine, KindOf;
    LongComment(settings, text, rest);
    LoadOneLine(settings, AfterComment(text), rest);
    IgnoredLine(settings, AfterComment(text));
  }

  /** And a comment of 255 characters followed by KEY=VALUE sets the key. */
  lemma LongCommentCanSet(settings: Settings, block: string, key: string, v: Value, rest: string)
    requires |block| == 255 && block[0] == '#' && All(block, NotNewline) && Printable(key, v)
    ensures var line := key + "=" + ValueText(v);
      Load(settings, (block + line) + ("\n" + rest)) == Load(settings[key := v], rest)
  {
    hide Load, ApplyLine, KindOf, ValueText, Printable;
    var line := key + "=" + ValueText(v);
    SettingLine(settings, key, v);
    Regroup(block, line, "\n" + rest);
    CommentBlock(settings, block, line + ("\n" + rest));
    LoadOneLine(settings, line, rest);
  }

  /** Reading what was written applies the settings in order and nothing else, over any earlier state. */
  lemma {:induction false} LoadRendered(settings: Settings, items: seq<Item>)
    requires forall item :: item in items ==> ValidItem(item)
    ensures Load(settings, Render(items)) == Apply(settings, items)
    decreases items
  {
    hide Load, ApplyLine, KindOf, ValueText, Ignorable, Printable;
    if items == [] {
      LoadNothing(settings);
    } else {
      assert items[0] in items && forall item :: item in items[1..] ==> item in items;
      OneItem(settings, items[0]);
      LoadOneLine(settings, ItemText(items[0]), Render(items[1..]));
      LoadRendered(if items[0].Set? then settings[items[0].key := items[0].value] else settings, items[1..]);
    }
  }

  lemma LoadNothing(settings: Settings)
    ensures Load(settings, "") == settings
  {
  }

  lemma OneItem(settings: Settings, item: Item)
    requires ValidItem(item)
    ensures |ItemText(item)| <= LINE_SIZE - 2 && All(ItemText(item), NotNewline)
    ensures ApplyLine(settings, ItemText(item) + "\n") ==
      if item.Set? then settings[item.key := item.value] else settings
  {
    hide ApplyLine, KindOf, ValueText, Printable;
    match item
    case Set(key, value) => SettingLine(settings, key, value);
    case Other(text) => IgnoredLine(settings, text);
  }

  /** The value of the last setting of a key. */
  function LastValue(items: seq<Item>, key: string): Option<Value> {
    if items == [] then None
    else
      var later := LastValue(items[1..], key);
      if later.Some? then later else if items[0].Set? && items[0].key == key then Some(items[0].value) else None
  }

  /** For every key the last line wins; a key that no line sets keeps its earlier value. */
  lemma {:induction false} LastLineWins(settings: Settings, items: seq<Item>, key: string)
    ensures var after := Apply(settings, items);
      match LastValue(items, key)
      case Some(v) => key in after && after[key] == v
      case None => (key in after <==> key in settings) && (key in settings ==> after[key] == settings[key])
    decreases items
  {
    if items != [] {
      LastLineWins(if items[0].Set? then settings[items[0].key := items[0].value] else settings, items[1..], key);
    }
  }

  lemma {:induction false} LastValueIsSomeSetting(items: seq<Item>, key: string)
    ensures LastValue(items, key).Some? ==> Set(key, LastValue(items, key).value) in items
    ensures forall item :: item in items && item.Set? && item.key == key ==> LastValue(items, key).Some?
  {
    if items != [] {
      LastValueIsSomeSetting(items[1..], key);
      assert forall item :: item in items ==> item == items[0] || item in items[1..];
    }
  }

  /**
   * Round trip: a configuration written as one line per key, in any order, with anything ignorable in between, and read
   * over any earlier state, is the configuration again.
   */
  lemma ConfigRoundTrip(before: Settings, config: Settings, items: seq<Item>)
    requires before.Keys <= config.Keys
    requires forall item :: item in items ==> ValidItem(item)
    requires forall key :: key in config ==> Set(key, config[key]) in items
    requires forall item :: item in items && item.Set? ==> item.key in config && item.value == config[item.key]
    ensures Load(before, Render(items)) == config
  {
    hide Load, Apply, Render, LastValue;
    LoadRendered(before, items);
    var after := Apply(before, items);
    forall key
      ensures key in after <==> key in config
      ensures key in config ==> after[key] == config[key]
    {
      LastLineWins(before, items, key);
      LastValueIsSomeSetting(items, key);
    }
    assert after.Keys == config.Keys;
  }

  /** An indented key is not recognised: trim leaves leading blanks where they are. */
  lemma IndentedKeyIsIgnored(settings: Settings, key: string, text: string)
    requires KindOf(key).Some? && 0 < |text| <= VALUE_MAX && !IsSpace(text[|text| - 1])
    requires forall i :: 0 <= i < |text| ==> NotNul(text[i]) && NotNewline(text[i])
    ensures ApplyLine(settings, " " + key + "=" + text + "\n") == settings
  {
    hide KindOf, ApplyLine, Trimmed;
    var line := " " + key + "=" + text;
    KnownKeysArePlain(key);
    assert line == (" " + key) + ("=" + text);
    RunOf(" " + key, "=" + text, NotEquals);
    assert line[..|key| + 1] == " " + key;
    IndentedKeyIsUnknown(key);
    IgnoredLine(settings, line);
  }

  lemma IndentedKeyIsUnknown(key: string)
    requires PlainKey(key)
    ensures KindOf(Trimmed(" " + key)) == None
  {
    hide KindOf;
    var indented := " " + key;
    assert !IsSpace(indented[|indented| - 1]);
    KnownKeysArePlain(indented);
    assert !IsKeyChar(indented[0]);
  }

  // ---------- The fields of app_config ----------

  datatype Fields = Fields(
    pcmDevice: string, uartDevice: string, rprocDevName: string, dmaHeapReserved: string, sampleAudioFile: string,
    fwLinkPath: string, c7OldFwPath: string, c7NewFwPath: string, c7StatePath: string,
    c7ProcId: int, remoteEndpoint: int, dataBufferSize: int, paramBufferSize: int,
    isDspExecution: bool, isHostEthIface: bool, fftFilterEnable: bool, enableAudioLogging: bool)

  function DeviceField(c: Fields, key: string): Option<Value> {
    if key == "PCM_DEVICE" then Some(Str(c.pcmDevice))
    else if key == "UART_DEVICE" then Some(Str(c.uartDevice))
    else if key == "RPROC_DEV_NAME" then Some(Str(c.rprocDevName))
    else if key == "DMA_HEAP_RESERVED" then Some(Str(c.dmaHeapReserved))
    else if key == "SAMPLE_AUDIO_FILE" then Some(Str(c.sampleAudioFile))
    else None
  }

  function PathField(c: Fields, key: string): Option<Value> {
    if key == "FW_LINK_PATH" then Some(Str(c.fwLinkPath))
    else if key == "C7_OLD_FW_PATH" then Some(Str(c.c7OldFwPath))
    else if key == "C7_NEW_FW_PATH" then Some(Str(c.c7NewFwPath))
    else if key == "C7_STATE_PATH" then Some(Str(c.c7StatePath))
    else None
  }

  function IntField(c: Fields, key: string): Option<Value> {
    if key == "C7_PROC_ID" then Some(Int(c.c7ProcId))
    else if key == "REMOTE_ENDPT" then Some(Int(c.remoteEndpoint))
    else if key == "DATA_SIZE" then Some(Int(c.dataBufferSize))
    else if key == "PARAM_SIZE" then Some(Int(c.paramBufferSize))
    else None
  }

  function FlagField(c: Fields, key: string): Option<Value> {
    if key == "DSP_EXEC_MODE" then Some(Flag(c.isDspExecution))
    else if key == "HOST_ETH_INTERFACE" then Some(Flag(c.isHostEthIface))
    else if key == "FILTER_ENABLE" then Some(Flag(c.fftFilterEnable))
    else if key == "AUDIO_LOGGING_ENABLE" then Some(Flag(c.enableAudioLogging))
    else None
  }

  /** The field a key stands for. */
  function FieldOf(c: Fields, key: string): Option<Value> {
    if DeviceField(c, key).Some? then DeviceField(c, key)
    else if PathField(c, key).Some? then PathField(c, key)
    else if IntField(c, key).Some? then IntField(c, key)
    else FlagField(c, key)
  }

  lemma StringFields(c: Fields, key: string)
    ensures DeviceField(c, key).Some? <==> IsDeviceKey(key)
    ensures PathField(c, key).Some? <==> IsPathKey(key)
    ensures DeviceField(c, key).Some? ==> DeviceField(c, key).value.Str?
    ensures PathField(c, key).Some? ==> PathField(c, key).value.Str?
  {
  }

  lemma NumberFields(c: Fields, key: string)
    ensures IntField(c, key).Some? <==> IsIntKey(key)
    ensures FlagField(c, key).Some? <==> IsFlagKey(key)
    ensures IntField(c, key).Some? ==> IntField(c, key).value.Int?
    ensures FlagField(c, key).Some? ==> FlagField(c, key).value.Flag?
  {
  }

  /** A key is known exactly when it names a field, and it is read as the type of that field demands. */
  lemma KindsAreFieldTypes(c: Fields, key: string)
    ensures FieldOf(c, key).Some? <==> KindOf(key).Some?
    ensures FieldOf(c, key).Some? ==>
      var v, kind := FieldOf(c, key).value, KindOf(key).value;
      (v.Str? <==> kind.StringKey?) && (v.Int? <==> kind.IntKey?) && (v.Flag? <==> kind.FlagKey?)
  {
    hide DeviceField, PathField, IntField, FlagField, IsDeviceKey, IsPathKey, IsIntKey, IsFlagKey;
    StringFields(c, key);
    NumberFields(c, key);
  }

  /** A value that one line can carry: strings of 1 to 127 characters without trailing white space, int32 numbers. */
  ghost predicate Storable(v: Value) {
    match v
    case Str(s) =>
      0 < |s| <= VALUE_MAX && !IsSpace(s[|s| - 1]) && forall i :: 0 <= i < |s| ==> NotNul(s[i]) && NotNewline(s[i])
    case Int(n) => InInt32(n)
    case Flag(_) => true
  }

  /** The settings map of a record of fields. */
  ghost predicate Represents(config: Settings, c: Fields) {
    forall key ::
      && (key in config <==> FieldOf(c, key).Some?)
      && (key in config ==> FieldOf(c, key) == Some(config[key]))
  }

  /** A settings map that has the value of every field under the key of its name. */
  ghost predicate HasFields(m: Settings, c: Fields) {
    HasStrings(m, c) && HasNumbers(m, c)
  }

  ghost predicate HasStrings(m: Settings, c: Fields) {
    && Has(m, "PCM_DEVICE", Str(c.pcmDevice)) && Has(m, "UART_DEVICE", Str(c.uartDevice))
    && Has(m, "RPROC_DEV_NAME", Str(c.rprocDevName)) && Has(m, "DMA_HEAP_RESERVED", Str(c.dmaHeapReserved))
    && Has(m, "SAMPLE_AUDIO_FILE", Str(c.sampleAudioFile)) && Has(m, "FW_LINK_PATH", Str(c.fwLinkPath))
    && Has(m, "C7_OLD_FW_PATH", Str(c.c7OldFwPath)) && Has(m, "C7_NEW_FW_PATH", Str(c.c7NewFwPath))
    && Has(m, "C7_STATE_PATH", Str(c.c7StatePath))
  }

  ghost predicate HasNumbers(m: Settings, c: Fields) {
    && Has(m, "C7_PROC_ID", Int(c.c7ProcId)) && Has(m, "REMOTE_ENDPT", Int(c.remoteEndpoint))
    && Has(m, "DATA_SIZE", Int(c.dataBufferSize)) && Has(m, "PARAM_SIZE", Int(c.paramBufferSize))
    && Has(m, "DSP_EXEC_MODE", Flag(c.isDspExecution)) && Has(m, "HOST_ETH_INTERFACE", Flag(c.isHostEthIface))
    && Has(m, "FILTER_ENABLE", Flag(c.fftFilterEnable)) && Has(m, "AUDIO_LOGGING_ENABLE", Flag(c.enableAudioLogging))
  }

  ghost predicate Has(m: Settings, key: string, v: Value) {
    key in m && m[key] == v
  }

  lemma DeviceNames(c: Fields)
    ensures FieldOf(c, "PCM_DEVICE") == Some(Str(c.pcmDevice)) && FieldOf(c, "UART_DEVICE") == Some(Str(c.uartDevice))
    ensures FieldOf(c, "RPROC_DEV_NAME") == Some(Str(c.rprocDevName))
    ensures FieldOf(c, "DMA_HEAP_RESERVED") == Some(Str(c.dmaHeapReserved))
    ensures FieldOf(c, "SAMPLE_AUDIO_FILE") == Some(Str(c.sampleAudioFile))
  {
  }

  lemma PathNames(c: Fields)
    ensures FieldOf(c, "FW_LINK_PATH") == Some(Str(c.fwLinkPath))
    ensures FieldOf(c, "C7_OLD_FW_PATH") == Some(Str(c.c7OldFwPath))
    ensures FieldOf(c, "C7_NEW_FW_PATH") == Some(Str(c.c7NewFwPath))
    ensures FieldOf(c, "C7_STATE_PATH") == Some(Str(c.c7StatePath))
  {
  }

  lemma IntNames(c: Fields)
    ensures FieldOf(c, "C7_PROC_ID") == Some(Int(c.c7ProcId))
    ensures FieldOf(c, "REMOTE_ENDPT") == Some(Int(c.remoteEndpoint))
    ensures FieldOf(c, "DATA_SIZE") == Some(Int(c.dataBufferSize))
    ensures FieldOf(c, "PARAM_SIZE") == Some(Int(c.paramBufferSize))
  {
  }

  lemma FlagNames(c: Fields)
    ensures FieldOf(c, "DSP_EXEC_MODE") == Some(Flag(c.isDspExecution))
    ensures FieldOf(c, "HOST_ETH_INTERFACE") == Some(Flag(c.isHostEthIface))
    ensures FieldOf(c, "FILTER_ENABLE") == Some(Flag(c.fftFilterEnable))
    ensures FieldOf(c, "AUDIO_LOGGING_ENABLE") == Some(Flag(c.enableAudioLogging))
  {
  }

  lemma FieldIsHeld(config: Settings, c: Fields, key: string, v: Value)
    requires Represents(config, c) && FieldOf(c, key) == Some(v)
    ensures Has(config, key, v)
  {
    hide FieldOf;
  }

  lemma StringsAreHeld(config: Settings, c: Fields)
    requires Represents(config, c)
    ensures HasStrings(config, c)
  {
    hide FieldOf, Represents, Has;
    DeviceNames(c);
    FieldIsHeld(config, c, "PCM_DEVICE", Str(c.pcmDevice));
    FieldIsHeld(config, c, "UART_DEVICE", Str(c.uartDevice));
    FieldIsHeld(config, c, "RPROC_DEV_NAME", Str(c.rprocDevName));
    FieldIsHeld(config, c, "DMA_HEAP_RESERVED", Str(c.dmaHeapReserved));
    FieldIsHeld(config, c, "SAMPLE_AUDIO_FILE", Str(c.sampleAudioFile));
    PathNames(c);
    FieldIsHeld(config, c, "FW_LINK_PATH", Str(c.fwLinkPath));
    FieldIsHeld(config, c, "C7_OLD_FW_PATH", Str(c.c7OldFwPath));
    FieldIsHeld(config, c, "C7_NEW_FW_PATH", Str(c.c7NewFwPath));
    FieldIsHeld(config, c, "C7_STATE_PATH", Str(c.c7StatePath));
  }

  lemma NumbersAreHeld(config: Settings, c: Fields)
    requires Represents(config, c)
    ensures HasNumbers(config, c)
  {
    hide FieldOf, Represents, Has;
    IntNames(c);
    FieldIsHeld(config, c, "C7_PROC_ID", Int(c.c7ProcId));
    FieldIsHeld(config, c, "REMOTE_ENDPT", Int(c.remoteEndpoint));
    FieldIsHeld(config, c, "DATA_SIZE", Int(c.dataBufferSize));
    FieldIsHeld(config, c, "PARAM_SIZE", Int(c.paramBufferSize));
    FlagNames(c);
    FieldIsHeld(config, c, "DSP_EXEC_MODE", Flag(c.isDspExecution));
    FieldIsHeld(config, c, "HOST_ETH_INTERFACE", Flag(c.isHostEthIface));
    FieldIsHeld(config, c, "FILTER_ENABLE", Flag(c.fftFilterEnable));
    FieldIsHeld(config, c, "AUDIO_LOGGING_ENABLE", Flag(c.enableAudioLogging));
  }

  /**
   * The same for the record that the program uses: seventeen KEY=VALUE lines, one for each field in any order, with
   * anything ignorable in between, set every field to its value.
   */
  lemma FieldsRoundTrip(before: Settings, c: Fields, config: Settings, items: seq<Item>)
    requires Represents(config, c) && before.Keys <= config.Keys
    requires forall key :: key in config ==> Storable(config[key]) && Set(key, config[key]) in items
    requires forall item :: item in items ==>
      match item
      case Set(key, value) => FieldOf(c, key) == Some(value)
      case Other(text) => Ignorable(text)
    ensures Load(before, Render(items)) == config && HasFields(Load(before, Render(items)), c)
  {
    hide FieldOf, KindOf, Load, Render, Ignorable, HasStrings, HasNumbers;
    StringsAreHeld(config, c);
    NumbersAreHeld(config, c);
    forall item | item in items
      ensures ValidItem(item)
    {
      if item.Set? {
        KindsAreFieldTypes(c, item.key);
        assert item.key in config && config[item.key] == item.value;
      }
    }
    ConfigRoundTrip(before, config, items);
  }
}
