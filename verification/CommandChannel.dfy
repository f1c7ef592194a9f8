/** The command channel: the filter button (audmon.py), the line assembler and the filter flag (host_interface.c). */
module CommandChannel {
  import opened Common
  import opened Text

  const LINE_BUFFER: nat := 512
  const MAX_LINE: nat := LINE_BUFFER - 1
  const FILTER_COMMAND := "SET FFT FILTER "

  // ---------- The assembler, one character at a time ----------

  /** The line being assembled and the lines handed to the command test; empty lines are not handed over. */
  datatype Assembly = Assembly(line: string, lines: seq<string>) {
    function Feed(c: char): Assembly {
      if c == '\r' then this
      else if c == '\n' || |line| >= MAX_LINE then Assembly("", if line != "" then lines + [line] else lines)
      else this.(line := line + [c])
    }

    function FeedAll(s: string): Assembly
      decreases s
    {
      if s == "" then this else Feed(s[0]).FeedAll(s[1..])
    }
  }

  // ---------- A splitter that looks at the whole text ----------

  /** Where the first line of a text without carriage returns ends: at its newline, but after 511 characters at most. */
  function LineEnd(s: string): (k: nat)
    ensures k <= |s| && k <= MAX_LINE
  {
    var k := RunLength(s, NotNewline);
    if k > MAX_LINE then MAX_LINE else k
  }

  /** Cut at every line end, dropping the character that ended the line, be it a newline or not; skip empty lines. */
  function SplitCommands(s: string): Split {
    var k := LineEnd(s);
    if k == |s| then Split([], s)
    else
      var t := SplitCommands(s[k + 1..]);
      Split((if k > 0 then [s[..k]] else []) + t.lines, t.rest)
  }

  // ---------- The assembler refines the splitter ----------

  lemma {:induction false} FeedLine(a: Assembly, s: string)
    requires All(s, c => c != '\n' && c != '\r') && |a.line| + |s| <= MAX_LINE
    ensures a.FeedAll(s) == a.(line := a.line + s)
    decreases s
  {
    if s == "" {
      assert a.line + s == a.line;
    } else {
      FeedLine(a.Feed(s[0]), s[1..]);
      assert a.line + [s[0]] + s[1..] == a.line + s;
    }
  }

  lemma {:induction false} FeedInPieces(a: Assembly, s: string, t: string)
    ensures a.FeedAll(s + t) == a.FeedAll(s).FeedAll(t)
    decreases s
  {
    if s == "" {
      assert s + t == t;
    } else {
      assert (s + t)[0] == s[0] && (s + t)[1..] == s[1..] + t;
      FeedInPieces(a.Feed(s[0]), s[1..], t);
    }
  }

  lemma {:induction false} ReturnsDoNotMatter(a: Assembly, s: string)
    ensures a.FeedAll(s) == a.FeedAll(DropReturns(s))
    decreases s
  {
    if s != "" {
      ReturnsDoNotMatter(a.Feed(s[0]), s[1..]);
      assert ([s[0]] + DropReturns(s[1..]))[1..] == DropReturns(s[1..]);
      assert "" + DropReturns(s[1..]) == DropReturns(s[1..]);
    }
  }

  /** A first line, the character that ends it, and the rest. */
  lemma FeedFirstLine(lines: seq<string>, first: string, end: char, rest: string)
    requires All(first, c => c != '\n' && c != '\r') && |first| <= MAX_LINE
    requires end != '\r' && (end == '\n' || |first| == MAX_LINE)
    ensures Assembly("", lines).FeedAll(first + ([end] + rest)) ==
      Assembly("", lines + if first != "" then [first] else []).FeedAll(rest)
  {
    var a := Assembly("", lines);
    FeedInPieces(a, first, [end] + rest);
    FeedLine(a, first);
    assert "" + first == first && lines + [] == lines;
    FeedOne(Assembly(first, lines), end, rest);
  }

  lemma FeedOne(a: Assembly, c: char, rest: string)
    ensures a.FeedAll([c] + rest) == a.Feed(c).FeedAll(rest)
  {
    assert ([c] + rest)[1..] == rest;
  }

  lemma {:induction false} FeedFromStart(lines: seq<string>, s: string)
    requires '\r' !in s
    ensures var t := SplitCommands(s); Assembly("", lines).FeedAll(s) == Assembly(t.rest, lines + t.lines)
    decreases |s|
  {
    hide RunLength, Assembly.FeedAll, Assembly.Feed;
    var k := LineEnd(s);
    if k == |s| {
      FeedLine(Assembly("", lines), s);
      assert "" + s == s && lines + [] == lines;
    } else {
      assert s == s[..k] + ([s[k]] + s[k + 1..]);
      FeedFirstLine(lines, s[..k], s[k], s[k + 1..]);
      var first := if k > 0 then [s[..k]] else [];
      FeedFromStart(lines + first, s[k + 1..]);
      Regroup(lines, first, SplitCommands(s[k + 1..]).lines);
    }
  }

  /**
   * The lines handed over depend on the concatenated characters alone: carriage returns are dropped and the rest is
   * split as SplitCommands says.
   */
  lemma AssemblerRefinesSplitter(s: string)
    ensures var t := SplitCommands(DropReturns(s)); Assembly("", []).FeedAll(s) == Assembly(t.rest, t.lines)
    ensures forall l :: l in SplitCommands(DropReturns(s)).lines ==> 0 < |l| <= 511
  {
    ReturnsDoNotMatter(Assembly("", []), s);
    FeedFromStart([], DropReturns(s));
    LinesAreShort(DropReturns(s));
  }

  lemma {:induction false} LinesAreShort(s: string)
    ensures forall l :: l in SplitCommands(s).lines ==> 0 < |l| <= MAX_LINE
  {
    var k := LineEnd(s);
    if k < |s| {
      LinesAreShort(s[k + 1..]);
    }
  }

  // ---------- What a line means to the device ----------

  /** sscanf("%d"): None when there is no number, or none that an int32 can hold. */
  function ScanInt(s: string): Option<int> {
    var n := LeadingInt(s);
    if n.Some? && -0x8000_0000 <= n.value < 0x8000_0000 then n else None
  }

  /** The enable_filter calls of one line. Without a number the argument is an uninitialised variable, here `stale`. */
  function CallsOfLine(line: string, stale: bool): seq<bool> {
    var text := CString(line);
    if FILTER_COMMAND <= text then
      var v := ScanInt(text[|FILTER_COMMAND|..]);
      [if v.Some? then v.value != 0 else stale]
    else []
  }

  /** What the uninitialised variable happens to hold at line i. */
  function Garbage(stale: seq<bool>, i: nat): bool {
    i < |stale| && stale[i]
  }

  /** The enable_filter calls of all lines so far. */
  function Calls(lines: seq<string>, stale: seq<bool>): seq<bool> {
    if lines == [] then []
    else
      var last := |lines| - 1;
      Calls(lines[..last], stale) + CallsOfLine(lines[last], Garbage(stale, last))
  }

  /** The filter flag of the device: a parameter shared with the DSP, or a global of the ARM code. */
  class Device {
    const mode: ExecMode
    var filterEnabled: bool
    var dspFilterEnabled: int
    ghost const initial: bool
    ghost var calls: seq<bool>

    ghost predicate Valid()
      reads this
    {
      FilterOn() == if calls == [] then initial else calls[|calls| - 1]
    }

    function FilterOn(): bool
      reads this
    {
      if mode.ExecDsp? then dspFilterEnabled != 0 else filterEnabled
    }

    constructor (mode: ExecMode, filter: bool)
      ensures Valid() && FilterOn() == initial == filter && calls == [] && this.mode == mode
    {
      this.mode := mode;
      filterEnabled, dspFilterEnabled := filter, if filter then 1 else 0;
      initial, calls := filter, [];
    }

    /** enable_filter */
    method EnableFilter(state: bool)
      modifies this
      ensures Valid() && FilterOn() == state && calls == old(calls) + [state]
      ensures mode.ExecDsp? ==> filterEnabled == old(filterEnabled)
      ensures mode.ExecArm? ==> dspFilterEnabled == old(dspFilterEnabled)
    {
      if mode.ExecDsp? {
        dspFilterEnabled := if state then 1 else 0;
      } else {
        filterEnabled := state;
      }
      calls := calls + [state];
    }
  }

  /**
   * The static line buffer of cmd_listener and the loop over one read. `count` numbers the lines, so that `stale` can
   * say what an uninitialised variable would hold at each.
   */
  class CmdListener {
    const linebuf: array<char>
    var lineofs: nat
    const device: Device
    const stale: seq<bool>
    var count: nat
    ghost var lines: seq<string>

    ghost predicate Valid()
      reads this, linebuf, device
    {
      && linebuf.Length == LINE_BUFFER && lineofs <= MAX_LINE && count == |lines|
      && device.Valid() && device.calls == Calls(lines, stale)
    }

    ghost function State(): Assembly
      requires Valid()
      reads this, linebuf, device
    {
      Assembly(linebuf[..lineofs], lines)
    }

    constructor (device: Device, stale: seq<bool>)
      requires device.Valid() && device.calls == []
      ensures Valid() && fresh(linebuf) && State() == Assembly("", []) && this.device == device && this.stale == stale
    {
      linebuf := new char[LINE_BUFFER];
      lineofs, count, lines := 0, 0, [];
      this.device := device;
      this.stale := stale;
    }

    /** A completed line: linebuf[..lineofs]. */
    method Dispatch()
      requires Valid() && lineofs > 0
      modifies this`lines, this`count, device
      ensures Valid() && lines == old(lines) + [linebuf[..lineofs]]
    {
      hide RunLength, ScanInt;
      var line := linebuf[..lineofs];
      var text := CString(line);
      if FILTER_COMMAND <= text {
        var v := ScanInt(text[|FILTER_COMMAND|..]);
        device.EnableFilter(if v.Some? then v.value != 0 else Garbage(stale, count));
      }
      lines, count := lines + [line], count + 1;
      assert lines[..|lines| - 1] == old(lines);
    }

    /** The end of a line: terminate it, hand it over unless it is empty, start the next one. */
    method EndLine()
      requires Valid()
      modifies this, linebuf, device
      ensures Valid() && lineofs == 0
      ensures lines == old(lines) + if old(lineofs) > 0 then [old(linebuf[..lineofs])] else []
    {
      linebuf[lineofs] := '\0';
      assert linebuf[..lineofs] == old(linebuf[..lineofs]);
      if lineofs > 0 {
        Dispatch();
      }
      lineofs := 0;
    }

    /** The body of the loop. */
    method OnChar(c: char)
      requires Valid()
      modifies this, linebuf, device
      ensures Valid() && State() == old(State()).Feed(c)
    {
      if c == '\r' {
        return;
      }
      if c == '\n' || lineofs >= MAX_LINE {
        EndLine();
      } else {
        linebuf[lineofs] := c;
        lineofs := lineofs + 1;
        assert linebuf[..lineofs] == old(linebuf[..lineofs]) + [c];
      }
    }

    /** The loop over the characters of one read; the line under assembly carries over to the next read. */
    method OnRead(buf: string)
      requires Valid()
      modifies this, linebuf, device
      ensures Valid() && State() == old(State()).FeedAll(buf)
    {
      for i := 0 to |buf|
        invariant Valid()
        invariant State().FeedAll(buf[i..]) == old(State()).FeedAll(buf)
      {
        assert buf[i..][0] == buf[i] && buf[i..][1..] == buf[i + 1..];
        OnChar(buf[i]);
      }
    }

    /** The reads of a connection: only the text they carry together matters. */
    method Listen(pieces: seq<string>)
      requires Valid()
      modifies this, linebuf, device
      ensures Valid() && State() == old(State()).FeedAll(Flatten(pieces))
    {
      hide Calls, CallsOfLine;
      for i := 0 to |pieces|
        invariant Valid()
        invariant State() == old(State()).FeedAll(Flatten(pieces[..i]))
      {
        FeedInPieces(old(State()), Flatten(pieces[..i]), pieces[i]);
        FlattenSnoc(pieces[..i], pieces[i]);
        assert pieces[..i + 1] == pieces[..i] + [pieces[i]];
        OnRead(pieces[i]);
      }
      assert pieces[..|pieces|] == pieces;
    }
  }

  // ---------- The filter button ----------

  /** The other end of sock_cmd: nobody, a connection that no listener reads, or the listener of the device. */
  datatype CmdSocket = Unconnected | Unread | Listened

  /**
   * `connected` of the GUI, which speaks of the log socket; sock_cmd; and whether the device has accepted the one
   * command client that it ever accepts.
   */
  datatype Link = Link(connected: bool, cmd: CmdSocket, accepted: bool) {
    predicate Delivers() {
      connected && cmd.Listened?
    }
  }

  /**
   * What happens to the button: it is pressed; the log socket is connected, to the device as before or to one that has
   * been started anew with the configured filter setting `started`; the command socket is closed and, if `ok`,
   * connected again, which happens some time after the log socket; the log socket is lost.
   */
  datatype Event = Press | ConnectLog(started: Option<bool>) | ConnectCmd(ok: bool) | LoseLog

  /** The sockets after an event. A device started anew reads none of the old ones and accepts a new client. */
  function NextLink(link: Link, e: Event): Link {
    match e
    case Press => link
    case ConnectLog(None) => link.(connected := true)
    case ConnectLog(Some(_)) => Link(true, if link.cmd.Listened? then Unread else link.cmd, false)
    case ConnectCmd(ok) =>
      Link(link.connected, if !ok then Unconnected else if link.accepted then Unread else Listened, link.accepted || ok)
    case LoseLog => link.(connected := false)
  }

  function LinkAfter(events: seq<Event>): Link {
    if events == [] then Link(false, Unconnected, false)
    else
      var last := |events| - 1;
      NextLink(LinkAfter(events[..last]), events[last])
  }

  function Command(on: bool): string {
    FILTER_COMMAND + if on then "1" else "0"
  }

  /**
   * toggle_filter.state and the sockets, with the bytes sent to the listener of the device since that was started, and
   * the settings they ask for.
   */
  class FilterButton {
    var state: bool
    var link: Link
    var sent: string
    ghost var events: seq<Event>

    ghost predicate Valid()
      reads this
    {
      state == ButtonState(events) && link == LinkAfter(events) && sent == Wire(Settings(events))
    }

    constructor ()
      ensures Valid() && events == []
    {
      state, link, sent, events := true, Link(false, Unconnected, false), "", [];
    }

    /** Without a connection sendall raises; bytes that no listener reads are not counted. */
    method SendCommand(cmd: string) returns (raised: bool)
      modifies this`sent
      ensures raised <==> link.cmd.Unconnected?
      ensures sent == old(sent) + if link.cmd.Listened? then cmd + "\n" else ""
    {
      if link.cmd.Unconnected? {
        return true;
      }
      if link.cmd.Listened? {
        sent := sent + (cmd + "\n");
      }
      return false;
    }

    /** send_param_command for the one parameter the GUI has. */
    method SendFilterCommand(value: bool) returns (raised: bool)
      modifies this`sent
      ensures raised <==> link.connected && link.cmd.Unconnected?
      ensures sent == old(sent) + if link.Delivers() then Command(value) + "\n" + "\n" else ""
    {
      raised := false;
      if link.connected {
        raised := SendCommand(Command(value) + "\n");
      }
    }

    /** The state is flipped before the command is sent, so a press that raises has flipped it too. */
    method ToggleFilter() returns (raised: bool)
      requires Valid()
      modifies this`state, this`sent, this`events
      ensures Valid() && events == old(events) + [Press] && state == !old(state)
      ensures raised <==> link.connected && link.cmd.Unconnected?
    {
      hide ButtonState, Settings, Wire, LinkAfter;
      state := !state;
      raised := SendFilterCommand(state);
      EventSnoc(events, Press);
      WireSnoc(Settings(events), state);
      events := events + [Press];
    }

    /** wait_for_connection once it succeeds; clear_data, which resets the button, is called from here only. */
    method WaitForConnection(started: Option<bool>)
      requires Valid()
      modifies this
      ensures Valid() && events == old(events) + [ConnectLog(started)] && state
    {
      state := true;
      link := NextLink(link, ConnectLog(started));
      if started.Some? {
        sent := "";
      }
      EventSnoc(events, ConnectLog(started));
      events := events + [ConnectLog(started)];
    }

    /** One attempt of wait_for_cmd: the old socket is closed first. */
    method WaitForCmd(ok: bool)
      requires Valid()
      modifies this`link, this`events
      ensures Valid() && events == old(events) + [ConnectCmd(ok)]
    {
      link := NextLink(link, ConnectCmd(ok));
      EventSnoc(events, ConnectCmd(ok));
      events := events + [ConnectCmd(ok)];
    }

    /** The exception branch of read_data. */
    method LoseConnection()
      requires Valid()
      modifies this`link, this`events
      ensures Valid() && events == old(events) + [LoseLog]
    {
      link := NextLink(link, LoseLog);
      EventSnoc(events, LoseLog);
      events := events + [LoseLog];
    }
  }

  function ButtonState(events: seq<Event>): bool {
    if events == [] then true
    else
      var last := |events| - 1;
      if events[last].ConnectLog? then true
      else if events[last].Press? then !ButtonState(events[..last])
      else ButtonState(events[..last])
  }

  predicate StartsDevice(e: Event) {
    e.ConnectLog? && e.started.Some?
  }

  /** The settings sent to the listener of the device since that was started. */
  function Settings(events: seq<Event>): seq<bool> {
    if events == [] || StartsDevice(events[|events| - 1]) then []
    else
      var last := |events| - 1;
      Settings(events[..last]) +
      if events[last].Press? && LinkAfter(events[..last]).Delivers() then [ButtonState(events)] else []
  }

  /** The filter setting with which the device was started; `initial` is that of the first one. */
  function StartSetting(initial: bool, events: seq<Event>): bool {
    if events == [] then initial
    else
      var last := |events| - 1;
      if StartsDevice(events[last]) then events[last].started.value else StartSetting(initial, events[..last])
  }

  lemma EventSnoc(events: seq<Event>, e: Event)
    ensures ButtonState(events + [e]) ==
      if e.ConnectLog? then true else if e.Press? then !ButtonState(events) else ButtonState(events)
    ensures LinkAfter(events + [e]) == NextLink(LinkAfter(events), e)
    ensures Settings(events + [e]) ==
      if StartsDevice(e) then []
      else if e.Press? && LinkAfter(events).Delivers() then Settings(events) + [!ButtonState(events)]
      else Settings(events)
  {
    hide NextLink;
    assert (events + [e])[..|events|] == events;
    assert Settings(events) + [] == Settings(events);
  }

  /** The bytes of a list of settings; each command carries an extra blank line. */
  function Wire(settings: seq<bool>): string {
    if settings == [] then "" else Command(settings[0]) + "\n" + "\n" + Wire(settings[1..])
  }

  lemma {:induction false} WireSnoc(settings: seq<bool>, on: bool)
    ensures Wire(settings + [on]) == Wire(settings) + (Command(on) + "\n" + "\n")
  {
    if settings == [] {
      assert settings + [on] == [on];
      assert Wire([on]) == Command(on) + "\n" + "\n" + "";
    } else {
      assert (settings + [on])[1..] == settings[1..] + [on];
      WireSnoc(settings[1..], on);
    }
  }

  // ---------- From the button to the flag ----------

  function Commands(settings: seq<bool>): (lines: seq<string>)
    ensures |lines| == |settings|
  {
    seq(|settings|, i requires 0 <= i < |settings| => Command(settings[i]))
  }

  lemma LineEndAtNewline(line: string, s: string)
    requires |line| <= MAX_LINE && All(line, NotNewline)
    ensures LineEnd(line + ("\n" + s)) == |line|
  {
    hide RunLength;
    RunOf(line, "\n" + s, NotNewline);
  }

  lemma SplitAtNewline(line: string, s: string)
    requires |line| <= 511 && All(line, NotNewline)
    ensures var t := SplitCommands(s);
      SplitCommands(line + ("\n" + s)) == Split((if line != "" then [line] else []) + t.lines, t.rest)
  {
    hide LineEnd;
    var all := line + ("\n" + s);
    LineEndAtNewline(line, s);
    assert all[..|line|] == line && all[|line| + 1..] == s;
  }

  lemma SplitOneCommand(on: bool, s: string)
    ensures var t := SplitCommands(s);
      SplitCommands(Command(on) + "\n" + "\n" + s) == Split([Command(on)] + t.lines, t.rest)
  {
    hide SplitCommands;
    var command := Command(on);
    SplitAtNewline(command, "\n" + s);
    SplitAtNewline("", s);
    assert "" + ("\n" + s) == "\n" + s && [] + SplitCommands(s).lines == SplitCommands(s).lines;
    Regroup(command + "\n", "\n", s);
    Regroup(command, "\n", "\n" + s);
  }

  lemma {:induction false} WireHasNoReturns(settings: seq<bool>)
    ensures '\r' !in Wire(settings)
  {
    if settings != [] {
      WireHasNoReturns(settings[1..]);
    }
  }

  /** Every command comes out as one line; the blank line after it comes out as nothing. */
  lemma {:induction false} SplitWire(settings: seq<bool>)
    ensures SplitCommands(Wire(settings)) == Split(Commands(settings), "")
  {
    hide Command, RunLength;
    if settings != [] {
      SplitWire(settings[1..]);
      SplitOneCommand(settings[0], Wire(settings[1..]));
      assert [Command(settings[0])] + Commands(settings[1..]) == Commands(settings);
    }
  }

  /** A command with any number that an int32 can hold calls enable_filter once, with whether the number is not 0. */
  lemma NumberCalls(n: int, stale: bool)
    requires InInt32(n)
    ensures CallsOfLine("SET FFT FILTER " + PrintInt(n), stale) == [n != 0]
  {
    hide RunLength, LeadingInt, PrintInt;
    IntRoundTrip(n);
    var line := FILTER_COMMAND + PrintInt(n);
    RunOf(line, "", NotNul);
    assert line + "" == line && CString(line) == line;
    assert line[|FILTER_COMMAND|..] == PrintInt(n);
  }

  /** Only a line that begins with the command calls it, and once. */
  lemma OnlyCommandsCall(line: string, stale: bool)
    ensures |CallsOfLine(line, stale)| == if FILTER_COMMAND <= line then 1 else 0
  {
    hide ScanInt;
    assert All(FILTER_COMMAND, NotNul);
    if FILTER_COMMAND <= line {
      assert forall i :: 0 <= i < |FILTER_COMMAND| ==> line[i] == FILTER_COMMAND[i];
      assert FILTER_COMMAND <= CString(line);
    }
  }

  /** Without a number it calls it with what the uninitialised variable holds. */
  lemma NoNumberCalls(rest: string, stale: bool)
    requires All(rest, NotNul) && (rest == "" || !(IsDigit(rest[0]) || IsSpace(rest[0]) || rest[0] in "-+"))
    ensures CallsOfLine("SET FFT FILTER " + rest, stale) == [stale]
  {
    hide RunLength, LeadingInt;
    NoLeadingInt("", rest);
    var line := FILTER_COMMAND + rest;
    RunOf(line, "", NotNul);
    assert line + "" == line && CString(line) == line && "" + rest == rest;
    assert line[|FILTER_COMMAND|..] == rest;
  }

  lemma CommandCalls(on: bool, stale: bool)
    ensures Command(on) == if on then "SET FFT FILTER 1" else "SET FFT FILTER 0"
    ensures CallsOfLine(Command(on), stale) == [on]
  {
    NumberCalls(if on then 1 else 0, stale);
    assert PrintInt(if on then 1 else 0) == if on then "1" else "0";
  }

  lemma CallsSnoc(lines: seq<string>, line: string, stale: seq<bool>)
    ensures Calls(lines + [line], stale) == Calls(lines, stale) + CallsOfLine(line, Garbage(stale, |lines|))
  {
    assert (lines + [line])[..|lines|] == lines;
  }

  lemma CommandsSnoc(front: seq<bool>, on: bool)
    ensures Commands(front + [on]) == Commands(front) + [Command(on)]
  {
  }

  lemma OneCallMore(front: seq<bool>, on: bool, stale: seq<bool>)
    requires Calls(Commands(front), stale) == front
    ensures Calls(Commands(front + [on]), stale) == front + [on]
  {
    CommandsSnoc(front, on);
    CallsSnoc(Commands(front), Command(on), stale);
    CommandCalls(on, Garbage(stale, |front|));
  }

  lemma {:induction false} CommandsCall(settings: seq<bool>, stale: seq<bool>)
    ensures Calls(Commands(settings), stale) == settings
  {
    hide CallsOfLine, Command;
    if settings != [] {
      var last := |settings| - 1;
      CommandsCall(settings[..last], stale);
      OneCallMore(settings[..last], settings[last], stale);
      assert settings == settings[..last] + [settings[last]];
    }
  }

  /**
   * For every sequence of button events and every way the bytes are cut into reads, once all have been consumed the
   * device has been called exactly once per command sent, with the settings asked for, in order. Nothing depends on the
   * contents of uninitialised memory, and no partial line is left.
   */
  lemma FilterEndToEnd(events: seq<Event>, pieces: seq<string>, stale: seq<bool>)
    requires Flatten(pieces) == Wire(Settings(events))
    ensures var a := Assembly("", []).FeedAll(Flatten(pieces));
      a.line == "" && Calls(a.lines, stale) == Settings(events)
  {
    var settings := Settings(events);
    SplitWire(settings);
    WireHasNoReturns(settings);
    NoReturnsToDrop(Wire(settings));
    AssemblerRefinesSplitter(Wire(settings));
    CommandsCall(settings, stale);
  }

  /** The device flag after a list of calls. */
  function FlagAfter(initial: bool, calls: seq<bool>): bool {
    if calls == [] then initial else calls[|calls| - 1]
  }

  /** The filter flag of the device that runs now, once all bytes sent to it are consumed. */
  function DeviceFlag(initial: bool, events: seq<Event>): bool {
    FlagAfter(StartSetting(initial, events), Settings(events))
  }

  /** How often the button was pressed since the log socket was last connected. */
  function Presses(events: seq<Event>): nat {
    if events == [] || events[|events| - 1].ConnectLog? then 0
    else
      var last := |events| - 1;
      Presses(events[..last]) + if events[last].Press? then 1 else 0
  }

  /** The events up to the last press that reached the device that runs now; none if there was none. */
  function UpToLastSent(events: seq<Event>): (r: seq<Event>)
    ensures r <= events
  {
    if events == [] || StartsDevice(events[|events| - 1]) then []
    else
      var last := |events| - 1;
      if events[last].Press? && LinkAfter(events[..last]).Delivers() then events else UpToLastSent(events[..last])
  }

  predicate Even(n: nat) { n % 2 == 0 }

  /**
   * Two counts of presses, each since the connection before it, have the same parity: those up to the last press that
   * reached the device, and those up to now. Before one reached it the first parity is that of its configured setting,
   * on being even.
   */
  predicate InStep(initial: bool, events: seq<Event>) {
    var sent := UpToLastSent(events);
    (if sent == [] then StartSetting(initial, events) else Even(Presses(sent))) <==> Even(Presses(events))
  }

  /** The button starts, and restarts at every connection, with on. */
  lemma {:induction false} ButtonIsParity(events: seq<Event>)
    ensures ButtonState(events) <==> Even(Presses(events))
  {
    if events != [] {
      ButtonIsParity(events[..|events| - 1]);
    }
  }

  /** The device flag is what the button showed at the last press that reached the device. */
  lemma {:induction false} FlagIsLastSent(initial: bool, events: seq<Event>)
    ensures var sent := UpToLastSent(events);
      FlagAfter(initial, Settings(events)) == if sent == [] then initial else ButtonState(sent)
  {
    hide LinkAfter;
    if events != [] {
      var last := |events| - 1;
      FlagIsLastSent(initial, events[..last]);
      assert events == events[..last] + [events[last]];
      EventSnoc(events[..last], events[last]);
    }
  }

  /** The exact condition, on the presses and connections alone, under which the flag and the button agree. */
  lemma AgreementIsInStep(initial: bool, events: seq<Event>)
    ensures DeviceFlag(initial, events) == ButtonState(events) <==> InStep(initial, events)
  {
    hide FlagAfter, Settings, ButtonState, Presses, StartSetting;
    FlagIsLastSent(StartSetting(initial, events), events);
    ButtonIsParity(events);
    ButtonIsParity(UpToLastSent(events));
  }

  // ---------- Which presses reach the device ----------

  /** The log socket was connected by event i and has not been lost since. */
  ghost predicate HoldsLog(events: seq<Event>, i: int) {
    && 0 <= i < |events| && events[i].ConnectLog?
    && forall j :: i < j < |events| ==> !events[j].LoseLog?
  }

  /** Event i connected the command socket, and the device has not been started anew since. */
  ghost predicate IsClient(events: seq<Event>, i: int) {
    && 0 <= i < |events| && events[i] == ConnectCmd(true)
    && forall j :: i < j < |events| ==> !StartsDevice(events[j])
  }

  /** Event i was the last attempt to connect the command socket, and it did. */
  ghost predicate HoldsCmd(events: seq<Event>, i: int) {
    && 0 <= i < |events| && events[i] == ConnectCmd(true)
    && forall j :: i < j < |events| ==> !events[j].ConnectCmd?
  }

  /** It connected it to the device that runs now, which had no client before. */
  ghost predicate IsHeard(events: seq<Event>, i: int) {
    HoldsCmd(events, i) && IsClient(events, i) && forall k :: 0 <= k < i ==> !IsClient(events, k)
  }

  lemma HoldsSnoc(events: seq<Event>, e: Event, i: int)
    ensures HoldsLog(events + [e], i) <==> (i == |events| && e.ConnectLog?) || (HoldsLog(events, i) && !e.LoseLog?)
    ensures HoldsCmd(events + [e], i) <==>
      (i == |events| && e == ConnectCmd(true)) || (HoldsCmd(events, i) && !e.ConnectCmd?)
    ensures IsClient(events + [e], i) <==>
      (i == |events| && e == ConnectCmd(true)) || (IsClient(events, i) && !StartsDevice(e))
  {
    var all := events + [e];
    assert all[|events|] == e && forall j :: 0 <= j < |events| ==> all[j] == events[j];
  }

  lemma HeardSnoc(events: seq<Event>, e: Event, i: int)
    ensures IsHeard(events + [e], i) <==>
      (i == |events| && e == ConnectCmd(true) && forall k :: 0 <= k < |events| ==> !IsClient(events, k)) ||
      (IsHeard(events, i) && !e.ConnectCmd? && !StartsDevice(e))
  {
    HoldsSnoc(events, e, i);
    forall k
      ensures IsClient(events + [e], k) <==>
        (k == |events| && e == ConnectCmd(true)) || (IsClient(events, k) && !StartsDevice(e))
    {
      HoldsSnoc(events, e, k);
    }
  }

  lemma SocketsSnoc(events: seq<Event>, e: Event)
    ensures (exists i :: HoldsLog(events + [e], i)) <==>
      e.ConnectLog? || ((exists i :: HoldsLog(events, i)) && !e.LoseLog?)
    ensures (exists i :: HoldsCmd(events + [e], i)) <==>
      e == ConnectCmd(true) || ((exists i :: HoldsCmd(events, i)) && !e.ConnectCmd?)
    ensures (exists i :: IsClient(events + [e], i)) <==>
      e == ConnectCmd(true) || ((exists i :: IsClient(events, i)) && !StartsDevice(e))
    ensures (exists i :: IsHeard(events + [e], i)) <==>
      (e == ConnectCmd(true) && !exists i :: IsClient(events, i)) ||
      ((exists i :: IsHeard(events, i)) && !e.ConnectCmd? && !StartsDevice(e))
  {
    hide StartsDevice;
    assert forall i :: IsClient(events, i) ==> 0 <= i < |events|;
    hide HoldsLog, HoldsCmd, IsClient, IsHeard;
    HoldsSnoc(events, e, |events|);
    HeardSnoc(events, e, |events|);
    forall i
      ensures HoldsLog(events + [e], i) <==> (i == |events| && e.ConnectLog?) || (HoldsLog(events, i) && !e.LoseLog?)
      ensures HoldsCmd(events + [e], i) <==>
        (i == |events| && e == ConnectCmd(true)) || (HoldsCmd(events, i) && !e.ConnectCmd?)
      ensures IsClient(events + [e], i) <==>
        (i == |events| && e == ConnectCmd(true)) || (IsClient(events, i) && !StartsDevice(e))
      ensures IsHeard(events + [e], i) <==>
        (i == |events| && e == ConnectCmd(true) && forall k :: 0 <= k < |events| ==> !IsClient(events, k)) ||
        (IsHeard(events, i) && !e.ConnectCmd? && !StartsDevice(e))
    {
      HoldsSnoc(events, e, i);
      HeardSnoc(events, e, i);
    }
  }

  /** What the two sockets are, read off the events without following them. */
  lemma {:induction false} LinkMeans(events: seq<Event>)
    ensures LinkAfter(events).connected <==> exists i :: HoldsLog(events, i)
    ensures LinkAfter(events).accepted <==> exists i :: IsClient(events, i)
    ensures LinkAfter(events).cmd.Unconnected? <==> !exists i :: HoldsCmd(events, i)
    ensures LinkAfter(events).cmd.Listened? <==> exists i :: IsHeard(events, i)
  {
    if events != [] {
      hide HoldsLog, HoldsCmd, IsClient, IsHeard;
      var last := |events| - 1;
      LinkMeans(events[..last]);
      assert events == events[..last] + [events[last]];
      SocketsSnoc(events[..last], events[last]);
    }
  }

  /**
   * Exactly when a press reaches the device: the log socket has been connected and not been lost since, and the last
   * attempt to connect the command socket succeeded and was the first that did since the device was started. It raises
   * exactly when the log socket is up and that last attempt failed or was never made.
   */
  lemma PressIsHeard(events: seq<Event>)
    ensures (exists i :: HoldsLog(events, i)) && (exists i :: IsHeard(events, i)) ==>
      Settings(events + [Press]) == Settings(events) + [!ButtonState(events)]
    ensures !((exists i :: HoldsLog(events, i)) && (exists i :: IsHeard(events, i))) ==>
      Settings(events + [Press]) == Settings(events)
  {
    hide HoldsLog, IsHeard, LinkAfter, Settings, ButtonState;
    LinkMeans(events);
    EventSnoc(events, Press);
  }

  // ---------- What a connection means for the two ----------

  lemma {:induction false} PressesAdd(events: seq<Event>, more: seq<Event>)
    requires forall e :: e in more ==> !e.ConnectLog?
    ensures Presses(events + more) == Presses(events) + Presses(more)
  {
    var all := events + more;
    if more == [] {
      assert all == events;
    } else {
      var last := |more| - 1;
      assert more[last] in more && forall e :: e in more[..last] ==> e in more;
      assert all[..|all| - 1] == events + more[..last];
      PressesAdd(events, more[..last]);
    }
  }

  lemma EvenSum(a: nat, b: nat)
    ensures Even(a + b) <==> (Even(a) <==> Even(b))
  {
  }

  /** Within a connection, once a press has reached the device, they agree after an even number that do not. */
  lemma InStepWithinConnection(initial: bool, events: seq<Event>)
    requires var sent := UpToLastSent(events); sent != [] && forall e :: e in events[|sent|..] ==> !e.ConnectLog?
    ensures InStep(initial, events) <==> Even(Presses(events[|UpToLastSent(events)|..]))
  {
    hide UpToLastSent, Presses, StartSetting;
    var sent := UpToLastSent(events);
    var more := events[|sent|..];
    assert events == sent + more;
    PressesAdd(sent, more);
    EvenSum(Presses(sent), Presses(more));
  }

  /** A device started anew, connected to as wait_for_connection and wait_for_cmd do, with what was pressed between. */
  function Session(before: seq<Event>, on: bool, early: nat, presses: nat): seq<Event> {
    before + [ConnectLog(Some(on))] + seq(early, _ => Press) + [ConnectCmd(true)] + seq(presses, _ => Press)
  }

  /** Further presses while the link stays as it is. */
  lemma {:induction false} MorePresses(events: seq<Event>, k: nat)
    ensures var all := events + seq(k, _ => Press);
      && LinkAfter(all) == LinkAfter(events)
      && ButtonState(all) == (if Even(k) then ButtonState(events) else !ButtonState(events))
      && |Settings(all)| == |Settings(events)| + (if LinkAfter(events).Delivers() then k else 0)
      && (!LinkAfter(events).Delivers() ==> Settings(all) == Settings(events))
      && (LinkAfter(events).Delivers() && k > 0 ==> FlagAfter(true, Settings(all)) == ButtonState(all))
  {
    hide LinkAfter, Settings, ButtonState;
    if k == 0 {
      assert events + seq(0, _ => Press) == events;
    } else {
      MorePresses(events, k - 1);
      var front := events + seq(k - 1, _ => Press);
      assert events + seq(k, _ => Press) == front + [Press];
      EventSnoc(front, Press);
    }
  }

  /**
   * A session with a newly started device, whatever happened before: presses made before the command socket is
   * connected flip the button and reach nobody, the later ones reach the device, each with one call. So the two agree
   * once there is a later press, and before that exactly if the configured setting is the parity of the early presses.
   */
  lemma SessionAgreement(before: seq<Event>, initial: bool, on: bool, early: nat, presses: nat)
    ensures var events := Session(before, on, early, presses);
      && |Settings(events)| == presses
      && (DeviceFlag(initial, events) == ButtonState(events) <==> presses > 0 || on == Even(early))
  {
    hide LinkAfter, Settings, ButtonState, StartSetting;
    var start := before + [ConnectLog(Some(on))];
    EventSnoc(before, ConnectLog(Some(on)));
    MorePresses(start, early);
    var pressed := start + seq(early, _ => Press);
    EventSnoc(pressed, ConnectCmd(true));
    var open := pressed + [ConnectCmd(true)];
    MorePresses(open, presses);
    SettingOfSession(before, initial, on, early, presses);
  }

  lemma SettingOfSession(before: seq<Event>, initial: bool, on: bool, early: nat, presses: nat)
    ensures StartSetting(initial, Session(before, on, early, presses)) == on
  {
    var start := before + [ConnectLog(Some(on))];
    var rest := seq(early, _ => Press) + [ConnectCmd(true)] + seq(presses, _ => Press);
    assert Session(before, on, early, presses) == start + rest;
    SettingStays(initial, start, rest);
    assert start[|before|] == ConnectLog(Some(on));
  }

  lemma {:induction false} SettingStays(initial: bool, events: seq<Event>, more: seq<Event>)
    requires forall e :: e in more ==> !StartsDevice(e)
    ensures StartSetting(initial, events + more) == StartSetting(initial, events)
  {
    var all := events + more;
    if more == [] {
      assert all == events;
    } else {
      var last := |more| - 1;
      assert more[last] in more && forall e :: e in more[..last] ==> e in more;
      assert all[..|all| - 1] == events + more[..last];
      SettingStays(initial, events, more[..last]);
    }
  }

  /**
   * Two sessions that leave them apart: the filter is configured off and nothing is pressed; it is configured on and
   * the button is pressed before the command socket is connected.
   */
  lemma ConnectionCanDisagree(before: seq<Event>, initial: bool)
    ensures ButtonState(Session(before, false, 0, 0)) && !DeviceFlag(initial, Session(before, false, 0, 0))
    ensures !ButtonState(Session(before, true, 1, 0)) && DeviceFlag(initial, Session(before, true, 1, 0))
  {
    hide LinkAfter, Settings, ButtonState, StartSetting;
    SessionAgreement(before, initial, false, 0, 0);
    SessionAgreement(before, initial, true, 1, 0);
    SettingOfSession(before, initial, false, 0, 0);
    SettingOfSession(before, initial, true, 1, 0);
  }

  /**
   * A device accepts one command client. Once the GUI has closed that connection to make a new one, as it does after
   * every loss of the log socket, no press reaches this device any more: its flag stays, until it is started anew.
   */
  lemma ReconnectIsNotHeard(initial: bool, events: seq<Event>, ok: bool, more: seq<Event>)
    requires LinkAfter(events).accepted && forall e :: e in more ==> !StartsDevice(e)
    ensures var all := events + [ConnectCmd(ok)] + more;
      Settings(all) == Settings(events) && DeviceFlag(initial, all) == DeviceFlag(initial, events)
  {
    hide LinkAfter, Settings, StartSetting;
    NothingReachesTheDevice(events, ok, more);
    Regroup(events, [ConnectCmd(ok)], more);
    SettingStays(initial, events, [ConnectCmd(ok)] + more);
  }

  lemma {:induction false} NothingReachesTheDevice(events: seq<Event>, ok: bool, more: seq<Event>)
    requires LinkAfter(events).accepted && forall e :: e in more ==> !StartsDevice(e)
    ensures var all := events + [ConnectCmd(ok)] + more;
      LinkAfter(all).accepted && !LinkAfter(all).cmd.Listened? && Settings(all) == Settings(events)
  {
    hide LinkAfter, Settings, ButtonState;
    var closed := events + [ConnectCmd(ok)];
    if more == [] {
      assert closed + more == closed;
      EventSnoc(events, ConnectCmd(ok));
    } else {
      var last := |more| - 1;
      assert more[last] in more && forall e :: e in more[..last] ==> e in more;
      NothingReachesTheDevice(events, ok, more[..last]);
      assert closed + more == closed + more[..last] + [more[last]];
      EventSnoc(closed + more[..last], more[last]);
    }
  }

  /** The two classes together: the listener reads what was sent to its device, in any pieces. */
  method Relay(button: FilterButton, listener: CmdListener, pieces: seq<string>, ghost initial: bool)
    requires button.Valid() && Flatten(pieces) == button.sent
    requires listener.Valid() && listener.lineofs == 0 && listener.lines == [] && listener.device.calls == []
    requires listener.device.initial == StartSetting(initial, button.events)
    modifies listener, listener.linebuf, listener.device
    ensures listener.Valid() && listener.device.calls == Settings(button.events)
    ensures listener.device.FilterOn() == button.state <==> InStep(initial, button.events)
  {
    hide Wire, Settings, Calls, InStep, Assembly.FeedAll, StartSetting;
    assert listener.State() == Assembly("", []);
    FilterEndToEnd(button.events, pieces, listener.stale);
    listener.Listen(pieces);
    AgreementIsInStep(initial, button.events);
  }
}
