/** The firmware loader (fw_loader.c), and the two places from which the audio example calls it. */
module Firmware {
  import opened Common
  import opened Text

  const STATE_SIZE: nat := 32

  // ---------- One switch, with every call allowed to fail ----------

  /** Outcomes of the calls on the remoteproc state file; `content` is what read returns, if it succeeds. */
  datatype StateCalls = StateCalls(openRead: bool, content: Option<string>, openWrite: bool, write: bool)

  datatype LinkCalls = LinkCalls(unlink: bool, symlink: bool)

  datatype SwitchCalls = SwitchCalls(stop: StateCalls, link: LinkCalls, start: StateCalls)

  /** What happened, in order: a state asked for, found or accepted, and the changes of the link. */
  datatype Event = Asked(state: string) | Confirmed(state: string) | Removed | Linked(target: string)

  predicate NotLineEnd(c: char) { c != '\n' && c != '\0' }

  /** The text read_state leaves in a buffer of 32 bytes: the longest start of the content that fits in one line. */
  function StateText(content: string): (r: string)
    ensures r <= content && |r| < STATE_SIZE && All(r, NotLineEnd)
    ensures |r| < |content| && |r| < STATE_SIZE - 1 ==> !NotLineEnd(content[|r|])
  {
    var kept := CopyInto(content, STATE_SIZE);
    kept[..RunLength(kept, NotLineEnd)]
  }

  /** The content begins with the word, which ends there or at a line end. */
  predicate BeginsWithWord(content: string, word: string) {
    word <= content && (|content| == |word| || content[|word|] == '\n' || content[|word|] == '\0')
  }

  /**
   * A state is found exactly when the content is that word, alone or before a line end; a word that fills the buffer is
   * also found at the start of a longer one. So a state written with its newline is read back, and a longer word that
   * merely starts with the state is not mistaken for it.
   */
  lemma StateFound(content: string, state: string)
    requires |state| < STATE_SIZE && All(state, NotLineEnd)
    ensures StateText(content) == state <==>
      BeginsWithWord(content, state) || (state <= content && |state| == 31)
  {
  }

  predicate StateConfirmed(calls: StateCalls, desired: string) {
    && calls.openRead && calls.content.Some?
    && (StateText(calls.content.value) == desired || (calls.openWrite && calls.write))
  }

  /** A state that was found is not written, so a refused write does not matter; any other must be accepted. */
  lemma StateIsConfirmed(calls: StateCalls, desired: string)
    requires |desired| < STATE_SIZE - 1 && All(desired, NotLineEnd)
    ensures !calls.openRead || calls.content.None? ==> !StateConfirmed(calls, desired)
    ensures calls.openRead && calls.content.Some? ==>
      (StateConfirmed(calls, desired) <==>
       BeginsWithWord(calls.content.value, desired) || (calls.openWrite && calls.write))
  {
    hide StateText;
    if calls.content.Some? { StateFound(calls.content.value, desired); }
  }

  /** unlink may fail; symlink fails when the name still exists. */
  function LinkAfter(link: Option<string>, calls: LinkCalls, target: string): Option<string> {
    var removed := if calls.unlink then None else link;
    if calls.symlink && removed.None? then Some(target) else removed
  }

  predicate LinkMade(link: Option<string>, calls: LinkCalls) {
    calls.symlink && (calls.unlink || link.None?)
  }

  lemma StateInBuffer(text: string, buf: string, k: nat)
    requires k <= |text| && k < |buf| && buf[..k] == text[..k] && buf[k] == '\0'
    requires All(text[..k], NotLineEnd) && (k < |text| ==> !NotLineEnd(text[k]))
    ensures CString(buf) == text[..RunLength(text, NotLineEnd)]
  {
    assert buf == buf[..k] + buf[k..] && text == text[..k] + text[k..];
    assert All(buf[..k], NotNul);
    RunOf(buf[..k], buf[k..], NotNul);
    RunOf(text[..k], text[k..], NotLineEnd);
  }

  /** The state can be read and is another one. */
  predicate MustWrite(calls: StateCalls, desired: string) {
    calls.openRead && calls.content.Some? && !BeginsWithWord(calls.content.value, desired)
  }

  /** The files the loader works on, and what it has done so far. */
  class RemoteProc {
    var link: Option<string>
    ghost var events: seq<Event>

    constructor (link: Option<string>)
      ensures this.link == link && events == []
    {
      this.link := link;
      events := [];
    }

    /** read_state: the buffer is filled, terminated, and cut in place at its first newline. */
    method ReadState(buf: array<char>, calls: StateCalls) returns (ret: int)
      requires buf.Length == STATE_SIZE
      modifies buf
      ensures ret == if calls.openRead && calls.content.Some? then 0 else -1
      ensures ret == 0 ==> CString(buf[..]) == StateText(calls.content.value)
    {
      if !calls.openRead {
        return -1;
      }
      if calls.content.None? {
        return -1;
      }
      var text := CopyInto(calls.content.value, STATE_SIZE);
      forall i | 0 <= i < |text| {
        buf[i] := text[i];
      }
      buf[|text|] := '\0';
      var newline := 0;
      while buf[newline] != '\0' && buf[newline] != '\n'
        invariant newline <= |text| && forall i :: 0 <= i < newline ==> NotLineEnd(text[i])
        decreases |text| - newline
      {
        newline := newline + 1;
      }
      if buf[newline] == '\n' {
        buf[newline] := '\0';
      }
      StateInBuffer(text, buf[..], newline);
      return 0;
    }

    method WriteStateIfNeeded(desired: string, calls: StateCalls) returns (ret: int)
      modifies this`events
      ensures ret == if StateConfirmed(calls, desired) then 0 else -1
      ensures events == old(events) + [Asked(desired)] + if ret == 0 then [Confirmed(desired)] else []
      ensures |desired| < STATE_SIZE - 1 && All(desired, NotLineEnd) && ret == 0 ==>
        calls.openRead && calls.content.Some? &&
        (BeginsWithWord(calls.content.value, desired) || (calls.openWrite && calls.write))
      ensures |desired| < STATE_SIZE - 1 && All(desired, NotLineEnd) && ret != 0 ==>
        !calls.openRead || calls.content.None? ||
        (!BeginsWithWord(calls.content.value, desired) && !(calls.openWrite && calls.write))
    {
      hide StateText;
      if |desired| < STATE_SIZE - 1 && All(desired, NotLineEnd) { StateIsConfirmed(calls, desired); }
      events := events + [Asked(desired)];
      var current := new char[STATE_SIZE];
      var found := ReadState(current, calls);
      if found < 0 {
        return -1;
      }
      if CString(current[..]) == desired {
        events := events + [Confirmed(desired)];
        return 0;
      }
      if !calls.openWrite {
        return -1;
      }
      if !calls.write {
        return -1;
      }
      events := events + [Confirmed(desired)];
      return 0;
    }

    method UpdateSymlink(target: string, calls: LinkCalls) returns (ret: int)
      modifies this
      ensures link == LinkAfter(old(link), calls, target)
      ensures ret == if LinkMade(old(link), calls) then 0 else -1
      ensures ret == 0 <==> calls.symlink && (calls.unlink || old(link).None?)
      ensures ret == 0 ==> link == Some(target)
      ensures ret != 0 ==> link == if calls.unlink then None else old(link)
      ensures events ==
        old(events) + (if calls.unlink then [Removed] else []) + (if ret == 0 then [Linked(target)] else [])
    {
      if calls.unlink {
        link := None;
        events := events + [Removed];
      }
      if !calls.symlink || link.Some? {
        return -1;
      }
      link := Some(target);
      events := events + [Linked(target)];
      return 0;
    }

    /** switch_firmware, whatever fails. */
    method SwitchFirmware(newFw: string, calls: SwitchCalls) returns (ret: int)
      modifies this
      ensures ret == 0 || ret == -1
      ensures ret == 0 <==>
        StateConfirmed(calls.stop, "stop") && LinkMade(old(link), calls.link) && StateConfirmed(calls.start, "start")
      ensures ret == 0 ==> link == Some(newFw)
      ensures MustWrite(calls.stop, "stop") && !(calls.stop.openWrite && calls.stop.write) ==>
        ret == -1 && link == old(link)
      ensures MustWrite(calls.start, "start") && !(calls.start.openWrite && calls.start.write) ==> ret == -1
      ensures !StateConfirmed(calls.stop, "stop") ==> link == old(link) && events == old(events) + [Asked("stop")]
      ensures StateConfirmed(calls.stop, "stop") ==> link == LinkAfter(old(link), calls.link, newFw)
      ensures old(events) <= events && InOrder(events[|old(events)|..], newFw)
    {
      hide StateConfirmed, BeginsWithWord;
      StateIsConfirmed(calls.stop, "stop");
      StateIsConfirmed(calls.start, "start");
      ghost var before := events;
      var r := WriteStateIfNeeded("stop", calls.stop);
      if r < 0 {
        return -1;
      }
      r := UpdateSymlink(newFw, calls.link);
      if r < 0 {
        assert events[|before|..] == Trace(calls.link.unlink, false, false, newFw);
        TraceInOrder(calls.link.unlink, false, false, newFw);
        return -1;
      }
      r := WriteStateIfNeeded("start", calls.start);
      assert events[|before|..] == Trace(calls.link.unlink, true, r == 0, newFw);
      TraceInOrder(calls.link.unlink, true, r == 0, newFw);
      if r < 0 {
        return -1;
      }
      return 0;
    }
  }

  /** A running DSP that will not be stopped keeps its firmware, and one that is stopped already need not be. */
  method SwitchOfRunningDsp(proc: RemoteProc, newFw: string, calls: SwitchCalls) returns (ret: int)
    requires calls.stop.openRead && calls.stop.content == Some("running\n") && !calls.stop.write
    modifies proc
    ensures ret == -1 && proc.link == old(proc.link)
  {
    ret := proc.SwitchFirmware(newFw, calls);
  }

  method SwitchOfStoppedDsp(proc: RemoteProc, newFw: string, calls: SwitchCalls) returns (ret: int)
    requires calls.stop.openRead && calls.stop.content == Some("stop\n")
    requires calls.link.symlink && (calls.link.unlink || proc.link.None?)
    modifies proc
    ensures proc.link == Some(newFw)
  {
    StateIsConfirmed(calls.stop, "stop");
    ret := proc.SwitchFirmware(newFw, calls);
  }

  /** The link is touched only after "stop" was confirmed, and "start" is asked for only once the new link exists. */
  ghost predicate InOrder(events: seq<Event>, newFw: string) {
    forall i :: 0 <= i < |events| ==>
      && (events[i].Removed? || events[i].Linked? ==> Confirmed("stop") in events[..i])
      && (events[i].Linked? ==> events[i].target == newFw)
      && (events[i] == Asked("start") ==> Linked(newFw) in events[..i])
  }

  /** What a switch leaves behind once "stop" is confirmed. */
  function Trace(removed: bool, linked: bool, started: bool, newFw: string): seq<Event> {
    [Asked("stop"), Confirmed("stop")] + (if removed then [Removed] else []) +
    (if linked then [Linked(newFw), Asked("start")] else []) + (if started then [Confirmed("start")] else [])
  }

  lemma TraceInOrder(removed: bool, linked: bool, started: bool, newFw: string)
    requires started ==> linked
    ensures InOrder(Trace(removed, linked, started, newFw), newFw)
  {
    var t := Trace(removed, linked, started, newFw);
    assert t[1] == Confirmed("stop");
    assert forall i :: 1 < i < |t| ==> t[..i][1] == Confirmed("stop");
    if linked {
      var k := if removed then 3 else 2;
      assert t[..k + 1][k] == Linked(newFw);
    }
  }

  // ---------- A DSP-mode run with SIGINT at any moment ----------

  datatype Call = Stop | Unlink | Symlink | Start

  /** First and Second are main's switches to the new and back to the old firmware. */
  datatype MainPc = First(call: Call) | Work | Second(call: Call) | Cleanup | Returned

  datatype HandlerPc = NoSignal | Handling(call: Call) | Exiting | Exited

  /** Who makes a call: main, or the thread that runs the signal handler. */
  datatype Caller = Main | Handler

  /** An unlink or a symlink of a switch to the old firmware. */
  datatype LinkCall = LinkCall(who: Caller, call: Call)

  /**
   * `onMain` says that the signal was delivered to the main thread, which then does not go on. `refused` records that a
   * stop, an unlink or a symlink of a switch to the old firmware was refused for any reason but a link that another
   * thread had just removed or made; `firstRefused` says the same of the first switch. `linkCalls` only records the
   * past: the unlink and symlink calls of the switches to the old firmware, in the order in which they were made.
   */
  datatype Run = Run(
    link: Option<string>, main: MainPc, handler: HandlerPc, onMain: bool, refused: bool, firstRefused: bool,
    linkCalls: seq<LinkCall>)

  datatype Step = MainStep(ok: bool) | HandlerStep(ok: bool) | Signal(onMain: bool)

  /** The other threads are created after the first switch. */
  predicate Enabled(s: Run, step: Step) {
    && !s.main.Returned? && !s.handler.Exited?
    && match step
       case MainStep(_) => !s.onMain
       case HandlerStep(_) => !s.handler.NoSignal?
       case Signal(onMain) => s.handler.NoSignal? && (onMain || !s.main.First?)
  }

  /** One call of a switch to `target`: the new link, whether the switch goes on, and whether the call was refused. */
  function CallEffect(link: Option<string>, call: Call, target: string, ok: bool): (Option<string>, bool, bool) {
    match call
    case Stop => (link, ok, !ok)
    case Unlink => (if ok then None else link, true, !ok)
    case Symlink => (if ok && link.None? then Some(target) else link, ok && link.None?, !ok)
    case Start => (link, false, false)
  }

  /**
   * Taken one after the other, the calls of a switch have the effect of SwitchFirmware: a refused stop ends it with the
   * link as it was, a refused unlink does not, and the two link calls have that of UpdateSymlink.
   */
  lemma CallsMakeUpdate(link: Option<string>, target: string, stop: bool, calls: LinkCalls, start: bool)
    ensures CallEffect(link, Stop, target, stop) == (link, stop, !stop)
    ensures CallEffect(link, Unlink, target, calls.unlink).1
    ensures var removed := CallEffect(link, Unlink, target, calls.unlink).0;
      var (made, go, _) := CallEffect(removed, Symlink, target, calls.symlink);
      made == LinkAfter(link, calls, target) && go == LinkMade(link, calls)
    ensures CallEffect(link, Unlink, target, calls.unlink).2 == !calls.unlink
    ensures CallEffect(link, Symlink, target, calls.symlink).2 == !calls.symlink
    ensures CallEffect(link, Start, target, start).0 == link && !CallEffect(link, Start, target, start).1
  {
  }

  function Record(calls: seq<LinkCall>, who: Caller, call: Call): seq<LinkCall> {
    if call.Unlink? || call.Symlink? then calls + [LinkCall(who, call)] else calls
  }

  function NextCall(call: Call): Call {
    match call
    case Stop => Unlink
    case Unlink => Symlink
    case _ => Start
  }

  function Do(s: Run, step: Step, newFw: string, oldFw: string): Run
    requires Enabled(s, step)
  {
    match step
    case Signal(onMain) => s.(handler := Handling(Stop), onMain := onMain)
    case MainStep(ok) =>
      (match s.main
       case First(call) =>
         var (link, go, refused) := CallEffect(s.link, call, newFw, ok);
         s.(link := link, main := if go then First(NextCall(call)) else Work, firstRefused := s.firstRefused || refused)
       case Work => s.(main := Second(Stop))
       case Second(call) =>
         var (link, go, refused) := CallEffect(s.link, call, oldFw, ok);
         s.(link := link, main := if go then Second(NextCall(call)) else Cleanup, refused := s.refused || refused,
            linkCalls := Record(s.linkCalls, Main, call))
       case _ => s.(main := Returned))
    case HandlerStep(ok) =>
      match s.handler
      case Handling(call) =>
        var (link, go, refused) := CallEffect(s.link, call, oldFw, ok);
        s.(link := link, handler := if go then Handling(NextCall(call)) else Exiting, refused := s.refused || refused,
           linkCalls := Record(s.linkCalls, Handler, call))
      case _ => s.(handler := Exited)
  }

  /** The signal handler has just been installed. */
  function Initial(link: Option<string>): Run {
    Run(link, First(Stop), NoSignal, false, false, false, [])
  }

  function Exec(link: Option<string>, newFw: string, oldFw: string, steps: seq<Step>): Option<Run> {
    if steps == [] then Some(Initial(link))
    else
      var last := |steps| - 1;
      var before := Exec(link, newFw, oldFw, steps[..last]);
      if before.Some? && Enabled(before.value, steps[last]) then Some(Do(before.value, steps[last], newFw, oldFw))
      else None
  }

  /** Main is between the symlink of the first switch and the unlink of the second. */
  predicate NewLinked(s: Run) {
    s.main == First(Start) || s.main.Work? || s.main == Second(Stop) || s.main == Second(Unlink)
  }

  /** The symlink call of a switch to the old firmware has been made, if nothing was refused. */
  predicate Symlinked(s: Run, who: Caller) {
    match who
    case Main => s.main == Second(Start) || s.main.Cleanup? || s.main.Returned?
    case Handler => s.handler == Handling(Start) || s.handler.Exiting? || s.handler.Exited?
  }

  /** The unlink has been made and the symlink is the next call. */
  predicate Relinking(s: Run, who: Caller) {
    match who
    case Main => s.main == Second(Symlink)
    case Handler => s.handler == Handling(Symlink)
  }

  /** The two link calls of one thread: an unlink, then a symlink, each made once at most. */
  ghost predicate InTurn(calls: seq<LinkCall>) {
    forall i, j :: 0 <= i < j < |calls| && calls[i].who == calls[j].who ==>
      calls[i].call.Unlink? && calls[j].call.Symlink?
  }

  /** How far a thread has come, read off the calls it has made. */
  ghost predicate CallsOf(s: Run, who: Caller) {
    && (!Symlinked(s, who) ==> LinkCall(who, Symlink) !in s.linkCalls)
    && (!Symlinked(s, who) && !Relinking(s, who) ==> LinkCall(who, Unlink) !in s.linkCalls)
    && (!s.refused && Symlinked(s, who) ==> LinkCall(who, Symlink) in s.linkCalls)
    && (!s.refused && (Symlinked(s, who) || Relinking(s, who)) ==> LinkCall(who, Unlink) in s.linkCalls)
  }

  /** The last link call decides about the link. */
  ghost predicate LastCallDecides(s: Run, oldFw: string) {
    !s.refused && s.linkCalls != [] ==>
      s.link == if s.linkCalls[|s.linkCalls| - 1].call.Unlink? then None else Some(oldFw)
  }

  /** Main stands still once the signal is handled on its thread. */
  ghost predicate HandlerLast(calls: seq<LinkCall>) {
    forall i, j :: 0 <= i < j < |calls| && calls[i].who.Handler? ==> calls[j].who.Handler?
  }

  /** Which thread may move, and what the first switch has left. */
  ghost predicate TurnInv(s: Run, newFw: string) {
    && (s.handler.NoSignal? && !s.firstRefused ==>
         && (s.main == First(Symlink) ==> s.link == None)
         && (NewLinked(s) ==> s.link == Some(newFw)))
    && (s.onMain ==> !s.handler.NoSignal? && !s.main.Returned?)
    && (s.main.First? && !s.handler.NoSignal? ==> s.onMain)
  }

  /** The calls made, and what they have left. */
  ghost predicate CallInv(s: Run, oldFw: string) {
    && (s.onMain ==> HandlerLast(s.linkCalls))
    && (s.main.First? && s.handler.NoSignal? ==> s.linkCalls == [])
    && (forall c :: c in s.linkCalls ==> c.call.Unlink? || c.call.Symlink?)
    && InTurn(s.linkCalls) && CallsOf(s, Main) && CallsOf(s, Handler) && LastCallDecides(s, oldFw)
  }

  ghost predicate Inv(s: Run, newFw: string, oldFw: string) {
    TurnInv(s, newFw) && CallInv(s, oldFw)
  }

  lemma {:induction false} Invariant(link: Option<string>, newFw: string, oldFw: string, steps: seq<Step>)
    requires Exec(link, newFw, oldFw, steps).Some?
    ensures Inv(Exec(link, newFw, oldFw, steps).value, newFw, oldFw)
  {
    if steps != [] {
      var last := |steps| - 1;
      Invariant(link, newFw, oldFw, steps[..last]);
      var s := Exec(link, newFw, oldFw, steps[..last]).value;
      StepKeepsInv(s, steps[last], newFw, oldFw);
    }
  }

  lemma StepKeepsInv(s: Run, step: Step, newFw: string, oldFw: string)
    requires Inv(s, newFw, oldFw) && Enabled(s, step)
    ensures Inv(Do(s, step, newFw, oldFw), newFw, oldFw)
  {
    hide InTurn, LastCallDecides;
    StepKeepsTurn(s, step, newFw, oldFw);
    match step
    case MainStep(ok) =>
      if s.main == Second(Unlink) || s.main == Second(Symlink) { MainLinks(s, ok, newFw, oldFw); }
      else { MainMovesOn(s, ok, newFw, oldFw); }
    case HandlerStep(ok) =>
      if s.handler == Handling(Unlink) || s.handler == Handling(Symlink) { HandlerLinks(s, ok, newFw, oldFw); }
      else { HandlerMovesOn(s, ok, newFw, oldFw); }
    case Signal(onMain) => SignalKeepsCalls(s, onMain, newFw, oldFw);
  }

  lemma StepKeepsTurn(s: Run, step: Step, newFw: string, oldFw: string)
    requires TurnInv(s, newFw) && Enabled(s, step)
    ensures TurnInv(Do(s, step, newFw, oldFw), newFw)
  {
  }

  lemma RecordKeepsTurns(calls: seq<LinkCall>, who: Caller, call: Call)
    requires InTurn(calls)
    requires call.Symlink? ==> LinkCall(who, Symlink) !in calls
    requires call.Unlink? ==> LinkCall(who, Unlink) !in calls && LinkCall(who, Symlink) !in calls
    requires forall c :: c in calls ==> c.call.Unlink? || c.call.Symlink?
    ensures InTurn(Record(calls, who, call))
    ensures forall c :: c in Record(calls, who, call) ==> c.call.Unlink? || c.call.Symlink?
    ensures forall c :: c in Record(calls, who, call) <==>
      c in calls || (c == LinkCall(who, call) && (call.Unlink? || call.Symlink?))
  {
    forall i | 0 <= i < |calls| && calls[i].who == who
      ensures call.Symlink? ==> calls[i].call.Unlink?
      ensures !call.Unlink?
    {
      assert calls[i] in calls && calls[i] == LinkCall(who, calls[i].call);
    }
  }

  lemma MainLinks(s: Run, ok: bool, newFw: string, oldFw: string)
    requires Inv(s, newFw, oldFw) && Enabled(s, MainStep(ok)) && (s.main == Second(Unlink) || s.main == Second(Symlink))
    ensures CallInv(Do(s, MainStep(ok), newFw, oldFw), oldFw)
  {
    hide InTurn, HandlerLast;
    RecordKeepsTurns(s.linkCalls, Main, s.main.call);
  }

  lemma MainMovesOn(s: Run, ok: bool, newFw: string, oldFw: string)
    requires Inv(s, newFw, oldFw) && Enabled(s, MainStep(ok)) && s.main != Second(Unlink) && s.main != Second(Symlink)
    ensures CallInv(Do(s, MainStep(ok), newFw, oldFw), oldFw)
  {
    hide InTurn, HandlerLast;
  }

  lemma HandlerLinks(s: Run, ok: bool, newFw: string, oldFw: string)
    requires Inv(s, newFw, oldFw) && Enabled(s, HandlerStep(ok))
    requires s.handler == Handling(Unlink) || s.handler == Handling(Symlink)
    ensures CallInv(Do(s, HandlerStep(ok), newFw, oldFw), oldFw)
  {
    hide InTurn;
    RecordKeepsTurns(s.linkCalls, Handler, s.handler.call);
  }

  lemma HandlerMovesOn(s: Run, ok: bool, newFw: string, oldFw: string)
    requires Inv(s, newFw, oldFw) && Enabled(s, HandlerStep(ok))
    requires s.handler != Handling(Unlink) && s.handler != Handling(Symlink)
    ensures CallInv(Do(s, HandlerStep(ok), newFw, oldFw), oldFw)
  {
    hide InTurn, HandlerLast;
  }

  lemma SignalKeepsCalls(s: Run, onMain: bool, newFw: string, oldFw: string)
    requires Inv(s, newFw, oldFw) && Enabled(s, Signal(onMain))
    ensures CallInv(Do(s, Signal(onMain), newFw, oldFw), oldFw)
  {
    hide InTurn;
    assert forall i :: 0 <= i < |s.linkCalls| && s.linkCalls[i].who.Handler? ==> s.linkCalls[i] in s.linkCalls;
  }

  /** Until a signal arrives, the example works on the new firmware when the first switch was not refused. */
  lemma WorkUsesNewFirmware(link: Option<string>, newFw: string, oldFw: string, steps: seq<Step>, s: Run)
    requires Exec(link, newFw, oldFw, steps) == Some(s) && s.handler.NoSignal? && !s.firstRefused
    ensures NewLinked(s) ==> s.link == Some(newFw)
  {
    Invariant(link, newFw, oldFw, steps);
  }

  predicate Terminated(s: Run) {
    s.main.Returned? || s.handler.Exited?
  }

  /** The thread that ended the process, and the one that did not. */
  function Ending(s: Run): Caller {
    if s.handler.Exited? then Handler else Main
  }

  function Surviving(s: Run): Caller {
    if s.handler.Exited? then Main else Handler
  }

  /**
   * The schedule that loses the link: the surviving thread called unlink after the ending thread had called symlink,
   * and did not come to its own symlink any more.
   */
  ghost predicate Interrupted(s: Run) {
    exists i, j :: 0 <= i < j < |s.linkCalls| &&
      s.linkCalls[i] == LinkCall(Ending(s), Symlink) && s.linkCalls[j] == LinkCall(Surviving(s), Unlink) &&
      LinkCall(Surviving(s), Symlink) !in s.linkCalls[j..]
  }

  /**
   * When nothing is refused, a DSP-mode run, ended normally or by SIGINT at any moment after the handler was installed,
   * ends on the old firmware, except in exactly one kind of schedule: then it ends with no link at all. It needs a
   * signal that is not handled on the main thread.
   */
  lemma RunEndsOnOldFirmware(link: Option<string>, newFw: string, oldFw: string, steps: seq<Step>, s: Run)
    requires Exec(link, newFw, oldFw, steps) == Some(s) && Terminated(s) && !s.refused
    ensures s.link == Some(oldFw) <==> !Interrupted(s)
    ensures s.link == None <==> Interrupted(s)
    ensures Interrupted(s) ==> !s.handler.NoSignal? && !s.onMain
  {
    Invariant(link, newFw, oldFw, steps);
    LinkIsLostIffInterrupted(s, newFw, oldFw);
    if Interrupted(s) {
      InterruptionNeedsAnotherThread(s, newFw, oldFw);
    }
  }

  lemma LinkIsLostIffInterrupted(s: Run, newFw: string, oldFw: string)
    requires Inv(s, newFw, oldFw) && Terminated(s) && !s.refused
    ensures s.link == if Interrupted(s) then None else Some(oldFw)
  {
    var calls := s.linkCalls;
    var last := |calls| - 1;
    assert LinkCall(Ending(s), Symlink) in calls;
    var i :| 0 <= i < |calls| && calls[i] == LinkCall(Ending(s), Symlink);
    if calls[last].call.Unlink? {
      assert calls[last].who == Surviving(s);
      assert calls[last..] == [calls[last]];
      assert Interrupted(s);
    }
  }

  lemma InterruptionNeedsAnotherThread(s: Run, newFw: string, oldFw: string)
    requires Inv(s, newFw, oldFw) && Terminated(s) && Interrupted(s)
    ensures !s.handler.NoSignal? && !s.onMain
  {
    var calls := s.linkCalls;
    var i, j :| 0 <= i < j < |calls| && calls[i] == LinkCall(Ending(s), Symlink) &&
      calls[j] == LinkCall(Surviving(s), Unlink) && LinkCall(Surviving(s), Symlink) !in calls[j..];
    assert calls[j] in calls;
  }

  lemma Then(link: Option<string>, newFw: string, oldFw: string, steps: seq<Step>, step: Step) returns (more: seq<Step>)
    requires Exec(link, newFw, oldFw, steps).Some? && Enabled(Exec(link, newFw, oldFw, steps).value, step)
    ensures more == steps + [step]
    ensures Exec(link, newFw, oldFw, more) == Some(Do(Exec(link, newFw, oldFw, steps).value, step, newFw, oldFw))
  {
    more := steps + [step];
    assert more[..|steps|] == steps;
  }

  const RELINKED := [LinkCall(Main, Unlink), LinkCall(Main, Symlink)]

  /** A run in which the four calls of the first switch succeed. */
  lemma FirstSwitchMade(link: Option<string>, newFw: string, oldFw: string) returns (steps: seq<Step>)
    ensures Exec(link, newFw, oldFw, steps) == Some(Run(Some(newFw), Work, NoSignal, false, false, false, []))
  {
    steps := Then(link, newFw, oldFw, [], MainStep(true));
    steps := Then(link, newFw, oldFw, steps, MainStep(true));
    steps := Then(link, newFw, oldFw, steps, MainStep(true));
    steps := Then(link, newFw, oldFw, steps, MainStep(true));
  }

  /** A run in which every call succeeds, up to the moment the second switch has made the old link. */
  lemma SecondSwitchLinked(link: Option<string>, newFw: string, oldFw: string) returns (steps: seq<Step>)
    ensures Exec(link, newFw, oldFw, steps) ==
      Some(Run(Some(oldFw), Second(Start), NoSignal, false, false, false, RELINKED))
  {
    assert [] + [LinkCall(Main, Unlink)] + [LinkCall(Main, Symlink)] == RELINKED;
    steps := FirstSwitchMade(link, newFw, oldFw);
    steps := Then(link, newFw, oldFw, steps, MainStep(true));
    steps := Then(link, newFw, oldFw, steps, MainStep(true));
    steps := Then(link, newFw, oldFw, steps, MainStep(true));
    steps := Then(link, newFw, oldFw, steps, MainStep(true));
  }

  /**
   * Such a schedule exists from every initial link: with the handler on another thread, main can return between the
   * handler's unlink and its symlink, and the process ends with no link at all although nothing was refused.
   */
  lemma SignalOnOtherThreadCanLoseLink(link: Option<string>, newFw: string, oldFw: string)
    returns (steps: seq<Step>, s: Run)
    ensures Exec(link, newFw, oldFw, steps) == Some(s)
    ensures Terminated(s) && !s.refused && !s.firstRefused && s.handler == Handling(Symlink) && !s.onMain
    ensures s.link == None
  {
    steps := SecondSwitchLinked(link, newFw, oldFw);
    steps := Then(link, newFw, oldFw, steps, Signal(false));
    steps := Then(link, newFw, oldFw, steps, HandlerStep(true));
    steps := Then(link, newFw, oldFw, steps, HandlerStep(true));
    steps := Then(link, newFw, oldFw, steps, MainStep(true));
    steps := Then(link, newFw, oldFw, steps, MainStep(true));
    s := Exec(link, newFw, oldFw, steps).value;
  }

  /**
   * SIGINT can come at any moment until main has returned or the handler has exited, also in the middle of the first
   * switch; handled on the main thread, five steps later the process has exited on the old firmware.
   */
  lemma SignalAtAnyMoment(link: Option<string>, newFw: string, oldFw: string, steps: seq<Step>, s: Run)
    returns (more: seq<Step>, t: Run)
    requires Exec(link, newFw, oldFw, steps) == Some(s) && s.handler.NoSignal? && !s.main.Returned?
    ensures Exec(link, newFw, oldFw, more) == Some(t) && |more| == |steps| + 6 && steps + [Signal(true)] <= more
    ensures t.handler.Exited? && t.main == s.main && t.link == Some(oldFw)
  {
    hide Exec, TurnInv, CallInv;
    var interrupted := steps + [Signal(true)];
    more := Then(link, newFw, oldFw, steps, Signal(true));
    assert more == interrupted;
    more := Then(link, newFw, oldFw, more, HandlerStep(true));
    more := Then(link, newFw, oldFw, more, HandlerStep(true));
    more := Then(link, newFw, oldFw, more, HandlerStep(true));
    more := Then(link, newFw, oldFw, more, HandlerStep(true));
    more := Then(link, newFw, oldFw, more, HandlerStep(true));
    t := Exec(link, newFw, oldFw, more).value;
  }

  /** The calls of a switch still to be made, at most. */
  function CallsLeft(call: Call): nat {
    match call
    case Stop => 4
    case Unlink => 3
    case Symlink => 2
    case Start => 1
  }

  /** The steps of the thread that may move until it ends the process, at most. */
  function StepsLeft(s: Run): nat {
    if s.handler.NoSignal? then
      match s.main
      case First(call) => 7 + CallsLeft(call)
      case Work => 7
      case Second(call) => 2 + CallsLeft(call)
      case Cleanup => 1
      case Returned => 0
    else
      match s.handler
      case Handling(call) => 2 + CallsLeft(call)
      case Exiting => 1
      case _ => 0
  }

  /** The thread that goes on: the handler once there was a signal, and main before. */
  function GoesOn(s: Run, ok: bool): Step {
    if s.handler.NoSignal? then MainStep(ok) else HandlerStep(ok)
  }

  /** Whatever its calls return, each step of that thread brings the process nearer to its end. */
  lemma StepBringsEnd(link: Option<string>, newFw: string, oldFw: string, steps: seq<Step>, s: Run, ok: bool)
    requires Exec(link, newFw, oldFw, steps) == Some(s) && !Terminated(s)
    ensures Enabled(s, GoesOn(s, ok)) && StepsLeft(Do(s, GoesOn(s, ok), newFw, oldFw)) < StepsLeft(s) <= 11
  {
    hide Exec, CallInv;
    Invariant(link, newFw, oldFw, steps);
  }

  /** A completed run without a refusal, whose signal, if any, was handled on the thread that `onMain` says. */
  ghost predicate CleanRun(r: Option<Run>, onMain: bool) {
    r.Some? && Terminated(r.value) && !r.value.refused && (r.value.handler.NoSignal? || r.value.onMain == onMain)
  }

  /** What the promise rests on: all such runs end on the old firmware if and only if main handles the signal. */
  lemma PromiseNeedsSignalOnMain(link: Option<string>, newFw: string, oldFw: string, onMain: bool)
    ensures (forall steps :: CleanRun(Exec(link, newFw, oldFw, steps), onMain) ==>
        Exec(link, newFw, oldFw, steps).value.link == Some(oldFw))
      <==> onMain
  {
    if onMain {
      forall steps | CleanRun(Exec(link, newFw, oldFw, steps), onMain)
        ensures Exec(link, newFw, oldFw, steps).value.link == Some(oldFw)
      {
        RunEndsOnOldFirmware(link, newFw, oldFw, steps, Exec(link, newFw, oldFw, steps).value);
      }
    } else {
      var steps, s := SignalOnOtherThreadCanLoseLink(link, newFw, oldFw);
      assert CleanRun(Exec(link, newFw, oldFw, steps), onMain);
    }
  }
}
