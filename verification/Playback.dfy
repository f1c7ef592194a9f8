/**
 * The three threads of the device that share the DMA buffers (rpmsg_audio_example.c): main, the audio thread and the
 * command thread, one step per call that matters to buffer ownership.
 */
module Playback {
  import opened Common

  datatype StartRequest = StopPlay | StartPlay | ExitPlay

  datatype MainPc = ReadStart | ReadExit | SetStop | Create | Sleep | DestroyData | DestroyOptions | Done

  /** Setup(k) is the k-th of the four setup calls that can fail; Close is reached at the end of the file only. */
  datatype AudioPc =
    | NotCreated
    | Setup(k: nat)
    | StartRead
    | ReadFile
    | CopyInput
    | EndRead
    | Process
    | Receive
    | StartData
    | StartOptions
    | Compute
    | EndOptions
    | EndData
    | Close
    | SetExit
    | Finished

  /** enable_filter in DSP mode. */
  datatype CommandPc = Waiting | Start | Write | End

  /**
   * The DSP answers the frames handed to it in order; it works on the data buffer while `answered` is below `sent`. A
   * reply that recv_msg did not fetch stays queued on the endpoint for the next call. `failed` counts the recv_msg
   * calls that failed. `data`, `audioOptions` and `commandOptions` count the sync sessions each thread has open,
   * `created` counts audio threads, and `eof` records that the file ended.
   */
  datatype State = State(
    mode: ExecMode, main: MainPc, audio: AudioPc, command: CommandPc, sent: nat, answered: nat, fetched: nat,
    start: StartRequest, data: int, audioOptions: int, commandOptions: int, dataMapped: bool, optionsMapped: bool,
    created: nat, failed: nat, eof: bool)
  {
    predicate DspWorks() {
      answered < sent
    }
  }

  /** `ok` is the outcome of the call a step makes, where it makes one. */
  datatype Step = MainStep(ok: bool) | AudioStep(ok: bool) | CommandStep | DspStep

  predicate Destroying(main: MainPc) {
    main.DestroyData? || main.DestroyOptions? || main.Done?
  }

  predicate Enabled(s: State, step: Step) {
    match step
    case MainStep(_) => !s.main.Done?
    case AudioStep(ok) =>
      && !s.audio.NotCreated? && !s.audio.Finished?
      && (s.audio.Receive? && ok ==> s.fetched < s.answered)
    case CommandStep => s.mode.ExecDsp? && !Destroying(s.main)
    case DspStep => s.DspWorks()
  }

  function Do(s: State, step: Step): State
    requires Enabled(s, step)
  {
    match step
    case MainStep(ok) => MainDoes(s, ok)
    case AudioStep(ok) => AudioDoes(s, ok)
    case CommandStep => CommandDoes(s)
    case DspStep => s.(answered := s.answered + 1)
  }

  function MainDoes(s: State, ok: bool): State {
    match s.main
    case ReadStart => s.(main := if s.start.StartPlay? then SetStop else ReadExit)
    case ReadExit => s.(main := if s.start.ExitPlay? then DestroyData else Sleep)
    case SetStop => s.(start := StopPlay, main := Create)
    case Create =>
      if ok then s.(audio := Setup(0), created := s.created + 1, main := ReadStart) else s.(main := DestroyData)
    case Sleep => s.(main := ReadStart)
    case DestroyData => s.(dataMapped := false, main := DestroyOptions)
    case DestroyOptions => s.(optionsMapped := false, main := Done)
    case Done => s
  }

  function AudioDoes(s: State, ok: bool): State {
    match s.audio
    case Setup(k) => s.(audio := if !ok then SetExit else if k < 3 then Setup(k + 1) else StartRead)
    case StartRead => s.(data := s.data + 1, audio := ReadFile)
    case ReadFile => if ok then s.(audio := CopyInput) else s.(audio := Close, eof := true)
    case CopyInput => s.(audio := EndRead)
    case EndRead => s.(data := s.data - 1, audio := Process)
    case Process =>
      if s.mode.ExecDsp? && ok then s.(sent := s.sent + 1, audio := Receive) else s.(audio := StartData)
    case Receive =>
      if ok then s.(fetched := s.fetched + 1, audio := StartData) else s.(failed := s.failed + 1, audio := StartData)
    case StartData => s.(data := s.data + 1, audio := StartOptions)
    case StartOptions => s.(audioOptions := s.audioOptions + 1, audio := Compute)
    case Compute => s.(audio := EndOptions)
    case EndOptions => s.(audioOptions := s.audioOptions - 1, audio := EndData)
    case EndData => s.(data := s.data - 1, audio := StartRead)
    case Close => s.(audio := SetExit)
    case SetExit => s.(start := ExitPlay, audio := Finished)
    case _ => s
  }

  function CommandDoes(s: State): State {
    match s.command
    case Waiting => s.(command := Start)
    case Start => s.(commandOptions := s.commandOptions + 1, command := Write)
    case Write => s.(command := End)
    case End => s.(commandOptions := s.commandOptions - 1, command := Waiting)
  }

  function Initial(mode: ExecMode): State {
    State(mode, ReadStart, NotCreated, Waiting, 0, 0, 0, StartPlay, 0, 0, 0, true, true, 0, 0, false)
  }

  function Exec(mode: ExecMode, steps: seq<Step>): Option<State> {
    if steps == [] then Some(Initial(mode))
    else
      var last := |steps| - 1;
      var before := Exec(mode, steps[..last]);
      if before.Some? && Enabled(before.value, steps[last]) then Some(Do(before.value, steps[last])) else None
  }

  // ---------- Who touches what ----------

  /** The audio thread reads or writes the data buffer: sf_readf_short, the copies, snd_pcm_writei, process_on_arm. */
  predicate AudioTouchesData(s: State) {
    s.audio.ReadFile? || s.audio.CopyInput? || s.audio.Compute? || (s.audio.Process? && s.mode.ExecArm?)
  }

  /** The audio thread holds a data session exactly between the START and the END calls. */
  predicate DataOpenAt(audio: AudioPc, eof: bool) {
    match audio
    case ReadFile => true
    case CopyInput => true
    case EndRead => true
    case StartOptions => true
    case Compute => true
    case EndOptions => true
    case EndData => true
    case Close => true
    case SetExit => eof
    case Finished => eof
    case _ => false
  }

  /** Sessions, end of file and the hand-over to the DSP. */
  ghost predicate SessionInv(s: State) {
    && s.data == (if DataOpenAt(s.audio, s.eof) then 1 else 0)
    && s.audioOptions == (if s.audio.Compute? || s.audio.EndOptions? then 1 else 0)
    && s.commandOptions == (if s.command.Write? || s.command.End? then 1 else 0)
    && (s.eof ==> s.audio.Close? || s.audio.SetExit? || s.audio.Finished?)
    && (s.audio.Close? ==> s.eof)
    && s.fetched <= s.answered <= s.sent
    && s.sent == s.fetched + s.failed + (if s.audio.Receive? then 1 else 0)
    && (s.mode.ExecArm? ==> s.sent == 0 && !s.audio.Receive? && s.command.Waiting?)
  }

  /** The hand-over between main and the audio thread, and the lifetime of the mappings. */
  ghost predicate ThreadInv(s: State) {
    && s.created == (if s.audio.NotCreated? then 0 else 1)
    && (s.start.StartPlay? ==> s.audio.NotCreated? && (s.main.ReadStart? || s.main.SetStop?))
    && (s.main.SetStop? ==> s.start.StartPlay?)
    && (s.main.Create? ==> s.audio.NotCreated? && s.start.StopPlay?)
    && (s.audio.Finished? <==> s.start.ExitPlay?)
    && (Destroying(s.main) ==> s.audio.NotCreated? || s.audio.Finished?)
    && (s.audio.NotCreated? && !Destroying(s.main) ==> s.main.Create? || s.start.StartPlay?)
    && (s.dataMapped <==> !s.main.DestroyOptions? && !s.main.Done?)
    && (s.optionsMapped <==> !s.main.Done?)
  }

  ghost predicate Inv(s: State) {
    SessionInv(s) && ThreadInv(s)
  }

  lemma CreateKeepsSessions(s: State, ok: bool)
    requires SessionInv(s) && s.main.Create? && s.audio.NotCreated?
    ensures SessionInv(MainDoes(s, ok))
  {
  }

  /** Apart from creating the audio thread, main touches nothing the sessions depend on. */
  lemma MainKeepsSessions(s: State, ok: bool)
    requires SessionInv(s) && !s.main.Create?
    ensures SessionInv(MainDoes(s, ok))
  {
    hide DataOpenAt;
    match s.main
    case ReadStart =>
    case ReadExit =>
    case SetStop =>
    case Sleep =>
    case DestroyData =>
    case DestroyOptions =>
    case Done =>
  }

  lemma MainKeepsThreads(s: State, ok: bool)
    requires ThreadInv(s) && Enabled(s, MainStep(ok))
    ensures ThreadInv(MainDoes(s, ok))
  {
  }

  /** The steps up to the hand-over, and those after the loop. */
  predicate BeforeHandOver(audio: AudioPc) {
    audio.Setup? || audio.StartRead? || audio.ReadFile? || audio.CopyInput? || audio.EndRead? || audio.Close? ||
    audio.SetExit?
  }

  lemma ReadingKeepsSessions(s: State, ok: bool)
    requires SessionInv(s) && BeforeHandOver(s.audio)
    ensures SessionInv(AudioDoes(s, ok))
  {
    match s.audio
    case Setup(k) =>
    case StartRead =>
    case ReadFile =>
    case CopyInput =>
    case EndRead =>
    case Close =>
    case SetExit =>
  }

  lemma PlayingKeepsSessions(s: State, ok: bool)
    requires SessionInv(s) && Enabled(s, AudioStep(ok))
    requires !BeforeHandOver(s.audio) && !s.audio.Process? && !s.audio.Receive?
    ensures SessionInv(AudioDoes(s, ok))
  {
    match s.audio
    case StartData =>
    case StartOptions =>
    case Compute =>
    case EndOptions =>
    case EndData =>
  }

  lemma HandOverKeepsSessions(s: State, ok: bool)
    requires SessionInv(s) && Enabled(s, AudioStep(ok)) && (s.audio.Process? || s.audio.Receive?)
    ensures SessionInv(AudioDoes(s, ok))
  {
    match s.audio
    case Process =>
    case Receive =>
  }

  lemma AudioKeepsThreads(s: State, ok: bool)
    requires ThreadInv(s) && Enabled(s, AudioStep(ok))
    ensures ThreadInv(AudioDoes(s, ok))
  {
  }

  lemma CommandKeepsInv(s: State)
    requires Inv(s) && Enabled(s, CommandStep)
    ensures Inv(CommandDoes(s))
  {
  }

  lemma ModeStays(s: State, step: Step)
    requires Enabled(s, step)
    ensures Do(s, step).mode == s.mode
  {
    hide Enabled;
  }

  lemma StepKeepsInv(s: State, step: Step)
    requires Inv(s) && Enabled(s, step)
    ensures Inv(Do(s, step)) && Do(s, step).mode == s.mode
  {
    hide MainDoes, AudioDoes, CommandDoes, DataOpenAt;
    ModeStays(s, step);
    match step
    case MainStep(ok) =>
      if s.main.Create? { CreateKeepsSessions(s, ok); } else { MainKeepsSessions(s, ok); }
      MainKeepsThreads(s, ok);
    case AudioStep(ok) =>
      if s.audio.Process? || s.audio.Receive? {
        HandOverKeepsSessions(s, ok);
      } else if BeforeHandOver(s.audio) {
        ReadingKeepsSessions(s, ok);
      } else {
        PlayingKeepsSessions(s, ok);
      }
      AudioKeepsThreads(s, ok);
    case CommandStep => CommandKeepsInv(s);
    case DspStep =>
  }

  lemma {:induction false} Invariant(mode: ExecMode, steps: seq<Step>)
    requires Exec(mode, steps).Some?
    ensures Inv(Exec(mode, steps).value) && Exec(mode, steps).value.mode == mode
  {
    if steps != [] {
      var last := |steps| - 1;
      Invariant(mode, steps[..last]);
      StepKeepsInv(Exec(mode, steps[..last]).value, steps[last]);
    }
  }

  // ---------- Buffer ownership ----------

  /**
   * In DSP mode, for every interleaving: no CPU session is open on the data buffer while process_on_dsp runs; every
   * access of the audio thread to either buffer and every filter write lies inside a session of its own thread; an
   * iteration starts and ends with none open.
   */
  lemma AccessesLieInSessions(steps: seq<Step>, s: State)
    requires Exec(ExecDsp, steps) == Some(s)
    ensures s.audio.Process? || s.audio.Receive? ==> s.data == 0
    ensures AudioTouchesData(s) ==> s.data == 1
    ensures s.audio.Compute? ==> s.audioOptions == 1
    ensures s.command.Write? ==> s.commandOptions == 1
    ensures s.audio.StartRead? ==> s.data == 0 && s.audioOptions == 0
    ensures s.audio.Finished? ==> s.audioOptions == 0 && s.data == if s.eof then 1 else 0
  {
    Invariant(ExecDsp, steps);
  }

  /** While no recv_msg has failed, the DSP never works on the data buffer while the CPU has a session open on it. */
  lemma DspHasDataAlone(steps: seq<Step>, s: State)
    requires Exec(ExecDsp, steps) == Some(s) && s.failed == 0
    ensures s.DspWorks() ==> s.data == 0 && !AudioTouchesData(s)
  {
    Invariant(ExecDsp, steps);
  }

  /**
   * Every failure shifts all later replies for good: when recv_msg returns for the frame sent last, number sent - 1,
   * the reply it fetches is the one to the frame `failed` frames earlier.
   */
  lemma RepliesLagByFailures(steps: seq<Step>, s: State)
    requires Exec(ExecDsp, steps) == Some(s) && s.audio.Receive?
    ensures s.fetched == s.sent - 1 - s.failed
    ensures s.failed == 0 && Enabled(s, AudioStep(true)) ==> !s.DspWorks()
  {
    Invariant(ExecDsp, steps);
  }

  function DspSteps(steps: seq<Step>): nat {
    if steps == [] then 0 else DspSteps(steps[..|steps| - 1]) + if steps[|steps| - 1].DspStep? then 1 else 0
  }

  lemma OneReplyMore(s: State, step: Step)
    requires Enabled(s, step) && s.answered <= s.sent
    ensures Do(s, step).answered == s.answered + (if step.DspStep? then 1 else 0)
    ensures Do(s, step).answered <= Do(s, step).sent
  {
    hide MainDoes, AudioDoes;
    match step
    case MainStep(ok) => MainLeavesDsp(s, ok);
    case AudioStep(ok) => AudioOnlySends(s, ok);
    case CommandStep =>
    case DspStep =>
  }

  lemma MainLeavesDsp(s: State, ok: bool)
    ensures MainDoes(s, ok).answered == s.answered && MainDoes(s, ok).sent == s.sent
  {
  }

  lemma AudioOnlySends(s: State, ok: bool)
    ensures AudioDoes(s, ok).answered == s.answered && AudioDoes(s, ok).sent >= s.sent
  {
  }

  /** Every step of the DSP answers one frame, in order; it can take one as long as fewer were answered than sent. */
  lemma {:induction false} OneReplyPerDspStep(mode: ExecMode, steps: seq<Step>, s: State)
    requires Exec(mode, steps) == Some(s)
    ensures s.answered == DspSteps(steps) <= s.sent
    ensures s.answered < s.sent ==> Enabled(s, DspStep)
    decreases |steps|
  {
    if steps != [] {
      hide Do, Enabled;
      var last := |steps| - 1;
      OneReplyPerDspStep(mode, steps[..last], Exec(mode, steps[..last]).value);
      OneReplyMore(Exec(mode, steps[..last]).value, steps[last]);
    }
    DspCanWork(s);
  }

  lemma DspCanWork(s: State)
    ensures s.answered < s.sent ==> Enabled(s, DspStep)
  {
  }

  // ---------- Exactly when the DSP and the CPU share the data buffer ----------

  predicate Shared(s: State) {
    s.DspWorks() && s.data > 0
  }

  /** The state after the first `k` steps of a run. */
  function At(steps: seq<Step>, k: nat): Option<State>
    requires k <= |steps|
  {
    Exec(ExecDsp, steps[..k])
  }

  ghost predicate SomeStateShares(steps: seq<Step>) {
    exists k :: 0 <= k <= |steps| && At(steps, k).Some? && Shared(At(steps, k).value)
  }

  /** Step `k` is a recv_msg that returns, and the audio thread has not moved since. */
  ghost predicate LeavesReceive(steps: seq<Step>, k: nat, now: nat) {
    && k < now <= |steps| && steps[k].AudioStep? && At(steps, k).Some? && At(steps, k).value.audio.Receive?
    && forall i :: k < i < now ==> !steps[i].AudioStep?
  }

  /**
   * The recv_msg of step `k` returned, with an error or with the reply to an earlier frame, and the audio thread took
   * its next step, `m`, before the DSP had finished.
   */
  ghost predicate Overtakes(steps: seq<Step>, k: nat, m: nat) {
    && m < |steps| && LeavesReceive(steps, k, m)
    && steps[m].AudioStep? && At(steps, m).Some? && At(steps, m).value.DspWorks()
  }

  ghost predicate Overtaken(steps: seq<Step>) {
    exists k: nat, m: nat :: Overtakes(steps, k, m)
  }

  lemma {:induction false} PrefixRuns(steps: seq<Step>, k: nat)
    requires Exec(ExecDsp, steps).Some? && k <= |steps|
    ensures At(steps, k).Some?
  {
    if k == |steps| {
      assert steps[..k] == steps;
    } else {
      PrefixRuns(steps[..|steps| - 1], k);
      assert steps[..|steps| - 1][..k] == steps[..k];
    }
  }

  lemma NextState(steps: seq<Step>, k: nat)
    requires Exec(ExecDsp, steps).Some? && k < |steps|
    ensures At(steps, k).Some? && Enabled(At(steps, k).value, steps[k])
    ensures At(steps, k + 1) == Some(Do(At(steps, k).value, steps[k]))
  {
    PrefixRuns(steps, k);
    PrefixRuns(steps, k + 1);
    assert steps[..k + 1][..k] == steps[..k];
  }

  lemma PrefixOvertaken(steps: seq<Step>, k: nat)
    requires k <= |steps| && Overtaken(steps[..k])
    ensures Overtaken(steps)
  {
    var i: nat, m: nat :| Overtakes(steps[..k], i, m);
    assert steps[..k][..i] == steps[..i] && steps[..k][..m] == steps[..m];
    assert Overtakes(steps, i, m);
  }

  /** Outside recv_msg the DSP works only when it has been overtaken, or may be overtaken by the next step. */
  ghost predicate Explained(steps: seq<Step>, s: State) {
    s.DspWorks() && !s.audio.Receive? ==>
      Overtaken(steps) || (s.audio.StartData? && exists k: nat :: LeavesReceive(steps, k, |steps|))
  }

  lemma {:induction false} WorkIsExplained(steps: seq<Step>)
    requires Exec(ExecDsp, steps).Some?
    ensures Explained(steps, Exec(ExecDsp, steps).value)
  {
    if steps != [] {
      var last := |steps| - 1;
      WorkIsExplained(steps[..last]);
      StepIsExplained(steps);
    }
  }

  /** How a step can lead to a state in which the DSP works and the audio thread is outside recv_msg. */
  lemma WorkComesFrom(s: State, step: Step)
    requires ThreadInv(s) && Enabled(s, step) && Do(s, step).DspWorks() && !Do(s, step).audio.Receive?
    ensures s.DspWorks()
    ensures s.audio.Receive? ==> step.AudioStep? && Do(s, step).audio.StartData?
    ensures s.audio.StartData? && !step.AudioStep? ==> Do(s, step).audio.StartData?
  {
    match step
    case MainStep(ok) =>
    case AudioStep(ok) =>
    case CommandStep =>
    case DspStep =>
  }

  lemma StepIsExplained(steps: seq<Step>)
    requires steps != [] && Exec(ExecDsp, steps).Some?
    requires Explained(steps[..|steps| - 1], Exec(ExecDsp, steps[..|steps| - 1]).value)
    ensures Explained(steps, Exec(ExecDsp, steps).value)
  {
    hide Overtaken, Overtakes, SessionInv, ThreadInv, Do, Enabled;
    var last := |steps| - 1;
    var before, s := Exec(ExecDsp, steps[..last]).value, Exec(ExecDsp, steps).value;
    if s.DspWorks() && !s.audio.Receive? {
      Invariant(ExecDsp, steps[..last]);
      WorkComesFrom(before, steps[last]);
      if Overtaken(steps[..last]) {
        PrefixOvertaken(steps, last);
      } else if before.audio.Receive? {
        assert LeavesReceive(steps, last, |steps|);
      } else {
        var k: nat :| LeavesReceive(steps[..last], k, last);
        WaitsOn(steps, k);
        if steps[last].AudioStep? { OvertakesNow(steps, k); }
      }
    }
  }

  lemma WaitsOn(steps: seq<Step>, k: nat)
    requires steps != [] && LeavesReceive(steps[..|steps| - 1], k, |steps| - 1)
    ensures LeavesReceive(steps, k, |steps| - 1)
    ensures !steps[|steps| - 1].AudioStep? ==> LeavesReceive(steps, k, |steps|)
  {
    assert steps[..|steps| - 1][..k] == steps[..k];
  }

  lemma OvertakesNow(steps: seq<Step>, k: nat)
    requires steps != [] && LeavesReceive(steps, k, |steps| - 1) && steps[|steps| - 1].AudioStep?
    requires At(steps, |steps| - 1).Some? && At(steps, |steps| - 1).value.DspWorks()
    ensures Overtaken(steps)
  {
    assert Overtakes(steps, k, |steps| - 1);
  }

  lemma OthersLeaveAudio(s: State, step: Step)
    requires ThreadInv(s) && Enabled(s, step) && !step.AudioStep? && !s.audio.NotCreated?
    ensures Do(s, step).audio == s.audio
  {
  }

  lemma {:induction false} WaitsAtStartData(steps: seq<Step>, k: nat, now: nat)
    requires Exec(ExecDsp, steps).Some? && LeavesReceive(steps, k, now)
    ensures At(steps, now).Some? && At(steps, now).value.audio.StartData?
    decreases now
  {
    hide Exec, SessionInv, ThreadInv, MainDoes, CommandDoes;
    NextState(steps, now - 1);
    if now > k + 1 {
      WaitsAtStartData(steps, k, now - 1);
      Invariant(ExecDsp, steps[..now - 1]);
      OthersLeaveAudio(At(steps, now - 1).value, steps[now - 1]);
    }
  }

  lemma OvertakingShares(steps: seq<Step>, k: nat, m: nat)
    requires Exec(ExecDsp, steps).Some? && Overtakes(steps, k, m)
    ensures SomeStateShares(steps)
  {
    WaitsAtStartData(steps, k, m);
    NextState(steps, m);
    Invariant(ExecDsp, steps[..m]);
    assert Shared(At(steps, m + 1).value);
  }

  /**
   * In a DSP-mode run the CPU has a session open on the data buffer while the DSP works on it exactly when some
   * recv_msg returned before the DSP had finished and the audio thread took its next step before it had.
   */
  lemma SharedIffOvertaken(steps: seq<Step>)
    requires Exec(ExecDsp, steps).Some?
    ensures SomeStateShares(steps) <==> Overtaken(steps)
  {
    if SomeStateShares(steps) {
      var k :| 0 <= k <= |steps| && At(steps, k).Some? && Shared(At(steps, k).value);
      Invariant(ExecDsp, steps[..k]);
      WorkIsExplained(steps[..k]);
      PrefixOvertaken(steps, k);
    }
    if Overtaken(steps) {
      var k: nat, m: nat :| Overtakes(steps, k, m);
      OvertakingShares(steps, k, m);
    }
  }

  lemma Then(steps: seq<Step>, step: Step) returns (more: seq<Step>)
    requires Exec(ExecDsp, steps).Some? && Enabled(Exec(ExecDsp, steps).value, step)
    ensures Exec(ExecDsp, more) == Some(Do(Exec(ExecDsp, steps).value, step))
  {
    more := steps + [step];
    assert more[..|steps|] == steps;
  }

  lemma {:induction false} ThenAudio(steps: seq<Step>, s: State, k: nat) returns (more: seq<Step>)
    requires 0 < k <= 4 && Exec(ExecDsp, steps) == Some(s) && s.audio == Setup(4 - k)
    ensures Exec(ExecDsp, more) == Some(s.(audio := StartRead))
    decreases k
  {
    more := Then(steps, AudioStep(true));
    if k > 1 {
      more := ThenAudio(more, s.(audio := Setup(4 - k + 1)), k - 1);
    }
  }

  /** The state in which main has created the audio thread. */
  function AudioCreated(): State {
    Initial(ExecDsp).(audio := Setup(0), start := StopPlay, created := 1)
  }

  lemma CreateAudio() returns (steps: seq<Step>)
    ensures Exec(ExecDsp, steps) == Some(AudioCreated())
  {
    steps := Then([], MainStep(true));
    steps := Then(steps, MainStep(true));
    steps := Then(steps, MainStep(true));
  }

  /** The first half of an iteration: a frame is read and handed to the DSP. */
  lemma SendFrame(steps: seq<Step>, s: State) returns (more: seq<Step>)
    requires Exec(ExecDsp, steps) == Some(s) && s.audio.StartRead? && s.mode.ExecDsp?
    ensures Exec(ExecDsp, more) == Some(s.(audio := Receive, sent := s.sent + 1))
  {
    hide Exec;
    more := Then(steps, AudioStep(true));
    more := Then(more, AudioStep(true));
    more := Then(more, AudioStep(true));
    more := Then(more, AudioStep(true));
    more := Then(more, AudioStep(true));
  }

  /** The second half: the frame is measured and played. */
  lemma PlayFrame(steps: seq<Step>, s: State) returns (more: seq<Step>)
    requires Exec(ExecDsp, steps) == Some(s) && s.audio.StartData?
    ensures Exec(ExecDsp, more) == Some(s.(audio := StartRead))
  {
    hide Exec;
    more := Then(steps, AudioStep(true));
    more := Then(more, AudioStep(true));
    more := Then(more, AudioStep(true));
    more := Then(more, AudioStep(true));
    more := Then(more, AudioStep(true));
  }

  /** A run that has handed the first frame to the DSP. */
  lemma FirstFrameSent() returns (steps: seq<Step>)
    ensures Exec(ExecDsp, steps) == Some(AudioCreated().(audio := Receive, sent := 1))
  {
    hide Exec;
    steps := CreateAudio();
    steps := ThenAudio(steps, AudioCreated(), 4);
    steps := SendFrame(steps, AudioCreated().(audio := StartRead));
  }

  /** A failed recv_msg can do that: the audio thread opens the buffer while the DSP still works on it. */
  lemma LostReplySharesData() returns (steps: seq<Step>, s: State)
    ensures Exec(ExecDsp, steps) == Some(s)
    ensures s.failed == 1 && s.sent == 1 && Shared(s)
  {
    hide Exec;
    steps := FirstFrameSent();
    steps := Then(steps, AudioStep(false));
    steps := Then(steps, AudioStep(true));
    s := Exec(ExecDsp, steps).value;
  }

  /** A run whose first recv_msg failed, but whose audio thread moved on only after the DSP had finished. */
  lemma FirstReplyIsLate() returns (steps: seq<Step>)
    ensures Exec(ExecDsp, steps) == Some(AudioCreated().(audio := StartRead, sent := 1, answered := 1, failed := 1))
  {
    hide Exec;
    steps := FirstFrameSent();
    steps := Then(steps, AudioStep(false));
    steps := Then(steps, DspStep);
    steps := PlayFrame(steps, AudioCreated().(audio := StartData, sent := 1, answered := 1, failed := 1));
  }

  /**
   * So can a successful one after it: the reply of the first frame is still queued, recv_msg takes it for that of the
   * second, and the audio thread opens the buffer while the DSP works on the second frame.
   */
  lemma StaleReplySharesData() returns (steps: seq<Step>, s: State)
    ensures Exec(ExecDsp, steps) == Some(s)
    ensures s.failed == 1 && s.sent == 2 && s.fetched == 1 && Shared(s)
  {
    hide Exec;
    steps := FirstReplyIsLate();
    steps := SendFrame(steps, AudioCreated().(audio := StartRead, sent := 1, answered := 1, failed := 1));
    steps := Then(steps, AudioStep(true));
    steps := Then(steps, AudioStep(true));
    s := Exec(ExecDsp, steps).value;
  }

  /** The options buffer has no such protection: a filter command can write it while the DSP works. */
  lemma FilterWriteDuringDsp() returns (steps: seq<Step>, s: State)
    ensures Exec(ExecDsp, steps) == Some(s)
    ensures s.failed == 0 && s.DspWorks() && s.command.Write? && s.commandOptions == 1
  {
    steps := FirstFrameSent();
    steps := Then(steps, CommandStep);
    steps := Then(steps, CommandStep);
    s := Exec(ExecDsp, steps).value;
  }

  /** In ARM mode the in-place filter runs between the two sessions, with none open. */
  lemma ArmProcessesOutsideSessions(steps: seq<Step>, s: State)
    requires Exec(ExecArm, steps) == Some(s) && s.audio.Process?
    ensures AudioTouchesData(s) && s.data == 0
  {
    Invariant(ExecArm, steps);
  }

  // ---------- Lifecycle ----------

  /**
   * For every interleaving and every failing call: at most one audio thread is ever created; it ends by setting
   * EXIT_PLAY, on each of its exit paths, and nothing else sets it; main unmaps a buffer only when that thread has
   * ended or was never created, so the audio thread never touches an unmapped buffer.
   */
  lemma BuffersOutliveAudioThread(mode: ExecMode, steps: seq<Step>, s: State)
    requires Exec(mode, steps) == Some(s)
    ensures s.created <= 1
    ensures s.audio.Finished? <==> s.start.ExitPlay?
    ensures AudioTouchesData(s) ==> s.dataMapped
    ensures s.audio.Compute? ==> s.optionsMapped
    ensures s.command.Write? && !Destroying(s.main) ==> s.optionsMapped
    ensures !s.dataMapped || !s.optionsMapped ==> s.created == 0 || s.audio.Finished?
  {
    Invariant(mode, steps);
  }

  /** The steps main is from its return, once the audio thread has ended. */
  function ToReturn(main: MainPc): nat {
    match main
    case Sleep => 5
    case ReadStart => 4
    case ReadExit => 3
    case DestroyData => 2
    case DestroyOptions => 1
    case Done => 0
    case _ => 0
  }

  function MainSteps(steps: seq<Step>): nat {
    if steps == [] then 0 else MainSteps(steps[..|steps| - 1]) + if steps[|steps| - 1].MainStep? then 1 else 0
  }

  /**
   * Main cannot miss the end of the audio thread: from then on, whatever its calls return, its next two reads lead it
   * to the destruction, from its sleep the two after that, and the two unmappings follow.
   */
  lemma MainSeesTheEnd(mode: ExecMode, steps: seq<Step>, s: State, ok: bool)
    requires Exec(mode, steps) == Some(s) && s.audio.Finished?
    ensures s.main.ReadStart? ==> MainDoes(MainDoes(s, ok), ok).main.DestroyData?
    ensures s.main.ReadExit? ==> MainDoes(s, ok).main.DestroyData?
    ensures s.main.Sleep? ==> MainDoes(MainDoes(MainDoes(s, ok), ok), ok).main.DestroyData?
    ensures s.main.DestroyData? ==> var t := MainDoes(MainDoes(s, ok), ok);
      t.main.Done? && !t.dataMapped && !t.optionsMapped
    ensures Destroying(s.main) || s.main.ReadStart? || s.main.ReadExit? || s.main.Sleep?
  {
    Invariant(mode, steps);
  }

  lemma NextToReturn(mode: ExecMode, steps: seq<Step>, s: State, step: Step)
    requires Exec(mode, steps) == Some(s) && s.audio.Finished? && Enabled(s, step)
    ensures Do(s, step).audio.Finished?
    ensures ToReturn(Do(s, step).main) == ToReturn(s.main) - if step.MainStep? then 1 else 0
  {
    hide Exec, SessionInv;
    Invariant(mode, steps);
  }

  /** Whatever the other threads do in between, each step of main after the end brings it one nearer to its return. */
  lemma {:induction false} EndIsReached(mode: ExecMode, steps: seq<Step>, s: State, more: seq<Step>, t: State)
    requires Exec(mode, steps) == Some(s) && s.audio.Finished? && Exec(mode, steps + more) == Some(t)
    ensures t.audio.Finished? && MainSteps(more) + ToReturn(t.main) == ToReturn(s.main) <= 5
    ensures MainSteps(more) >= 3 ==> Destroying(t.main)
    ensures MainSteps(more) == 5 ==> t.main.Done? && !t.dataMapped && !t.optionsMapped
    decreases |more|
  {
    hide Do, Enabled, SessionInv;
    if more == [] {
      assert steps + more == steps;
    } else {
      var last := |more| - 1;
      assert (steps + more)[..|steps + more| - 1] == steps + more[..last];
      var before := Exec(mode, steps + more[..last]).value;
      EndIsReached(mode, steps, s, more[..last], before);
      NextToReturn(mode, steps + more[..last], before, more[last]);
    }
    Invariant(mode, steps);
    Invariant(mode, steps + more);
  }

  // ---------- Every run can end ----------

  /** The steps the audio thread is from its end when every call that can fail does. */
  function ToFinish(audio: AudioPc): nat {
    match audio
    case NotCreated => 0
    case Finished => 0
    case SetExit => 1
    case Close => 2
    case Setup(_) => 2
    case ReadFile => 3
    case StartRead => 4
    case EndData => 5
    case EndOptions => 6
    case Compute => 7
    case StartOptions => 8
    case StartData => 9
    case Receive => 10
    case Process => 11
    case EndRead => 12
    case CopyInput => 13
  }

  /** Main before the audio thread is created, with a creation that fails; and main after its end. */
  function ToDone(main: MainPc): nat {
    match main
    case SetStop => 4
    case Create => 3
    case _ => ToReturn(main)
  }

  /** One step towards the end: the audio thread's while it lives, else main's. */
  function EndingStep(s: State): Step {
    if s.audio.NotCreated? || s.audio.Finished? then MainStep(false) else AudioStep(false)
  }

  function Distance(s: State): nat {
    ToFinish(s.audio) * 10 + if s.audio.NotCreated? && s.main.ReadStart? then 5 else ToDone(s.main)
  }

  lemma EndingStepEnds(s: State)
    requires Inv(s) && !(s.main.Done?)
    ensures Enabled(s, EndingStep(s)) && Distance(Do(s, EndingStep(s))) < Distance(s)
  {
    hide SessionInv, DataOpenAt;
  }

  /**
   * Nothing can keep the example from ending: from every reachable state there is a continuation in which main returns,
   * both buffers are unmapped, and the audio thread has ended or was never created.
   */
  lemma {:induction false} EveryRunCanEnd(mode: ExecMode, steps: seq<Step>, s: State)
    returns (more: seq<Step>, t: State)
    requires Exec(mode, steps) == Some(s)
    ensures steps <= more && Exec(mode, more) == Some(t)
    ensures t.main.Done? && !t.dataMapped && !t.optionsMapped && (t.audio.Finished? || t.audio.NotCreated?)
    decreases Distance(s)
  {
    hide Distance, EndingStep, Enabled, Do, SessionInv;
    Invariant(mode, steps);
    more, t := steps, s;
    if !s.main.Done? {
      EndingStepEnds(s);
      var next := steps + [EndingStep(s)];
      assert next[..|steps|] == steps;
      more, t := EveryRunCanEnd(mode, next, Do(s, EndingStep(s)));
    }
  }

  /** enable_filter in DSP mode ends: four steps open a session, write in it, close it, and lead back to the start. */
  lemma FilterWriteEnds(s: State)
    requires s.command.Waiting?
    ensures var written := CommandDoes(CommandDoes(s));
      && written.command.Write? && written.commandOptions == s.commandOptions + 1
      && CommandDoes(CommandDoes(written)) == s
  {
  }
}
