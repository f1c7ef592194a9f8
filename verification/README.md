# RPMsg audio offload: a Dafny model and its proofs

The repository streams eight-channel audio through a C7x DSP (or an ARM filter) and shows the result in a Python GUI.
This project models the parts that hold state at both ends and proves what they promise over whole runs: every thread
interleaving, every way the network cuts a byte stream, every call that may fail.

| file | what it models |
|---|---|
| `LogRing.dfy` | the log queue: a ring without a full check, a mutex, a condition variable and two threads, one step per statement |
| `Interleaved.dfy` | interleaved samples and their channels |
| `FrameStream.dfy` | the audio data stream: the 16 KiB send buffer of the device and the record reader of the GUI |
| `CommandChannel.dfy` | the filter button, the line assembler of the device and the filter flag |
| `Text.dfy`, `Regex.dfy` | decimal text as printf prints it and Python and C read it; the fragment of `re` the GUI uses |
| `DeviceLog.dfy`, `AudMon.dfy`, `LogPair.dfy` | the log lines, the two line parsers with the series they fill, and the pair of both |
| `Reconnect.dfy`, `ReconnectSummary.dfy` | the first log line after a reconnection, glued to a cut frame or summary line |
| `Metrics.dfy` | the running totals, what they log, and the CPU load |
| `EndToEnd.dfy` | measurements, totals, printer, ring, network, parser and plots composed |
| `Playback.dfy` | the main, audio and command threads and the DSP sharing two DMA buffers |
| `ArmFilter.dfy` | the in-place ARM filter over the interleaved buffer |
| `Firmware.dfy` | the firmware switch, and a DSP-mode run with SIGINT at any moment |
| `Config.dfy` | the configuration file reader |

State machines are a `State`, labelled `Step`s, `Enabled` and `Do`; a run is a list of steps and `Exec` its final state,
so a lemma about `Exec(...) == Some(s)` is about every reachable state. The ring size is a parameter `n` of the lemmas
and `LOG_QUEUE_SIZE` in the class. Code that updates state in place is a class or an array method proved against a
function, and the lemmas are about that function.

Several promises turned out to hold under a condition only. The code is kept as it is and the condition is proved:

- The ring is a FIFO queue exactly in the runs that never dequeue after a backlog of `n` (`LogRing.FifoIffNeverOverrun`;
  `LogRing.OverrunLosesOrder` is a run that does); with exactly `n` messages waiting it looks empty, and the writer
  blocks (`LogRing.WriterCanBlockOnFullRing`). What gets through of a backlog once nothing more is stored is exactly its
  remainder modulo `n` (`LogRing.BlockedWriterTookTheRemainder`).
- A frame line reaches the plots exactly when none of its numbers carries a minus sign (`LogPair.FrameRoundTrip`). The
  CPU load of -1 that stands for an unreadable `/proc/stat` carries one (`Metrics.NegativeMeasurementIsNotShown`). The
  numbers are finite here: a NaN or infinite `dsp_load`, which comes from shared memory, prints letters and is not part
  of this model.
- The send buffer of a stream is flushed by the frame that does not fit and by nothing else: every batch has 31 frames,
  and at the end of the file the last 1 to 31 are not sent (`FrameStream.DeviceBatches`,
  `FrameStream.LastFramesAreNotSent`).
- After a reconnection the first line is glued to what was kept of the last one. If that was cut from a frame line, the
  new frame is lost exactly when the cut is within the word "Frame", and the old one is shown in its place exactly when
  only its line end was missing (`Reconnect.GluedFrame`). If it was cut from a summary line, the new frame is always
  lost, and the live summary takes the range with a truncated average exactly when the cut is behind a digit of it
  (`ReconnectSummary.GluedSummary`).
- A comment in the configuration file is ignored as a whole up to 254 characters; of a longer one `fgets` hands over
  every block of 255 characters as a line of its own, so its end can set a key (`Config.LongComment`,
  `Config.LongCommentCanSet`).
- The GUI shows the first measured frames exactly when it was connected before the first line was printed
  (`EndToEnd.ShownFromTheFirst`). The device does not wait for it: until `accept` returns, the lines go to descriptor 0,
  and a GUI that connects after `c` lines shows the log from message `c` on (`EndToEnd.MeasurementsEndToEnd`,
  `EndToEnd.LateConnectionMissesFrames`).
- From every reachable state the log comes to rest (`LogRing.EveryRunSettles`), and a woken writer takes and prints what
  was stored (`LogRing.WokenWriterPrints`). A writer blocked with no wake-up pending sees an empty queue exactly outside the moment between the tail's move and
  the signal (`LogRing.NoWakeupIsLost`, `LogRing.WriterBlocksUntilSignal`).
- The latency plot indexes a bounded series and the unbounded list of modes alike. A history of one mode, which is all
  that an IP session shows when no line was kept from before it, is labelled right at any length
  (`AudMon.OneModeIsLabelledRight`, `EndToEnd.Watch`). On a serial line nothing clears the display when the device is
  started again in the other mode; then the labels are right exactly while both runs fit into 2048 frames
  (`AudMon.ModeChangeIsLabelledRight`).
- Button and device agree on the filter exactly when two counts of presses have the same parity: those up to the last
  press that reached the device, and those up to now, each since the connection before it
  (`CommandChannel.AgreementIsInStep`). Connecting resets the button without telling the device, and a press before the
  command socket is connected flips it and raises, so a session starts in agreement only by luck and comes to it with
  the first press that is heard (`CommandChannel.SessionAgreement`, `CommandChannel.ConnectionCanDisagree`). A device
  accepts one command client: after a reconnection to the same device run no press is heard
  (`CommandChannel.ReconnectIsNotHeard`).
- The CPU and the DSP share the data buffer exactly when some `recv_msg` returns before the DSP has finished and the
  audio thread takes its next step before it has (`Playback.SharedIffOvertaken`). That needs a `recv_msg` that failed
  (`Playback.DspHasDataAlone`), but not a second one: the reply it did not fetch stays queued, all later replies are
  taken for those of later frames (`Playback.RepliesLagByFailures`), and a successful `recv_msg` can then return too
  early (`Playback.StaleReplySharesData`).
- A DSP-mode run in which nothing is refused ends on the old firmware, or without any link exactly when the thread that
  survives called `unlink` after the ending thread's `symlink` and did not come to its own
  (`Firmware.RunEndsOnOldFirmware`). So the promise holds for all runs if and only if SIGINT is handled on the main
  thread (`Firmware.PromiseNeedsSignalOnMain`).

Where code and documentation disagree the code is followed: the example's README calls the filter a band pass from 2 to
8 kHz, the ARM code clears every bin from 5 kHz on; `trim` in `config.c` does not remove leading white space, so an
indented key is not recognised (`Config.IndentedKeyIsIgnored`); `init_config_defaults` is never called.

## Model
| member | source | states |
|---|---|---|
| LogRing.LogQueue.Enqueue | example/audio_offload/src/host_interface.c:219-228 | appends to everything stored, whatever the tail overwrites, and keeps every slot on the latest message of its residue class |
| LogRing.LogQueue.Dequeue | example/audio_offload/src/host_interface.c:234-240 | delivers the text of message d + n * floor((e - 1 - d) / n), truncated by the two copies, where d messages were taken and e stored |
| LogRing.SlotOwnerIsUnique | example/audio_offload/src/host_interface.c:223-224 | that message is the only one among the last n whose number is d modulo n |
| LogRing.Invariant | example/audio_offload/src/host_interface.c:219-251 | every reachable state has mutual exclusion, indices equal to the counts modulo n, slots holding their latest messages, and a correct past |
| LogRing.WriterDeliversFreshSubsequence | example/audio_offload/src/host_interface.c:219-251 | for every schedule and any overflow the writer delivers a strictly increasing subsequence of the stored messages, each among the last n when read, and prints their texts |
| LogRing.IndicesCountModuloN | example/audio_offload/src/host_interface.c:222-240 | never more taken than stored; head and tail are the two counts modulo n whenever the mutex is free |
| LogRing.DrainedQueueLostAMultiple | example/audio_offload/src/host_interface.c:222-240 | when the queue looks empty the undelivered messages number exactly stored minus taken, a multiple of n, and no continuation of the run delivers any of them |
| LogRing.BlockedWriterTookTheRemainder | example/audio_offload/src/host_interface.c:222-240 | from any state with the producer idle and nothing more stored, a writer that has blocked has taken exactly the backlog's remainder modulo n, so the loss is the rest |
| LogRing.FifoIffNeverOverrun | example/audio_offload/src/host_interface.c:219-251 | dequeue i delivers message i throughout a run if and only if no dequeue follows a backlog of n or more |
| LogRing.OverrunLosesOrder | example/audio_offload/src/host_interface.c:219-251 | for every ring of two or more slots a run that stores n + 1 messages and delivers the last one first |
| LogRing.ShortBacklogIsFifo | example/audio_offload/src/host_interface.c:219-251 | a run whose backlog stays below n prints a prefix of what was stored, in order and once each |
| LogRing.NoWakeupIsLost | example/audio_offload/src/host_interface.c:222-236 | a blocked writer with no wake-up pending sees equal indices if and only if the producer is not between moving the tail and signalling, which it does holding the mutex; with one slot always |
| LogRing.WriterCanBlockOnFullRing | example/audio_offload/src/host_interface.c:235-236 | for every n there is a run in which the writer blocks with n messages undelivered |
| LogRing.WriterBlocksUntilSignal | example/audio_offload/src/host_interface.c:222-236 | that moment is reached: a run with a blocked writer, no wake-up pending and unequal indices |
| LogRing.OnlyTheQueueBlocks | example/audio_offload/src/host_interface.c:219-251 | when only a new call or a wake-up can happen, the mutex is free, the producer idle, and the writer waits on equal indices or with a wake-up pending |
| LogRing.OnlyTheMutexBlocks | example/audio_offload/src/host_interface.c:219-251 | in every reachable state a thread can take its next step if and only if it need not lock a mutex that the other holds |
| LogRing.WokenWriterPrints | example/audio_offload/src/host_interface.c:235-243 | from every reachable state with the writer waiting, the mutex free and unequal indices, a wake-up is on its way, and with nothing more stored the run goes on to take and print one more message, with the text stored for it |
| LogRing.SpuriousWakeIsHarmless | example/audio_offload/src/host_interface.c:235-236 | a wake-up without a signal on equal indices leads back to waiting and changes nothing else |
| LogRing.EveryRunSettles | example/audio_offload/src/host_interface.c:219-251 | from every reachable state the two threads alone come to rest: the call under way stores its message, the writer prints all it has taken and blocks, and the counts are congruent modulo n |
| LogRing.EveryLogCanGetThrough | example/audio_offload/src/host_interface.c:219-251 | for every list of messages, and every choice of those before which the writer blocks and is woken, there is a run without an overrun that prints them all in order |
| FrameStream.SamplesRoundTrip | example/audio_offload/host utility/audmon.py:403-404 | int16 samples survive the trip through little-endian bytes |
| FrameStream.LittleEndian | example/audio_offload/src/host_interface.c:177-178 | the two bytes of a sample, the lower one first, are its value modulo 65536 |
| FrameStream.SendBuffer.Flush | example/audio_offload/src/host_interface.c:155-165 | empties the buffer; the whole batch goes on the wire exactly if there is a client, the interface is Ethernet and send succeeds, and none of it else |
| FrameStream.SendBuffer.CopyChannel | example/audio_offload/src/host_interface.c:177-183 | writes the bytes of one channel of the interleaved samples after the offset and nothing before it |
| FrameStream.SendBuffer.Enqueue | example/audio_offload/src/host_interface.c:167-185 | appends one whole record, flushing first when it does not fit; the buffer always holds the encoding of the pending records |
| FrameStream.EveryRecordIsAccountedFor | example/audio_offload/src/host_interface.c:155-217 | after any sequence of calls every record is in one closed batch or pending, once and in order, and no batch exceeds the buffer |
| FrameStream.Socket.RecvExact | example/audio_offload/host utility/audmon.py:370-378 | returns exactly the next bytes, or None at the end, however recv cuts them |
| FrameStream.SampleReader.Run | example/audio_offload/host utility/audmon.py:390-408 | for any bytes in any pieces, appends the decoded samples, counts unknown tags and keeps the window on the latest 2048 |
| FrameStream.SampleReader.SpectrumInput | example/audio_offload/host utility/audmon.py:69-75 | nothing before 1024 samples, then always the last 1024 received |
| FrameStream.DeviceFrameIsWellFormed | example/audio_offload/src/metrics.c:51-67 | one channel of one device frame makes a 516-byte record under either tag |
| FrameStream.DeviceBatches | example/audio_offload/src/host_interface.c:167-185 | batch i of a stream holds exactly frames 31 i to 31 i + 30 and is closed by the call after them; the rest, 1 to 31 frames, waits |
| FrameStream.LastFramesAreNotSent | example/audio_offload/src/host_interface.c:172-174 | even if every send succeeds exactly the frames of the closed batches are delivered |
| FrameStream.DecodeRecords | example/audio_offload/host utility/audmon.py:390-408 | any prefix of encoded records decodes to the samples of its whole records with no unknown tag |
| FrameStream.UnknownWordsAreSkipped | example/audio_offload/host utility/audmon.py:397-399 | words that are not the tag are each reported once and skipped, and what follows them is decoded as if they were not there |
| FrameStream.AudioEndToEnd | example/audio_offload/src/host_interface.c:155-185 | for every sequence of frames, fate of batches, end of stream and cutting, the decoded samples are those of the first whole delivered records in order |
| FrameStream.Listen | example/audio_offload/host utility/audmon.py:370-408 | the reader's window is the latest 2048 of those samples |
| CommandChannel.AssemblerRefinesSplitter | example/audio_offload/src/host_interface.c:289-305 | the lines handed over are those of a splitter on the whole text: drop CR, cut at LF or after 511 characters, discard the character that ends a line, skip empty lines |
| CommandChannel.CmdListener.OnChar | example/audio_offload/src/host_interface.c:290-304 | one character of the loop is one step of the assembler; the offset stays within 0..511 |
| CommandChannel.CmdListener.Dispatch | example/audio_offload/src/host_interface.c:295-299 | a line calls enable_filter exactly when it starts with the command, with the number scanned or the uninitialised variable |
| CommandChannel.NumberCalls | example/audio_offload/src/host_interface.c:295-299 | the command with any int32 number calls once, with whether the number is not 0 |
| CommandChannel.NoNumberCalls | example/audio_offload/src/host_interface.c:296-299 | without a number it calls with the uninitialised variable |
| CommandChannel.CmdListener.Listen | example/audio_offload/src/host_interface.c:279-305 | the result of any reads depends on the concatenated text only |
| CommandChannel.Device.EnableFilter | example/audio_offload/src/rpmsg_audio_example.c:36-44 | sets the flag of the current mode and leaves the other alone |
| CommandChannel.FilterButton.ToggleFilter | example/audio_offload/host utility/audmon.py:617-623 | flips the state in any case; bytes reach the device exactly if the log socket is up and the listener reads the command socket; raises exactly if the log socket is up and the command socket is not connected |
| CommandChannel.FilterButton.WaitForConnection | example/audio_offload/host utility/audmon.py:120-136 | a connection resets the state to on and sends nothing |
| CommandChannel.FilterButton.WaitForCmd | example/audio_offload/host utility/audmon.py:138-152 | an attempt closes the old command socket; the new one is read only by a device that had no command client before |
| CommandChannel.LinkMeans | example/audio_offload/host utility/audmon.py:120-152 | the state of both sockets read off the events: the log socket is up if and only if it was connected and not lost since; the device listens if and only if the last attempt to connect the command socket succeeded and was the first that did since the device was started |
| CommandChannel.PressIsHeard | example/audio_offload/host utility/audmon.py:617-623 | a press reaches the device exactly then |
| CommandChannel.SplitWire | example/audio_offload/host utility/audmon.py:287-300 | every command sent comes out as one line, and the blank line it carries as nothing |
| CommandChannel.FilterEndToEnd | example/audio_offload/src/host_interface.c:279-305 | for every sequence of button and connection events and every cutting, the device that runs now is called once per command that reached it, with its setting, in order |
| CommandChannel.AgreementIsInStep | example/audio_offload/host utility/audmon.py:617-623 | flag and button agree if and only if the presses up to the last one that reached the device, or its configured setting before one did, and the presses up to now, each counted since the connection before it, have the same parity |
| CommandChannel.InStepWithinConnection | example/audio_offload/host utility/audmon.py:617-623 | within one connection that is an even number of presses since the last one that reached the device |
| CommandChannel.SessionAgreement | example/audio_offload/host utility/audmon.py:437-443 | in a session with a newly started device, after any past, each press after the command socket is up causes one call, and the two agree if and only if there is one or the configured setting is the parity of the presses before |
| CommandChannel.ConnectionCanDisagree | example/audio_offload/host utility/audmon.py:120-152 | they disagree right after connecting to a device with the filter configured off, and after one press before the command socket is connected |
| CommandChannel.ReconnectIsNotHeard | example/audio_offload/src/host_interface.c:84-96 | once the command connection of a device has been closed for a new one, no press changes its flag until it is started anew |
| CommandChannel.Relay | example/audio_offload/src/host_interface.c:253-309 | the listener object of the device that runs now, fed with what was sent to it, makes exactly those calls, and agrees with the button if and only if they are in step |
| Text.FloatRoundTrip | example/audio_offload/host utility/audmon.py:489-493 | a printed non-negative decimal is read back digit for digit |
| Text.RoundIsNearest | example/audio_offload/src/metrics.c:72-74 | the printed number is within half a unit of its last place |
| Text.FloatIs | example/audio_offload/host utility/audmon.py:489-493 | digits with at most one dot among them are read as the number they spell, and a second dot is an error |
| Text.LeadingIntIs | example/audio_offload/src/config.c:95-102 | atoi and sscanf read white space, at most one sign and the digits, whatever follows them |
| Regex.GreedyIsExact | example/audio_offload/host utility/audmon.py:116-118 | in a separated pattern a place has at most one match, and the greedy matcher finds it or there is none |
| Regex.GreedyIsPreferred | example/audio_offload/host utility/audmon.py:340-340 | with one more repetition at the end, greedy matching finds the match that a backtracking engine prefers, or there is none |
| Regex.SearchIsLeftmost | example/audio_offload/host utility/audmon.py:116-118 | search returns None exactly if the pattern matches nowhere, else the groups of the preferred match at the leftmost place where it matches |
| AudMon.LogPatternIsSeparated | example/audio_offload/host utility/audmon.py:116-118 | the frame pattern is separated |
| AudMon.FrameSearchIsExact | example/audio_offload/host utility/audmon.py:484-484 | a frame is found exactly in the lines that contain a word of the frame expression |
| AudMon.SummaryPatternIsSeparated | example/audio_offload/host utility/audmon.py:340-340 | the summary pattern is separated up to the repetition at its end |
| AudMon.SummarySearchIsExact | example/audio_offload/host utility/audmon.py:340-340 | a range is found exactly in the lines that contain a word of the summary expression |
| AudMon.LineIsFiltered | example/audio_offload/host utility/audmon.py:470-471 | a line reaches the frame parser exactly if one of three words stands in it or it begins with the fourth |
| AudMon.CleanIs | example/audio_offload/host utility/audmon.py:461-461 | white space around a line and carriage returns anywhere in it are removed, and nothing else |
| AudMon.LevelsDiffer | example/audio_offload/host utility/audmon.py:188-192 | zero alone is silent, and different amplitudes have different levels |
| AudMon.SplitInPieces | example/audio_offload/host utility/audmon.py:457-460 | keeping the rest between two reads, a text may be cut anywhere |
| AudMon.Monitor.ParseLogLine | example/audio_offload/host utility/audmon.py:482-510 | pushes one frame to all six series or changes none of them |
| AudMon.Monitor.OnData | example/audio_offload/host utility/audmon.py:457-471 | pushes the frames of the complete lines, updates the live summary by them and keeps the rest |
| AudMon.Monitor.ReadData | example/audio_offload/host utility/audmon.py:437-471 | the outcome of a connection depends on the text received, not on its pieces |
| AudMon.Monitor.ClearData | example/audio_offload/host utility/audmon.py:242-264 | empties the series and the summary and keeps the partial line |
| AudMon.SeriesStayAligned | example/audio_offload/host utility/audmon.py:502-507 | the five bounded series have equal length, index j comes from one frame in all, and its mode is as far from the end of the mode list |
| AudMon.OneModeIsLabelledRight | example/audio_offload/host utility/audmon.py:528-542 | a history of one mode is labelled right at any length |
| AudMon.ModeChangeIsLabelledRight | example/audio_offload/host utility/audmon.py:528-542 | two runs in different modes without a clear in between are labelled right if and only if one is empty or both fit into 2048 frames |
| AudMon.PlotIsRightIffWindowIsWhole | example/audio_offload/host utility/audmon.py:528-542 | the latency plot labels all histories of a length correctly, mixed ones included, if and only if the length is at most 2048 |
| LogPair.FrameRoundTrip | example/audio_offload/src/metrics.c:69-76 | a printed frame line is parsed to exactly its numbers and mode, or to nothing if and only if some number carries a minus sign |
| DeviceLog.FrameFormat | example/audio_offload/src/metrics.c:72-74 | the frame line is the format string with its six arguments in their places |
| DeviceLog.SummaryFormats | example/audio_offload/src/metrics.c:84-97 | so are the five summary lines, each with the range of its own series |
| LogPair.RangeRoundTrip | example/audio_offload/host utility/audmon.py:339-366 | a printed range replaces the three stored numbers, or none when one carries a minus sign |
| ReconnectSummary.HalfReadRange | example/audio_offload/host utility/audmon.py:339-366 | an average that is no number leaves the old one beside the new minimum and maximum, and an amplitude range as it was |
| LogPair.MessageIsRead | example/audio_offload/host utility/audmon.py:457-471 | every printed message does to series and summary what it says, and frame and summary lines do not disturb each other |
| LogPair.SummaryRoundTrip | example/audio_offload/src/metrics.c:78-98 | the five lines of one summary replace the whole live summary |
| LogPair.MessageLength | example/audio_offload/src/metrics.c:71-74 | no message of float-sized numbers is truncated by any buffer on its way |
| Reconnect.CutFrameIsNoFrame | example/audio_offload/host utility/audmon.py:116-118 | no proper beginning of a frame line, cut anywhere, is parsed as a frame |
| Reconnect.GluedFrame | example/audio_offload/host utility/audmon.py:457-471 | a frame line glued to a cut one: the new frame is shown, or lost if and only if the cut is within the first word, or replaced by the old one if and only if only its line end was missing and it has no minus sign |
| ReconnectSummary.GluedSummary | example/audio_offload/host utility/audmon.py:331-368 | a frame line glued to a cut summary line is never shown; the live summary changes if and only if a digit of a range's last number had been received and the range has no minus sign, and then gets that range with the number cut short |
| EndToEnd.LogEndToEnd | example/audio_offload/src/host_interface.c:230-248 | for every schedule, overflow, moment of connection and cutting, k lines received show exactly the messages behind the k dequeues after the c printed before, strictly increasing in the order of logging |
| EndToEnd.MetricsEndToEnd | example/audio_offload/host utility/audmon.py:457-507 | without an overrun these are messages c to c + k of the log |
| EndToEnd.MeasurementsEndToEnd | example/audio_offload/src/rpmsg_audio_example.c:198-215 | for any measurements and without an overrun the series are exactly the measured frames without a negative value among messages c to c + k, in order, each value under its own name and within half a unit of the printed place of what was measured, and each entry of the live summary is that of the last line of its kind; without negative values, and with ordinary ones, it has the least and greatest value and the mean of its own series up to the frame after which its last line was logged |
| EndToEnd.ShownFromTheFirst | example/audio_offload/src/host_interface.c:72-82 | for measurements that are not negative, the frames shown are the first ones measured if and only if the GUI was connected before the first line was printed, or none are shown |
| EndToEnd.LateConnectionMissesFrames | example/audio_offload/src/host_interface.c:230-243 | for every history of values in range that are not negative, and every moment of connection with a frame still to come, there is such a run that does not show the first ones |
| EndToEnd.OverrunEndToEnd | example/audio_offload/src/rpmsg_audio_example.c:198-215 | with any overflow and any measurements the frames shown are measured ones with strictly increasing numbers, each value within half a unit under its own name, and each entry of the live summary is that of the last line of its kind received |
| EndToEnd.MeasurementsAfterRest | example/audio_offload/host utility/audmon.py:457-460 | with a partial line kept from before, the first line received is glued to it and all others are shown as ever |
| EndToEnd.MinusSigns | example/audio_offload/src/metrics.c:69-76 | a frame message carries a minus sign if and only if one of its measured values is negative |
| EndToEnd.LogHasNoMinusSigns | example/audio_offload/src/metrics.c:69-76 | measurements that are not negative print without minus signs |
| EndToEnd.Watch | example/audio_offload/host utility/audmon.py:430-507 | the monitor object, cleared and fed with all the pieces, holds exactly those frames, that summary and the last partial line, whatever partial line it kept from before; when it kept none its latency plot is labelled right however long the session lasts |
| Metrics.SeriesMeaning | example/audio_offload/src/metrics.c:28-49 | the running values are the sum, a lower and an upper bound of all values, each bound a sentinel or a value |
| Metrics.SummaryIsOrdered | example/audio_offload/src/metrics.c:86-97 | minimum, average and maximum of every summary are in order, whatever the values |
| Metrics.ExtremesAreMeasured | example/audio_offload/src/rpmsg_audio_example.c:121-125 | the printed minimum is a measured value if and only if some value does not exceed the sentinel; so for the maximum |
| Metrics.PrintedRangeIsOrdered | example/audio_offload/src/metrics.c:86-97 | for values that are not negative the printed numbers are in order too |
| Metrics.FrameIsMeasured | example/audio_offload/src/rpmsg_audio_example.c:202-202 | the logged frame has its number, its mode and the four measurements, each under its own name, with its sign and within half a unit of the last place; read back without minus signs it shows them |
| Metrics.SummaryIsMeasured | example/audio_offload/src/metrics.c:78-98 | for ordinary values the summary has the number of frames and, of each of the four series, the least and greatest value and the mean within half a unit |
| Metrics.RunningMetrics.LogFrame | example/audio_offload/src/rpmsg_audio_example.c:198-215 | one iteration keeps the totals equal to the fold over the history and logs what the history says, a summary after every tenth frame |
| Metrics.NegativeMeasurementIsNotShown | example/audio_offload/src/metrics.c:11-16 | a measured frame is parsed exactly when none of its values is negative; that of an unreadable /proc/stat is not |
| Metrics.LogShape | example/audio_offload/src/rpmsg_audio_example.c:198-215 | message i of the log in closed form: rounds of ten frames and the five lines of the summary of all frames so far |
| Metrics.CpuMeter.GetCpuLoad | example/audio_offload/src/metrics.c:11-26 | the load is that of the changes of the counters since the last successful reading; for counters that do not decrease the load is within 0..100; the deltas add up to the counters last read |
| Metrics.Load | example/audio_offload/src/metrics.c:25-25 | the percentage is the busy share of the time, and 0 when none has passed |
| Metrics.DeltasAreBetweenReadings | example/audio_offload/src/metrics.c:19-24 | one delta for each successful reading, from the successful one before it |
| Metrics.DeltasTelescope | example/audio_offload/src/metrics.c:19-24 | over a run with failed readings the deltas add up to the final counters |
| Playback.Invariant | example/audio_offload/src/rpmsg_audio_example.c:118-315 | session counts, hand-over and mappings in every reachable state of the three threads |
| Playback.AccessesLieInSessions | example/audio_offload/src/rpmsg_audio_example.c:172-216 | in DSP mode no session is open on the data buffer while process_on_dsp runs, every access lies in a session of its own thread, iterations start and end with none, and end of file leaves one |
| Playback.DspHasDataAlone | example/audio_offload/src/rpmsg_audio_example.c:88-110 | while no recv_msg has failed the DSP never works on the data buffer during a CPU session |
| Playback.SharedIffOvertaken | example/audio_offload/src/rpmsg_audio_example.c:88-110 | some state of a run has both if and only if some recv_msg returned before the DSP had finished and the audio thread took its next step before it had |
| Playback.RepliesLagByFailures | example/audio_offload/src/rpmsg_audio_example.c:104-109 | the reply fetched for a frame is the one to the frame as many frames earlier as recv_msg calls have failed |
| Playback.OneReplyPerDspStep | example/audio_offload/src/rpmsg_audio_example.c:88-110 | the frames answered are as many as the steps of the DSP, which can take one whenever a frame is unanswered |
| Playback.LostReplySharesData | example/audio_offload/src/rpmsg_audio_example.c:104-109 | a run in which one failed recv_msg leads to that |
| Playback.StaleReplySharesData | example/audio_offload/src/rpmsg_audio_example.c:104-109 | a run in which a successful recv_msg leads to that, fetching the reply that an earlier failed one left |
| Playback.FilterWriteDuringDsp | example/audio_offload/src/rpmsg_audio_example.c:36-42 | the options buffer can be written while the DSP works |
| Playback.ArmProcessesOutsideSessions | example/audio_offload/src/rpmsg_audio_example.c:180-184 | in ARM mode the filter touches the data buffer with no session open |
| Playback.BuffersOutliveAudioThread | example/audio_offload/src/rpmsg_audio_example.c:288-308 | at most one audio thread; it ends by setting EXIT_PLAY on each path; main unmaps only after its end or without it, so it never touches an unmapped buffer |
| Playback.MainSeesTheEnd | example/audio_offload/src/rpmsg_audio_example.c:288-305 | once the audio thread has ended main's next two reads lead to the destruction, from its sleep the three next steps, and the two unmappings follow |
| Playback.EndIsReached | example/audio_offload/src/rpmsg_audio_example.c:288-308 | from then on, under every interleaving, each step of main brings it exactly one nearer to its return: three steps reach the destruction, five the end with both buffers unmapped |
| Playback.EveryRunCanEnd | example/audio_offload/src/rpmsg_audio_example.c:118-315 | from every reachable state there is a continuation to main's return, with both buffers unmapped and no audio thread alive |
| Playback.FilterWriteEnds | example/audio_offload/src/rpmsg_audio_example.c:36-42 | a filter write opens a session, writes, closes it and leaves everything else as it was |
| ArmFilter.ProcessOnArm | example/audio_offload/src/rpmsg_audio_example.c:48-87 | the in-place loops equal interleaving the transformed channels of the original buffer |
| ArmFilter.Scatter | example/audio_offload/src/rpmsg_audio_example.c:78-83 | writing one channel back changes that channel and nothing else |
| ArmFilter.ProcessedChannel | example/audio_offload/src/rpmsg_audio_example.c:53-86 | each channel of the result depends on its own samples only |
| ArmFilter.FilterOffChangesNothing | example/audio_offload/src/rpmsg_audio_example.c:62-83 | with the filter off and an exact transform pair the buffer is unchanged |
| ArmFilter.LowPassClearsSuffix | example/audio_offload/src/rpmsg_audio_example.c:66-72 | the cleared bins are exactly those with i * 48000 >= 5000 * 256, the suffix from bin 27, despite the integer division |
| ArmFilter.FilteredSample | example/audio_offload/src/rpmsg_audio_example.c:59-82 | with the filter on each sample is the converted, normalised inverse of the spectrum that agrees with that of the channel below bin 27 and is zero from there on; with it off, of the spectrum itself |
| ArmFilter.HighBinsDoNotMatter | example/audio_offload/src/rpmsg_audio_example.c:65-73 | with the filter on, channels whose spectra agree on bins 0 to 26 become equal |
| ArmFilter.ChannelPasses | example/audio_offload/src/rpmsg_audio_example.c:53-86 | with an exact transform pair a channel of the buffer is unchanged if its flag is off or its spectrum is zero from bin 27 on |
| Firmware.RemoteProc.ReadState | library/src/fw_loader.c:8-26 | in its buffer of 32 bytes, cut in place: the longest start of the content within 31 characters and one line, or failure |
| Firmware.StateFound | library/src/fw_loader.c:8-36 | the state compared equal is exactly the word the content begins with, ended there or by a line end, unless it fills the buffer |
| Firmware.StateIsConfirmed | library/src/fw_loader.c:28-54 | an unreadable state is never confirmed; a readable one is if and only if its content begins with the word or the write is accepted |
| Firmware.RemoteProc.WriteStateIfNeeded | library/src/fw_loader.c:28-54 | succeeds exactly when the state can be read and its content begins with the word, ended there or by a line end, or else the write is accepted |
| Firmware.RemoteProc.UpdateSymlink | library/src/fw_loader.c:56-63 | succeeds exactly when the new link was made, which needs the old one gone |
| Firmware.RemoteProc.SwitchFirmware | library/src/fw_loader.c:65-76 | for every combination of failing calls: 0 exactly when all three parts succeed, then the link is the new one; a DSP in another state whose write is refused keeps its link, and the result is -1; link after stop, start after link |
| Firmware.SwitchOfRunningDsp | library/src/fw_loader.c:65-76 | a switch that finds "running" and may not write returns -1 and leaves the link |
| Firmware.SwitchOfStoppedDsp | library/src/fw_loader.c:65-76 | one that finds "stop" makes the link whether or not it may write |
| Firmware.CallsMakeUpdate | library/src/fw_loader.c:56-76 | the single calls of the run model compose to the switch: only a refused stop ends it early with the old link, a refused unlink does not, and the two link calls are UpdateSymlink |
| Firmware.WorkUsesNewFirmware | example/audio_offload/src/rpmsg_audio_example.c:253-260 | until a signal arrives the example works on the new firmware when the first switch was not refused |
| Firmware.RunEndsOnOldFirmware | example/audio_offload/src/rpmsg_audio_example.c:26-34 | when nothing is refused every DSP-mode run, ended normally or by SIGINT at any moment, ends on the old firmware, or with no link if and only if the surviving thread's unlink came after the ending thread's symlink and its own symlink did not follow; that needs a signal off the main thread |
| Firmware.SignalAtAnyMoment | example/audio_offload/src/rpmsg_audio_example.c:26-34 | from every reachable state before it, SIGINT can be handled on the main thread, and five successful steps later the process has exited on the old firmware |
| Firmware.StepBringsEnd | example/audio_offload/src/rpmsg_audio_example.c:26-34 | in every reachable state the thread that goes on can move, and whatever its calls return it is nearer to the end, at most eleven steps away |
| Firmware.PromiseNeedsSignalOnMain | example/audio_offload/src/rpmsg_audio_example.c:253-253 | all such runs end on the old firmware if and only if the signal is handled on the main thread |
| Firmware.SignalOnOtherThreadCanLoseLink | example/audio_offload/src/rpmsg_audio_example.c:309-315 | from every initial link such a run exists: nothing refused, no link left |
| Config.Trim | example/audio_offload/src/config.c:10-18 | in place, cuts trailing white space only, and nothing from a blank string |
| Config.AppConfig.LoadConfig | example/audio_offload/src/config.c:42-106 | the loop over the buffers that fgets fills applies the lines of the file in order; a missing file changes nothing |
| Config.SettingLine | example/audio_offload/src/config.c:54-102 | a printed KEY=VALUE line sets its key to exactly its value and fits the line buffer |
| Config.SpacedLine | example/audio_offload/src/config.c:51-56 | white space in front of the equals sign and at the end of a line does not count; of a value the first 127 characters do |
| Config.EmptyValueIsIgnored | example/audio_offload/src/config.c:54-54 | a key with nothing but white space for a value is not set |
| Config.LongValueIsCut | example/audio_offload/src/config.c:54-54 | a string of more than 127 characters is cut there |
| Config.LongKeyIsIgnored | example/audio_offload/src/config.c:54-54 | more than 63 characters in front of the equals sign set nothing |
| Config.FlagLine | example/audio_offload/src/config.c:99-102 | a flag is on for every number but 0 and off for a value that does not begin with one |
| Config.IgnoredLine | example/audio_offload/src/config.c:52-54 | comments, blank lines and unknown keys of at most 254 characters change nothing |
| Config.LongComment | example/audio_offload/src/config.c:50-54 | a comment of any length has the effect of what is left of it after the blocks of 255 characters that are read as comments |
| Config.LongCommentIsIgnored | example/audio_offload/src/config.c:50-54 | it has none when what is left can be ignored |
| Config.LongCommentCanSet | example/audio_offload/src/config.c:50-54 | 255 characters of a comment followed by KEY=VALUE set the key |
| Config.LoadRendered | example/audio_offload/src/config.c:50-105 | reading what was written applies the settings in order, over any earlier state |
| Config.LastLineWins | example/audio_offload/src/config.c:58-102 | for every key the last line wins, and a key no line sets keeps its value |
| Config.ConfigRoundTrip | example/audio_offload/src/config.c:42-106 | a configuration written in any order, with anything ignorable in between, is recovered from any earlier state |
| Config.KindsAreFieldTypes | example/audio_offload/src/config.c:58-102 | a key is known exactly when it names one of the seventeen fields, and is read as that field's type |
| Config.FieldsRoundTrip | example/audio_offload/src/config.c:58-102 | the record of seventeen fields, one line each in any order, is recovered from any earlier state, each field under the key of its name |
| Config.IndentedKeyIsIgnored | example/audio_offload/src/config.c:10-18 | a known key after a blank is not recognised |

## Left out
- Sockets, UART, ALSA, libsndfile and rpmsg-char: a stream is a sequence of pieces, a blocking `send` delivers a batch whole or not at all, and call outcomes are parameters.
- A failing `accept`: it would set `client_log_fd` to -1 and silence the log. The variable is 0 before `accept` returns, so both tests of it pass from the start; the lines printed until then are the first `c` of `EndToEnd.Received`.
- Bytes of a command connection that are lost with it: the filter theorems speak of the moment when all bytes sent to the device have been consumed.
- Reconnect.GluedFrame and ReconnectSummary.GluedSummary: take a frame line as the new one; `EndToEnd.MeasurementsAfterRest` takes any new line but leaves what the two make together to the parsers.
- A press between `connected = True` and `clear_data` in `wait_for_connection`, which is sent over an old command socket and then reset: the two are one event here.
- A filter command that arrives before main has written the configured setting, which follows the start of the listener: the device starts with that setting here.
- A second SIGINT in the same run: the handler runs once.
- A reader thread that outlives its connection: after a reconnect the GUI starts a second reader on the new socket; the model has one reader per connection.
- The copies in `log_input_audio` and `log_output_audio`: for 256 frames of 8 channels their 16-bit size is 4096 bytes, the whole frame.
- The text file of samples written when audio logging is enabled, and the amplitude loop of the audio thread: the amplitude is an input.
- FFTW, rounding of doubles and the conversion of out-of-range values to int16_t: the transform pair and the conversion are parameters over the reals.
- Text.ParseFloat: gives the decimal number itself, not the nearest Python float; infinities and NaN are not printed by the model (see the frame line above).
- AudMon.AmplitudeToDbfs: keeps 20 log10(amp / 32767) symbolic.
- Text.ParseInt: digits only; the signs, blanks and underscores that Python's `int` also takes are never printed by the device.
- Non-ASCII text: `\d`, `\s` and `strip` are taken on ASCII characters, which is all the device prints.
- Config.Atoi: gives the mathematical value; numbers beyond int32 are undefined in C and `Config.ConfigRoundTrip` does not use them.
- CommandChannel.ScanInt: treats a number beyond int32 as unread, where C leaves it undefined.
- The order of the seventeen comparisons in `load_config`: no two can hold, so the model groups them by type.
- The UART mode of the GUI: it sends and reads the same text through a serial port.
- Commands other than the filter command, the `set_mode` and `toggle_test` handlers and all drawing.
- The two extra END calls of main before the audio thread starts, and filter commands once main has begun to destroy the buffers.
- `dmabuf_heap_init`, `send_msg`, `recv_msg` and `init_rpmsg`: thin wrappers; the DSP firmware is not part of this model.
