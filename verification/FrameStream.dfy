/**
 * The audio data stream: the send buffer of the device (host_interface.c) and the record reader of the GUI (audmon.py).
 * The two streams differ in their tag only, so the tag is a parameter.
 */
module FrameStream {
  import opened Common
  import opened Interleaved

  const SEND_BUFFER_SIZE: nat := 16384
  const CHANNELS: nat := 8
  const HEADER_SIZE: nat := 4
  const DATA_SIZE: nat := 512
  const RECORD_SIZE: nat := HEADER_SIZE + DATA_SIZE
  const MAX_SAMPLES: nat := 2048
  const FFT_SIZE: nat := 1024
  const INPT: seq<Byte> := [0x49, 0x4E, 0x50, 0x54]
  const OUTP: seq<Byte> := [0x4F, 0x55, 0x54, 0x50]

  type Byte = b: int | 0 <= b < 256

  // ---------- int16 in little-endian bytes ----------

  function Unsigned(v: Sample): (u: nat) {
    if v < 0 then v + 0x1_0000 else v
  }

  function SampleByte(v: Sample, second: bool): Byte {
    if second then Unsigned(v) / 256 else Unsigned(v) % 256
  }

  function FromBytes(lo: Byte, hi: Byte): (v: Sample)
    ensures SampleByte(v, false) == lo && SampleByte(v, true) == hi
  {
    var u := lo + 256 * hi;
    if u >= 0x8000 then u - 0x1_0000 else u
  }

  function SampleBytes(samples: seq<Sample>): (bytes: seq<Byte>)
    ensures |bytes| == 2 * |samples|
  {
    seq(2 * |samples|, i requires 0 <= i < 2 * |samples| => SampleByte(samples[i / 2], i % 2 == 1))
  }

  lemma BytesOfSample(samples: seq<Sample>, i: nat)
    requires i < |samples|
    ensures SampleBytes(samples)[2 * i] == SampleByte(samples[i], false)
    ensures SampleBytes(samples)[2 * i + 1] == SampleByte(samples[i], true)
  {
  }

  /** np.frombuffer(data, dtype=np.int16) for a whole number of samples. */
  function FromBuffer(data: seq<Byte>): (samples: seq<Sample>)
    requires |data| % 2 == 0
    ensures 2 * |samples| == |data|
  {
    seq(|data| / 2, i requires 0 <= i < |data| / 2 => FromBytes(data[2 * i], data[2 * i + 1]))
  }

  lemma SamplesRoundTrip(samples: seq<Sample>)
    ensures FromBuffer(SampleBytes(samples)) == samples
  {
  }

  /** The two bytes of a sample, the lower one first, are its value modulo 65536. */
  lemma LittleEndian(samples: seq<Sample>, i: nat)
    requires i < |samples|
    ensures var low: int, high: int, v: int := SampleBytes(samples)[2 * i], SampleBytes(samples)[2 * i + 1], samples[i];
      low + 256 * high == if v < 0 then v + 65536 else v
  {
    BytesOfSample(samples, i);
  }

  /** The tags spell their names. */
  lemma TagsAreAscii()
    ensures |INPT| == |OUTP| == 4
    ensures forall i :: 0 <= i < 4 ==> INPT[i] == "INPT"[i] as int && OUTP[i] == "OUTP"[i] as int
  {
  }

  // ---------- What has been handed to the send buffer ----------

  datatype Record = Record(tag: seq<Byte>, samples: seq<Sample>)

  function Encode(r: Record): (bytes: seq<Byte>)
    ensures |bytes| == |r.tag| + 2 * |r.samples|
  {
    r.tag + SampleBytes(r.samples)
  }

  function EncodeAll(rs: seq<Record>): seq<Byte> {
    if rs == [] then [] else Encode(rs[0]) + EncodeAll(rs[1..])
  }

  lemma {:induction false} EncodeAppend(a: seq<Record>, b: seq<Record>)
    ensures EncodeAll(a + b) == EncodeAll(a) + EncodeAll(b)
  {
    if a == [] {
      assert a + b == b;
    } else {
      assert (a + b)[1..] == a[1..] + b;
      EncodeAppend(a[1..], b);
    }
  }

  lemma EncodeSnoc(a: seq<Record>, r: Record)
    ensures EncodeAll(a + [r]) == EncodeAll(a) + Encode(r)
  {
    EncodeAppend(a, [r]);
    assert EncodeAll([r]) == Encode(r) + EncodeAll([]) == Encode(r);
  }

  /** What decides the fate of a batch: the client descriptor, the configured interface and the outcome of send. */
  datatype Link = Link(fd: int, ethernet: bool, sendOk: bool) {
    predicate Delivers() {
      fd >= 0 && ethernet && sendOk
    }
  }

  datatype Batch = Batch(records: seq<Record>, delivered: bool)

  /** The append-only history of a send buffer: closed batches, then the records still waiting. */
  datatype SendLog = SendLog(batches: seq<Batch>, pending: seq<Record>) {
    function Flush(delivered: bool): SendLog {
      if pending == [] then this else SendLog(batches + [Batch(pending, delivered)], [])
    }

    function Enqueue(r: Record, delivered: bool): SendLog {
      var room := if |EncodeAll(pending)| + |Encode(r)| > SEND_BUFFER_SIZE then Flush(delivered) else this;
      room.(pending := room.pending + [r])
    }
  }

  function BatchRecords(batches: seq<Batch>, onlyDelivered: bool): seq<Record> {
    if batches == [] then []
    else
      (if batches[0].delivered || !onlyDelivered then batches[0].records else []) +
      BatchRecords(batches[1..], onlyDelivered)
  }

  lemma {:induction false} BatchSnoc(batches: seq<Batch>, b: Batch, onlyDelivered: bool)
    ensures BatchRecords(batches + [b], onlyDelivered) ==
      BatchRecords(batches, onlyDelivered) + (if b.delivered || !onlyDelivered then b.records else [])
  {
    if batches == [] {
      assert batches + [b] == [b];
    } else {
      assert (batches + [b])[1..] == batches[1..] + [b];
      BatchSnoc(batches[1..], b, onlyDelivered);
    }
  }

  function DeliveredBytes(log: SendLog): seq<Byte> {
    EncodeAll(BatchRecords(log.batches, true))
  }

  /** send_inbuffer and send_inoffset (or their output twins). */
  class SendBuffer {
    const buf: array<Byte>
    var offset: nat
    ghost var wire: seq<Byte>
    ghost var log: SendLog

    ghost predicate Valid()
      reads this, buf
    {
      && buf.Length == SEND_BUFFER_SIZE
      && offset <= buf.Length
      && buf[..offset] == EncodeAll(log.pending)
      && wire == DeliveredBytes(log)
    }

    constructor ()
      ensures Valid() && fresh(buf) && buf.Length == 16384 && wire == [] && log == SendLog([], [])
    {
      buf := new Byte[SEND_BUFFER_SIZE];
      offset := 0;
      wire, log := [], SendLog([], []);
    }

    /** A blocking send puts the whole batch on the wire or none of it; either way the buffer is empty afterwards. */
    method Flush(link: Link)
      requires Valid()
      modifies this
      ensures Valid() && offset == 0
      ensures log == old(log).Flush(link.Delivers())
      ensures wire == old(wire) + if link.fd >= 0 && link.ethernet && link.sendOk then old(buf[..offset]) else []
    {
      BatchSnoc(log.batches, Batch(log.pending, link.Delivers()), true);
      EncodeAppend(BatchRecords(log.batches, true), log.pending);
      assert BatchRecords(log.batches, true) + [] == BatchRecords(log.batches, true);
      assert wire + [] == wire;
      if link.fd >= 0 && link.ethernet {
        if offset > 0 {
          if link.sendOk {
            wire := wire + buf[..offset];
          }
          offset := 0;
        }
      } else {
        offset := 0;
      }
      log := log.Flush(link.Delivers());
    }

    /** The loop of Enqueue: one sample of channel `ch` after the other, least significant byte first. */
    method CopyChannel(data: array<Sample>, numFrames: nat, numChannels: nat, ch: nat)
      requires data as object != buf && offset + 2 * numFrames <= buf.Length
      requires ch < numChannels && numFrames * numChannels <= data.Length
      modifies buf
      ensures buf[..offset] == old(buf[..offset])
      ensures buf[offset..offset + 2 * numFrames] == SampleBytes(Channel(data[..], numFrames, numChannels, ch))
    {
      hide SampleBytes, SampleByte;
      ghost var body := SampleBytes(Channel(data[..], numFrames, numChannels, ch));
      var i := 0;
      while i < numFrames
        invariant 0 <= i <= numFrames
        invariant buf[..offset] == old(buf[..offset])
        invariant forall k :: 0 <= k < 2 * i ==> buf[offset + k] == body[k]
      {
        IndexInRange(i, numFrames, numChannels, ch);
        var v := data[i * numChannels + ch];
        BytesOfSample(Channel(data[..], numFrames, numChannels, ch), i);
        buf[offset + 2 * i] := SampleByte(v, false);
        buf[offset + 2 * i + 1] := SampleByte(v, true);
        i := i + 1;
      }
    }

    method AppendRecord(tag: seq<Byte>, data: array<Sample>, numFrames: nat, numChannels: nat, ch: nat)
      requires data as object != buf && offset + |tag| + 2 * numFrames <= buf.Length
      requires ch < numChannels && numFrames * numChannels <= data.Length
      modifies this`offset, buf
      ensures offset == old(offset) + |tag| + 2 * numFrames
      ensures buf[..offset] ==
        old(buf[..offset]) + Encode(Record(tag, Channel(data[..], numFrames, numChannels, ch)))
    {
      hide SampleBytes, Channel, EncodeAll;
      forall k | 0 <= k < |tag| {
        buf[offset + k] := tag[k];
      }
      ghost var body := offset + |tag|;
      assert buf[..body] == old(buf[..offset]) + tag;
      offset := offset + |tag|;
      CopyChannel(data, numFrames, numChannels, ch);
      offset := offset + 2 * numFrames;
      assert buf[..offset] == buf[..body] + buf[body..offset];
    }

    /** enqueue_input_buffer and enqueue_output_buffer. */
    method Enqueue(tag: seq<Byte>, data: array<Sample>, numFrames: nat, numChannels: nat, ch: nat, link: Link)
      requires Valid() && data as object != buf
      requires |tag| + 2 * numFrames <= SEND_BUFFER_SIZE
      requires ch < numChannels && numFrames * numChannels <= data.Length
      modifies this, buf
      ensures Valid()
      ensures log == old(log).Enqueue(Record(tag, Channel(data[..], numFrames, numChannels, ch)), link.Delivers())
      ensures var size := |tag| + 2 * numFrames;
        offset == (if old(offset) + size > SEND_BUFFER_SIZE then 0 else old(offset)) + size
    {
      ghost var r := Record(tag, Channel(data[..], numFrames, numChannels, ch));
      if offset + |tag| + 2 * numFrames > SEND_BUFFER_SIZE {
        Flush(link);
      }
      AppendRecord(tag, data, numFrames, numChannels, ch);
      EncodeSnoc(log.pending, r);
      log := log.(pending := log.pending + [r]);
    }
  }

  // ---------- Batching as an append-only log ----------

  /** One enqueue call: its record, and whether a flush it triggers would be delivered. */
  datatype Enqueuing = Enqueuing(record: Record, delivers: bool)

  function LogAfter(calls: seq<Enqueuing>): SendLog {
    if calls == [] then SendLog([], [])
    else
      var last := |calls| - 1;
      LogAfter(calls[..last]).Enqueue(calls[last].record, calls[last].delivers)
  }

  function Records(calls: seq<Enqueuing>): (rs: seq<Record>)
    ensures |rs| == |calls|
  {
    seq(|calls|, i requires 0 <= i < |calls| => calls[i].record)
  }

  ghost predicate Fits(r: Record) {
    |Encode(r)| <= SEND_BUFFER_SIZE
  }

  /**
   * Whatever is enqueued and whatever happens to the flushes, every record is in exactly one place, in order: in a
   * batch closed as a whole, or pending. No batch and no pending content exceeds the buffer.
   */
  lemma {:induction false} EveryRecordIsAccountedFor(calls: seq<Enqueuing>)
    requires forall c :: c in calls ==> Fits(c.record)
    ensures var log := LogAfter(calls);
      && BatchRecords(log.batches, false) + log.pending == Records(calls)
      && Bounded(log)
  {
    hide EncodeAll, Encode, Bounded, SendLog.Enqueue;
    if calls != [] {
      var last := |calls| - 1;
      assert calls[last] in calls && forall c :: c in calls[..last] ==> c in calls;
      EveryRecordIsAccountedFor(calls[..last]);
      EnqueueAccounts(LogAfter(calls[..last]), calls[last]);
      assert Records(calls) == Records(calls[..last]) + [calls[last].record];
    } else {
      NothingIsBounded();
    }
  }

  ghost predicate Bounded(log: SendLog) {
    && |EncodeAll(log.pending)| <= SEND_BUFFER_SIZE
    && forall b :: b in log.batches ==> b.records != [] && |EncodeAll(b.records)| <= SEND_BUFFER_SIZE
  }

  lemma NothingIsBounded()
    ensures Bounded(SendLog([], []))
  {
  }

  lemma EnqueueAccounts(log: SendLog, call: Enqueuing)
    requires Fits(call.record) && Bounded(log)
    ensures var next := log.Enqueue(call.record, call.delivers);
      && Bounded(next)
      && BatchRecords(next.batches, false) + next.pending ==
         BatchRecords(log.batches, false) + log.pending + [call.record]
  {
    hide EncodeAll, BatchRecords;
    EncodeSnoc(log.pending, call.record);
    EncodeSnoc([], call.record);
    EncodeNothing();
    assert [] + [call.record] == [call.record];
    BatchSnoc(log.batches, Batch(log.pending, call.delivers), false);
    Regroup(BatchRecords(log.batches, false), log.pending, [call.record]);
  }

  lemma EncodeNothing()
    ensures EncodeAll([]) == []
  {
  }

  // ---------- The GUI side ----------

  /** A TCP stream: the bytes still to come, already cut into the pieces in which recv will see them. */
  class Socket {
    var chunks: seq<seq<Byte>>

    constructor (chunks: seq<seq<Byte>>)
      ensures this.chunks == chunks
    {
      this.chunks := chunks;
    }

    ghost function Remaining(): seq<Byte>
      reads this
    {
      Flatten(chunks)
    }

    /** At most `max` bytes of the next piece; nothing only at the end of the stream. */
    method Recv(max: nat) returns (chunk: seq<Byte>)
      requires max > 0
      modifies this
      ensures |chunk| <= max && chunk + Remaining() == old(Remaining())
      ensures chunk == [] ==> Remaining() == []
    {
      while chunks != [] && chunks[0] == []
        invariant Remaining() == old(Remaining())
        decreases |chunks|
      {
        chunks := chunks[1..];
      }
      if chunks == [] {
        chunk := [];
      } else if |chunks[0]| <= max {
        chunk := chunks[0];
        chunks := chunks[1..];
      } else {
        chunk := chunks[0][..max];
        ghost var rest := chunks[1..];
        chunks := [chunks[0][max..]] + chunks[1..];
        assert chunks[1..] == rest;
      }
    }

    /** inrecv_exact and outrecv_exact: independent of how the stream is cut. */
    method RecvExact(size: nat) returns (r: Option<seq<Byte>>)
      modifies this
      ensures var all := old(Remaining());
        if |all| >= size then r == Some(all[..size]) && Remaining() == all[size..]
        else r == None && Remaining() == []
    {
      var buf: seq<Byte> := [];
      while |buf| < size
        invariant |buf| <= size && buf + Remaining() == old(Remaining())
      {
        var chunk := Recv(size - |buf|);
        if chunk == [] {
          return None;
        }
        buf := buf + chunk;
      }
      return Some(buf);
    }
  }

  /** What a byte stream means to the reader: the samples it yields and how many unknown tags it reports. */
  datatype Decoded = Decoded(samples: seq<Sample>, unknown: nat)

  function Decode(tag: seq<Byte>, bytes: seq<Byte>): Decoded {
    if |bytes| < HEADER_SIZE then Decoded([], 0)
    else
      var rest := bytes[HEADER_SIZE..];
      if bytes[..HEADER_SIZE] != tag then
        var d := Decode(tag, rest);
        d.(unknown := d.unknown + 1)
      else if |rest| < DATA_SIZE then Decoded([], 0)
      else
        var d := Decode(tag, rest[DATA_SIZE..]);
        d.(samples := FromBuffer(rest[..DATA_SIZE]) + d.samples)
  }

  /** read_input_audio_samples and read_output_audio_samples with the deque they fill. */
  class SampleReader {
    const tag: seq<Byte>
    var waveform: seq<Sample>
    var warnings: nat
    ghost var received: seq<Sample>

    ghost predicate Valid()
      reads this
    {
      waveform == Latest(received, MAX_SAMPLES)
    }

    constructor (tag: seq<Byte>)
      ensures Valid() && this.tag == tag && received == [] && warnings == 0
    {
      this.tag := tag;
      waveform, warnings, received := [], 0, [];
    }

    /** The reading thread, until the stream ends. */
    method Run(socket: Socket)
      requires Valid()
      modifies this, socket
      ensures Valid()
      ensures var d := Decode(tag, old(socket.Remaining()));
        received == old(received) + d.samples && warnings == old(warnings) + d.unknown
    {
      ghost var all := socket.Remaining();
      while true
        invariant Valid()
        invariant received + Decode(tag, socket.Remaining()).samples == old(received) + Decode(tag, all).samples
        invariant warnings + Decode(tag, socket.Remaining()).unknown == old(warnings) + Decode(tag, all).unknown
        decreases |socket.Remaining()|
      {
        ghost var now := socket.Remaining();
        var header := socket.RecvExact(HEADER_SIZE);
        if header.None? {
          break;
        }
        if header.value != tag {
          warnings := warnings + 1;
          continue;
        }
        var data := socket.RecvExact(DATA_SIZE);
        if data.None? {
          break;
        }
        var samples := FromBuffer(data.value);
        Regroup(received, samples, Decode(tag, socket.Remaining()).samples);
        LatestAppend(received, samples, MAX_SAMPLES);
        waveform := Latest(waveform + samples, MAX_SAMPLES);
        received := received + samples;
      }
    }

    method Clear()
      modifies this
      ensures Valid() && received == [] && warnings == old(warnings)
    {
      waveform, received := [], [];
    }

    /** What compute_spectrum transforms: nothing before 1024 samples have come in, then always the last 1024. */
    method SpectrumInput() returns (r: Option<seq<Sample>>)
      requires Valid()
      ensures r == if |received| < 1024 then None else Some(received[|received| - 1024..])
    {
      if |waveform| < FFT_SIZE {
        return None;
      }
      return Some(waveform[|waveform| - FFT_SIZE..]);
    }
  }

  // ---------- End to end ----------

  ghost predicate WellFormed(tag: seq<Byte>, r: Record) {
    r.tag == tag && |tag| == HEADER_SIZE && |r.samples| == NUM_FRAMES
  }

  /** One channel of one frame of the device makes a record that either stream can carry. */
  lemma DeviceFrameIsWellFormed(tag: seq<Byte>, data: seq<Sample>, ch: nat)
    requires tag == INPT || tag == OUTP
    requires |data| == NUM_FRAMES * CHANNELS && ch < CHANNELS
    ensures var r := Record(tag, Channel(data, NUM_FRAMES, CHANNELS, ch));
      WellFormed(tag, r) && Fits(r) && |Encode(r)| == RECORD_SIZE
  {
  }

  // ---------- The batches of the device ----------

  /** As many records of the device as the send buffer holds. */
  const BATCH: nat := 31

  lemma BatchFillsBuffer(records: nat)
    ensures RECORD_SIZE * records <= SEND_BUFFER_SIZE <==> records <= BATCH
  {
  }

  lemma {:induction false} EncodedSize(tag: seq<Byte>, rs: seq<Record>)
    requires forall r :: r in rs ==> WellFormed(tag, r)
    ensures |EncodeAll(rs)| == RECORD_SIZE * |rs|
  {
    hide Encode;
    if rs != [] {
      assert WellFormed(tag, rs[0]) && |Encode(rs[0])| == RECORD_SIZE;
      EncodedSize(tag, rs[1..]);
    }
  }

  ghost predicate AllWellFormed(tag: seq<Byte>, calls: seq<Enqueuing>) {
    forall c :: c in calls ==> WellFormed(tag, c.record)
  }

  /** k closed batches of 31 records each, every one closed by the call after them, and the rest waiting. */
  ghost predicate InBatches(log: SendLog, calls: seq<Enqueuing>, k: nat) {
    var rs := Records(calls);
    && BATCH * k < |calls| <= BATCH * k + BATCH
    && |log.batches| == k && log.pending == rs[BATCH * k..]
    && forall i :: 0 <= i < k ==>
      log.batches[i] == Batch(rs[BATCH * i..BATCH * i + BATCH], calls[BATCH * i + BATCH].delivers)
  }

  lemma RecordFits(tag: seq<Byte>, calls: seq<Enqueuing>, k: nat, r: Record)
    requires AllWellFormed(tag, calls) && WellFormed(tag, r) && BATCH * k <= |calls|
    ensures var pending := Records(calls)[BATCH * k..];
      |EncodeAll(pending)| + |Encode(r)| > SEND_BUFFER_SIZE <==> |pending| >= BATCH
  {
    hide EncodeAll, Encode;
    var pending := Records(calls)[BATCH * k..];
    forall q | q in pending
      ensures WellFormed(tag, q)
    {
      var i :| 0 <= i < |calls| && Records(calls)[i] == q;
      assert calls[i] in calls;
    }
    EncodedSize(tag, pending);
    assert |Encode(r)| == RECORD_SIZE;
    BatchFillsBuffer(|pending| + 1);
  }

  lemma RecordsOfPrefix(calls: seq<Enqueuing>, c: Enqueuing)
    ensures Records(calls + [c]) == Records(calls) + [c.record]
  {
  }

  lemma NextInBatches(tag: seq<Byte>, calls: seq<Enqueuing>, k: nat, log: SendLog, c: Enqueuing)
    requires AllWellFormed(tag, calls) && WellFormed(tag, c.record) && InBatches(log, calls, k)
    ensures InBatches(log.Enqueue(c.record, c.delivers), calls + [c], if |log.pending| < BATCH then k else k + 1)
  {
    hide EncodeAll, Encode, Records, WellFormed;
    RecordsOfPrefix(calls, c);
    RecordFits(tag, calls, k, c.record);
    var rs, all := Records(calls), Records(calls + [c]);
    forall i | 0 <= i < k
      ensures all[BATCH * i..BATCH * i + BATCH] == rs[BATCH * i..BATCH * i + BATCH]
    {
    }
    if |log.pending| == BATCH {
      assert all[BATCH * k..BATCH * k + BATCH] == log.pending;
      assert [] + [c.record] == all[BATCH * (k + 1)..];
    } else {
      assert log.pending + [c.record] == all[BATCH * k..];
    }
  }

  lemma {:induction false} FindBatches(tag: seq<Byte>, calls: seq<Enqueuing>) returns (k: nat)
    requires calls != [] && AllWellFormed(tag, calls)
    ensures InBatches(LogAfter(calls), calls, k)
  {
    hide InBatches, WellFormed;
    var last := |calls| - 1;
    assert calls[last] in calls && forall c :: c in calls[..last] ==> c in calls;
    if last == 0 {
      FirstInBatches(tag, calls);
      k := 0;
    } else {
      k := FindBatches(tag, calls[..last]);
      NextInBatches(tag, calls[..last], k, LogAfter(calls[..last]), calls[last]);
      assert calls[..last] + [calls[last]] == calls;
      k := if |LogAfter(calls[..last]).pending| < BATCH then k else k + 1;
    }
  }

  lemma {:induction false} FirstInBatches(tag: seq<Byte>, calls: seq<Enqueuing>)
    requires |calls| == 1 && WellFormed(tag, calls[0].record)
    ensures InBatches(LogAfter(calls), calls, 0)
  {
    assert LogAfter(calls[..0]) == SendLog([], []);
    EncodeNothing();
    assert Records(calls) == [] + [calls[0].record];
  }

  /**
   * Every batch the device closes holds exactly 31 frames; batch i has frames 31 i to 31 i + 30 and is closed, for good
   * or ill, by the call after them. The frames since then, at least one, wait.
   */
  lemma DeviceBatches(tag: seq<Byte>, calls: seq<Enqueuing>)
    requires calls != [] && AllWellFormed(tag, calls)
    ensures InBatches(LogAfter(calls), calls, (|calls| - 1) / BATCH)
  {
    var k := FindBatches(tag, calls);
    DivMod(BATCH, |calls| - 1, k, |calls| - 1 - BATCH * k);
  }

  lemma {:induction false} AllDelivered(batches: seq<Batch>)
    requires forall b :: b in batches ==> b.delivered
    ensures BatchRecords(batches, true) == BatchRecords(batches, false)
  {
    if batches != [] {
      assert batches[0] in batches;
      AllDelivered(batches[1..]);
    }
  }

  lemma BatchesDelivered(log: SendLog, calls: seq<Enqueuing>, k: nat)
    requires InBatches(log, calls, k) && forall c :: c in calls ==> c.delivers
    ensures forall b :: b in log.batches ==> b.delivered
  {
    hide Records;
    forall i | 0 <= i < k
      ensures log.batches[i].delivered
    {
      assert calls[BATCH * i + BATCH] in calls;
    }
  }

  /** Nothing flushes at the end of the file: even if every send succeeds, the last 1 to 31 frames are never sent. */
  lemma LastFramesAreNotSent(tag: seq<Byte>, calls: seq<Enqueuing>)
    requires calls != [] && AllWellFormed(tag, calls) && forall c :: c in calls ==> c.delivers
    ensures BATCH * ((|calls| - 1) / BATCH) < |calls|
    ensures BatchRecords(LogAfter(calls).batches, true) == Records(calls)[..BATCH * ((|calls| - 1) / BATCH)]
  {
    hide Encode, EncodeAll, LogAfter;
    AllFit(tag, calls);
    EveryRecordIsAccountedFor(calls);
    DeviceBatches(tag, calls);
    var log, k := LogAfter(calls), (|calls| - 1) / BATCH;
    BatchesDelivered(log, calls, k);
    AllDelivered(log.batches);
    var sent := BatchRecords(log.batches, false);
    assert sent + log.pending == Records(calls);
    assert sent == (sent + log.pending)[..|sent|];
  }

  lemma AllFit(tag: seq<Byte>, calls: seq<Enqueuing>)
    requires AllWellFormed(tag, calls)
    ensures forall c :: c in calls ==> Fits(c.record)
  {
    hide Encode;
    forall c | c in calls
      ensures Fits(c.record)
    {
      assert WellFormed(tag, c.record);
    }
  }

  function Samples(rs: seq<Record>): seq<Sample> {
    if rs == [] then [] else rs[0].samples + Samples(rs[1..])
  }

  /** How many whole records fit in `size` bytes. */
  function WholeRecords(size: nat): (k: nat)
    ensures k * RECORD_SIZE <= size < (k + 1) * RECORD_SIZE
  {
    if size < RECORD_SIZE then 0 else 1 + WholeRecords(size - RECORD_SIZE)
  }

  lemma DecodeWholeRecord(tag: seq<Byte>, r: Record, rest: seq<Byte>)
    requires WellFormed(tag, r)
    ensures var d := Decode(tag, rest); Decode(tag, Encode(r) + rest) == Decoded(r.samples + d.samples, d.unknown)
  {
    var bytes := Encode(r) + rest;
    assert bytes[..HEADER_SIZE] == tag;
    assert bytes[HEADER_SIZE..][..DATA_SIZE] == SampleBytes(r.samples);
    assert bytes[HEADER_SIZE..][DATA_SIZE..] == rest;
    SamplesRoundTrip(r.samples);
  }

  lemma DecodePartialRecord(tag: seq<Byte>, r: Record, bytes: seq<Byte>)
    requires WellFormed(tag, r) && bytes < Encode(r)
    ensures Decode(tag, bytes) == Decoded([], 0)
  {
    if |bytes| >= HEADER_SIZE {
      assert bytes[..HEADER_SIZE] == Encode(r)[..HEADER_SIZE] == tag;
    }
  }

  lemma SkipWord(tag: seq<Byte>, word: seq<Byte>, rest: seq<Byte>)
    requires |word| == 4 && word != tag
    ensures var d := Decode(tag, rest); Decode(tag, word + rest) == Decoded(d.samples, d.unknown + 1)
  {
    hide FromBuffer;
    assert (word + rest)[..4] == word && (word + rest)[4..] == rest;
  }

  /** Whole words that are not the tag are each reported once and skipped; what follows them is read as ever. */
  lemma {:induction false} UnknownWordsAreSkipped(tag: seq<Byte>, words: seq<seq<Byte>>, rest: seq<Byte>)
    requires forall w :: w in words ==> |w| == 4 && w != tag
    ensures var d := Decode(tag, rest);
      Decode(tag, Flatten(words) + rest) == Decoded(d.samples, d.unknown + |words|)
  {
    hide Decode;
    if words == [] {
      assert [] + rest == rest;
    } else {
      assert words[0] in words && forall w :: w in words[1..] ==> w in words;
      UnknownWordsAreSkipped(tag, words[1..], rest);
      Regroup(words[0], Flatten(words[1..]), rest);
      SkipWord(tag, words[0], Flatten(words[1..]) + rest);
    }
  }

  lemma DecodeNothing(tag: seq<Byte>)
    ensures Decode(tag, []) == Decoded([], 0)
  {
  }

  /** Decoding any prefix of encoded records yields the samples of its whole records, and no unknown tag. */
  lemma {:induction false} DecodeRecords(tag: seq<Byte>, rs: seq<Record>, bytes: seq<Byte>)
    requires forall r :: r in rs ==> WellFormed(tag, r)
    requires bytes <= EncodeAll(rs)
    ensures WholeRecords(|bytes|) <= |rs|
    ensures Decode(tag, bytes) == Decoded(Samples(rs[..WholeRecords(|bytes|)]), 0)
  {
    hide Decode, Encode, SampleBytes;
    if rs == [] {
      DecodeNothing(tag);
    } else {
      var first, others := Encode(rs[0]), EncodeAll(rs[1..]);
      assert WellFormed(tag, rs[0]) && |first| == RECORD_SIZE;
      assert EncodeAll(rs) == first + others;
      if |bytes| < RECORD_SIZE {
        assert bytes == first[..|bytes|];
        DecodePartialRecord(tag, rs[0], bytes);
      } else {
        var rest := bytes[RECORD_SIZE..];
        assert bytes == first + rest;
        assert rest <= others by {
          assert others == EncodeAll(rs)[RECORD_SIZE..];
        }
        DecodeRecords(tag, rs[1..], rest);
        DecodeWholeRecord(tag, rs[0], rest);
        var k := WholeRecords(|rest|);
        assert rs[..k + 1][1..] == rs[1..][..k];
      }
    }
  }

  lemma {:induction false} BatchRecordsAreEnqueued(batches: seq<Batch>, tag: seq<Byte>)
    requires forall r :: r in BatchRecords(batches, false) ==> WellFormed(tag, r)
    ensures forall r :: r in BatchRecords(batches, true) ==> WellFormed(tag, r)
  {
    if batches != [] {
      assert forall r :: r in batches[0].records ==> r in BatchRecords(batches, false);
      assert forall r :: r in BatchRecords(batches[1..], false) ==> r in BatchRecords(batches, false);
      BatchRecordsAreEnqueued(batches[1..], tag);
    }
  }

  /**
   * End to end: for every sequence of enqueued frames, every choice of batches delivered or dropped, every point at
   * which the stream stops and every way recv cuts it, the decoded samples are those of the first whole delivered
   * records, in order, and no tag is ever reported unknown. Samples are delivered at most once and never reordered.
   */
  lemma AudioEndToEnd(tag: seq<Byte>, calls: seq<Enqueuing>, chunks: seq<seq<Byte>>)
    requires forall c :: c in calls ==> WellFormed(tag, c.record)
    requires Flatten(chunks) <= DeliveredBytes(LogAfter(calls))
    ensures var delivered := BatchRecords(LogAfter(calls).batches, true);
      var k := WholeRecords(|Flatten(chunks)|);
      k <= |delivered| && Decode(tag, Flatten(chunks)) == Decoded(Samples(delivered[..k]), 0)
  {
    forall c | c in calls
      ensures Fits(c.record)
    {
      assert WellFormed(tag, c.record);
    }
    EveryRecordIsAccountedFor(calls);
    var log := LogAfter(calls);
    assert Bounded(log);
    forall r | r in BatchRecords(log.batches, false)
      ensures WellFormed(tag, r)
    {
      assert r in Records(calls);
    }
    BatchRecordsAreEnqueued(log.batches, tag);
    DecodeRecords(tag, BatchRecords(log.batches, true), Flatten(chunks));
  }

  /** The reader itself on the bytes a send buffer has put on the wire: its window is the latest of the samples sent. */
  method Listen(reader: SampleReader, socket: Socket, sender: SendBuffer, ghost calls: seq<Enqueuing>)
      returns (ghost k: nat)
    requires sender.Valid() && sender.log == LogAfter(calls)
    requires forall c :: c in calls ==> WellFormed(reader.tag, c.record)
    requires socket.Remaining() <= sender.wire
    requires reader.Valid() && reader.received == []
    modifies reader, socket
    ensures var delivered := BatchRecords(LogAfter(calls).batches, true);
      && k == WholeRecords(|old(socket.Remaining())|) <= |delivered|
      && reader.received == Samples(delivered[..k])
      && reader.waveform == Latest(Samples(delivered[..k]), 2048)
    ensures reader.warnings == old(reader.warnings)
  {
    AudioEndToEnd(reader.tag, calls, socket.chunks);
    k := WholeRecords(|socket.Remaining()|);
    reader.Run(socket);
  }
}
