/** The log queue of the device (host_interface.c): a ring without a full check, one producer, one writer thread. */
module LogRing {
  import opened Common

  const LOG_QUEUE_SIZE: nat := 16384
  const SLOT_SIZE: nat := 1024
  const MSG_SIZE: nat := 256

  /** What the writer prints for an enqueued message: the message went through a slot and a local buffer. */
  function Printed(msg: string): string {
    CopyInto(CopyInto(msg, SLOT_SIZE), MSG_SIZE)
  }

  /** The smaller of the two buffers decides. */
  lemma PrintedIs(msg: string)
    ensures Printed(msg) == if |msg| < 256 then msg else msg[..255]
  {
  }

  datatype Ring = Ring(slots: seq<string>, head: nat, tail: nat) {
    predicate Valid() {
      |slots| > 0 && head < |slots| && tail < |slots|
    }

    function Store(msg: string): Ring
      requires Valid()
    {
      this.(slots := slots[tail := CopyInto(msg, SLOT_SIZE)])
    }

    function AdvanceTail(): Ring
      requires Valid()
    {
      this.(tail := (tail + 1) % |slots|)
    }

    function Front(): string
      requires Valid()
    {
      CopyInto(slots[head], MSG_SIZE)
    }

    function AdvanceHead(): Ring
      requires Valid()
    {
      this.(head := (head + 1) % |slots|)
    }
  }

  // ---------- The two threads, one step per statement ----------

  datatype Owner = Free | Producer | Writer

  datatype ProducerPc = Idle | Locking(msg: string) | Storing(msg: string) | AdvancingTail | Signalling | Unlocking

  datatype WriterPc =
    | Lock
    | Test
    | Waiting
    | Copy
    | AdvanceHead(text: string)
    | Unlock(text: string)
    | Print(text: string)

  /** One dequeue: the message it delivered and how many messages had been enqueued by then. */
  datatype Read = Read(index: nat, at: nat)

  /**
   * `wake` is a signal delivered to the waiting writer and not yet acted on. The last three fields only record the
   * past: everything ever stored, the serial number of the message last stored in each slot, and one entry per dequeue.
   */
  datatype State = State(
    ring: Ring, owner: Owner, producer: ProducerPc, writer: WriterPc, wake: bool, out: seq<string>,
    hist: seq<string>, serial: seq<nat>, taken: seq<Read>)

  /** Every scheduling choice; a wake-up may be spurious. */
  datatype Step =
    | Call(msg: string) | ProducerLock | Store | MoveTail | Signal | ProducerUnlock
    | WriterLock | TestQueue | Wake | CopyFront | MoveHead | WriterUnlock | PrintLine

  predicate Enabled(s: State, step: Step) {
    match step
    case Call(_) => s.producer.Idle?
    case ProducerLock => s.producer.Locking? && s.owner.Free?
    case Store => s.producer.Storing?
    case MoveTail => s.producer.AdvancingTail?
    case Signal => s.producer.Signalling?
    case ProducerUnlock => s.producer.Unlocking?
    case WriterLock => s.writer.Lock? && s.owner.Free?
    case TestQueue => s.writer.Test?
    case Wake => s.writer.Waiting? && s.owner.Free?
    case CopyFront => s.writer.Copy?
    case MoveHead => s.writer.AdvanceHead?
    case WriterUnlock => s.writer.Unlock?
    case PrintLine => s.writer.Print?
  }

  function Do(s: State, step: Step): State
    requires s.ring.Valid() && |s.serial| == |s.ring.slots| && Enabled(s, step)
  {
    match step
    case Call(msg) => s.(producer := Locking(msg))
    case ProducerLock => s.(owner := Producer, producer := Storing(s.producer.msg))
    case Store =>
      s.(ring := s.ring.Store(s.producer.msg), producer := AdvancingTail,
         hist := s.hist + [s.producer.msg], serial := s.serial[s.ring.tail := |s.hist|])
    case MoveTail => s.(ring := s.ring.AdvanceTail(), producer := Signalling)
    case Signal => s.(wake := s.wake || s.writer.Waiting?, producer := Unlocking)
    case ProducerUnlock => s.(owner := Free, producer := Idle)
    case WriterLock => s.(owner := Writer, writer := Test)
    case TestQueue =>
      if s.ring.head == s.ring.tail then s.(owner := Free, writer := Waiting, wake := false)
      else s.(writer := Copy)
    case Wake => s.(owner := Writer, writer := Test, wake := false)
    case CopyFront =>
      s.(writer := AdvanceHead(s.ring.Front()), taken := s.taken + [Read(s.serial[s.ring.head], |s.hist|)])
    case MoveHead => s.(ring := s.ring.AdvanceHead(), writer := Unlock(s.writer.text))
    case WriterUnlock => s.(owner := Free, writer := Print(s.writer.text))
    case PrintLine => s.(out := s.out + [s.writer.text], writer := Lock)
  }

  /** Zero-filled globals, both threads about to start. */
  function Initial(n: nat): State {
    State(Ring(seq(n, _ => ""), 0, 0), Free, Idle, Lock, false, [], [], seq(n, _ => 0), [])
  }

  /** The state after `steps`, or None when the schedule asks for a step that cannot be taken. */
  function Exec(n: nat, steps: seq<Step>): (r: Option<State>)
    requires n > 0
    ensures r.Some? ==> r.value.ring.Valid() && |r.value.ring.slots| == |r.value.serial| == n
  {
    if steps == [] then Some(Initial(n))
    else
      var last := |steps| - 1;
      var before := Exec(n, steps[..last]);
      if before.Some? && Enabled(before.value, steps[last]) then Some(Do(before.value, steps[last])) else None
  }

  // ---------- The invariant ----------

  /** The message that slot d mod n holds once e > d messages have been stored in a ring of n slots. */
  function SlotOwner(n: nat, d: nat, e: nat): nat
    requires n > 0 && d < e
  {
    d + n * ((e - 1 - d) / n)
  }

  lemma WindowIsInjective(n: nat, a: nat, b: nat)
    requires n > 0 && a < b < a + n
    ensures a % n != b % n
  {
    var k := b / n - a / n;
    Distribute(n, b / n, a / n);
    Multiples(n, k);
    assert n * k == (b - b % n) - (a - a % n);
  }

  /** SlotOwner is the one message among the last n whose number is d modulo n. */
  lemma SlotOwnerIsUnique(n: nat, d: nat, e: nat, k: nat)
    requires n > 0 && d < e
    ensures e - n <= SlotOwner(n, d, e) < e && SlotOwner(n, d, e) % n == d % n
    ensures e - n <= k < e && k % n == d % n ==> k == SlotOwner(n, d, e)
  {
    var m := SlotOwner(n, d, e);
    AddMultiple(n, d, (e - 1 - d) / n);
    assert e - 1 - m == (e - 1 - d) % n;
    if e - n <= k < m {
      WindowIsInjective(n, k, m);
    } else if m < k < e {
      WindowIsInjective(n, m, k);
    }
  }

  lemma NextSlot(n: nat, k: nat)
    requires n > 0
    ensures (k % n + 1) % n == (k + 1) % n
  {
    var r := k % n;
    assert k + 1 == (r + 1) + n * (k / n);
    AddMultiple(n, r + 1, k / n);
  }

  // ---------- The queue itself ----------

  /**
   * The globals log_queue, log_head and log_tail, with the two critical sections as methods. The ghost fields say what
   * the ring stands for: everything ever stored, and how many messages have been taken.
   */
  class LogQueue {
    const slots: array<string>
    var head: nat
    var tail: nat
    ghost var stored: seq<string>
    ghost var dequeued: nat

    ghost predicate Valid()
      reads this, slots
    {
      && slots.Length > 0
      && dequeued <= |stored|
      && head == dequeued % slots.Length
      && tail == |stored| % slots.Length
      && forall k {:trigger stored[k]} :: 0 <= k < |stored| && |stored| - slots.Length <= k ==>
        slots[k % slots.Length] == CopyInto(stored[k], SLOT_SIZE)
    }

    ghost function Value(): (r: Ring)
      requires Valid()
      reads this, slots
      ensures r.Valid()
    {
      Ring(slots[..], head, tail)
    }

    constructor ()
      ensures Valid() && fresh(slots) && slots.Length == 16384
      ensures stored == [] && dequeued == 0
    {
      slots := new string[LOG_QUEUE_SIZE];
      head, tail := 0, 0;
      stored, dequeued := [], 0;
    }

    /** The critical section of enqueue_log. There is no full check: tail may lap head. */
    method Enqueue(msg: string)
      requires Valid()
      modifies this, slots
      ensures Valid() && stored == old(stored) + [msg] && dequeued == old(dequeued)
      ensures Value() == old(Value()).Store(msg).AdvanceTail()
    {
      slots[tail] := CopyInto(msg, SLOT_SIZE);
      NextSlot(slots.Length, |stored|);
      tail := (tail + 1) % slots.Length;
      forall k | 0 <= k < |stored| && |stored| + 1 - slots.Length <= k
        ensures k % slots.Length != |stored| % slots.Length
      {
        WindowIsInjective(slots.Length, k, |stored|);
      }
      stored := stored + [msg];
    }

    /**
     * The critical section of log_writer once the wait loop has ended: the text comes from the one message among the
     * last slots.Length stored whose number is congruent to the number of messages taken.
     */
    method Dequeue() returns (msg: string)
      requires Valid() && head != tail
      modifies this
      ensures Valid() && stored == old(stored) && dequeued == old(dequeued) + 1
      ensures old(dequeued) < |stored|
      ensures var k := SlotOwner(slots.Length, old(dequeued), |stored|); k < |stored| && msg == Printed(stored[k])
      ensures msg == old(Value()).Front() && Value() == old(Value()).AdvanceHead()
    {
      SlotOwnerIsUnique(slots.Length, dequeued, |stored|, 0);
      assert slots[SlotOwner(slots.Length, dequeued, |stored|) % slots.Length] ==
        CopyInto(stored[SlotOwner(slots.Length, dequeued, |stored|)], SLOT_SIZE);
      msg := CopyInto(slots[head], MSG_SIZE);
      NextSlot(slots.Length, dequeued);
      head := (head + 1) % slots.Length;
      dequeued := dequeued + 1;
    }
  }

  ghost predicate WriterOwns(w: WriterPc) {
    w.Test? || w.Copy? || w.AdvanceHead? || w.Unlock?
  }

  ghost predicate ProducerOwns(p: ProducerPc) {
    p.Storing? || p.AdvancingTail? || p.Signalling? || p.Unlocking?
  }

  /** Mutual exclusion, and the two indices as functions of the numbers of messages stored and taken. */
  ghost predicate Indices(n: nat, s: State)
    requires n > 0
  {
    && |s.ring.slots| == |s.serial| == n
    && (s.owner.Writer? <==> WriterOwns(s.writer))
    && (s.owner.Producer? <==> ProducerOwns(s.producer))
    && (s.producer.AdvancingTail? ==> |s.hist| > 0)
    && s.ring.tail == (if s.producer.AdvancingTail? then |s.hist| - 1 else |s.hist|) % n
    && (s.writer.AdvanceHead? ==> |s.taken| > 0)
    && s.ring.head == (if s.writer.AdvanceHead? then |s.taken| - 1 else |s.taken|) % n
    && |s.taken| <= |s.hist|
    && (s.writer.Copy? ==> s.ring.head != s.ring.tail)
  }

  /** Every slot holds the last message stored in it. */
  ghost predicate Contents(n: nat, s: State)
    requires n > 0 && |s.ring.slots| == |s.serial| == n
  {
    forall k :: 0 <= k < |s.hist| && |s.hist| - n <= k ==>
      s.serial[k % n] == k && s.ring.slots[k % n] == CopyInto(s.hist[k], SLOT_SIZE)
  }

  /** The dequeue number i happened with a queue that looked non-empty, and delivered the owner of its slot. */
  ghost predicate GoodRead(n: nat, i: nat, r: Read, e: nat)
    requires n > 0
  {
    i < r.at <= e && r.at % n != i % n && r.index == SlotOwner(n, i, r.at)
  }

  ghost predicate Past(n: nat, s: State)
    requires n > 0
  {
    && (forall i :: 0 <= i < |s.taken| ==> GoodRead(n, i, s.taken[i], |s.hist|))
    && (forall i, j :: 0 <= i < j < |s.taken| ==> s.taken[i].at <= s.taken[j].at)
  }

  /** The text the writer holds between taking a message and printing it. */
  function InFlight(w: WriterPc): seq<string> {
    if w.AdvanceHead? || w.Unlock? || w.Print? then [w.text] else []
  }

  ghost predicate Output(s: State) {
    var all := s.out + InFlight(s.writer);
    && |all| == |s.taken|
    && forall i :: 0 <= i < |all| ==> s.taken[i].index < |s.hist| && all[i] == Printed(s.hist[s.taken[i].index])
  }

  /**
   * Only a blocked writer has a pending wake-up, and without one it sees an empty queue, except while the producer is
   * about to signal it. A ring of one slot always looks empty.
   */
  ghost predicate NoLostWakeup(n: nat, s: State) {
    && (s.wake ==> s.writer.Waiting?)
    && (s.writer.Waiting? && !s.wake ==> (s.ring.head == s.ring.tail <==> n == 1 || !s.producer.Signalling?))
  }

  ghost predicate Inv(n: nat, s: State)
    requires n > 0
  {
    Indices(n, s) && Contents(n, s) && Past(n, s) && Output(s) && NoLostWakeup(n, s)
  }

  lemma StoreKeepsInv(n: nat, s: State)
    requires n > 0 && Inv(n, s) && s.producer.Storing? && s.ring.Valid()
    ensures Inv(n, Do(s, Step.Store))
  {
    var t := Do(s, Step.Store);
    var e := |s.hist|;
    forall k | 0 <= k < |t.hist| && |t.hist| - n <= k
      ensures t.serial[k % n] == k && t.ring.slots[k % n] == CopyInto(t.hist[k], SLOT_SIZE)
    {
      if k < e { WindowIsInjective(n, k, e); }
    }
  }

  lemma CopyKeepsInv(n: nat, s: State)
    requires n > 0 && Inv(n, s) && s.writer.Copy? && s.ring.Valid()
    ensures Inv(n, Do(s, CopyFront))
  {
    var d, e := |s.taken|, |s.hist|;
    var k := SlotOwner(n, d, e);
    SlotOwnerIsUnique(n, d, e, k);
    assert s.serial[k % n] == k;
  }

  lemma ProducerKeepsInv(n: nat, s: State, step: Step)
    requires n > 0 && Inv(n, s) && s.ring.Valid() && Enabled(s, step)
    requires step.Call? || step.ProducerLock? || step.MoveTail? || step.Signal? || step.ProducerUnlock?
    ensures Inv(n, Do(s, step))
  {
    hide SlotOwner, CopyInto, Printed;
    if step.MoveTail? { NextSlot(n, |s.hist| - 1); }
    assert Indices(n, Do(s, step));
    assert Contents(n, Do(s, step));
    assert Past(n, Do(s, step));
    assert Output(Do(s, step));
  }

  lemma WriterKeepsInv(n: nat, s: State, step: Step)
    requires n > 0 && Inv(n, s) && s.ring.Valid() && Enabled(s, step)
    requires step.WriterLock? || step.TestQueue? || step.Wake? || step.WriterUnlock? || step.PrintLine?
    ensures Inv(n, Do(s, step))
  {
    hide SlotOwner, CopyInto, Printed;
    assert Indices(n, Do(s, step));
    assert Contents(n, Do(s, step));
    assert Past(n, Do(s, step));
    assert Output(Do(s, step));
  }

  lemma MoveHeadKeepsInv(n: nat, s: State)
    requires n > 0 && Inv(n, s) && s.ring.Valid() && s.writer.AdvanceHead?
    ensures Inv(n, Do(s, MoveHead))
  {
    hide SlotOwner, CopyInto, Printed;
    NextSlot(n, |s.taken| - 1);
    assert Indices(n, Do(s, MoveHead));
    assert Contents(n, Do(s, MoveHead));
    assert Past(n, Do(s, MoveHead));
    assert Output(Do(s, MoveHead));
  }

  lemma StepKeepsInv(n: nat, s: State, step: Step)
    requires n > 0 && Inv(n, s) && s.ring.Valid() && Enabled(s, step)
    ensures Inv(n, Do(s, step))
  {
    match step
    case Store => StoreKeepsInv(n, s);
    case CopyFront => CopyKeepsInv(n, s);
    case MoveHead => MoveHeadKeepsInv(n, s);
    case Call(_) => ProducerKeepsInv(n, s, step);
    case ProducerLock => ProducerKeepsInv(n, s, step);
    case MoveTail => ProducerKeepsInv(n, s, step);
    case Signal => ProducerKeepsInv(n, s, step);
    case ProducerUnlock => ProducerKeepsInv(n, s, step);
    case _ => WriterKeepsInv(n, s, step);
  }

  lemma {:induction false} Invariant(n: nat, steps: seq<Step>)
    requires n > 0 && Exec(n, steps).Some?
    ensures Inv(n, Exec(n, steps).value)
  {
    if steps != [] {
      var last := |steps| - 1;
      Invariant(n, steps[..last]);
      StepKeepsInv(n, Exec(n, steps[..last]).value, steps[last]);
    }
  }

  // ---------- Order, freshness and loss over whole runs ----------

  lemma NextReadIsLater(n: nat, d: nat, e: nat, later: nat)
    requires n > 0 && d < e <= later && d + 1 < later
    requires later % n != (d + 1) % n
    ensures SlotOwner(n, d, e) < SlotOwner(n, d + 1, later)
  {
    var m := SlotOwner(n, d, e);
    SlotOwnerIsUnique(n, d, e, m);
    NextSlot(n, m);
    NextSlot(n, d);
    SlotOwnerIsUnique(n, d + 1, later, m + 1);
  }

  lemma {:induction false} ReadsAscend(n: nat, s: State, i: nat, j: nat)
    requires n > 0 && Past(n, s) && i < j < |s.taken|
    ensures s.taken[i].index < s.taken[j].index
    decreases j - i
  {
    assert GoodRead(n, j - 1, s.taken[j - 1], |s.hist|) && GoodRead(n, j, s.taken[j], |s.hist|);
    NextReadIsLater(n, j - 1, s.taken[j - 1].at, s.taken[j].at);
    if i < j - 1 { ReadsAscend(n, s, i, j - 1); }
  }

  /**
   * Under every schedule and any overflow, the writer delivers a strictly increasing subsequence of the stored
   * messages; what dequeue i delivers is among the last n stored when it happened, and is the one SlotOwner names.
   */
  lemma WriterDeliversFreshSubsequence(n: nat, steps: seq<Step>, s: State)
    requires n > 0 && Exec(n, steps) == Some(s)
    ensures forall i, j :: 0 <= i < j < |s.taken| ==> s.taken[i].index < s.taken[j].index
    ensures forall i :: 0 <= i < |s.taken| ==>
      var r := s.taken[i];
      i < r.at <= |s.hist| && r.index == SlotOwner(n, i, r.at) && r.at - n <= r.index < r.at
    ensures |s.taken| - 1 <= |s.out| <= |s.taken|
    ensures forall i :: 0 <= i < |s.out| ==>
      s.taken[i].index < |s.hist| && s.out[i] == Printed(s.hist[s.taken[i].index])
  {
    Invariant(n, steps);
    forall i, j | 0 <= i < j < |s.taken|
      ensures s.taken[i].index < s.taken[j].index
    {
      ReadsAscend(n, s, i, j);
    }
    forall i | 0 <= i < |s.taken|
      ensures var r := s.taken[i];
        i < r.at <= |s.hist| && r.index == SlotOwner(n, i, r.at) && r.at - n <= r.index < r.at
    {
      assert GoodRead(n, i, s.taken[i], |s.hist|);
      SlotOwnerIsUnique(n, i, s.taken[i].at, 0);
    }
    assert forall i :: 0 <= i < |s.out| ==> s.out[i] == (s.out + InFlight(s.writer))[i];
  }

  /** `head` and `tail` count dequeues and enqueues modulo n whenever the mutex is free. */
  lemma IndicesCountModuloN(n: nat, steps: seq<Step>, s: State)
    requires n > 0 && Exec(n, steps) == Some(s) && s.owner.Free?
    ensures |s.taken| <= |s.hist|
    ensures s.ring.head == |s.taken| % n && s.ring.tail == |s.hist| % n
  {
    Invariant(n, steps);
  }

  /** Stored messages that no dequeue delivered. */
  ghost function Missing(taken: seq<Read>, e: nat): set<nat> {
    Below(e) - Delivered(taken)
  }

  ghost function Below(e: nat): (r: set<nat>)
    ensures forall k: nat :: k in r <==> k < e
    ensures |r| == e
  {
    if e == 0 then {} else Below(e - 1) + {e - 1}
  }

  ghost function Delivered(taken: seq<Read>): set<nat> {
    set i | 0 <= i < |taken| :: taken[i].index
  }

  lemma {:induction false} CountDelivered(taken: seq<Read>)
    requires forall i, j :: 0 <= i < j < |taken| ==> taken[i].index < taken[j].index
    ensures |Delivered(taken)| == |taken|
  {
    if taken == [] {
      assert Delivered(taken) == {};
    } else {
      var last := |taken| - 1;
      CountDelivered(taken[..last]);
      assert Delivered(taken) == Delivered(taken[..last]) + {taken[last].index};
    }
  }

  lemma Congruent(n: nat, d: nat, e: nat)
    requires n > 0 && d <= e && d % n == e % n
    ensures (e - d) % n == 0
  {
    Distribute(n, e / n, d / n);
    assert e - d == n * (e / n - d / n);
    AddMultiple(n, 0, e / n - d / n);
  }

  lemma StepGrowsPast(s: State, step: Step)
    requires s.ring.Valid() && |s.serial| == |s.ring.slots| && Enabled(s, step)
    ensures var t := Do(s, step);
      && s.taken <= t.taken && s.hist <= t.hist
      && forall i :: |s.taken| <= i < |t.taken| ==> t.taken[i].at == |s.hist|
  {
  }

  lemma {:induction false} PastOnlyGrows(n: nat, steps: seq<Step>, more: seq<Step>)
    requires n > 0 && Exec(n, steps + more).Some?
    ensures Exec(n, steps).Some?
    ensures Exec(n, steps).value.taken <= Exec(n, steps + more).value.taken
    ensures Exec(n, steps).value.hist <= Exec(n, steps + more).value.hist
    ensures var s, t := Exec(n, steps).value, Exec(n, steps + more).value;
      forall i :: |s.taken| <= i < |t.taken| ==> t.taken[i].at >= |s.hist|
  {
    hide Do, Enabled;
    if more == [] {
      assert steps + more == steps;
    } else {
      var last := |more| - 1;
      assert (steps + more)[..|steps + more| - 1] == steps + more[..last];
      PastOnlyGrows(n, steps, more[..last]);
      StepGrowsPast(Exec(n, steps + more[..last]).value, more[last]);
    }
  }

  lemma ReadAfterDrainIsNew(n: nat, d: nat, e: nat, r: Read)
    requires n > 0 && d <= e && d % n == e % n
    requires e <= r.at && GoodRead(n, d, r, r.at)
    ensures e <= r.index
  {
    SlotOwnerIsUnique(n, d, r.at, 0);
    if r.index < e {
      WindowIsInjective(n, r.index, e);
    }
  }

  lemma DeliveredPrefix(taken: seq<Read>, more: seq<Read>, e: nat)
    requires taken <= more
    requires forall i :: |taken| <= i < |more| ==> e <= more[i].index
    ensures Missing(more, e) == Missing(taken, e)
  {
    forall k | k < e
      ensures k in Delivered(more) <==> k in Delivered(taken)
    {
      if k in Delivered(taken) {
        var i :| 0 <= i < |taken| && taken[i].index == k;
        assert more[i].index == k;
      }
    }
  }

  lemma CountMissing(n: nat, s: State)
    requires n > 0 && Inv(n, s)
    ensures |Missing(s.taken, |s.hist|)| == |s.hist| - |s.taken|
  {
    forall i, j | 0 <= i < j < |s.taken|
      ensures s.taken[i].index < s.taken[j].index
    {
      ReadsAscend(n, s, i, j);
    }
    CountDelivered(s.taken);
    assert Delivered(s.taken) <= Below(|s.hist|) by {
      forall i | 0 <= i < |s.taken|
        ensures s.taken[i].index < |s.hist|
      {
        assert (s.out + InFlight(s.writer))[i] == Printed(s.hist[s.taken[i].index]);
      }
    }
  }

  lemma LostForGood(n: nat, s: State, t: State)
    requires n > 0 && Inv(n, s) && Inv(n, t) && |s.taken| % n == |s.hist| % n
    requires s.taken <= t.taken
    requires forall i :: |s.taken| <= i < |t.taken| ==> t.taken[i].at >= |s.hist|
    ensures Missing(t.taken, |s.hist|) == Missing(s.taken, |s.hist|)
  {
    var d, e := |s.taken|, |s.hist|;
    forall i | d <= i < |t.taken|
      ensures e <= t.taken[i].index
    {
      assert GoodRead(n, d, t.taken[d], |t.hist|);
      ReadAfterDrainIsNew(n, d, e, t.taken[d]);
      if d < i { ReadsAscend(n, t, d, i); }
    }
    DeliveredPrefix(s.taken, t.taken, e);
  }

  /**
   * Loss is exact. When the queue looks empty with the mutex free, the messages stored and never delivered number
   * E - D, a multiple of n; and they are lost for good: however the run goes on, no later dequeue delivers one.
   */
  lemma DrainedQueueLostAMultiple(n: nat, steps: seq<Step>, s: State, more: seq<Step>, t: State)
    requires n > 0 && Exec(n, steps) == Some(s) && Exec(n, steps + more) == Some(t)
    requires s.owner.Free? && s.ring.head == s.ring.tail
    ensures |Missing(s.taken, |s.hist|)| == |s.hist| - |s.taken|
    ensures (|s.hist| - |s.taken|) % n == 0
    ensures Missing(t.taken, |s.hist|) == Missing(s.taken, |s.hist|)
  {
    Invariant(n, steps);
    Invariant(n, steps + more);
    PastOnlyGrows(n, steps, more);
    CountMissing(n, s);
    Congruent(n, |s.taken|, |s.hist|);
    LostForGood(n, s, t);
  }

  // ---------- Exactly when the ring is a FIFO queue ----------

  ghost predicate Fifo(s: State) {
    forall i :: 0 <= i < |s.taken| ==> s.taken[i].index == i
  }

  /** The state after the first `k` steps of a run. */
  function At(n: nat, steps: seq<Step>, k: nat): (r: Option<State>)
    requires n > 0 && k <= |steps|
    ensures r.Some? ==> r.value.ring.Valid()
  {
    Exec(n, steps[..k])
  }

  /** At some moment n or more messages were waiting, and the writer dequeued again after it. */
  ghost predicate OverrunThenRead(n: nat, steps: seq<Step>)
    requires n > 0 && Exec(n, steps).Some?
  {
    exists k :: 0 <= k <= |steps| && At(n, steps, k).Some? &&
      var before := At(n, steps, k).value;
      |before.hist| - |before.taken| >= n && |before.taken| < |Exec(n, steps).value.taken|
  }

  /** Dequeue d delivers message d exactly when fewer than n messages were waiting. */
  lemma InOrderIffShortBacklog(n: nat, d: nat, r: Read)
    requires n > 0 && GoodRead(n, d, r, r.at)
    ensures r.index == d <==> r.at - d < n
  {
    SlotOwnerIsUnique(n, d, r.at, d);
    if r.at == d + n { AddMultiple(n, d, 1); }
  }

  /** The state in which dequeue `i` of a run happened, as the number of steps before it. */
  lemma {:induction false} FindRead(n: nat, steps: seq<Step>, i: nat) returns (k: nat)
    requires n > 0 && Exec(n, steps).Some? && i < |Exec(n, steps).value.taken|
    ensures k <= |steps| && At(n, steps, k).Some?
    ensures |At(n, steps, k).value.taken| == i
    ensures |At(n, steps, k).value.hist| == Exec(n, steps).value.taken[i].at
  {
    var last := |steps| - 1;
    var before := Exec(n, steps[..last]).value;
    if i < |before.taken| {
      k := FindRead(n, steps[..last], i);
      assert steps[..last][..k] == steps[..k];
    } else {
      k := last;
    }
  }

  lemma DisorderNeedsOverrun(n: nat, steps: seq<Step>, s: State)
    requires n > 0 && Exec(n, steps) == Some(s) && !Fifo(s)
    ensures OverrunThenRead(n, steps)
  {
    hide SlotOwner, Do, Enabled, Indices, Contents, Output;
    Invariant(n, steps);
    var i :| 0 <= i < |s.taken| && s.taken[i].index != i;
    assert GoodRead(n, i, s.taken[i], |s.hist|);
    InOrderIffShortBacklog(n, i, s.taken[i]);
    var k := FindRead(n, steps, i);
    assert At(n, steps, k).Some?;
  }

  lemma OverrunBreaksOrder(n: nat, steps: seq<Step>, s: State)
    requires n > 0 && Exec(n, steps) == Some(s) && OverrunThenRead(n, steps)
    ensures !Fifo(s)
  {
    hide SlotOwner, Do, Enabled, Indices, Contents, Output;
    Invariant(n, steps);
    var k :| 0 <= k <= |steps| && At(n, steps, k).Some? &&
      var before := At(n, steps, k).value;
      |before.hist| - |before.taken| >= n && |before.taken| < |s.taken|;
    assert steps == steps[..k] + steps[k..];
    PastOnlyGrows(n, steps[..k], steps[k..]);
    var d := |At(n, steps, k).value.taken|;
    assert GoodRead(n, d, s.taken[d], |s.hist|);
    InOrderIffShortBacklog(n, d, s.taken[d]);
  }

  /**
   * The ring refines a FIFO queue, without loss or reordering, exactly in the runs whose backlog never reaches n before
   * a dequeue.
   */
  lemma FifoIffNeverOverrun(n: nat, steps: seq<Step>, s: State)
    requires n > 0 && Exec(n, steps) == Some(s)
    ensures Fifo(s) <==> !OverrunThenRead(n, steps)
  {
    hide *;
    if !Fifo(s) { DisorderNeedsOverrun(n, steps, s); }
    if OverrunThenRead(n, steps) { OverrunBreaksOrder(n, steps, s); }
  }

  /** A run whose backlog is always below n: a prefix of what was stored comes out, in order and once each. */
  lemma ShortBacklogIsFifo(n: nat, steps: seq<Step>, s: State)
    requires n > 0 && Exec(n, steps) == Some(s)
    requires forall k :: 0 <= k <= |steps| && At(n, steps, k).Some? ==>
      |At(n, steps, k).value.hist| - |At(n, steps, k).value.taken| < n
    ensures |s.out| <= |s.hist|
    ensures forall i :: 0 <= i < |s.out| ==> s.out[i] == Printed(s.hist[i])
  {
    FifoIffNeverOverrun(n, steps, s);
    WriterDeliversFreshSubsequence(n, steps, s);
    Invariant(n, steps);
  }

  // ---------- Blocking ----------

  /**
   * No lost wake-up: a writer blocked with no wake-up pending sees an empty queue, exactly outside the window in which
   * the producer has moved the tail, still holds the mutex and is about to signal. A ring of one slot looks empty in
   * that window too.
   */
  lemma NoWakeupIsLost(n: nat, steps: seq<Step>, s: State)
    requires n > 0 && Exec(n, steps) == Some(s)
    requires s.writer.Waiting? && !s.wake
    ensures s.ring.head == s.ring.tail <==> n == 1 || !s.producer.Signalling?
    ensures s.producer.Signalling? ==> s.owner.Producer?
    ensures s.owner.Free? ==> s.ring.head == s.ring.tail && |s.taken| % n == |s.hist| % n
  {
    Invariant(n, steps);
  }

  lemma ExecAppend(n: nat, a: seq<Step>, step: Step)
    requires n > 0 && Exec(n, a).Some? && Enabled(Exec(n, a).value, step)
    ensures Exec(n, a + [step]) == Some(Do(Exec(n, a).value, step))
  {
    assert (a + [step])[..|a|] == a;
  }

  /** One complete enqueue_log call by an idle producer with the mutex free. */
  lemma EnqueueOnce(n: nat, a: seq<Step>, msg: string) returns (b: seq<Step>)
    requires n > 0 && Exec(n, a).Some? && Exec(n, a).value.producer.Idle? && Exec(n, a).value.owner.Free?
    ensures Exec(n, b).Some? && a <= b
    ensures var s, t := Exec(n, a).value, Exec(n, b).value;
      t.producer.Idle? && t.owner.Free? && t.writer == s.writer && t.taken == s.taken && t.out == s.out &&
      t.hist == s.hist + [msg]
  {
    b := a;
    ExecAppend(n, b, Call(msg));
    b := b + [Call(msg)];
    ExecAppend(n, b, ProducerLock);
    b := b + [ProducerLock];
    ExecAppend(n, b, Step.Store);
    b := b + [Step.Store];
    ExecAppend(n, b, MoveTail);
    b := b + [MoveTail];
    ExecAppend(n, b, Signal);
    b := b + [Signal];
    ExecAppend(n, b, ProducerUnlock);
    b := b + [ProducerUnlock];
  }

  /** The window is reached: the writer blocks on the empty queue, and the first message is stored behind it. */
  lemma WriterBlocksUntilSignal(n: nat, msg: string) returns (steps: seq<Step>, s: State)
    requires n > 1
    ensures Exec(n, steps) == Some(s)
    ensures s.writer.Waiting? && !s.wake && s.producer.Signalling? && s.ring.head != s.ring.tail
  {
    ExecAppend(n, [], WriterLock);
    steps := [] + [WriterLock];
    ExecAppend(n, steps, TestQueue);
    steps := steps + [TestQueue];
    ExecAppend(n, steps, Call(msg));
    steps := steps + [Call(msg)];
    ExecAppend(n, steps, ProducerLock);
    steps := steps + [ProducerLock];
    ExecAppend(n, steps, Step.Store);
    steps := steps + [Step.Store];
    ExecAppend(n, steps, MoveTail);
    steps := steps + [MoveTail];
    s := Exec(n, steps).value;
  }

  lemma {:induction false} EnqueueMany(n: nat, k: nat, msg: string) returns (b: seq<Step>)
    requires n > 0
    ensures Exec(n, b).Some?
    ensures var t := Exec(n, b).value;
      t.producer.Idle? && t.owner.Free? && t.writer.Lock? && t.taken == [] && |t.hist| == k
  {
    if k == 0 {
      b := [];
    } else {
      b := EnqueueMany(n, k - 1, msg);
      b := EnqueueOnce(n, b, msg);
    }
  }

  /** An empty look is not an empty queue: for every ring size the writer can block with n undelivered messages. */
  lemma WriterCanBlockOnFullRing(n: nat, msg: string) returns (steps: seq<Step>, s: State)
    requires n > 0
    ensures Exec(n, steps) == Some(s)
    ensures s.writer.Waiting? && !s.wake && s.owner.Free? && |s.hist| == n && s.taken == []
  {
    steps := EnqueueMany(n, n, msg);
    Invariant(n, steps);
    ExecAppend(n, steps, WriterLock);
    steps := steps + [WriterLock];
    AddMultiple(n, 0, 1);
    ExecAppend(n, steps, TestQueue);
    steps := steps + [TestQueue];
    s := Exec(n, steps).value;
  }

  /**
   * The threads never block each other: when no step is left but a new call and a wake-up, the producer is idle, the
   * mutex free, and the writer waits, either on a queue that looks empty or with a wake-up on its way.
   */
  lemma OnlyTheQueueBlocks(n: nat, steps: seq<Step>, s: State)
    requires n > 0 && Exec(n, steps) == Some(s)
    requires forall step :: Enabled(s, step) ==> step.Call? || step.Wake?
    ensures s.producer.Idle? && s.writer.Waiting? && s.owner.Free?
    ensures s.wake || s.ring.head == s.ring.tail
  {
    hide Exec, Contents, Past, Output;
    Invariant(n, steps);
    assert !Enabled(s, ProducerLock) && !Enabled(s, Step.Store) && !Enabled(s, MoveTail) && !Enabled(s, Signal);
    assert !Enabled(s, ProducerUnlock) && !Enabled(s, WriterLock) && !Enabled(s, TestQueue) && !Enabled(s, CopyFront);
    assert !Enabled(s, MoveHead) && !Enabled(s, WriterUnlock) && !Enabled(s, PrintLine);
  }

  /** A wake-up may come without a signal; on a queue that looks empty the writer then waits again. */
  lemma SpuriousWakeIsHarmless(n: nat, steps: seq<Step>, s: State)
    requires n > 0 && Exec(n, steps) == Some(s) && s.writer.Waiting? && s.owner.Free? && s.ring.head == s.ring.tail
    ensures Exec(n, steps + [Wake] + [TestQueue]) == Some(s.(wake := false))
  {
    ExecAppend(n, steps, Wake);
    ExecAppend(n, steps + [Wake], TestQueue);
  }

  // ---------- Exactly how much gets through once nothing more is stored ----------

  /** With the producer idle, only a dequeue that still sees different indices takes a message. */
  lemma QuietStep(n: nat, s: State, step: Step)
    requires n > 0 && Indices(n, s) && s.ring.Valid() && Enabled(s, step) && s.producer.Idle? && !step.Call?
    ensures var t := Do(s, step);
      && t.producer.Idle? && t.hist == s.hist
      && (t.taken == s.taken || (|t.taken| == |s.taken| + 1 && |s.taken| % n != |s.hist| % n))
  {
    hide CopyInto, Printed;
  }

  /** So the writer cannot pass the next number at which the indices are equal. */
  lemma {:induction false} TakesAtMost(n: nat, steps: seq<Step>, s: State, more: seq<Step>, goal: nat)
    requires n > 0 && Exec(n, steps) == Some(s) && s.producer.Idle? && Exec(n, steps + more).Some?
    requires forall step :: step in more ==> !step.Call?
    requires |s.taken| <= goal && goal % n == |s.hist| % n
    ensures var t := Exec(n, steps + more).value;
      t.producer.Idle? && t.hist == s.hist && |s.taken| <= |t.taken| <= goal
  {
    hide Do, Enabled, Indices, Contents, Past, Output, NoLostWakeup;
    if more == [] {
      assert steps + more == steps;
    } else {
      var last := |more| - 1;
      assert (steps + more)[..|steps + more| - 1] == steps + more[..last];
      assert more[last] in more && forall step :: step in more[..last] ==> step in more;
      TakesAtMost(n, steps, s, more[..last], goal);
      Invariant(n, steps + more[..last]);
      QuietStep(n, Exec(n, steps + more[..last]).value, more[last]);
    }
  }

  lemma RemainderCongruent(n: nat, d: nat, e: nat)
    requires n > 0 && d <= e
    ensures (d + (e - d) % n) % n == e % n
  {
    var r := (e - d) % n;
    assert e == (d + r) + n * ((e - d) / n);
    AddMultiple(n, d + r, (e - d) / n);
  }

  /**
   * The exact loss: when nothing more is stored and the writer has blocked, it has taken the backlog's remainder modulo
   * n, no more and no less. The rest of the backlog, a multiple of n, is what the overrun has cost.
   */
  lemma BlockedWriterTookTheRemainder(n: nat, steps: seq<Step>, s: State, more: seq<Step>, t: State)
    requires n > 0 && Exec(n, steps) == Some(s) && s.producer.Idle? && Exec(n, steps + more) == Some(t)
    requires forall step :: step in more ==> !step.Call?
    requires t.writer.Waiting? && !t.wake && t.owner.Free?
    ensures |s.taken| <= |s.hist| && |t.taken| - |s.taken| == (|s.hist| - |s.taken|) % n
  {
    hide *;
    NeverMoreTaken(n, steps, s);
    var goal := |s.taken| + (|s.hist| - |s.taken|) % n;
    RemainderCongruent(n, |s.taken|, |s.hist|);
    TakesAtMost(n, steps, s, more, goal);
    NoWakeupIsLost(n, steps + more, t);
    if |t.taken| < goal {
      WindowIsInjective(n, |t.taken|, goal);
    }
  }

  lemma NeverMoreTaken(n: nat, steps: seq<Step>, s: State)
    requires n > 0 && Exec(n, steps) == Some(s)
    ensures |s.taken| <= |s.hist|
  {
    hide Contents, Past, Output, NoLostWakeup, Exec;
    Invariant(n, steps);
  }

  // ---------- Every log can get through ----------

  /** From the test of a non-empty queue on: the writer takes one message and prints it. */
  lemma TakeAndPrint(n: nat, a: seq<Step>) returns (b: seq<Step>)
    requires n > 0 && Exec(n, a).Some? && Exec(n, a).value.writer.Test?
    requires Exec(n, a).value.ring.head != Exec(n, a).value.ring.tail
    ensures Exec(n, b).Some? && OneMorePrinted(Exec(n, a).value, Exec(n, b).value) && a <= b
  {
    b := a;
    ExecAppend(n, b, TestQueue);
    b := b + [TestQueue];
    ExecAppend(n, b, CopyFront);
    b := b + [CopyFront];
    ExecAppend(n, b, MoveHead);
    b := b + [MoveHead];
    ExecAppend(n, b, WriterUnlock);
    b := b + [WriterUnlock];
    ExecAppend(n, b, PrintLine);
    b := b + [PrintLine];
  }

  /** The writer has taken and printed one message more, nothing has been stored, and it is about to lock again. */
  ghost predicate OneMorePrinted(s: State, t: State) {
    && t.producer == s.producer && t.owner.Free? && t.writer.Lock? && t.hist == s.hist
    && |t.taken| == |s.taken| + 1 && |t.out| == |s.out| + 1 && t.taken[..|s.taken|] == s.taken
    && s.out <= t.out && t.taken[|s.taken|].at == |s.hist|
  }

  /** One round of the writer that finds a message waiting and prints it. */
  lemma PrintOnce(n: nat, a: seq<Step>) returns (b: seq<Step>)
    requires n > 0 && Exec(n, a).Some? && Exec(n, a).value.writer.Lock? && Exec(n, a).value.owner.Free?
    requires Exec(n, a).value.ring.head != Exec(n, a).value.ring.tail
    ensures Exec(n, b).Some? && OneMorePrinted(Exec(n, a).value, Exec(n, b).value) && a <= b
  {
    ExecAppend(n, a, WriterLock);
    b := TakeAndPrint(n, a + [WriterLock]);
  }

  /**
   * A blocked writer behind whose back something was stored is woken and goes on: from every reachable state in which
   * it waits, the mutex is free and the indices differ, a wake-up is on its way, and the run can be continued, with
   * nothing more stored, by the steps in which the writer takes and prints one more message.
   */
  lemma WokenWriterPrints(n: nat, steps: seq<Step>, s: State) returns (more: seq<Step>, t: State)
    requires n > 0 && Exec(n, steps) == Some(s)
    requires s.writer.Waiting? && s.owner.Free? && s.ring.head != s.ring.tail
    ensures s.wake && steps + [Wake] <= more && Exec(n, more) == Some(t) && OneMorePrinted(s, t)
    ensures t.taken[|s.taken|].index < |s.hist| && t.out == s.out + [Printed(s.hist[t.taken[|s.taken|].index])]
  {
    hide Exec, Contents, Past;
    Invariant(n, steps);
    ExecAppend(n, steps, Wake);
    more := TakeAndPrint(n, steps + [Wake]);
    t := Exec(n, more).value;
    Invariant(n, more);
    assert t.out == s.out + [t.out[|s.out|]];
  }

  /**
   * The other side is real: in every ring of two or more slots, n + 1 messages stored in a row overwrite the first, and
   * the first dequeue delivers the last one.
   */
  lemma OverrunLosesOrder(n: nat, msg: string) returns (steps: seq<Step>, s: State)
    requires n > 1
    ensures Exec(n, steps) == Some(s) && |s.taken| == 1 && s.taken[0].index == n
    ensures !Fifo(s) && OverrunThenRead(n, steps)
  {
    hide Exec, Contents, Output, NoLostWakeup;
    steps := EnqueueMany(n, n + 1, msg);
    Invariant(n, steps);
    AddMultiple(n, 1, 1);
    steps := PrintOnce(n, steps);
    s := Exec(n, steps).value;
    Invariant(n, steps);
    assert GoodRead(n, 0, s.taken[0], |s.hist|);
    AddMultiple(n, 0, 1);
    FifoIffNeverOverrun(n, steps, s);
  }

  /** Both threads are between two rounds and everything stored has been printed, in order. */
  ghost predicate AllPrinted(s: State, msgs: seq<string>) {
    && s.producer.Idle? && s.owner.Free? && s.writer.Lock? && Fifo(s)
    && s.hist == msgs && |s.taken| == |s.out| == |msgs|
  }

  /** A dequeue with only its own message waiting delivers that message. */
  lemma ReadAtOnceIsFifo(n: nat, steps: seq<Step>, d: nat)
    requires n > 1 && Exec(n, steps).Some? && d < |Exec(n, steps).value.taken|
    requires Exec(n, steps).value.taken[d].at == d + 1
    ensures Exec(n, steps).value.taken[d].index == d
  {
    Invariant(n, steps);
    var s := Exec(n, steps).value;
    assert GoodRead(n, d, s.taken[d], |s.hist|);
    InOrderIffShortBacklog(n, d, s.taken[d]);
  }

  lemma OneMoreGetsThrough(n: nat, steps: seq<Step>, msgs: seq<string>, msg: string, blocks: bool)
    returns (more: seq<Step>)
    requires n > 1 && Exec(n, steps).Some? && AllPrinted(Exec(n, steps).value, msgs)
    ensures Exec(n, more).Some? && AllPrinted(Exec(n, more).value, msgs + [msg]) && steps <= more
    ensures blocks ==> BlocksBefore(n, more, |msgs|)
  {
    hide Exec, Contents, Past, Output;
    WindowIsInjective(n, |msgs|, |msgs| + 1);
    if blocks {
      more := BlockThenPrint(n, steps, msgs, msg);
    } else {
      more := EnqueueOnce(n, steps, msg);
      Invariant(n, more);
      more := PrintOnce(n, more);
    }
    ReadAtOnceIsFifo(n, more, |msgs|);
    var before, after := Exec(n, steps).value.taken, Exec(n, more).value.taken;
    assert forall i :: 0 <= i < |msgs| ==> after[i] == after[..|msgs|][i] == before[i];
  }

  /** In the run, the writer blocks once d messages have been stored and all of them taken. */
  ghost predicate BlocksBefore(n: nat, steps: seq<Step>, d: nat)
    requires n > 0
  {
    exists k :: 0 <= k <= |steps| && At(n, steps, k).Some? &&
      var s := At(n, steps, k).value;
      s.writer.Waiting? && |s.hist| == |s.taken| == d
  }

  lemma StillBlocks(n: nat, steps: seq<Step>, more: seq<Step>, d: nat)
    requires n > 0 && BlocksBefore(n, steps, d) && steps <= more
    ensures BlocksBefore(n, more, d)
  {
    var k :| 0 <= k <= |steps| && At(n, steps, k).Some? &&
      var s := At(n, steps, k).value;
      s.writer.Waiting? && |s.hist| == |s.taken| == d;
    assert steps[..k] == more[..k];
    assert At(n, more, k) == At(n, steps, k);
  }

  /** The writer blocks on the empty queue, is woken by the signal of the next message and prints it. */
  lemma BlockThenPrint(n: nat, steps: seq<Step>, msgs: seq<string>, msg: string) returns (more: seq<Step>)
    requires n > 1 && Exec(n, steps).Some? && AllPrinted(Exec(n, steps).value, msgs)
    requires (|msgs| + 1) % n != |msgs| % n
    ensures Exec(n, more).Some? && steps <= more && BlocksBefore(n, more, |msgs|)
    ensures var s, t := Exec(n, steps).value, Exec(n, more).value;
      && t.producer.Idle? && t.owner.Free? && t.writer.Lock? && t.hist == msgs + [msg]
      && |t.taken| == |t.out| == |msgs| + 1 && t.taken[..|msgs|] == s.taken && t.taken[|msgs|].at == |msgs| + 1
  {
    hide Exec, Contents, Past, Output;
    Invariant(n, steps);
    ExecAppend(n, steps, WriterLock);
    ExecAppend(n, steps + [WriterLock], TestQueue);
    var blocked := steps + [WriterLock] + [TestQueue];
    assert At(n, blocked, |blocked|) == Exec(n, blocked) by { assert blocked[..|blocked|] == blocked; }
    assert BlocksBefore(n, blocked, |msgs|);
    var stored := EnqueueOnce(n, blocked, msg);
    Invariant(n, stored);
    var t: State;
    more, t := WokenWriterPrints(n, stored, Exec(n, stored).value);
    StillBlocks(n, blocked, more, |msgs|);
  }

  /**
   * For every list of messages, and every choice of those before which the writer blocks, there is a run in which the
   * writer keeps up and prints them all.
   */
  lemma {:induction false} EveryLogCanGetThrough(n: nat, msgs: seq<string>, blocks: seq<bool>)
    returns (steps: seq<Step>, s: State)
    requires n > 1 && |blocks| == |msgs|
    ensures Exec(n, steps) == Some(s) && AllPrinted(s, msgs) && !OverrunThenRead(n, steps)
    ensures forall i :: 0 <= i < |msgs| && blocks[i] ==> BlocksBefore(n, steps, i)
  {
    hide OverrunThenRead, BlocksBefore;
    if msgs == [] {
      steps := [];
    } else {
      var last := |msgs| - 1;
      var front: seq<Step>;
      front, s := EveryLogCanGetThrough(n, msgs[..last], blocks[..last]);
      steps := OneMoreGetsThrough(n, front, msgs[..last], msgs[last], blocks[last]);
      assert msgs == msgs[..last] + [msgs[last]];
      forall i | 0 <= i < last && blocks[i]
        ensures BlocksBefore(n, steps, i)
      {
        StillBlocks(n, front, steps, i);
      }
    }
    s := Exec(n, steps).value;
    FifoIffNeverOverrun(n, steps, s);
  }

  // ---------- From every state on, the queue runs empty ----------

  /** No further enqueue_log call begins behind the first k steps. */
  ghost predicate NoCallsAfter(steps: seq<Step>, k: nat) {
    forall i :: k <= i < |steps| ==> !steps[i].Call?
  }

  /** The steps left of an enqueue_log call. */
  function CallRank(p: ProducerPc): nat {
    match p
    case Locking(_) => 5
    case Storing(_) => 4
    case AdvancingTail => 3
    case Signalling => 2
    case Unlocking => 1
    case Idle => 0
  }

  function CallStep(p: ProducerPc): Step
    requires !p.Idle?
  {
    match p
    case Locking(_) => ProducerLock
    case Storing(_) => Step.Store
    case AdvancingTail => MoveTail
    case Signalling => Signal
    case Unlocking => ProducerUnlock
  }

  /** The message of the call under way, until it is stored. */
  function NotYetStored(p: ProducerPc): seq<string> {
    if p.Locking? || p.Storing? then [p.msg] else []
  }

  function WriterStep(w: WriterPc): Step {
    match w
    case Lock => WriterLock
    case Test => TestQueue
    case Waiting => Wake
    case Copy => CopyFront
    case AdvanceHead(_) => MoveHead
    case Unlock(_) => WriterUnlock
    case Print(_) => PrintLine
  }

  /** How far the writer is from its next look at the queue, and from taking a message behind that. */
  function WriterRank(w: WriterPc): nat {
    match w
    case AdvanceHead(_) => 6
    case Unlock(_) => 5
    case Print(_) => 4
    case Lock => 3
    case Waiting => 3
    case Test => 2
    case Copy => 1
  }

  /** A thread can go on unless it has to lock the mutex while the other holds it; a new call can begin at any time. */
  lemma OnlyTheMutexBlocks(n: nat, steps: seq<Step>, s: State, msg: string)
    requires n > 0 && Exec(n, steps) == Some(s)
    ensures Enabled(s, WriterStep(s.writer)) <==> s.owner.Free? || !(s.writer.Lock? || s.writer.Waiting?)
    ensures Enabled(s, if s.producer.Idle? then Call(msg) else CallStep(s.producer)) <==>
      s.owner.Free? || !s.producer.Locking?
    ensures s.producer.Locking? ==> !s.owner.Producer?
    ensures s.writer.Lock? || s.writer.Waiting? ==> !s.owner.Writer?
  {
    hide Exec, Contents, Past, Output;
    Invariant(n, steps);
  }

  lemma {:induction false} WriterLetsGo(n: nat, a: seq<Step>) returns (b: seq<Step>)
    requires n > 0 && Exec(n, a).Some?
    ensures Exec(n, b).Some? && a <= b && NoCallsAfter(b, |a|) && !Exec(n, b).value.owner.Writer?
    ensures Exec(n, b).value.producer == Exec(n, a).value.producer && Exec(n, b).value.hist == Exec(n, a).value.hist
    decreases match Exec(n, a).value.writer { case Test => 4 case Copy => 3 case AdvanceHead(_) => 2 case _ => 1 }
  {
    hide Exec, Contents, Past, Output, NoLostWakeup;
    Invariant(n, a);
    b := a;
    var s := Exec(n, a).value;
    if s.owner.Writer? {
      ExecAppend(n, a, WriterStep(s.writer));
      b := a + [WriterStep(s.writer)];
      if Exec(n, b).value.owner.Writer? {
        b := WriterLetsGo(n, b);
      }
    }
  }

  lemma {:induction false} CallFinishes(n: nat, a: seq<Step>) returns (b: seq<Step>)
    requires n > 0 && Exec(n, a).Some? && !Exec(n, a).value.owner.Writer?
    ensures Exec(n, b).Some? && a <= b && NoCallsAfter(b, |a|)
    ensures var s, t := Exec(n, a).value, Exec(n, b).value;
      t.producer.Idle? && t.hist == s.hist + NotYetStored(s.producer)
    decreases CallRank(Exec(n, a).value.producer)
  {
    hide Exec, Contents, Past, Output, NoLostWakeup;
    Invariant(n, a);
    b := a;
    var s := Exec(n, a).value;
    if !s.producer.Idle? {
      ExecAppend(n, a, CallStep(s.producer));
      b := CallFinishes(n, a + [CallStep(s.producer)]);
    }
  }

  lemma OneLessToTake(n: nat, d: nat, e: nat)
    requires n > 0 && d < e && d % n != e % n
    ensures (e - d) % n > 0 && (e - (d + 1)) % n == (e - d) % n - 1
  {
    var q, r := (e - d) / n, (e - d) % n;
    if r == 0 { AddMultiple(n, d, q); }
    assert e - (d + 1) == (r - 1) + n * q;
    if r > 0 { DivMod(n, e - (d + 1), q, r - 1); }
  }

  lemma {:induction false} WriterDrains(n: nat, a: seq<Step>) returns (b: seq<Step>)
    requires n > 0 && Exec(n, a).Some? && Exec(n, a).value.producer.Idle?
    requires |Exec(n, a).value.taken| <= |Exec(n, a).value.hist|
    ensures Exec(n, b).Some? && a <= b && NoCallsAfter(b, |a|)
    ensures Exec(n, b).value.hist == Exec(n, a).value.hist && Settled(Exec(n, b).value)
    decreases (|Exec(n, a).value.hist| - |Exec(n, a).value.taken|) % n, WriterRank(Exec(n, a).value.writer)
  {
    hide Exec, Contents, Past, NoLostWakeup;
    Invariant(n, a);
    b := a;
    var s := Exec(n, a).value;
    if !Settled(s) {
      ExecAppend(n, a, WriterStep(s.writer));
      b := a + [WriterStep(s.writer)];
      if s.writer.Copy? { OneLessToTake(n, |s.taken|, |s.hist|); }
      if !Settled(Exec(n, b).value) {
        b := WriterDrains(n, b);
      }
    }
  }

  /** The producer is idle, the writer blocked, and everything taken has been printed. */
  ghost predicate Settled(s: State) {
    s.producer.Idle? && s.writer.Waiting? && !s.wake && s.owner.Free? && |s.out| == |s.taken|
  }

  /**
   * No run can get stuck: from every reachable state the two threads alone, with no further call, come to rest. The
   * call under way has then stored its message, and the writer has printed all that an overrun has left it.
   */
  lemma EveryRunSettles(n: nat, steps: seq<Step>, s: State) returns (more: seq<Step>, t: State)
    requires n > 0 && Exec(n, steps) == Some(s)
    ensures steps <= more && NoCallsAfter(more, |steps|) && Exec(n, more) == Some(t)
    ensures Settled(t) && t.hist == s.hist + NotYetStored(s.producer)
    ensures |t.taken| % n == |t.hist| % n
  {
    hide Exec, Enabled, Do, Inv;
    more := WriterLetsGo(n, steps);
    more := CallFinishes(n, more);
    NeverMoreTaken(n, more, Exec(n, more).value);
    more := WriterDrains(n, more);
    t := Exec(n, more).value;
    NoWakeupIsLost(n, more, t);
  }
}
