/**
 The mutex, condition and shutdown protocol of hid-libusb.c as an interleaving of small steps: the read
 thread with the transfer callback it runs, any number of `hid_read_timeout` calls, and `hid_close`.

 Accesses to the report list happen under the mutex and are one step each. The shutdown flag is read and
 written outside the mutex too, so every read and every write of it is a step of its own.
 */
module ReadThread {
  import opened Common
  import opened ReportQueue
  import opened HidLibusb

  datatype Thread = Reader(id: nat) | EventThread | Closer

  /** Where one call of `hid_read_timeout` is. `length` and `ms` are its arguments. */
  datatype ReaderPc =
    | Idle
    | Locking(length: nat, ms: int)
    | CheckingQueue(length: nat, ms: int)
    | CheckingShutdown(length: nat, ms: int)
    | TestingLoop(length: nat, ms: int)
    | AboutToWait(length: nat, ms: int)
    | Waiting(length: nat, ms: int)
    | Woken(length: nat, ms: int, result: WaitResult)
    | Resumed(length: nat, ms: int, result: WaitResult)
    | LeftLoop(length: nat, ms: int)
    | Returning(outcome: Outcome)

  /** Where the read thread is. `draining` marks the extra event round after the cancellation. */
  datatype EventPc =
    | Starting
    | AtBarrier
    | TestingFlag
    | InEvents(draining: bool)
    | CallbackLocking(report: Report, draining: bool)
    | CallbackAttaching(report: Report, draining: bool)
    | CallbackSignalling(draining: bool)
    | CallbackUnlocking(draining: bool)
    | CallbackSubmitting(draining: bool)
    | Cancelling
    | BroadcastLocking
    | Broadcasting
    | BroadcastUnlocking
    | Ended

  datatype ClosePc = NotClosing | Joining | ClearLocking | Clearing | ClearUnlocking | Closed

  /**
   `transfer`: the transfer object exists; `submitted`: libusb has it and will call back; `flagAtBroadcast` remembers
   what `shutdown_thread` was when the broadcast was made.
   */
  datatype State = State(
    fifo: Fifo, shutdown: bool, mutex: Option<Thread>, readers: map<nat, ReaderPc>,
    events: EventPc, closing: ClosePc, transfer: bool, submitted: bool, ready: bool, flagAtBroadcast: Option<bool>)

  datatype EventAction =
    | SetUpTransfer(accepted: bool)
    | PassBarrier
    | TestFlag
    | TransferCompleted(report: Report)
    | TransferGone
    | TransferOther
    | CallbackLock
    | CallbackAttach
    | CallbackSignal(woken: set<nat>)
    | CallbackUnlock
    | CallbackSubmit(resubmitted: bool)
    | EventsReturn(fatal: bool)
    | CancelTransfer(cancelled: bool)
    | BroadcastLock
    | Broadcast
    | BroadcastUnlock

  datatype ReadAction =
    | Call(length: nat, ms: int)
    | Lock
    | CheckQueue
    | CheckShutdown
    | TestLoop
    | Wait
    | Wake(result: WaitResult)
    | Relock
    | Resume
    | LeaveLoop
    | Unlock

  datatype CloseAction = CloseSetFlag | CloseJoin | CloseLock | CloseClear | CloseUnlock

  datatype Step = Events(event: EventAction) | Reads(id: nat, read: ReadAction) | Closes(close: CloseAction)

  const INITIAL := State(EMPTY, false, None, map[], Starting, NotClosing, false, false, false, None)

  predicate Holds(pc: ReaderPc) {
    || pc.CheckingQueue? || pc.CheckingShutdown? || pc.TestingLoop? || pc.AboutToWait? || pc.Resumed? || pc.LeftLoop?
    || pc.Returning?
  }

  predicate EventsHold(pc: EventPc) {
    || pc.CallbackAttaching? || pc.CallbackSignalling? || pc.CallbackUnlocking? || pc.Broadcasting?
    || pc.BroadcastUnlocking?
  }

  predicate CloseHolds(pc: ClosePc) {
    pc.Clearing? || pc.ClearUnlocking?
  }

  function PcOf(s: State, id: nat): ReaderPc {
    if id in s.readers then s.readers[id] else Idle
  }

  /** The readers blocked in the condition wait. */
  function Waiters(s: State): set<nat> {
    set id | id in s.readers && s.readers[id].Waiting?
  }

  function WakeAll(s: State, woken: set<nat>): State {
    s.(readers := map id | id in s.readers ::
         if id in woken && s.readers[id].Waiting? then Woken(s.readers[id].length, s.readers[id].ms, Signalled)
         else s.readers[id])
  }

  /** One step of the read thread, or `None` if it cannot be taken. */
  function EventStep(s: State, action: EventAction): Option<State> {
    match action
    case SetUpTransfer(accepted) =>
      // Nobody looks at the result of the first submission.
      if s.events.Starting? then Some(s.(events := AtBarrier, transfer := true, submitted := accepted)) else None
    case PassBarrier => if s.events.AtBarrier? then Some(s.(events := TestingFlag, ready := true)) else None
    case TestFlag =>
      if s.events.TestingFlag? then Some(s.(events := if s.shutdown then Cancelling else InEvents(false))) else None
    case TransferCompleted(r) =>
      if s.events.InEvents? && s.submitted then
        Some(s.(events := CallbackLocking(r, s.events.draining), submitted := false))
      else None
    case TransferGone =>
      if s.events.InEvents? && s.submitted then Some(s.(shutdown := true, submitted := false)) else None
    case TransferOther =>
      if s.events.InEvents? && s.submitted then
        Some(s.(events := CallbackSubmitting(s.events.draining), submitted := false))
      else None
    case EventsReturn(fatal) =>
      if s.events.InEvents? then
        Some(s.(events := if s.events.draining then BroadcastLocking else if fatal then Cancelling else TestingFlag))
      else None
    case CallbackLock =>
      if s.events.CallbackLocking? && s.mutex.None? then
        Some(s.(events := CallbackAttaching(s.events.report, s.events.draining), mutex := Some(EventThread)))
      else None
    case CallbackAttach =>
      if s.events.CallbackAttaching? then
        var d := s.events.draining;
        Some(s.(fifo := Arrive(s.fifo, s.events.report),
                events := if s.fifo.queue == [] then CallbackSignalling(d) else CallbackUnlocking(d)))
      else None
    case CallbackSignal(woken) =>
      // At least one waiter is released if there is one.
      if s.events.CallbackSignalling? && woken <= Waiters(s) && (woken == {} ==> Waiters(s) == {}) then
        Some(WakeAll(s, woken).(events := CallbackUnlocking(s.events.draining)))
      else None
    case CallbackUnlock =>
      if s.events.CallbackUnlocking? then
        Some(s.(events := CallbackSubmitting(s.events.draining), mutex := None))
      else None
    case CallbackSubmit(resubmitted) =>
      if s.events.CallbackSubmitting? then
        Some(s.(events := InEvents(s.events.draining), submitted := resubmitted,
                shutdown := s.shutdown || !resubmitted))
      else None
    case CancelTransfer(cancelled) =>
      // There is nothing to cancel when nothing is submitted.
      if s.events.Cancelling? && (cancelled ==> s.submitted) then
        Some(s.(events := if cancelled then InEvents(true) else BroadcastLocking))
      else None
    case BroadcastLock =>
      if s.events.BroadcastLocking? && s.mutex.None? then
        Some(s.(events := Broadcasting, mutex := Some(EventThread)))
      else None
    case Broadcast =>
      if s.events.Broadcasting? then
        Some(WakeAll(s, Waiters(s)).(events := BroadcastUnlocking, flagAtBroadcast := Some(s.shutdown)))
      else None
    case BroadcastUnlock => if s.events.BroadcastUnlocking? then Some(s.(events := Ended, mutex := None)) else None
  }

  /** What one step of a `hid_read_timeout` call can change. */
  datatype Reading = Reading(pc: ReaderPc, mutex: Option<Thread>, fifo: Fifo)

  /** The oldest report is handed over. */
  function HandOver(id: nat, fifo: Fifo, length: nat): Reading
    requires fifo.queue != []
  {
    Reading(Returning(Delivered(Prefix(fifo.queue[0], length))), Some(Reader(id)), Take(fifo))
  }

  /** One step of the call that reader `id` is making, which is at `pc`; `None` if it cannot be taken. */
  function ReadingStep(id: nat, pc: ReaderPc, mutex: Option<Thread>, fifo: Fifo, shutdown: bool,
                       action: ReadAction): Option<Reading> {
    match action
    case Call(length, ms) => if pc.Idle? then Some(Reading(Locking(length, ms), mutex, fifo)) else None
    case Lock =>
      if pc.Locking? && mutex.None? then
        Some(Reading(CheckingQueue(pc.length, pc.ms), Some(Reader(id)), fifo))
      else None
    case CheckQueue =>
      if pc.CheckingQueue? then
        Some(if fifo.queue != [] then HandOver(id, fifo, pc.length)
             else Reading(CheckingShutdown(pc.length, pc.ms), mutex, fifo))
      else None
    case CheckShutdown =>
      if pc.CheckingShutdown? then
        var next :=
          if shutdown then Returning(Disconnected)
          else if pc.ms == -1 || pc.ms > 0 then TestingLoop(pc.length, pc.ms)
          else Returning(NothingYet);
        Some(Reading(next, mutex, fifo))
      else None
    case TestLoop =>
      if pc.TestingLoop? then
        Some(Reading(
          if fifo.queue == [] && !shutdown then AboutToWait(pc.length, pc.ms) else LeftLoop(pc.length, pc.ms),
          mutex, fifo))
      else None
    case Wait => if pc.AboutToWait? then Some(Reading(Waiting(pc.length, pc.ms), None, fifo)) else None
    case Wake(result) =>
      // A spurious wake-up, or the end of a timed wait.
      if pc.Waiting? && (result == Signalled || pc.ms > 0) then
        Some(Reading(Woken(pc.length, pc.ms, result), mutex, fifo))
      else None
    case Relock =>
      if pc.Woken? && mutex.None? then
        Some(Reading(Resumed(pc.length, pc.ms, pc.result), Some(Reader(id)), fifo))
      else None
    case Resume =>
      if pc.Resumed? then
        Some(
          if pc.ms <= 0 then Reading(TestingLoop(pc.length, pc.ms), mutex, fifo)
          else if pc.result == TimedOut then Reading(Returning(NothingYet), mutex, fifo)
          else if pc.result == WaitFailed then Reading(Returning(WaitError), mutex, fifo)
          else if fifo.queue != [] then HandOver(id, fifo, pc.length)
          else Reading(TestingLoop(pc.length, pc.ms), mutex, fifo))
      else None
    case LeaveLoop =>
      // Only the blocking branch looks at the list again after its loop.
      if pc.LeftLoop? then
        Some(if pc.ms <= 0 && fifo.queue != [] then HandOver(id, fifo, pc.length)
             else Reading(Returning(Disconnected), mutex, fifo))
      else None
    case Unlock => if pc.Returning? then Some(Reading(Idle, None, fifo)) else None
  }

  function ReaderStep(s: State, id: nat, action: ReadAction): Option<State> {
    match ReadingStep(id, PcOf(s, id), s.mutex, s.fifo, s.shutdown, action)
    case Some(r) =>
      if s.ready then Some(s.(readers := s.readers[id := r.pc], mutex := r.mutex, fifo := r.fifo)) else None
    case None => None
  }

  /** One step of `hid_close`, up to the unlock after the list has been cleared. */
  function CloseStep(s: State, action: CloseAction): Option<State> {
    match action
    case CloseSetFlag =>
      if s.closing.NotClosing? && s.ready then Some(s.(shutdown := true, closing := Joining)) else None
    case CloseJoin => if s.closing.Joining? && s.events.Ended? then Some(s.(closing := ClearLocking)) else None
    case CloseLock =>
      if s.closing.ClearLocking? && s.mutex.None? then Some(s.(closing := Clearing, mutex := Some(Closer))) else None
    case CloseClear => if s.closing.Clearing? then Some(s.(closing := ClearUnlocking, fifo := Clear(s.fifo))) else None
    case CloseUnlock => if s.closing.ClearUnlocking? then Some(s.(closing := Closed, mutex := None)) else None
  }

  function Do(s: State, step: Step): Option<State> {
    match step
    case Events(action) => EventStep(s, action)
    case Reads(id, action) => ReaderStep(s, id, action)
    case Closes(action) => CloseStep(s, action)
  }

  /** Nothing happens when the step cannot be taken. */
  function Next(s: State, step: Step): State {
    match Do(s, step)
    case Some(t) => t
    case None => s
  }

  function After(s: State, steps: seq<Step>): State
    decreases |steps|
  {
    if steps == [] then s else After(Next(s, steps[0]), steps[1..])
  }

  /** What has become of the start. */
  function Now(steps: seq<Step>): State {
    After(INITIAL, steps)
  }

  // ---- What every step keeps ----

  /** The mutex is held by exactly the thread whose program point says so. */
  ghost predicate Exclusive(s: State) {
    && (forall id :: id in s.readers ==> (Holds(s.readers[id]) <==> s.mutex == Some(Reader(id))))
    && (EventsHold(s.events) <==> s.mutex == Some(EventThread))
    && (CloseHolds(s.closing) <==> s.mutex == Some(Closer))
    && (s.mutex.Some? && s.mutex.value.Reader? ==> s.mutex.value.id in s.readers)
  }

  /** Nothing uses the device before the barrier, and the joiner waits for the read thread to end. */
  ghost predicate Phased(s: State) {
    && (s.ready <==> !s.events.Starting? && !s.events.AtBarrier?)
    && (s.transfer <==> !s.events.Starting?)
    && (!s.ready ==> s.readers == map[] && s.closing.NotClosing?)
    && (s.flagAtBroadcast.Some? <==> s.events.BroadcastUnlocking? || s.events.Ended?)
    && (!s.closing.NotClosing? ==> s.shutdown)
    && (!s.closing.NotClosing? && !s.closing.Joining? ==> s.events.Ended?)
  }

  /** What a reader knows about the list and the flag at each point where it holds the mutex. */
  predicate Knows(pc: ReaderPc, queue: seq<Report>, shutdown: bool) {
    match pc
    case CheckingShutdown(_, _) => queue == []
    case TestingLoop(_, ms) => ms > 0 ==> queue == []
    case AboutToWait(_, _) => queue == []
    case LeftLoop(_, ms) => if ms > 0 then queue == [] && shutdown else queue != [] || shutdown
    case Returning(o) => (o.Disconnected? ==> queue == [] && shutdown) && !o.StillWaiting?
    case _ => true
  }

  ghost predicate AllKnow(s: State) {
    forall id :: id in s.readers ==> Knows(s.readers[id], s.fifo.queue, s.shutdown)
  }

  /** Blocked in the wait, or committed to it. */
  predicate Stuck(pc: ReaderPc) {
    pc.Waiting? || pc.AboutToWait?
  }

  ghost predicate NoneStuck(s: State) {
    forall id :: id in s.readers ==> !Stuck(s.readers[id])
  }

  ghost predicate WokenByBroadcast(s: State) {
    && (s.events.BroadcastUnlocking? ==> NoneStuck(s))
    && (s.flagAtBroadcast == Some(true) ==> s.shutdown && NoneStuck(s))
  }

  ghost predicate OneReader(s: State) {
    forall i, j :: i in s.readers && j in s.readers ==> i == j
  }

  /** A waiting reader has nothing to read, or its signal is the read thread's next action. */
  ghost predicate NothingMissed(s: State) {
    forall id :: id in s.readers && s.readers[id].Waiting? ==> s.fifo.queue == [] || s.events.CallbackSignalling?
  }

  ghost predicate Inv(s: State) {
    && Exclusive(s) && Phased(s) && AllKnow(s) && WokenByBroadcast(s) && Sound(s.fifo)
    && (OneReader(s) ==> NothingMissed(s))
  }

  lemma EventStepKeeps(s: State, step: EventAction)
    requires Inv(s) && EventStep(s, step).Some?
    ensures Inv(EventStep(s, step).value)
  {
    if s.events.CallbackSignalling? || s.events.Broadcasting? {
      WakeStepKeeps(s, step);
    } else {
      PlainEventStepKeeps(s, step);
    }
    if OneReader(s) { EventStepMissesNothing(s, step); }
  }

  lemma WakeKeeps(s: State, woken: set<nat>)
    requires Exclusive(s) && AllKnow(s) && EventsHold(s.events)
    ensures var t := WakeAll(s, woken);
            && Exclusive(t) && AllKnow(t) && (OneReader(t) ==> OneReader(s)) && t.readers.Keys == s.readers.Keys
            && (woken == Waiters(s) ==> NoneStuck(t))
  {
    var t := WakeAll(s, woken);
    assert forall id :: id in s.readers ==> id in t.readers && !Holds(t.readers[id]);
  }

  lemma WakeStepKeeps(s: State, step: EventAction)
    requires Inv(s) && EventStep(s, step).Some? && (s.events.CallbackSignalling? || s.events.Broadcasting?)
    ensures var t := EventStep(s, step).value;
            && Exclusive(t) && Phased(t) && AllKnow(t) && WokenByBroadcast(t) && Sound(t.fifo)
            && t.readers.Keys == s.readers.Keys
  {
    WakeKeeps(s, if s.events.CallbackSignalling? then step.woken else Waiters(s));
  }

  lemma PlainEventStepKeeps(s: State, step: EventAction)
    requires Inv(s) && EventStep(s, step).Some? && !s.events.CallbackSignalling? && !s.events.Broadcasting?
    ensures var t := EventStep(s, step).value;
            Exclusive(t) && Phased(t) && AllKnow(t) && WokenByBroadcast(t) && Sound(t.fifo) && t.readers == s.readers
  {
    PlainEventExcludes(s, step);
    PlainEventPhased(s, step);
    PlainEventKnown(s, step);
  }

  lemma PlainEventExcludes(s: State, step: EventAction)
    requires Inv(s) && EventStep(s, step).Some? && !s.events.CallbackSignalling? && !s.events.Broadcasting?
    ensures var t := EventStep(s, step).value; Exclusive(t) && t.readers == s.readers
  {
  }

  lemma PlainEventPhased(s: State, step: EventAction)
    requires Phased(s) && EventStep(s, step).Some? && !s.events.CallbackSignalling? && !s.events.Broadcasting?
    ensures Phased(EventStep(s, step).value)
  {
  }

  lemma PlainEventKnown(s: State, step: EventAction)
    requires Inv(s) && EventStep(s, step).Some? && !s.events.CallbackSignalling? && !s.events.Broadcasting?
    ensures var t := EventStep(s, step).value; AllKnow(t) && WokenByBroadcast(t) && Sound(t.fifo)
  {
    if s.events.CallbackAttaching? { ArriveSound(s.fifo, s.events.report); }
    assert s.readers == EventStep(s, step).value.readers;
    assert EventsHold(s.events) ==> forall id :: id in s.readers ==> !Holds(s.readers[id]);
  }

  /** One waiter is all there is, so the signal that goes with an arrival in an empty list finds it. */
  lemma EventStepMissesNothing(s: State, step: EventAction)
    requires Inv(s) && OneReader(s) && EventStep(s, step).Some?
    ensures NothingMissed(EventStep(s, step).value)
  {
    var t := EventStep(s, step).value;
    if s.events.CallbackSignalling? && Waiters(s) != {} {
      var woken :| woken in step.woken;
      assert forall id :: id in s.readers ==> id == woken;
    }
    assert forall id :: id in t.readers && t.readers[id].Waiting? ==> id in Waiters(s);
  }

  /** What a step of one reader can do, seen without the others. */
  lemma ReadingStepKeeps(id: nat, pc: ReaderPc, mutex: Option<Thread>, fifo: Fifo, shutdown: bool, step: ReadAction)
    requires ReadingStep(id, pc, mutex, fifo, shutdown, step).Some?
    requires Holds(pc) <==> mutex == Some(Reader(id))
    requires Knows(pc, fifo.queue, shutdown) && Sound(fifo)
    ensures var r := ReadingStep(id, pc, mutex, fifo, shutdown, step).value;
            && (Holds(r.pc) <==> r.mutex == Some(Reader(id)))
            && (|| r.mutex == mutex
                || (mutex.None? && r.mutex == Some(Reader(id)))
                || (mutex == Some(Reader(id)) && r.mutex.None?))
            && Knows(r.pc, r.fifo.queue, shutdown) && Sound(r.fifo)
            && (r.fifo != fifo ==> mutex == Some(Reader(id)))
            && (Stuck(r.pc) && !Stuck(pc) ==> !shutdown && mutex == Some(Reader(id)))
            && (r.pc.Waiting? ==> r.fifo.queue == [])
  {
    if fifo.queue != [] { TakeSound(fifo); }
  }

  lemma ReaderStepKeeps(s: State, id: nat, step: ReadAction)
    requires Inv(s) && ReaderStep(s, id, step).Some?
    ensures Inv(ReaderStep(s, id, step).value)
  {
    ReaderStepSafe(s, id, step);
    if OneReader(ReaderStep(s, id, step).value) { ReaderStepMissesNothing(s, id, step); }
  }

  lemma ReaderStepSafe(s: State, id: nat, step: ReadAction)
    requires Inv(s) && ReaderStep(s, id, step).Some?
    ensures var t := ReaderStep(s, id, step).value;
            Exclusive(t) && Phased(t) && AllKnow(t) && WokenByBroadcast(t) && Sound(t.fifo)
  {
    ReadingStepKeeps(id, PcOf(s, id), s.mutex, s.fifo, s.shutdown, step);
    assert ReaderStep(s, id, step).value.readers.Keys == s.readers.Keys + {id};
  }

  lemma ReaderStepMissesNothing(s: State, id: nat, step: ReadAction)
    requires Inv(s) && ReaderStep(s, id, step).Some? && OneReader(ReaderStep(s, id, step).value)
    ensures NothingMissed(ReaderStep(s, id, step).value)
  {
    ReadingStepKeeps(id, PcOf(s, id), s.mutex, s.fifo, s.shutdown, step);
    var t := ReaderStep(s, id, step).value;
    assert t.readers.Keys == s.readers.Keys + {id};
    assert id in t.readers;
  }

  lemma CloseStepKeeps(s: State, step: CloseAction)
    requires Inv(s) && CloseStep(s, step).Some?
    ensures Inv(CloseStep(s, step).value)
  {
    ClearSound(s.fifo);
  }

  lemma StepKeeps(s: State, step: Step)
    requires Inv(s)
    ensures Inv(Next(s, step))
  {
    if Do(s, step).Some? {
      match step
      case Events(action) => EventStepKeeps(s, action);
      case Reads(id, action) => ReaderStepKeeps(s, id, action);
      case Closes(action) => CloseStepKeeps(s, action);
    }
  }

  lemma {:induction false} RunKeeps(s: State, steps: seq<Step>)
    requires Inv(s)
    ensures Inv(After(s, steps))
    decreases |steps|
  {
    if steps != [] {
      StepKeeps(s, steps[0]);
      RunKeeps(Next(s, steps[0]), steps[1..]);
    }
  }

  /**
   Every reachable state: the mutex excludes; the list is a bounded FIFO of the arrivals; `-1` without a wait error is
   about to be returned only with the list empty and the flag seen; `hid_close` never cancels a transfer that has not
   been allocated; and a device with a single reader never leaves it asleep beside a queued report.
   */
  lemma ReachableIsSafe(steps: seq<Step>)
    ensures var s := Now(steps);
            && Exclusive(s) && Sound(s.fifo)
            && (forall id :: id in s.readers && s.readers[id].Returning? && s.readers[id].outcome.Disconnected? ==>
                  s.fifo.queue == [] && s.shutdown && s.mutex == Some(Reader(id)))
            && (!s.closing.NotClosing? ==> s.transfer)
            && (OneReader(s) ==> NothingMissed(s))
  {
    RunKeeps(INITIAL, steps);
  }
}
