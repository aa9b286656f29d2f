/**
 Who can still sleep when the read thread has ended (hid-libusb.c): nobody, if the shutdown flag was set at its last
 broadcast; and that is so unless a fatal error of the event loop has ended it. Two readers can miss a report besides.
 */
module ShutdownWakeups {
  import opened Common
  import opened ReportQueue
  import opened HidLibusb
  import opened ReadThread

  // ---- No lost shutdown wake-up ----

  lemma QuietStep(s: State, step: Step)
    requires s.shutdown && NoneStuck(s)
    ensures Next(s, step).shutdown && NoneStuck(Next(s, step))
  {
    var t := Next(s, step);
    forall id | id in t.readers ensures !Stuck(t.readers[id]) {
      if step.Events? && t.readers != s.readers { assert id in s.readers; }
    }
  }

  /** Once the flag is set and nobody is stuck, nobody ever gets stuck again. */
  lemma {:induction false} QuietForever(s: State, steps: seq<Step>)
    requires s.shutdown && NoneStuck(s)
    ensures var t := After(s, steps); t.shutdown && NoneStuck(t)
    decreases |steps|
  {
    if steps != [] {
      QuietStep(s, steps[0]);
      QuietForever(Next(s, steps[0]), steps[1..]);
    }
  }

  /**
   No lost wake-up: if the flag was set when the read thread broadcast, then from the broadcast on, through any further
   steps of any readers and of `hid_close`, no reader is blocked in a wait or on its way into one.
   */
  lemma NoLostShutdown(before: seq<Step>, later: seq<Step>)
    requires Now(before).flagAtBroadcast == Some(true)
    ensures NoneStuck(After(Now(before), later))
  {
    RunKeeps(INITIAL, before);
    QuietForever(Now(before), later);
  }

  // ---- Why the flag is set ----

  /** The read thread has left its loop, and has not broadcast yet. */
  predicate PastLoop(pc: EventPc) {
    match pc
    case InEvents(draining) => draining
    case CallbackLocking(_, draining) => draining
    case CallbackAttaching(_, draining) => draining
    case CallbackSignalling(draining) => draining
    case CallbackUnlocking(draining) => draining
    case CallbackSubmitting(draining) => draining
    case Cancelling => true
    case BroadcastLocking => true
    case Broadcasting => true
    case _ => false
  }

  /** The loop ends with the flag set, unless by a fatal error; from then on the flag stays set. */
  ghost predicate FlagCaused(s: State) {
    (PastLoop(s.events) ==> s.shutdown) && s.flagAtBroadcast != Some(false)
  }

  const FATAL_ERROR := Events(EventsReturn(true))

  lemma FlagCausedEvent(s: State, action: EventAction)
    requires FlagCaused(s) && EventStep(s, action).Some? && action != EventsReturn(true)
    ensures FlagCaused(EventStep(s, action).value)
  {
  }

  lemma FlagCausedStep(s: State, step: Step)
    requires FlagCaused(s) && step != FATAL_ERROR
    ensures FlagCaused(Next(s, step))
  {
    if Do(s, step).None? { return; }
    match step
    case Events(action) => FlagCausedEvent(s, action);
    case Reads(_, _) =>
    case Closes(_) =>
  }

  lemma {:induction false} FlagCausedRun(s: State, steps: seq<Step>)
    requires FlagCaused(s) && FATAL_ERROR !in steps
    ensures FlagCaused(After(s, steps))
    decreases |steps|
  {
    if steps != [] {
      FlagCausedStep(s, steps[0]);
      FlagCausedRun(Next(s, steps[0]), steps[1..]);
    }
  }

  /**
   Without a fatal error of the event loop, the flag is always set at the broadcast, so from then on no reader is
   blocked in a wait or on its way into one, whatever further steps are taken.
   */
  lemma NoLostShutdownWithoutFatalError(before: seq<Step>, later: seq<Step>)
    requires FATAL_ERROR !in before
    requires Now(before).flagAtBroadcast.Some?
    ensures Now(before).flagAtBroadcast == Some(true)
    ensures NoneStuck(After(Now(before), later))
  {
    FlagCausedRun(INITIAL, before);
    var flag := Now(before).flagAtBroadcast;
    assert flag.value != false;
    NoLostShutdown(before, later);
  }

  // ---- Sleeping for ever ----

  /** Nothing is left that would wake the reader: only the condition variable itself could, by a wake-up of its own. */
  ghost predicate Asleep(s: State, id: nat) {
    id in s.readers && s.readers[id].Waiting? && (s.events.BroadcastUnlocking? || s.events.Ended?)
  }

  predicate IsWakeOf(step: Step, id: nat) {
    step.Reads? && step.id == id && step.read.Wake?
  }

  lemma AsleepStep(s: State, step: Step, id: nat)
    requires Asleep(s, id) && !IsWakeOf(step, id)
    ensures Asleep(Next(s, step), id) && Next(s, step).readers[id] == s.readers[id]
  {
    match step
    case Events(_) =>
    case Reads(_, _) =>
    case Closes(_) =>
  }

  /**
   A reader that is asleep when the read thread has broadcast stays asleep, through every run without its own wake-up.
   */
  lemma {:induction false} StaysAsleep(s: State, steps: seq<Step>, id: nat)
    requires Asleep(s, id)
    requires forall i :: 0 <= i < |steps| ==> !IsWakeOf(steps[i], id)
    ensures Asleep(After(s, steps), id) && After(s, steps).readers[id] == s.readers[id]
    decreases |steps|
  {
    if steps != [] {
      AsleepStep(s, steps[0], id);
      StaysAsleep(Next(s, steps[0]), steps[1..], id);
    }
  }

  // ---- Runs ----

  /** Some run leads from `s` to `t`. */
  ghost predicate Leads(s: State, t: State) {
    exists steps :: After(s, steps) == t
  }

  lemma {:induction false} AfterConcat(s: State, first: seq<Step>, second: seq<Step>)
    ensures After(s, first + second) == After(After(s, first), second)
    decreases |first|
  {
    if first == [] {
      assert first + second == second;
    } else {
      assert (first + second)[1..] == first[1..] + second;
      AfterConcat(Next(s, first[0]), first[1..], second);
    }
  }

  lemma LeadsTo(s: State, t: State, u: State)
    requires Leads(s, t) && Leads(t, u)
    ensures Leads(s, u)
  {
    var first :| After(s, first) == t;
    var second :| After(t, second) == u;
    AfterConcat(s, first, second);
    assert After(s, first + second) == u;
  }

  lemma OneStep(s: State, step: Step, t: State)
    requires Do(s, step) == Some(t)
    ensures Leads(s, t)
  {
    assert After(t, [step][1..]) == t;
    assert After(s, [step]) == t;
  }

  /** A run given by the states it goes through. */
  ghost predicate Path(states: seq<State>, steps: seq<Step>) {
    && |states| == |steps| + 1
    && forall i, j :: 0 <= i < |steps| && j == i + 1 ==> Do(states[i], steps[i]) == Some(states[j])
  }

  lemma {:induction false} PathLeads(states: seq<State>, steps: seq<Step>)
    requires Path(states, steps)
    ensures Leads(states[0], states[|steps|])
    decreases |steps|
  {
    if steps == [] {
      assert After(states[0], []) == states[0];
    } else {
      PathLeads(states[1..], steps[1..]);
      OneStep(states[0], steps[0], states[1]);
      LeadsTo(states[0], states[1], states[|steps|]);
    }
  }

  /** The state while reader `id` is at `pc` and holds the mutex. */
  function Inside(s: State, id: nat, pc: ReaderPc): State {
    s.(readers := s.readers[id := pc], mutex := Some(Reader(id)))
  }

  /** A reader that is idle, or has not called yet, while nobody holds the mutex. */
  ghost predicate Callable(s: State, id: nat) {
    s.ready && s.mutex.None? && PcOf(s, id).Idle?
  }

  /** A blocking call that finds the list empty and the flag clear goes to sleep. */
  lemma BlockingCallSleeps(s: State, id: nat)
    requires Callable(s, id) && s.fifo.queue == [] && !s.shutdown
    ensures Leads(s, s.(readers := s.readers[id := Waiting(0, -1)]))
  {
    var s1 := s.(readers := s.readers[id := Locking(0, -1)]);
    var s2 := Inside(s, id, CheckingQueue(0, -1));
    var s3 := Inside(s, id, CheckingShutdown(0, -1));
    var s4 := Inside(s, id, TestingLoop(0, -1));
    var s5 := Inside(s, id, AboutToWait(0, -1));
    var s6 := s.(readers := s.readers[id := Waiting(0, -1)]);
    assert Do(s, Reads(id, Call(0, -1))) == Some(s1);
    assert s1.readers[id := CheckingQueue(0, -1)] == s2.readers;
    assert Do(s1, Reads(id, Lock)) == Some(s2);
    assert s2.readers[id := CheckingShutdown(0, -1)] == s3.readers;
    assert Do(s2, Reads(id, CheckQueue)) == Some(s3);
    assert s3.readers[id := TestingLoop(0, -1)] == s4.readers;
    assert Do(s3, Reads(id, CheckShutdown)) == Some(s4);
    assert s4.readers[id := AboutToWait(0, -1)] == s5.readers;
    assert Do(s4, Reads(id, TestLoop)) == Some(s5);
    assert s5.readers[id := Waiting(0, -1)] == s6.readers;
    assert Do(s5, Reads(id, Wait)) == Some(s6);
    PathLeads([s, s1, s2, s3, s4, s5, s6],
      [Reads(id, Call(0, -1)), Reads(id, Lock), Reads(id, CheckQueue), Reads(id, CheckShutdown), Reads(id, TestLoop),
       Reads(id, Wait)]);
  }

  /** A call that finds a report takes it. */
  lemma CallTakes(s: State, id: nat)
    requires Callable(s, id) && s.fifo.queue != []
    ensures Leads(s, s.(readers := s.readers[id := Idle], fifo := Take(s.fifo)))
  {
    var taken := Returning(Delivered(Prefix(s.fifo.queue[0], 0)));
    var s1 := s.(readers := s.readers[id := Locking(0, 0)]);
    var s2 := Inside(s, id, CheckingQueue(0, 0));
    var s3 := Inside(s, id, taken).(fifo := Take(s.fifo));
    var s4 := s.(readers := s.readers[id := Idle], fifo := Take(s.fifo));
    assert Do(s, Reads(id, Call(0, 0))) == Some(s1);
    assert s1.readers[id := CheckingQueue(0, 0)] == s2.readers;
    assert Do(s1, Reads(id, Lock)) == Some(s2);
    assert s2.readers[id := taken] == s3.readers;
    assert Do(s2, Reads(id, CheckQueue)) == Some(s3);
    assert s3.readers[id := Idle] == s4.readers;
    assert Do(s3, Reads(id, Unlock)) == Some(s4);
    PathLeads([s, s1, s2, s3, s4], [Reads(id, Call(0, 0)), Reads(id, Lock), Reads(id, CheckQueue), Reads(id, Unlock)]);
  }

  /** With the flag clear, a reader can drain the list and then fall asleep. */
  lemma {:induction false} CanFallAsleep(s: State, id: nat) returns (t: State)
    requires Callable(s, id) && !s.shutdown
    ensures Leads(s, t) && id in t.readers && t.readers[id].Waiting? && t.events == s.events
    decreases |s.fifo.queue|
  {
    if s.fifo.queue == [] {
      BlockingCallSleeps(s, id);
      t := s.(readers := s.readers[id := Waiting(0, -1)]);
    } else {
      CallTakes(s, id);
      var u := s.(readers := s.readers[id := Idle], fifo := Take(s.fifo));
      t := CanFallAsleep(u, id);
      LeadsTo(s, u, t);
    }
  }

  /** Some run from `s` ends with a reader asleep, which no later step but a wake-up of its own can change. */
  ghost predicate CanBlock(s: State) {
    exists t, id :: Leads(s, t) && Asleep(t, id)
  }

  lemma QuietCannotBlock(s: State)
    requires s.shutdown && NoneStuck(s)
    ensures !CanBlock(s)
  {
    forall t, id | Leads(s, t) ensures !Asleep(t, id) {
      var steps :| After(s, steps) == t;
      QuietForever(s, steps);
    }
  }

  /**
   The exact condition: right after the broadcast, while the read thread still holds the mutex, a reader can end up
   asleep, and by `StaysAsleep` for ever, if and only if the flag is clear.
   */
  lemma BlockedAfterBroadcastIffFlagClear(s: State)
    requires Leads(INITIAL, s) && s.events.BroadcastUnlocking?
    ensures CanBlock(s) <==> !s.shutdown
  {
    var before :| After(INITIAL, before) == s;
    RunKeeps(INITIAL, before);
    if s.shutdown {
      QuietCannotBlock(s);
    } else {
      var t := s.(events := Ended, mutex := None);
      OneStep(s, Events(BroadcastUnlock), t);
      var id := FreshReader(t.readers.Keys);
      var u := CanFallAsleep(t, id);
      LeadsTo(s, t, u);
      assert Asleep(u, id);
    }
  }

  lemma FreshReader(used: set<nat>) returns (id: nat)
    ensures id !in used
  {
    var rest := used;
    id := 0;
    while rest != {}
      invariant forall i :: i in used && i !in rest ==> i < id
      decreases rest
    {
      var i :| i in rest;
      rest := rest - {i};
      if id <= i { id := i + 1; }
    }
  }

  /** The read thread inside its first round of events. */
  const RUNNING := INITIAL.(events := InEvents(false), transfer := true, submitted := true, ready := true)

  lemma Starts()
    ensures Leads(INITIAL, RUNNING)
  {
    var s1 := INITIAL.(events := AtBarrier, transfer := true, submitted := true);
    var s2 := RUNNING.(events := TestingFlag);
    assert Do(INITIAL, Events(SetUpTransfer(true))) == Some(s1);
    assert Do(s1, Events(PassBarrier)) == Some(s2);
    assert Do(s2, Events(TestFlag)) == Some(RUNNING);
    PathLeads([INITIAL, s1, s2, RUNNING], [Events(SetUpTransfer(true)), Events(PassBarrier), Events(TestFlag)]);
  }

  /**
   A fatal error of the event loop is such a case: it ends the loop, and reaches the broadcast, with the flag clear;
   then a reader falls asleep, and stays so through every run without a wake-up of its own.
   */
  lemma FatalErrorStrandsReaders() returns (s: State, t: State, id: nat)
    ensures Leads(INITIAL, s) && s.events.BroadcastUnlocking? && s.flagAtBroadcast == Some(false)
    ensures Leads(s, t) && Asleep(t, id)
    ensures forall steps :: (forall i :: 0 <= i < |steps| ==> !IsWakeOf(steps[i], id))
              ==> Asleep(After(t, steps), id)
  {
    Starts();
    var s1 := RUNNING.(events := Cancelling);
    var s2 := RUNNING.(events := BroadcastLocking);
    var s3 := RUNNING.(events := Broadcasting, mutex := Some(EventThread));
    s := s3.(events := BroadcastUnlocking, flagAtBroadcast := Some(false));
    assert Do(RUNNING, Events(EventsReturn(true))) == Some(s1);
    assert Do(s1, Events(CancelTransfer(false))) == Some(s2);
    assert Do(s2, Events(BroadcastLock)) == Some(s3);
    assert WakeAll(s3, Waiters(s3)).readers == s.readers;
    assert Do(s3, Events(Broadcast)) == Some(s);
    PathLeads([RUNNING, s1, s2, s3, s],
      [FATAL_ERROR, Events(CancelTransfer(false)), Events(BroadcastLock), Events(Broadcast)]);
    LeadsTo(INITIAL, RUNNING, s);
    BlockedAfterBroadcastIffFlagClear(s);
    t, id :| Leads(s, t) && Asleep(t, id);
    forall steps | (forall i :: 0 <= i < |steps| ==> !IsWakeOf(steps[i], id))
      ensures Asleep(After(t, steps), id)
    {
      StaysAsleep(t, steps, id);
    }
  }

  // ---- Two readers ----

  /** A report arrives in an empty list while the read thread handles events and the mutex is free. */
  lemma FirstReportArrives(s: State, r: Report, woken: set<nat>)
    requires s.events == InEvents(false) && s.submitted && s.mutex.None? && s.fifo.queue == []
    requires woken <= Waiters(s) && (woken == {} ==> Waiters(s) == {})
    ensures Leads(s, WakeAll(s, woken).(fifo := Arrive(s.fifo, r)))
  {
    var held := s.(mutex := Some(EventThread), submitted := false, fifo := Arrive(s.fifo, r));
    var s1 := s.(events := CallbackLocking(r, false), submitted := false);
    var s2 := s1.(events := CallbackAttaching(r, false), mutex := Some(EventThread));
    var s3 := held.(events := CallbackSignalling(false));
    var s4 := WakeAll(held, woken).(events := CallbackUnlocking(false));
    var s5 := s4.(events := CallbackSubmitting(false), mutex := None);
    var s6 := WakeAll(s, woken).(fifo := Arrive(s.fifo, r));
    assert Do(s, Events(TransferCompleted(r))) == Some(s1);
    assert Do(s1, Events(CallbackLock)) == Some(s2);
    assert Do(s2, Events(CallbackAttach)) == Some(s3);
    assert Waiters(s3) == Waiters(s);
    assert WakeAll(s3, woken).readers == s4.readers;
    assert Do(s3, Events(CallbackSignal(woken))) == Some(s4);
    assert Do(s4, Events(CallbackUnlock)) == Some(s5);
    assert s6.readers == s5.readers;
    assert Do(s5, Events(CallbackSubmit(true))) == Some(s6);
    PathLeads([s, s1, s2, s3, s4, s5, s6],
      [Events(TransferCompleted(r)), Events(CallbackLock), Events(CallbackAttach), Events(CallbackSignal(woken)),
       Events(CallbackUnlock), Events(CallbackSubmit(true))]);
  }

  /** A report arrives behind others: nobody is signalled. */
  lemma NextReportArrives(s: State, r: Report)
    requires s.events == InEvents(false) && s.submitted && s.mutex.None? && s.fifo.queue != []
    ensures Leads(s, s.(fifo := Arrive(s.fifo, r)))
  {
    var held := s.(mutex := Some(EventThread), submitted := false, fifo := Arrive(s.fifo, r));
    var s1 := s.(events := CallbackLocking(r, false), submitted := false);
    var s2 := s1.(events := CallbackAttaching(r, false), mutex := Some(EventThread));
    var s3 := held.(events := CallbackUnlocking(false));
    var s4 := held.(events := CallbackSubmitting(false), mutex := None);
    var s5 := s.(fifo := Arrive(s.fifo, r));
    assert Do(s, Events(TransferCompleted(r))) == Some(s1);
    assert Do(s1, Events(CallbackLock)) == Some(s2);
    assert Do(s2, Events(CallbackAttach)) == Some(s3);
    assert Do(s3, Events(CallbackUnlock)) == Some(s4);
    assert Do(s4, Events(CallbackSubmit(true))) == Some(s5);
    PathLeads([s, s1, s2, s3, s4, s5],
      [Events(TransferCompleted(r)), Events(CallbackLock), Events(CallbackAttach), Events(CallbackUnlock),
       Events(CallbackSubmit(true))]);
  }

  /**
   With two readers the single-reader guarantee is false. Both sleep; two reports arrive, and only the first one
   signals; afterwards a reader is asleep although a report is queued and no signal is on its way.
   */
  lemma SecondReaderMissesReport(first: Report, second: Report) returns (s: State)
    ensures Leads(INITIAL, s) && s.events == InEvents(false) && s.mutex.None?
    ensures s.fifo.queue == [first, second] && !NothingMissed(s)
  {
    Starts();
    var s1 := RUNNING.(readers := map[0 := Waiting(0, -1)]);
    var s2 := s1.(readers := s1.readers[1 := Waiting(0, -1)]);
    BlockingCallSleeps(RUNNING, 0);
    BlockingCallSleeps(s1, 1);
    assert RUNNING.readers[0 := Waiting(0, -1)] == s1.readers;
    assert 0 in Waiters(s2) && 1 in Waiters(s2);
    FirstReportArrives(s2, first, {0});
    var s3 := WakeAll(s2, {0}).(fifo := Arrive(s2.fifo, first));
    NextReportArrives(s3, second);
    s := s3.(fifo := Arrive(s3.fifo, second));
    LeadsTo(INITIAL, RUNNING, s1);
    LeadsTo(INITIAL, s1, s2);
    LeadsTo(INITIAL, s2, s3);
    LeadsTo(INITIAL, s3, s);
    assert s.readers[1] == Waiting(0, -1);
  }
}
