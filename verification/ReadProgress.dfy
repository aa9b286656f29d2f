/**
 What must happen and can happen in the protocol of hid-libusb.c: what sets the shutdown flag, that the read thread
 then ends with a broadcast, that readers are told and `hid_close` finishes, and that nobody keeps the mutex.
 */
module ReadProgress {
  import opened Common
  import opened ReportQueue
  import opened HidLibusb
  import opened ReadThread
  import opened ShutdownWakeups

  // ---- What sets the flag ----

  /** A transfer that is cancelled or has lost its device, one that cannot be submitted again, and `hid_close`. */
  predicate SetsFlag(step: Step) {
    step == Events(TransferGone) || step == Events(CallbackSubmit(false)) || step == Closes(CloseSetFlag)
  }

  predicate SetAt(s: State, steps: seq<Step>, i: nat) {
    i < |steps| && SetsFlag(steps[i]) && Do(After(s, steps[..i]), steps[i]).Some?
  }

  lemma EventSetsFlag(s: State, action: EventAction)
    requires EventStep(s, action).Some?
    ensures EventStep(s, action).value.shutdown <==> s.shutdown || SetsFlag(Events(action))
  {
  }

  lemma StepSetsFlag(s: State, step: Step)
    ensures Next(s, step).shutdown <==> s.shutdown || (SetsFlag(step) && Do(s, step).Some?)
  {
    if Do(s, step).None? { return; }
    match step
    case Events(action) => EventSetsFlag(s, action);
    case Reads(_, _) =>
    case Closes(_) =>
  }

  lemma SetLater(s: State, steps: seq<Step>, i: nat)
    requires steps != []
    ensures SetAt(Next(s, steps[0]), steps[1..], i) <==> SetAt(s, steps, i + 1)
    ensures SetAt(s, steps, 0) <==> SetsFlag(steps[0]) && Do(s, steps[0]).Some?
  {
    assert steps[..0] == [];
    if i < |steps[1..]| { assert steps[..i + 1][1..] == steps[1..][..i]; }
  }

  lemma {:induction false} RunSetsFlag(s: State, steps: seq<Step>)
    ensures After(s, steps).shutdown <==> s.shutdown || exists i :: SetAt(s, steps, i)
    decreases |steps|
  {
    if steps != [] {
      var t := Next(s, steps[0]);
      RunSetsFlag(t, steps[1..]);
      StepSetsFlag(s, steps[0]);
      SetLater(s, steps, 0);
      forall i: nat ensures SetAt(t, steps[1..], i) <==> SetAt(s, steps, i + 1) { SetLater(s, steps, i); }
      if i: nat :| SetAt(s, steps, i) && i > 0 { assert SetAt(t, steps[1..], i - 1); }
    }
  }

  /**
   In every run the flag is set if and only if one of these steps has been taken: the transfer was cancelled or lost its
   device, it could not be submitted again, or `hid_close` was called. From then on it stays set.
   */
  lemma ShutdownIff(steps: seq<Step>, later: seq<Step>)
    ensures Now(steps).shutdown <==> exists i :: SetAt(INITIAL, steps, i)
    ensures Now(steps).shutdown ==> After(Now(steps), later).shutdown
  {
    RunSetsFlag(INITIAL, steps);
    RunSetsFlag(Now(steps), later);
  }

  // ---- Runs of one thread ----

  predicate By(step: Step, who: Thread) {
    match who
    case Reader(id) => step.Reads? && step.id == id
    case EventThread => step.Events?
    case Closer => step.Closes?
  }

  /** One thread can get from `s` to `t` while the others do nothing. */
  ghost predicate LeadsAlone(who: Thread, s: State, t: State) {
    exists steps :: After(s, steps) == t && forall step :: step in steps ==> By(step, who)
  }

  lemma StaysAlone(who: Thread, s: State)
    ensures LeadsAlone(who, s, s)
  {
    assert After(s, []) == s;
  }

  lemma OneAlone(who: Thread, s: State, step: Step, t: State, u: State)
    requires By(step, who) && Do(s, step) == Some(t) && LeadsAlone(who, t, u)
    ensures LeadsAlone(who, s, u)
  {
    var rest :| After(t, rest) == u && forall step :: step in rest ==> By(step, who);
    assert ([step] + rest)[1..] == rest;
    assert After(s, [step] + rest) == u;
  }

  lemma AloneLeads(who: Thread, s: State, t: State)
    requires LeadsAlone(who, s, t)
    ensures Leads(s, t) && (Inv(s) ==> Inv(t)) && (s.shutdown ==> t.shutdown)
  {
    var steps :| After(s, steps) == t && forall step :: step in steps ==> By(step, who);
    if Inv(s) { RunKeeps(s, steps); }
    RunSetsFlag(s, steps);
  }

  // ---- The read thread ends ----

  /** How far the read thread is from its end, once the flag is set. */
  function EventsRank(pc: EventPc): nat {
    match pc
    case Starting => 19
    case AtBarrier => 18
    case CallbackLocking(_, draining) => if draining then 9 else 17
    case CallbackAttaching(_, draining) => if draining then 8 else 16
    case CallbackSignalling(draining) => if draining then 7 else 15
    case CallbackUnlocking(draining) => if draining then 6 else 14
    case CallbackSubmitting(draining) => if draining then 5 else 13
    case InEvents(draining) => if draining then 4 else 12
    case TestingFlag => 11
    case Cancelling => 10
    case BroadcastLocking => 3
    case Broadcasting => 2
    case BroadcastUnlocking => 1
    case Ended => 0
  }

  /** The mutex is free, or the thread has it itself. */
  predicate Unhindered(s: State, who: Thread) {
    s.mutex.None? || s.mutex == Some(who)
  }

  function NextEvent(s: State): EventAction
    requires !s.events.Ended?
  {
    match s.events
    case Starting => SetUpTransfer(true)
    case AtBarrier => PassBarrier
    case TestingFlag => TestFlag
    case InEvents(_) => EventsReturn(false)
    case CallbackLocking(_, _) => CallbackLock
    case CallbackAttaching(_, _) => CallbackAttach
    case CallbackSignalling(_) => CallbackSignal(Waiters(s))
    case CallbackUnlocking(_) => CallbackUnlock
    case CallbackSubmitting(_) => CallbackSubmit(true)
    case Cancelling => CancelTransfer(false)
    case BroadcastLocking => BroadcastLock
    case Broadcasting => Broadcast
    case BroadcastUnlocking => BroadcastUnlock
  }

  /** The flag stays set, the broadcast finds it set, and nobody else is touched, but that readers are woken. */
  ghost predicate GoesOnTo(s: State, t: State) {
    && t.shutdown && t.closing == s.closing && t.readers.Keys == s.readers.Keys
    && (if s.flagAtBroadcast.None? then t.flagAtBroadcast != Some(false) else t.flagAtBroadcast == s.flagAtBroadcast)
    && (!Calling(s.events) ==> t.fifo == s.fifo && !Calling(t.events))
  }

  lemma NextEventTaken(s: State) returns (t: State)
    requires Exclusive(s) && s.shutdown && !s.events.Ended? && Unhindered(s, EventThread)
    ensures Do(s, Events(NextEvent(s))) == Some(t) && EventsRank(t.events) < EventsRank(s.events)
    ensures Unhindered(t, EventThread)
  {
    t := Do(s, Events(NextEvent(s))).value;
  }

  lemma NextEventGoesOn(s: State)
    requires Phased(s) && s.shutdown && !s.events.Ended? && Do(s, Events(NextEvent(s))).Some?
    ensures GoesOnTo(s, Do(s, Events(NextEvent(s))).value)
  {
  }

  lemma EventsGoOn(s: State) returns (t: State)
    requires Inv(s) && s.shutdown && !s.events.Ended? && Unhindered(s, EventThread)
    ensures Do(s, Events(NextEvent(s))) == Some(t) && EventsRank(t.events) < EventsRank(s.events)
    ensures Inv(t) && Unhindered(t, EventThread) && GoesOnTo(s, t)
  {
    t := NextEventTaken(s);
    NextEventGoesOn(s);
    EventStepKeeps(s, NextEvent(s));
  }

  /** The read thread is in a callback that still adds its report. */
  predicate Calling(pc: EventPc) {
    pc.CallbackLocking? || pc.CallbackAttaching?
  }

  lemma {:induction false} EventsReachEnd(s: State) returns (t: State)
    requires Inv(s) && s.shutdown && Unhindered(s, EventThread)
    ensures LeadsAlone(EventThread, s, t) && Inv(t) && t.events.Ended? && GoesOnTo(s, t) && Unhindered(t, EventThread)
    decreases EventsRank(s.events)
  {
    t := s;
    if s.events.Ended? {
      StaysAlone(EventThread, s);
    } else {
      var u := EventsGoOn(s);
      t := EventsReachEnd(u);
      OneAlone(EventThread, s, Events(NextEvent(s)), u, t);
      GoneOn(s, u, t);
    }
  }

  lemma GoneOn(s: State, u: State, t: State)
    requires GoesOnTo(s, u) && GoesOnTo(u, t)
    ensures GoesOnTo(s, t)
  {
  }

  lemma EventsFinish(s: State) returns (t: State)
    requires Inv(s) && s.shutdown && Unhindered(s, EventThread)
    ensures LeadsAlone(EventThread, s, t) && Inv(t) && t.shutdown && t.events.Ended? && t.mutex.None?
    ensures t.flagAtBroadcast == if s.flagAtBroadcast.None? then Some(true) else s.flagAtBroadcast
    ensures t.closing == s.closing && t.readers.Keys == s.readers.Keys
    ensures !Calling(s.events) ==> t.fifo == s.fifo
  {
    t := EventsReachEnd(s);
    if t.flagAtBroadcast != Some(false) { FlagWasSet(t.flagAtBroadcast); }
  }

  // ---- Nobody keeps the mutex ----

  /** How far a call is from letting go of the mutex, and from its return. */
  function ReaderRank(pc: ReaderPc): nat {
    match pc
    case Locking(_, _) => 9
    case Woken(_, _, _) => 9
    case CheckingQueue(_, _) => 7
    case Resumed(_, _, _) => 7
    case CheckingShutdown(_, _) => 6
    case TestingLoop(_, _) => 5
    case LeftLoop(_, _) => 4
    case AboutToWait(_, _) => 2
    case Returning(_) => 2
    case _ => 0
  }

  function NextRead(pc: ReaderPc): ReadAction
    requires !pc.Idle? && !pc.Waiting?
  {
    match pc
    case Locking(_, _) => Lock
    case Woken(_, _, _) => Relock
    case CheckingQueue(_, _) => CheckQueue
    case CheckingShutdown(_, _) => CheckShutdown
    case TestingLoop(_, _) => TestLoop
    case AboutToWait(_, _) => Wait
    case Resumed(_, _, _) => Resume
    case LeftLoop(_, _) => LeaveLoop
    case Returning(_) => Unlock
  }

  lemma ReadingGoesOn(id: nat, pc: ReaderPc, mutex: Option<Thread>, fifo: Fifo, shutdown: bool) returns (r: Reading)
    requires !pc.Idle? && !pc.Waiting? && (mutex.None? || mutex == Some(Reader(id)))
    requires Holds(pc) <==> mutex == Some(Reader(id))
    ensures ReadingStep(id, pc, mutex, fifo, shutdown, NextRead(pc)) == Some(r)
    ensures ReaderRank(r.pc) < ReaderRank(pc) && (r.mutex.None? || r.mutex == Some(Reader(id)))
  {
    r := ReadingStep(id, pc, mutex, fifo, shutdown, NextRead(pc)).value;
  }

  lemma ReaderGoesOn(s: State, id: nat) returns (t: State)
    requires Inv(s) && s.mutex == Some(Reader(id))
    ensures id in s.readers && Do(s, Reads(id, NextRead(s.readers[id]))) == Some(t) && Inv(t)
    ensures id in t.readers && ReaderRank(t.readers[id]) < ReaderRank(s.readers[id])
    ensures t == s.(readers := s.readers[id := t.readers[id]], mutex := t.mutex, fifo := t.fifo)
    ensures t.mutex.None? || t.mutex == s.mutex
  {
    var r := ReadingGoesOn(id, PcOf(s, id), s.mutex, s.fifo, s.shutdown);
    t := s.(readers := s.readers[id := r.pc], mutex := r.mutex, fifo := r.fifo);
    ReaderStepKeeps(s, id, NextRead(s.readers[id]));
  }

  lemma {:induction false} ReaderReleases(s: State, id: nat) returns (t: State)
    requires Inv(s) && s.mutex == Some(Reader(id)) && id in s.readers
    ensures LeadsAlone(Reader(id), s, t) && Inv(t) && t.mutex.None?
    ensures id in t.readers && t == s.(readers := s.readers[id := t.readers[id]], mutex := None, fifo := t.fifo)
    decreases ReaderRank(s.readers[id])
  {
    var u := ReaderGoesOn(s, id);
    t := u;
    if u.mutex.None? { StaysAlone(Reader(id), u); } else { t := ReaderReleases(u, id); }
    OneAlone(Reader(id), s, Reads(id, NextRead(s.readers[id])), u, t);
  }

  /** How far the read thread is from letting go of the mutex. */
  function HoldRank(pc: EventPc): nat {
    match pc
    case CallbackAttaching(_, _) => 3
    case CallbackSignalling(_) => 2
    case CallbackUnlocking(_) => 1
    case Broadcasting => 2
    case BroadcastUnlocking => 1
    case _ => 0
  }

  lemma EventsLetGo(s: State) returns (t: State)
    requires Inv(s) && s.mutex == Some(EventThread)
    ensures !s.events.Ended? && Do(s, Events(NextEvent(s))) == Some(t) && Inv(t) && Unhindered(t, EventThread)
    ensures HoldRank(t.events) < HoldRank(s.events)
    ensures t.closing == s.closing && t.shutdown == s.shutdown && t.ready == s.ready
    ensures t.readers.Keys == s.readers.Keys && !t.events.Broadcasting?
    ensures t.flagAtBroadcast == if s.events.Broadcasting? then Some(s.shutdown) else s.flagAtBroadcast
  {
    t := Do(s, Events(NextEvent(s))).value;
    EventStepKeeps(s, NextEvent(s));
  }

  lemma {:induction false} EventsRelease(s: State) returns (t: State)
    requires Inv(s) && s.mutex == Some(EventThread)
    ensures LeadsAlone(EventThread, s, t) && Inv(t) && t.mutex.None? && t.closing == s.closing
    ensures t.shutdown == s.shutdown && t.ready == s.ready && t.readers.Keys == s.readers.Keys
    ensures t.flagAtBroadcast == if s.events.Broadcasting? then Some(s.shutdown) else s.flagAtBroadcast
    decreases HoldRank(s.events)
  {
    var u := EventsLetGo(s);
    t := u;
    if u.mutex.None? { StaysAlone(EventThread, u); } else { t := EventsRelease(u); }
    OneAlone(EventThread, s, Events(NextEvent(s)), u, t);
  }

  lemma CloserReleases(s: State) returns (t: State)
    requires Inv(s) && s.mutex == Some(Closer)
    ensures LeadsAlone(Closer, s, t) && Inv(t) && t.mutex.None? && t.closing.Closed?
    ensures t == s.(fifo := t.fifo, closing := Closed, mutex := None) && t.events.Ended?
    ensures s.closing.Clearing? ==> t.fifo.queue == []
  {
    ClearSound(s.fifo);
    var u := if s.closing.Clearing? then s.(closing := ClearUnlocking, fifo := Clear(s.fifo)) else s;
    t := u.(closing := Closed, mutex := None);
    StaysAlone(Closer, t);
    OneAlone(Closer, u, Closes(CloseUnlock), t, t);
    if s.closing.Clearing? { OneAlone(Closer, s, Closes(CloseClear), u, t); }
    AloneLeads(Closer, s, t);
  }

  /** No deadlock: from every reachable state, whoever has the mutex can let go of it by steps of its own. */
  lemma MutexIsReleased(before: seq<Step>) returns (t: State)
    requires Now(before).mutex.Some?
    ensures LeadsAlone(Now(before).mutex.value, Now(before), t) && t.mutex.None?
  {
    var s := Now(before);
    RunKeeps(INITIAL, before);
    match s.mutex.value
    case Reader(id) => t := ReaderReleases(s, id);
    case EventThread => t := EventsRelease(s);
    case Closer => t := CloserReleases(s);
  }

  // ---- Readers are told ----

  /** The answer that a call gets which goes on from here with the flag set. */
  function ToldNow(pc: ReaderPc, queue: seq<Report>): Outcome
    requires !pc.Idle? && !pc.Waiting? && !pc.AboutToWait?
  {
    if pc.Returning? then pc.outcome
    else if (pc.Woken? || pc.Resumed?) && pc.ms > 0 && pc.result == TimedOut then NothingYet
    else if (pc.Woken? || pc.Resumed?) && pc.ms > 0 && pc.result == WaitFailed then WaitError
    else if queue == [] then Disconnected
    else Delivered(if pc.length < |queue[0]| then queue[0][..pc.length] else queue[0])
  }

  predicate Underway(s: State, id: nat) {
    id in s.readers && !s.readers[id].Idle? && !Stuck(s.readers[id])
  }

  lemma ReadingTells(id: nat, pc: ReaderPc, mutex: Option<Thread>, fifo: Fifo)
    requires !pc.Idle? && !Stuck(pc) && !pc.Returning? && Knows(pc, fifo.queue, true)
    requires ReadingStep(id, pc, mutex, fifo, true, NextRead(pc)).Some?
    ensures var r := ReadingStep(id, pc, mutex, fifo, true, NextRead(pc)).value;
            !r.pc.Idle? && !Stuck(r.pc) && ToldNow(r.pc, r.fifo.queue) == ToldNow(pc, fifo.queue)
  {
  }

  lemma CallGoesOn(s: State, id: nat) returns (t: State)
    requires Inv(s) && s.shutdown && s.ready && Unhindered(s, Reader(id)) && Underway(s, id)
    requires !s.readers[id].Returning?
    ensures Do(s, Reads(id, NextRead(s.readers[id]))) == Some(t) && Inv(t) && Unhindered(t, Reader(id))
    ensures Underway(t, id) && ReaderRank(t.readers[id]) < ReaderRank(s.readers[id]) && t.shutdown && t.ready
    ensures ToldNow(t.readers[id], t.fifo.queue) == ToldNow(s.readers[id], s.fifo.queue)
  {
    var pc := s.readers[id];
    var r := ReadingGoesOn(id, pc, s.mutex, s.fifo, s.shutdown);
    t := s.(readers := s.readers[id := r.pc], mutex := r.mutex, fifo := r.fifo);
    ReadingTells(id, pc, s.mutex, s.fifo);
    ReaderStepKeeps(s, id, NextRead(pc));
  }

  /**
   With the flag set, a call that is not blocked returns by its own steps: with the oldest report if there is one, and
   with a disconnect if there is none, unless its timed wait has ended otherwise.
   */
  lemma {:induction false} CallReturns(s: State, id: nat) returns (t: State)
    requires Inv(s) && s.shutdown && s.ready && Unhindered(s, Reader(id)) && Underway(s, id)
    ensures LeadsAlone(Reader(id), s, t) && id in t.readers
    ensures t.readers[id] == Returning(ToldNow(s.readers[id], s.fifo.queue))
    decreases ReaderRank(s.readers[id])
  {
    t := s;
    if s.readers[id].Returning? {
      StaysAlone(Reader(id), s);
    } else {
      var u := CallGoesOn(s, id);
      t := CallReturns(u, id);
      OneAlone(Reader(id), s, Reads(id, NextRead(s.readers[id])), u, t);
    }
  }

  lemma FreeMutex(s: State) returns (t: State)
    requires Inv(s) && s.shutdown
    ensures Leads(s, t) && Inv(t) && t.shutdown && t.mutex.None? && s.readers.Keys <= t.readers.Keys
    ensures t.flagAtBroadcast == s.flagAtBroadcast || (s.flagAtBroadcast.None? && t.flagAtBroadcast == Some(true))
    ensures s.closing.Joining? ==> t.closing.Joining?
  {
    t := s;
    if s.mutex.Some? {
      match s.mutex.value {
        case Reader(id) => t := ReaderReleases(s, id);
        case EventThread => t := EventsRelease(s);
        case Closer => t := CloserReleases(s);
      }
      AloneLeads(s.mutex.value, s, t);
    } else {
      assert After(s, []) == s;
    }
  }

  /** With the flag set, the read thread can end, and unless it has broadcast before, it finds the flag set then. */
  lemma ThreadEnds(s: State) returns (t: State)
    requires Inv(s) && s.shutdown
    ensures Leads(s, t) && Inv(t) && t.shutdown && t.mutex.None? && t.events.Ended?
    ensures t.flagAtBroadcast == if s.flagAtBroadcast.None? then Some(true) else s.flagAtBroadcast
    ensures s.readers.Keys <= t.readers.Keys && (s.closing.Joining? ==> t.closing.Joining?)
  {
    var u := FreeMutex(s);
    t := EventsFinish(u);
    AloneLeads(EventThread, u, t);
    LeadsTo(s, u, t);
  }

  /** A device that has gone ends the read thread: it can reach its broadcast, which finds the flag set. */
  lemma ThreadCanEnd(before: seq<Step>, i: nat) returns (t: State)
    requires SetAt(INITIAL, before, i) && Now(before).flagAtBroadcast.None?
    ensures Leads(Now(before), t) && t.events.Ended? && t.flagAtBroadcast == Some(true) && NoneStuck(t)
  {
    RunKeeps(INITIAL, before);
    ShutdownIff(before, []);
    t := ThreadEnds(Now(before));
  }

  lemma FlagWasSet(flag: Option<bool>)
    requires flag != Some(false)
    ensures flag.None? || flag == Some(true)
  {
    if flag.Some? { assert flag.value != false; }
  }

  /**
   Once the flag is set, and unless a fatal error has led to a broadcast without it, the read thread can end after a
   broadcast that finds it set, and then no reader is blocked: each one that is in a call can return, and is given the
   oldest report or, if there is none, told of the disconnect, unless its timed wait has ended otherwise.
   */
  lemma EveryReaderIsTold(before: seq<Step>, id: nat) returns (t: State, u: State)
    requires Now(before).shutdown && Now(before).flagAtBroadcast != Some(false)
    requires id in Now(before).readers
    ensures Leads(Now(before), t) && t.events.Ended? && t.flagAtBroadcast == Some(true) && NoneStuck(t)
    ensures id in t.readers && id in u.readers && !t.readers[id].Waiting? && !t.readers[id].AboutToWait?
    ensures !t.readers[id].Idle? ==>
      LeadsAlone(Reader(id), t, u) && u.readers[id] == Returning(ToldNow(t.readers[id], t.fifo.queue))
  {
    RunKeeps(INITIAL, before);
    FlagWasSet(Now(before).flagAtBroadcast);
    t := ThreadEnds(Now(before));
    assert !Stuck(t.readers[id]);
    u := t;
    if !t.readers[id].Idle? { u := CallReturns(t, id); }
  }

  /**
   A fatal error does not strand the readers when there is a transfer to cancel: the thread waits for it in one more
   round of events, and the cancelled transfer sets the flag before the broadcast.
   */
  lemma CancelledTransferSetsFlag(s: State) returns (t: State)
    requires Inv(s) && s.events.Cancelling? && s.submitted && s.mutex.None?
    ensures LeadsAlone(EventThread, s, t) && t.events.Ended? && t.flagAtBroadcast == Some(true) && NoneStuck(t)
  {
    var s1 := s.(events := InEvents(true));
    var s2 := s1.(shutdown := true, submitted := false);
    EventStepKeeps(s, CancelTransfer(true));
    EventStepKeeps(s1, TransferGone);
    t := EventsFinish(s2);
    OneAlone(EventThread, s1, Events(TransferGone), s2, t);
    OneAlone(EventThread, s, Events(CancelTransfer(true)), s1, t);
  }

  // ---- `hid_close` finishes ----

  lemma CloserFinishes(s: State) returns (t: State)
    requires Inv(s) && s.closing.Joining? && s.events.Ended? && s.mutex.None?
    ensures LeadsAlone(Closer, s, t) && t.closing.Closed? && t.fifo.queue == []
    ensures t.events == s.events && t.readers == s.readers && t.shutdown == s.shutdown
  {
    var s1 := s.(closing := ClearLocking);
    var s2 := s.(closing := Clearing, mutex := Some(Closer));
    CloseStepKeeps(s, CloseJoin);
    CloseStepKeeps(s1, CloseLock);
    t := CloserReleases(s2);
    OneAlone(Closer, s1, Closes(CloseLock), s2, t);
    OneAlone(Closer, s, Closes(CloseJoin), s1, t);
  }

  /**
   From every reachable state after the device has been opened, `hid_close` can be called and can finish: the read
   thread has ended, nothing is queued, and, but for a fatal error before, no reader is blocked.
   */
  lemma CloseFinishes(before: seq<Step>) returns (t: State)
    requires Now(before).ready && Now(before).closing.NotClosing?
    ensures Leads(Now(before), t) && t.closing.Closed? && t.events.Ended? && t.fifo.queue == [] && t.shutdown
    ensures Now(before).flagAtBroadcast != Some(false) ==> NoneStuck(t)
  {
    var s := Now(before);
    RunKeeps(INITIAL, before);
    if s.flagAtBroadcast != Some(false) { FlagWasSet(s.flagAtBroadcast); }
    var s1 := s.(shutdown := true, closing := Joining);
    OneStep(s, Closes(CloseSetFlag), s1);
    CloseStepKeeps(s, CloseSetFlag);
    var s2 := ThreadEnds(s1);
    t := CloserFinishes(s2);
    AloneLeads(Closer, s2, t);
    LeadsTo(s, s1, s2);
    LeadsTo(s, s2, t);
  }

  // ---- A transfer is always submitted ----

  /** The read thread is in its loop, and not in a callback. */
  predicate Looping(pc: EventPc) {
    pc.AtBarrier? || pc.TestingFlag? || pc == InEvents(false)
  }

  /** Libusb has the transfer, or the flag is set. */
  ghost predicate Served(s: State) {
    Looping(s.events) ==> s.submitted || s.shutdown
  }

  lemma ServedStep(s: State, step: Step)
    requires Served(s) && step != Events(SetUpTransfer(false))
    ensures Served(Next(s, step))
  {
    if Do(s, step).None? { return; }
    match step
    case Events(action) => ServedEvent(s, action);
    case Reads(_, _) =>
    case Closes(_) =>
  }

  lemma ServedEvent(s: State, action: EventAction)
    requires Served(s) && EventStep(s, action).Some? && action != SetUpTransfer(false)
    ensures Served(EventStep(s, action).value)
  {
  }

  lemma {:induction false} ServedRun(s: State, steps: seq<Step>)
    requires Served(s) && Events(SetUpTransfer(false)) !in steps
    ensures Served(After(s, steps))
    decreases |steps|
  {
    if steps != [] {
      ServedStep(s, steps[0]);
      ServedRun(Next(s, steps[0]), steps[1..]);
    }
  }

  /**
   When the first submission succeeds, the read thread never handles events, or tests its flag, with the flag clear and
   without a submitted transfer.
   */
  lemma SubmittedWhileLooping(steps: seq<Step>)
    requires Events(SetUpTransfer(false)) !in steps
    ensures Looping(Now(steps).events) && !Now(steps).shutdown ==> Now(steps).submitted
  {
    ServedRun(INITIAL, steps);
  }

  /** Nothing is submitted, and nothing will be. */
  ghost predicate Deaf(s: State) {
    && !s.submitted && !s.events.Starting? && !s.events.CallbackLocking? && !s.events.CallbackAttaching?
    && !s.events.CallbackSignalling? && !s.events.CallbackUnlocking? && !s.events.CallbackSubmitting?
    && s.fifo.arrivals == [] && (s.shutdown ==> !s.closing.NotClosing?)
  }

  lemma DeafStep(s: State, step: Step)
    requires Deaf(s)
    ensures Deaf(Next(s, step))
  {
    if Do(s, step).None? { return; }
    match step
    case Events(action) => DeafEvent(s, action);
    case Reads(_, _) =>
    case Closes(_) => ClearKeepsArrivals(s.fifo);
  }

  lemma DeafEvent(s: State, action: EventAction)
    requires Deaf(s) && EventStep(s, action).Some?
    ensures Deaf(EventStep(s, action).value)
  {
  }

  lemma {:induction false} ClearKeepsArrivals(f: Fifo)
    ensures Clear(f).arrivals == f.arrivals
    decreases |f.queue|
  {
    if f.queue != [] { ClearKeepsArrivals(Remove(f, Cleared(f.queue[0]))); }
  }

  lemma {:induction false} DeafRun(s: State, steps: seq<Step>)
    requires Deaf(s)
    ensures Deaf(After(s, steps))
    decreases |steps|
  {
    if steps != [] {
      DeafStep(s, steps[0]);
      DeafRun(Next(s, steps[0]), steps[1..]);
    }
  }

  /**
   Nobody looks at the result of the first submission. When it fails, then in no run does a report ever arrive, and only
   `hid_close` sets the flag.
   */
  lemma FailedFirstSubmissionIsDeaf(steps: seq<Step>)
    ensures var s := Now([Events(SetUpTransfer(false))] + steps);
            s.fifo.arrivals == [] && (s.shutdown ==> !s.closing.NotClosing?)
  {
    var first := Events(SetUpTransfer(false));
    assert ([first] + steps)[1..] == steps;
    DeafRun(Next(INITIAL, first), steps);
  }
}
