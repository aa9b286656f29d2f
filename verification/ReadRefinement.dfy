/**
 The read call of the interleaved model is the read call of the device (hid-libusb.c, `hid_read_timeout`): what a reader
 returns among all the other threads is what `ReadCall` returns for the wake-ups that the reader met.
 */
module ReadRefinement {
  import opened Common
  import opened ReportQueue
  import opened HidLibusb
  import opened ReadThread

  /** The device at the next wait, when the call goes on waiting through all of these wake-ups. */
  function AfterWakes(d: Device, ms: int, wakes: seq<Wakeup>): Option<Device>
    decreases |wakes|
  {
    if wakes == [] then Some(d)
    else
      var e := Interfere(d, wakes[0].meanwhile);
      if (ms > 0 && wakes[0].result != Signalled) || e.fifo.queue != [] || e.shutdown then None
      else AfterWakes(e, ms, wakes[1..])
  }

  ghost predicate Empty(d: Device) {
    d.fifo.queue == [] && !d.shutdown
  }

  lemma {:induction false} WaitsThrough(d: Device, length: nat, ms: int, wakes: seq<Wakeup>, rest: seq<Wakeup>)
    requires Empty(d) && AfterWakes(d, ms, wakes).Some?
    ensures var e := AfterWakes(d, ms, wakes).value;
            Empty(e) && WaitLoop(d, length, ms, wakes + rest) == WaitLoop(e, length, ms, rest)
    decreases |wakes|
  {
    if wakes == [] {
      assert wakes + rest == rest;
    } else {
      assert (wakes + rest)[1..] == wakes[1..] + rest;
      WaitsThrough(Interfere(d, wakes[0].meanwhile), length, ms, wakes[1..], rest);
    }
  }

  lemma {:induction false} OneMoreWake(d: Device, ms: int, wakes: seq<Wakeup>, w: Wakeup)
    requires AfterWakes(d, ms, wakes).Some? && (ms > 0 ==> w.result == Signalled)
    requires Empty(Interfere(AfterWakes(d, ms, wakes).value, w.meanwhile))
    ensures AfterWakes(d, ms, wakes + [w]) == Some(Interfere(AfterWakes(d, ms, wakes).value, w.meanwhile))
    decreases |wakes|
  {
    if wakes == [] {
      assert wakes + [w] == [w] && [w][1..] == [];
    } else {
      assert (wakes + [w])[1..] == wakes[1..] + [w];
      OneMoreWake(Interfere(d, wakes[0].meanwhile), ms, wakes[1..], w);
    }
  }

  lemma {:induction false} InterfereOneMore(d: Device, ops: seq<Interference>, op: Interference)
    ensures Interfere(d, ops + [op]) == Affect(Interfere(d, ops), op)
    decreases |ops|
  {
    if ops == [] {
      assert ops + [op] == [op] && [op][1..] == [];
    } else {
      assert (ops + [op])[1..] == ops[1..] + [op];
      InterfereOneMore(Affect(d, ops[0]), ops[1..], op);
    }
  }

  // ---- Following one call ----

  /**
   What a call has met: the list when it locked the mutex, the wake-ups after which it waited again, and what others
   have done to the list since; and, when it is about to return, the flag as it was for the call and all of its
   wake-ups.
   */
  datatype Track = Track(fifo: Fifo, flag: bool, length: nat, ms: int,
                         slept: bool, met: seq<Wakeup>, meanwhile: seq<Interference>,
                         early: bool, wakes: seq<Wakeup>)

  ghost predicate SameCall(k: Track, t: Track) {
    t.flag == k.flag && t.fifo == k.fifo && t.length == k.length && t.ms == k.ms
  }

  /** The call has waited, and this is what has become of the device since its last wait began. */
  ghost predicate Pending(k: Track, fifo: Fifo) {
    && k.slept && !k.flag && k.fifo.queue == [] && (k.ms == -1 || k.ms > 0)
    && var d := AfterWakes(Device(k.fifo, false), k.ms, k.met);
       d.Some? && Interfere(d.value, k.meanwhile) == Device(fifo, false)
  }

  /** The call has not waited yet; nobody else has touched the list. */
  ghost predicate Untouched(k: Track, fifo: Fifo) {
    !k.slept && k.met == [] && k.meanwhile == [] && fifo == k.fifo
  }

  ghost predicate Answered(k: Track, o: Outcome, fifo: Fifo, shutdown: bool) {
    && (k.flag ==> k.early) && (k.early ==> shutdown)
    && var (p, d) := ReadCall(Device(k.fifo, k.early), k.length, k.ms, k.wakes);
       p == o && d.fifo == fifo
  }

  ghost predicate Follows(k: Track, pc: ReaderPc, fifo: Fifo, shutdown: bool) {
    match pc
    case CheckingQueue(length, ms) => length == k.length && ms == k.ms && Untouched(k, fifo)
    case CheckingShutdown(length, ms) => length == k.length && ms == k.ms && Untouched(k, fifo) && fifo.queue == []
    case TestingLoop(length, ms) =>
      length == k.length && ms == k.ms
      && (Pending(k, fifo)
          || (Untouched(k, fifo) && fifo.queue == [] && !k.flag && (ms == -1 || ms > 0)))
    case AboutToWait(length, ms) => length == k.length && ms == k.ms && Pending(k, fifo)
    case Waiting(length, ms) => length == k.length && ms == k.ms && Pending(k, fifo)
    case Woken(length, ms, result) =>
      length == k.length && ms == k.ms && Pending(k, fifo) && (ms <= 0 ==> result == Signalled)
    case Resumed(length, ms, result) =>
      length == k.length && ms == k.ms && Pending(k, fifo) && (ms <= 0 ==> result == Signalled)
    case LeftLoop(length, ms) =>
      length == k.length && ms == k.ms && (fifo.queue == [] ==> shutdown) && (ms > 0 ==> fifo.queue == [])
      && (Pending(k, fifo)
          || (Untouched(k, fifo) && fifo.queue == [] && !k.flag && (ms == -1 || ms > 0)))
    case Returning(o) => Answered(k, o, fifo, shutdown)
    case _ => false
  }

  /** The call returns from a loop it has waited in: its last wake-up is the one in progress. */
  lemma LastWake(k: Track, fifo: Fifo, result: WaitResult, nowSet: bool) returns (t: Track)
    requires Pending(k, fifo)
    ensures t == k.(early := false, wakes := t.wakes)
    ensures var d := Device(fifo, nowSet);
            ReadCall(Device(k.fifo, false), k.length, k.ms, t.wakes)
            == if k.ms > 0 && result == TimedOut then (NothingYet, d)
               else if k.ms > 0 && result == WaitFailed then (WaitError, d)
               else WaitLoop(d, k.length, k.ms, [])
  {
    var meanwhile := if nowSet then k.meanwhile + [ShutdownSet] else k.meanwhile;
    var w := Wakeup(meanwhile, result);
    var d, start := AfterWakes(Device(k.fifo, false), k.ms, k.met).value, Device(k.fifo, false);
    InterfereOneMore(d, k.meanwhile, ShutdownSet);
    WaitsThrough(start, k.length, k.ms, k.met, [w]);
    assert [w][1..] == [];
    t := k.(early := false, wakes := k.met + [w]);
  }

  lemma Takes(fifo: Fifo, length: nat, ms: int, flag: bool)
    requires fifo.queue != []
    ensures var (o, d) := WaitLoop(Device(fifo, flag), length, ms, []);
            o == Delivered(Prefix(fifo.queue[0], length)) && d.fifo == Take(fifo)
  {
  }

  /** Before the call has waited. */
  lemma EarlyStep(id: nat, k: Track, pc: ReaderPc, mutex: Option<Thread>, fifo: Fifo, shutdown: bool,
                  action: ReadAction)
      returns (t: Track)
    requires Follows(k, pc, fifo, shutdown) && (k.flag ==> shutdown) && (pc.CheckingQueue? || pc.CheckingShutdown?)
    requires ReadingStep(id, pc, mutex, fifo, shutdown, action).Some?
    ensures var r := ReadingStep(id, pc, mutex, fifo, shutdown, action).value;
            Follows(t, r.pc, r.fifo, shutdown) && SameCall(k, t)
  {
    t := k.(early := if pc.CheckingQueue? then k.flag else shutdown, wakes := []);
  }

  /** The test of the loop, and what follows when it fails. */
  lemma LoopStep(id: nat, k: Track, pc: ReaderPc, mutex: Option<Thread>, fifo: Fifo, shutdown: bool, action: ReadAction)
      returns (t: Track)
    requires Follows(k, pc, fifo, shutdown) && (k.flag ==> shutdown) && (pc.TestingLoop? || pc.LeftLoop?)
    requires ReadingStep(id, pc, mutex, fifo, shutdown, action).Some?
    requires pc.TestingLoop? && pc.ms > 0 ==> fifo.queue == []
    ensures var r := ReadingStep(id, pc, mutex, fifo, shutdown, action).value;
            Follows(t, r.pc, r.fifo, shutdown) && SameCall(k, t)
  {
    t := k;
    if pc.TestingLoop? {
      if fifo.queue == [] && !shutdown {
        if k.slept {
          OneMoreWake(Device(k.fifo, false), k.ms, k.met, Wakeup(k.meanwhile, Signalled));
          t := k.(met := k.met + [Wakeup(k.meanwhile, Signalled)], meanwhile := []);
        } else {
          t := k.(slept := true);
        }
      }
    } else if k.slept {
      t := LastWake(k, fifo, Signalled, fifo.queue == []);
      if fifo.queue != [] { Takes(fifo, k.length, k.ms, false); }
    } else {
      t := k.(early := true, wakes := []);
    }
  }

  /** The wait, and what follows it. */
  lemma WaitStep(id: nat, k: Track, pc: ReaderPc, mutex: Option<Thread>, fifo: Fifo, shutdown: bool, action: ReadAction)
      returns (t: Track)
    requires Follows(k, pc, fifo, shutdown) && (pc.AboutToWait? || pc.Waiting? || pc.Woken? || pc.Resumed?)
    requires ReadingStep(id, pc, mutex, fifo, shutdown, action).Some?
    ensures var r := ReadingStep(id, pc, mutex, fifo, shutdown, action).value;
            Follows(t, r.pc, r.fifo, shutdown) && SameCall(k, t)
  {
    t := k;
    if pc.Resumed? && pc.ms > 0 && (pc.result != Signalled || fifo.queue != []) {
      t := LastWake(k, fifo, pc.result, false);
      if pc.result == Signalled { Takes(fifo, k.length, k.ms, false); }
    }
  }

  lemma OwnStep(s: State, id: nat, action: ReadAction, k: Track) returns (t: Track)
    requires Inv(s) && ReaderStep(s, id, action).Some? && !action.Unlock?
    requires Follows(k, PcOf(s, id), s.fifo, s.shutdown) && (k.flag ==> s.shutdown)
    ensures var u := ReaderStep(s, id, action).value;
            && Follows(t, PcOf(u, id), u.fifo, u.shutdown) && u.shutdown == s.shutdown
            && SameCall(k, t)
  {
    var pc := PcOf(s, id);
    assert id in s.readers;
    if pc.CheckingQueue? || pc.CheckingShutdown? {
      t := EarlyStep(id, k, pc, s.mutex, s.fifo, s.shutdown, action);
    } else if pc.TestingLoop? || pc.LeftLoop? {
      t := LoopStep(id, k, pc, s.mutex, s.fifo, s.shutdown, action);
    } else {
      t := WaitStep(id, k, pc, s.mutex, s.fifo, s.shutdown, action);
    }
  }

  // ---- The other threads ----

  /** What a step of another thread does to the list, if anything. */
  function Interferes(s: State, step: Step): Option<Interference> {
    match step
    case Events(action) =>
      if action.CallbackAttach? && s.events.CallbackAttaching? then Some(Arrived(s.events.report)) else None
    case Reads(id, action) =>
      var r := ReadingStep(id, PcOf(s, id), s.mutex, s.fifo, s.shutdown, action);
      if r.Some? && r.value.fifo != s.fifo then Some(OtherReaderTook) else None
    case Closes(action) => if action.CloseClear? then Some(ListCleared) else None
  }

  /** The call stays where it is, or is woken; the list changes only by this, and not while the call holds the mutex. */
  ghost predicate Disturbed(s: State, u: State, id: nat, op: Option<Interference>)
    requires id in s.readers
  {
    var pc := s.readers[id];
    && id in u.readers && (s.shutdown ==> u.shutdown)
    && (u.readers[id] == pc || (pc.Waiting? && u.readers[id] == Woken(pc.length, pc.ms, Signalled)))
    && (op.None? ==> u.fifo == s.fifo)
    && (op.Some? ==> !Holds(pc) && Affect(Device(s.fifo, false), op.value) == Device(u.fifo, false))
  }

  lemma EventDisturbs(s: State, action: EventAction, id: nat)
    requires Exclusive(s) && EventStep(s, action).Some? && id in s.readers
    ensures Disturbed(s, EventStep(s, action).value, id, Interferes(s, Events(action)))
  {
    if s.events.CallbackSignalling? || s.events.Broadcasting? {
      WakeDisturbs(s, action, id);
    } else {
      PlainEventDisturbs(s, action, id);
    }
  }

  lemma WakeDisturbs(s: State, action: EventAction, id: nat)
    requires EventStep(s, action).Some? && id in s.readers && (s.events.CallbackSignalling? || s.events.Broadcasting?)
    ensures Disturbed(s, EventStep(s, action).value, id, Interferes(s, Events(action)))
  {
    var woken := if s.events.CallbackSignalling? then action.woken else Waiters(s);
    assert EventStep(s, action).value.readers == WakeAll(s, woken).readers;
  }

  lemma PlainEventDisturbs(s: State, action: EventAction, id: nat)
    requires Exclusive(s) && EventStep(s, action).Some? && id in s.readers
    requires !s.events.CallbackSignalling? && !s.events.Broadcasting?
    ensures Disturbed(s, EventStep(s, action).value, id, Interferes(s, Events(action)))
  {
    assert EventStep(s, action).value.readers == s.readers;
  }

  /** Another reader changes the list only by taking its oldest report. */
  lemma ReadingTakes(id: nat, pc: ReaderPc, mutex: Option<Thread>, fifo: Fifo, shutdown: bool, action: ReadAction)
    requires ReadingStep(id, pc, mutex, fifo, shutdown, action).Some?
    ensures var r := ReadingStep(id, pc, mutex, fifo, shutdown, action).value;
            r.fifo == fifo || (fifo.queue != [] && r.fifo == Take(fifo) && Holds(pc))
  {
  }

  lemma ReaderDisturbs(s: State, other: nat, action: ReadAction, id: nat)
    requires Exclusive(s) && ReaderStep(s, other, action).Some? && other != id && id in s.readers
    ensures Disturbed(s, ReaderStep(s, other, action).value, id, Interferes(s, Reads(other, action)))
  {
    ReadingTakes(other, PcOf(s, other), s.mutex, s.fifo, s.shutdown, action);
  }

  lemma CloserDisturbs(s: State, action: CloseAction, id: nat)
    requires Exclusive(s) && CloseStep(s, action).Some? && id in s.readers
    ensures Disturbed(s, CloseStep(s, action).value, id, Interferes(s, Closes(action)))
  {
  }

  lemma OtherStep(s: State, step: Step, id: nat)
    requires Inv(s) && !(step.Reads? && step.id == id) && id in s.readers
    ensures Disturbed(s, Next(s, step), id, if Do(s, step).Some? then Interferes(s, step) else None)
  {
    if Do(s, step).None? { return; }
    match step
    case Events(action) => EventDisturbs(s, action, id);
    case Reads(other, action) => ReaderDisturbs(s, other, action, id);
    case Closes(action) => CloserDisturbs(s, action, id);
  }

  lemma OthersFollowed(s: State, step: Step, id: nat, k: Track) returns (t: Track)
    requires Inv(s) && !(step.Reads? && step.id == id) && id in s.readers
    requires Follows(k, s.readers[id], s.fifo, s.shutdown)
    ensures var u := Next(s, step);
            && id in u.readers && Follows(t, u.readers[id], u.fifo, u.shutdown) && (s.shutdown ==> u.shutdown)
            && SameCall(k, t)
  {
    OtherStep(s, step, id);
    t := k;
    var op := if Do(s, step).Some? then Interferes(s, step) else None;
    if op.Some? {
      t := k.(meanwhile := k.meanwhile + [op.value]);
      InterfereOneMore(AfterWakes(Device(k.fifo, false), k.ms, k.met).value, k.meanwhile, op.value);
    }
  }

  // ---- The whole call ----

  lemma {:induction false} Followed(s: State, steps: seq<Step>, id: nat, k: Track) returns (t: Track)
    requires Inv(s) && Reads(id, Unlock) !in steps && id in s.readers
    requires Follows(k, s.readers[id], s.fifo, s.shutdown) && (k.flag ==> s.shutdown)
    ensures var u := After(s, steps);
            && id in u.readers && Follows(t, u.readers[id], u.fifo, u.shutdown)
            && SameCall(k, t)
    decreases |steps|
  {
    t := k;
    if steps != [] {
      var u := Next(s, steps[0]);
      StepKeeps(s, steps[0]);
      if steps[0].Reads? && steps[0].id == id {
        if Do(s, steps[0]).Some? { t := OwnStep(s, id, steps[0].read, k); }
      } else {
        t := OthersFollowed(s, steps[0], id, k);
      }
      t := Followed(u, steps[1..], id, t);
    }
  }

  /**
   In every run, a call that has locked the mutex and is about to return has the outcome of `ReadCall`, and leaves the
   list as `ReadCall` does, for the list that it found and some wake-ups; the flag is the one it had, or one set in
   the meantime.
   */
  lemma CallRefinesReadCall(before: seq<Step>, steps: seq<Step>, id: nat) returns (early: bool, wakes: seq<Wakeup>)
    requires var s := Now(before);
             && id in s.readers && s.readers[id].CheckingQueue?
             && Reads(id, Unlock) !in steps
             && id in After(s, steps).readers && After(s, steps).readers[id].Returning?
    ensures var s := Now(before);
            var t := After(s, steps);
            var (o, d) := ReadCall(Device(s.fifo, early), s.readers[id].length, s.readers[id].ms, wakes);
            && t.readers[id] == Returning(o) && t.fifo == d.fifo
            && (s.shutdown ==> early) && (early ==> t.shutdown)
  {
    var s := Now(before);
    RunKeeps(INITIAL, before);
    var k := Track(s.fifo, s.shutdown, s.readers[id].length, s.readers[id].ms, false, [], [], false, []);
    k := Followed(s, steps, id, k);
    early, wakes := k.early, k.wakes;
  }
}
