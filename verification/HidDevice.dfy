/**
 The device object of hid-libusb.c with its heap-linked list of input reports, and the calls that
 change the list, each proved against the value-level list of `ReportQueue`.
 */
module HidLibusb {
  import opened Common
  import opened ReportQueue

  /** `struct input_report`. Its bytes are copied in once, before the node is linked. */
  class InputReport {
    const data: Report
    var next: InputReport?

    constructor (bytes: Report)
      ensures data == bytes && next == null
    {
      data := bytes;
      next := null;
    }
  }

  /** What `pthread_cond_timedwait` reports. The result of `pthread_cond_wait` is ignored by the caller. */
  datatype WaitResult = Signalled | TimedOut | WaitFailed

  /** What other threads did to the device, in order, while a reader slept in a condition wait. */
  datatype Interference = Arrived(report: Report) | OtherReaderTook | ListCleared | ShutdownSet

  datatype Wakeup = Wakeup(meanwhile: seq<Interference>, result: WaitResult)

  /** How `hid_read_timeout` ends. `StillWaiting`: the wake-ups ran out and the call has not returned. */
  datatype Outcome =
    | Delivered(bytes: Report)
    | NothingYet
    | Disconnected
    | WaitError
    | StillWaiting

  /** The return value of a call that has returned. */
  function ReturnCode(o: Outcome): int
    requires !o.StillWaiting?
  {
    match o
    case Delivered(bytes) => |bytes|
    case NothingYet => 0
    case Disconnected => -1
    case WaitError => -1
  }

  /** The device as a value. */
  datatype Device = Device(fifo: Fifo, shutdown: bool)

  /** One action of another thread. */
  function Affect(d: Device, op: Interference): Device {
    match op
    case Arrived(r) => d.(fifo := Arrive(d.fifo, r))
    case OtherReaderTook => if d.fifo.queue == [] then d else d.(fifo := Take(d.fifo))
    case ListCleared => d.(fifo := Clear(d.fifo))
    case ShutdownSet => d.(shutdown := true)
  }

  function Interfere(d: Device, ops: seq<Interference>): Device
    decreases |ops|
  {
    if ops == [] then d else Interfere(Affect(d, ops[0]), ops[1..])
  }

  lemma {:induction false} InterfereSound(d: Device, ops: seq<Interference>)
    requires Sound(d.fifo)
    ensures Sound(Interfere(d, ops).fifo) && (d.shutdown ==> Interfere(d, ops).shutdown)
    decreases |ops|
  {
    if ops != [] {
      match ops[0] {
        case Arrived(r) => ArriveSound(d.fifo, r);
        case OtherReaderTook => if d.fifo.queue != [] { TakeSound(d.fifo); }
        case ListCleared => ClearSound(d.fifo);
        case ShutdownSet =>
      }
      InterfereSound(Affect(d, ops[0]), ops[1..]);
    }
  }

  /** A read call of at most `length` bytes as one function of the device and of the wake-ups it gets. */
  function ReadCall(d: Device, length: nat, milliseconds: int, wakes: seq<Wakeup>): (Outcome, Device) {
    if d.fifo.queue != [] then
      (Delivered(Prefix(d.fifo.queue[0], length)), d.(fifo := Take(d.fifo)))
    else if d.shutdown then
      (Disconnected, d)
    else if milliseconds == -1 || milliseconds > 0 then
      WaitLoop(d, length, milliseconds, wakes)
    else
      (NothingYet, d)
  }

  /** The waiting part. A timed wait looks at its result, and only then at the list. */
  function WaitLoop(d: Device, length: nat, milliseconds: int, wakes: seq<Wakeup>): (Outcome, Device)
    decreases |wakes|
  {
    if d.fifo.queue != [] then
      (Delivered(Prefix(d.fifo.queue[0], length)), d.(fifo := Take(d.fifo)))
    else if d.shutdown then
      (Disconnected, d)
    else if wakes == [] then
      (StillWaiting, d)
    else
      var d' := Interfere(d, wakes[0].meanwhile);
      if milliseconds > 0 && wakes[0].result == TimedOut then
        (NothingYet, d')
      else if milliseconds > 0 && wakes[0].result == WaitFailed then
        (WaitError, d')
      else
        WaitLoop(d', length, milliseconds, wakes[1..])
  }

  /** The device after the first `k` wake-ups. */
  function DeviceAfter(d: Device, wakes: seq<Wakeup>, k: nat): Device
    requires k <= |wakes|
    decreases k
  {
    if k == 0 then d else DeviceAfter(Interfere(d, wakes[0].meanwhile), wakes[1..], k - 1)
  }

  /** A call that may wait slept through the first `k` wake-ups, each time with nothing to report. */
  ghost predicate SleptThrough(d: Device, milliseconds: int, wakes: seq<Wakeup>, k: nat) {
    && k <= |wakes|
    && (forall j: nat :: j < k ==> DeviceAfter(d, wakes, j).fifo.queue == [] && !DeviceAfter(d, wakes, j).shutdown)
    && forall j: nat :: j < k - 1 ==> milliseconds <= 0 || wakes[j].result == Signalled
  }

  /** The answer to a call with this outcome, which leaves the device like this, after `k` wake-ups. */
  ghost predicate Decided(d: Device, length: nat, milliseconds: int, wakes: seq<Wakeup>, k: nat, o: Outcome,
                          after: Device)
    requires k <= |wakes|
  {
    var now := DeviceAfter(d, wakes, k);
    var timed := k > 0 && milliseconds > 0;
    if timed && wakes[k - 1].result == TimedOut then o.NothingYet? && after == now && ReturnCode(o) == 0
    else if timed && wakes[k - 1].result == WaitFailed then o.WaitError? && after == now && ReturnCode(o) == -1
    else if now.fifo.queue != [] then
      var next := now.fifo.queue[0];
      && o == Delivered(if length < |next| then next[..length] else next) && ReturnCode(o) == |o.bytes|
      && after.fifo.queue == now.fifo.queue[1..] && after.shutdown == now.shutdown
    else if now.shutdown then o.Disconnected? && after == now && ReturnCode(o) == -1
    else if milliseconds == -1 || milliseconds > 0 then o.StillWaiting? && after == now && k == |wakes|
    else o.NothingYet? && after == now && ReturnCode(o) == 0
  }

  /**
   What a call returns is decided by the device as it is after some of the wake-ups: at the first at which a report is
   queued, the flag is set, or a timed wait ends otherwise; at once, if the call may not wait.
   */
  lemma ReadCallDecided(d: Device, length: nat, milliseconds: int, wakes: seq<Wakeup>) returns (k: nat)
    ensures var (o, after) := ReadCall(d, length, milliseconds, wakes);
            && SleptThrough(d, milliseconds, wakes, k) && Decided(d, length, milliseconds, wakes, k, o, after)
            && (k > 0 ==> milliseconds == -1 || milliseconds > 0)
  {
    k := 0;
    if d.fifo.queue == [] && !d.shutdown && (milliseconds == -1 || milliseconds > 0) {
      k := WaitLoopDecided(d, length, milliseconds, wakes);
    }
  }

  lemma {:induction false} WaitLoopDecided(d: Device, length: nat, milliseconds: int, wakes: seq<Wakeup>)
      returns (k: nat)
    requires milliseconds == -1 || milliseconds > 0
    ensures var (o, after) := WaitLoop(d, length, milliseconds, wakes);
            SleptThrough(d, milliseconds, wakes, k) && Decided(d, length, milliseconds, wakes, k, o, after)
    decreases |wakes|
  {
    k := 0;
    if d.fifo.queue == [] && !d.shutdown && wakes != [] {
      var e, rest := Interfere(d, wakes[0].meanwhile), wakes[1..];
      if milliseconds <= 0 || wakes[0].result == Signalled {
        k := WaitLoopDecided(e, length, milliseconds, rest);
        SleptOnce(d, milliseconds, wakes, k);
      }
      k := k + 1;
    }
  }

  lemma SleptOnce(d: Device, milliseconds: int, wakes: seq<Wakeup>, k: nat)
    requires wakes != [] && d.fifo.queue == [] && !d.shutdown && (milliseconds <= 0 || wakes[0].result == Signalled)
    requires SleptThrough(Interfere(d, wakes[0].meanwhile), milliseconds, wakes[1..], k)
    ensures SleptThrough(d, milliseconds, wakes, k + 1)
    ensures DeviceAfter(d, wakes, k + 1) == DeviceAfter(Interfere(d, wakes[0].meanwhile), wakes[1..], k)
    ensures k > 0 ==> wakes[k] == wakes[1..][k - 1]
  {
    var e, rest := Interfere(d, wakes[0].meanwhile), wakes[1..];
    forall j: nat | j < k + 1
      ensures DeviceAfter(d, wakes, j).fifo.queue == [] && !DeviceAfter(d, wakes, j).shutdown
    {
      if j > 0 { assert DeviceAfter(d, wakes, j) == DeviceAfter(e, rest, j - 1); }
    }
    forall j: nat | j < k ensures milliseconds <= 0 || wakes[j].result == Signalled {
      if j > 0 { assert wakes[j] == rest[j - 1]; }
    }
  }

  /**
   Whatever other threads do while the call sleeps, a disconnect is reported only once every queued
   report has been drained and the shutdown flag has been seen, and a wait error only by a timed wait.
   */
  lemma DisconnectOnlyWhenDrained(d: Device, length: nat, milliseconds: int, wakes: seq<Wakeup>)
    ensures var (o, e) := ReadCall(d, length, milliseconds, wakes);
            && (!o.StillWaiting? && ReturnCode(o) == -1 ==> o.Disconnected? || o.WaitError?)
            && (o.Disconnected? ==> e.fifo.queue == [] && e.shutdown)
            && (o.WaitError? ==> milliseconds > 0 && exists i :: 0 <= i < |wakes| && wakes[i].result == WaitFailed)
            && (o.StillWaiting? ==> e.fifo.queue == [] && !e.shutdown && (milliseconds == -1 || milliseconds > 0))
  {
    WaitLoopOutcome(d, length, milliseconds, wakes);
    var o := ReadCall(d, length, milliseconds, wakes).0;
    if o.Delivered? { assert ReturnCode(o) == |o.bytes|; }
  }

  lemma {:induction false} WaitLoopOutcome(d: Device, length: nat, milliseconds: int, wakes: seq<Wakeup>)
    ensures var (o, e) := WaitLoop(d, length, milliseconds, wakes);
            && (o.Disconnected? ==> e.fifo.queue == [] && e.shutdown)
            && (o.WaitError? ==> milliseconds > 0 && exists i :: 0 <= i < |wakes| && wakes[i].result == WaitFailed)
            && (o.StillWaiting? ==> e.fifo.queue == [] && !e.shutdown)
    decreases |wakes|
  {
    if d.fifo.queue == [] && !d.shutdown && wakes != [] {
      var rest := wakes[1..];
      var d' := Interfere(d, wakes[0].meanwhile);
      WaitLoopOutcome(d', length, milliseconds, rest);
      var o := WaitLoop(d', length, milliseconds, rest).0;
      if o.WaitError? {
        var i :| 0 <= i < |rest| && rest[i].result == WaitFailed;
        assert wakes[i + 1].result == WaitFailed;
      }
    }
  }

  /**
   A delivering read hands over the first `length` bytes of the report that was oldest when it took it,
   that report is the next one in arrival order, and the list stays a sound FIFO.
   */
  lemma DeliversNextArrival(d: Device, length: nat, milliseconds: int, wakes: seq<Wakeup>)
    requires Sound(d.fifo)
    ensures var (o, e) := ReadCall(d, length, milliseconds, wakes);
            && Sound(e.fifo)
            && (o.Delivered? ==>
                  && |e.fifo.gone| > 0
                  && var n := |e.fifo.gone| - 1;
                  && n < |e.fifo.arrivals|
                  && e.fifo.gone[n] == Read(e.fifo.arrivals[n])
                  && var next := e.fifo.arrivals[n];
                  && o.bytes == next[..if length < |next| then length else |next|])
  {
    if d.fifo.queue != [] {
      TakeSound(d.fifo);
    } else {
      WaitLoopDelivers(d, length, milliseconds, wakes);
    }
  }

  lemma {:induction false} WaitLoopDelivers(d: Device, length: nat, milliseconds: int, wakes: seq<Wakeup>)
    requires Sound(d.fifo)
    ensures var (o, e) := WaitLoop(d, length, milliseconds, wakes);
            && Sound(e.fifo)
            && (o.Delivered? ==>
                  && |e.fifo.gone| > 0
                  && var n := |e.fifo.gone| - 1;
                  && n < |e.fifo.arrivals|
                  && e.fifo.gone[n] == Read(e.fifo.arrivals[n])
                  && var next := e.fifo.arrivals[n];
                  && o.bytes == next[..if length < |next| then length else |next|])
    decreases |wakes|
  {
    if d.fifo.queue != [] {
      TakeSound(d.fifo);
    } else if !d.shutdown && wakes != [] {
      InterfereSound(d, wakes[0].meanwhile);
      WaitLoopDelivers(Interfere(d, wakes[0].meanwhile), length, milliseconds, wakes[1..]);
    }
  }

  class HidDevice {
    var inputReports: InputReport?
    var shutdownThread: bool
    /** The nodes from `inputReports` on, in link order. */
    ghost var spine: seq<InputReport>
    ghost var arrivals: seq<Report>
    ghost var gone: seq<Removal>

    ghost function Repr(): set<object>
      reads this
    {
      {this as object} + set n | n in spine
    }

    ghost predicate Valid()
      reads this, spine
    {
      && inputReports == (if spine == [] then null else spine[0])
      && (forall i, j :: 0 <= i && j == i + 1 < |spine| ==> spine[i].next == spine[j])
      && (spine != [] ==> spine[|spine| - 1].next == null)
      && (forall i, j :: 0 <= i < j < |spine| ==> spine[i] != spine[j])
    }

    ghost function Queue(): (q: seq<Report>)
      reads this, spine
      ensures |q| == |spine|
    {
      seq(|spine|, i requires 0 <= i < |spine| reads this, spine => spine[i].data)
    }

    ghost function State(): Fifo
      reads this, spine
    {
      Fifo(Queue(), arrivals, gone)
    }

    ghost function Whole(): Device
      reads this, spine
    {
      Device(State(), shutdownThread)
    }

    constructor ()
      ensures Valid() && State() == EMPTY && !shutdownThread && spine == []
    {
      inputReports := null;
      shutdownThread := false;
      spine, arrivals, gone := [], [], [];
    }

    /** `return_data`: copy out, unlink and free the first node. */
    method ReturnData(data: array?<Byte>, length: nat, ghost why: Removal) returns (len: nat)
      requires Valid() && spine != [] && why.report == Queue()[0]
      requires length > 0 ==> data != null && length <= data.Length
      modifies this, data
      ensures Valid() && State() == Remove(old(State()), why) && shutdownThread == old(shutdownThread)
      ensures spine == old(spine[1..])
      ensures len == |Prefix(old(Queue()[0]), length)|
      ensures len > 0 ==> data[..len] == Prefix(old(Queue()[0]), length)
      ensures data != null ==> data[len..] == old(data[len..])
    {
      var rpt := inputReports;
      len := if length < |rpt.data| then length else |rpt.data|;
      if len > 0 {
        forall i | 0 <= i < len { data[i] := rpt.data[i]; }
      }
      inputReports := rpt.next;
      gone := gone + [why];
      spine := spine[1..];
    }

    lemma LastNode(i: nat)
      requires Valid() && i < |spine|
      ensures spine[i].next == null <==> i == |spine| - 1
    {
      if i + 1 < |spine| { assert spine[i].next == spine[i + 1]; }
    }

    /** Walks to the last node and links `rpt` behind it; returns the number of links walked. */
    method LinkLast(rpt: InputReport) returns (numQueued: nat)
      requires Valid() && spine != [] && rpt !in spine && rpt.next == null
      modifies this, spine
      ensures Valid() && spine == old(spine) + [rpt] && numQueued == |old(spine)| - 1
      ensures unchanged(`arrivals) && unchanged(`gone) && unchanged(`shutdownThread)
    {
      var cur := inputReports;
      numQueued := 0;
      while cur.next != null
        invariant numQueued < |spine| && cur == spine[numQueued]
        decreases |spine| - numQueued
      {
        cur := cur.next;
        numQueued := numQueued + 1;
      }
      LastNode(numQueued);
      cur.next := rpt;
      spine := spine + [rpt];
    }

    /**
     The completed-transfer branch of `read_callback`, between lock and unlock. `woke`: the condition was signalled.
     */
    method Completed(buffer: Report) returns (woke: bool)
      requires Valid()
      modifies Repr()
      ensures Valid() && State() == Arrive(old(State()), buffer) && shutdownThread == old(shutdownThread)
      ensures fresh(Repr() - old(Repr()))
      ensures woke <==> old(Queue()) == []
    {
      var rpt := new InputReport(buffer);
      woke := inputReports == null;
      arrivals := arrivals + [buffer];
      if inputReports == null {
        inputReports := rpt;
        spine := [rpt];
      } else {
        var numQueued := LinkLast(rpt);
        assert Queue() == old(Queue()) + [buffer];
        if numQueued > 30 {
          var _ := ReturnData(null, 0, Dropped(Queue()[0], |arrivals|));
        }
      }
    }

    /** The loop at the end of `hid_close`. */
    method ClearReports()
      requires Valid()
      modifies this
      ensures Valid() && State() == Clear(old(State())) && shutdownThread == old(shutdownThread) && spine == []
    {
      while inputReports != null
        invariant Valid() && shutdownThread == old(shutdownThread)
        invariant Clear(State()) == Clear(old(State()))
        decreases |spine|
      {
        var _ := ReturnData(null, 0, Cleared(Queue()[0]));
      }
    }

    /** One action of another thread while this one sleeps. */
    method Act(op: Interference)
      requires Valid()
      modifies Repr()
      ensures Valid() && Whole() == Affect(old(Whole()), op) && fresh(Repr() - old(Repr()))
    {
      match op {
        case Arrived(r) => var _ := Completed(r);
        case OtherReaderTook => if inputReports != null { var _ := ReturnData(null, 0, Read(Queue()[0])); }
        case ListCleared => ClearReports();
        case ShutdownSet => shutdownThread := true;
      }
    }

    /** What the other threads do while this one sleeps. */
    method Sleep(meanwhile: seq<Interference>)
      requires Valid()
      modifies Repr()
      ensures Valid() && Whole() == Interfere(old(Whole()), meanwhile) && fresh(Repr() - old(Repr()))
    {
      var k := 0;
      while k < |meanwhile|
        invariant 0 <= k <= |meanwhile|
        invariant Valid() && Interfere(Whole(), meanwhile[k..]) == Interfere(old(Whole()), meanwhile)
        invariant fresh(Repr() - old(Repr()))
      {
        assert meanwhile[k..][1..] == meanwhile[k + 1..];
        Act(meanwhile[k]);
        k := k + 1;
      }
    }

    /** The caller's share of `return_data`: its bytes are at the front of `data`. */
    method Deliver(data: array?<Byte>, length: nat) returns (o: Outcome)
      requires Valid() && spine != []
      requires length > 0 ==> data != null && length <= data.Length
      modifies this, data
      ensures Valid() && o == Delivered(Prefix(old(Queue()[0]), length))
      ensures State() == Take(old(State())) && shutdownThread == old(shutdownThread)
      ensures fresh(Repr() - old(Repr()))
      ensures |o.bytes| > 0 ==> data != null && |o.bytes| <= data.Length && data[..|o.bytes|] == o.bytes
    {
      var n := ReturnData(data, length, Read(Queue()[0]));
      o := Delivered(if n == 0 then [] else data[..n]);
    }

    /** Waiting without a timeout. */
    method WaitBlocking(data: array?<Byte>, length: nat, wakes: seq<Wakeup>) returns (o: Outcome)
      requires Valid()
      requires length > 0 ==> data != null && length <= data.Length
      modifies Repr(), data
      ensures Valid() && (o, Whole()) == WaitLoop(old(Whole()), length, -1, wakes) && fresh(Repr() - old(Repr()))
      ensures o.Delivered? && |o.bytes| > 0 ==> data != null && |o.bytes| <= data.Length && data[..|o.bytes|] == o.bytes
    {
      var k := 0;
      while inputReports == null && !shutdownThread
        invariant 0 <= k <= |wakes| && Valid()
        invariant fresh(Repr() - old(Repr()))
        invariant WaitLoop(Whole(), length, -1, wakes[k..]) == WaitLoop(old(Whole()), length, -1, wakes)
        decreases |wakes| - k
      {
        if k == |wakes| { return StillWaiting; }
        assert wakes[k..][1..] == wakes[k + 1..];
        Sleep(wakes[k].meanwhile);
        k := k + 1;
      }
      if inputReports != null {
        o := Deliver(data, length);
      } else {
        o := Disconnected;
      }
    }

    /** Waiting with a deadline. */
    method WaitTimed(data: array?<Byte>, length: nat, milliseconds: int, wakes: seq<Wakeup>) returns (o: Outcome)
      requires Valid() && inputReports == null && milliseconds > 0
      requires length > 0 ==> data != null && length <= data.Length
      modifies Repr(), data
      ensures Valid() && (o, Whole()) == WaitLoop(old(Whole()), length, milliseconds, wakes)
      ensures fresh(Repr() - old(Repr()))
      ensures o.Delivered? && |o.bytes| > 0 ==> data != null && |o.bytes| <= data.Length && data[..|o.bytes|] == o.bytes
    {
      var k := 0;
      while inputReports == null && !shutdownThread
        invariant 0 <= k <= |wakes| && Valid() && inputReports == null
        invariant fresh(Repr() - old(Repr()))
        invariant WaitLoop(Whole(), length, milliseconds, wakes[k..])
                  == WaitLoop(old(Whole()), length, milliseconds, wakes)
        decreases |wakes| - k
      {
        if k == |wakes| { return StillWaiting; }
        assert wakes[k..][1..] == wakes[k + 1..];
        Sleep(wakes[k].meanwhile);
        match wakes[k].result {
          case Signalled =>
            if inputReports != null {
              o := Deliver(data, length);
              return;
            }
          case TimedOut => return NothingYet;
          case WaitFailed => return WaitError;
        }
        k := k + 1;
      }
      o := Disconnected;
    }

    /** `hid_read_timeout` from its first check to its unlock. Each condition wait consumes one wake-up. */
    method ReadTimeout(data: array?<Byte>, length: nat, milliseconds: int, wakes: seq<Wakeup>) returns (o: Outcome)
      requires Valid()
      requires length > 0 ==> data != null && length <= data.Length
      modifies Repr(), data
      ensures Valid() && (o, Whole()) == ReadCall(old(Whole()), length, milliseconds, wakes)
      ensures fresh(Repr() - old(Repr()))
      ensures o.Delivered? && |o.bytes| > 0 ==> data != null && |o.bytes| <= data.Length && data[..|o.bytes|] == o.bytes
    {
      if inputReports != null {
        o := Deliver(data, length);
      } else if shutdownThread {
        o := Disconnected;
      } else if milliseconds == -1 {
        o := WaitBlocking(data, length, wakes);
      } else if milliseconds > 0 {
        o := WaitTimed(data, length, milliseconds, wakes);
      } else {
        o := NothingYet;
      }
    }
  }
}
