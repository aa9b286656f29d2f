/**
 One NPAPI stream as a value: what each entry point of the plugin, and each call of the user, does to it and which
 events it sends. The re-entrant code is in `NpapiStreams`, which is proved against these functions.
 */
module StreamEvents {
  import opened Common

  datatype Event =
    | Created
    | FailedOpen
    | Opened
    | DataArrived(data: seq<Byte>, offset: nat)
    | Completed(success: bool)

  /**
   `attached`: the stream holds its `NPStream`; `pdata`: that `NPStream` points back at it; `offered`: the browser has
   called `NPP_NewStream`; `hostAlive`: the table of browser functions has not been cleared by the host's shutdown.
   `trace` is every event sent so far.
   */
  datatype Stream = Stream(
    attached: bool, pdata: bool, offered: bool, isOpen: bool, completed: bool,
    seekableRequested: bool, seekableByServer: bool, bufferSize: nat,
    selfReference: bool, destroyed: bool, notified: bool, hostAlive: bool, trace: seq<Event>)

  predicate Seekable(s: Stream) {
    s.seekableRequested && s.seekableByServer
  }

  /** A stream the plugin asked for. */
  function Requested(seekable: bool, bufferSize: nat): Stream {
    Stream(false, false, false, false, false, seekable, false, bufferSize, true, false, false, true, [Created])
  }

  /** A stream the browser offered on its own: no `URLNotify` will follow. */
  function Unsolicited(seekable: bool, bufferSize: nat): Stream {
    Requested(seekable, bufferSize).(notified := true)
  }

  function Detached(s: Stream): Stream {
    s.(attached := false, pdata := false, destroyed := true, selfReference := s.selfReference && !s.notified)
  }

  /**
   `close`: an open stream first reports success; the browser then destroys the stream from within the call, and
   that reports failure unless the completion has been signalled already. With the function table cleared the browser
   is not told, and the stream is only let go.
   */
  function Close(s: Stream): Stream {
    if !s.attached then s
    else if !s.hostAlive then
      s.(attached := false, isOpen := false, trace := s.trace + (if s.isOpen then [Completed(true)] else []))
    else
      Detached(s).(
        isOpen := false,
        completed := true,
        trace := s.trace + (if s.isOpen then [Completed(true)] else [])
                         + (if s.completed then [] else [Completed(false)]))
  }

  /** The first part of `close`, before the browser is told. */
  function Closing(s: Stream): Stream {
    s.(isOpen := false, trace := s.trace + if s.isOpen then [Completed(true)] else [])
  }

  lemma CloseInParts(s: Stream)
    requires s.attached && s.pdata
    ensures var told := if s.hostAlive then DestroyStream(Closing(s), false) else Closing(s);
            Close(s) == told.(attached := false)
  {
  }

  function SignalCompleted(s: Stream, success: bool): Stream {
    if s.completed || (Seekable(s) && success) then s
    else
      var c := Close(s.(completed := true));
      c.(trace := c.trace + [Completed(success)])
  }

  function SetNotified(s: Stream): Stream {
    s.(notified := true, selfReference := s.selfReference && !s.destroyed)
  }

  function NewStream(s: Stream, seekable: bool): Stream {
    var t := s.(attached := true, pdata := true, offered := true, seekableByServer := seekable);
    if s.seekableRequested && !seekable then t.(attached := false, trace := t.trace + [FailedOpen])
    else if s.completed then t
    else t.(isOpen := true, trace := t.trace + [Opened])
  }

  /** The number of bytes `NPP_Write` takes from an offer of `len` bytes. */
  function Consumed(bufferSize: nat, len: nat): nat {
    if len < bufferSize then len else bufferSize
  }

  function Write(s: Stream, offset: nat, data: seq<Byte>): Stream {
    var n := Consumed(s.bufferSize, |data|);
    if s.pdata && s.isOpen && n > 0 then s.(trace := s.trace + [DataArrived(data[..n], offset)]) else s
  }

  function DestroyStream(s: Stream, done: bool): Stream {
    if !s.pdata || !s.attached then s
    else if s.completed || (Seekable(s) && done) then Detached(s)
    else Detached(s).(completed := true, trace := s.trace + [Completed(done)])
  }

  function URLNotify(s: Stream, done: bool): Stream {
    SetNotified(SignalCompleted(s, done))
  }

  datatype Op =
    | OpNewStream(seekable: bool)
    | OpWrite(offset: nat, data: seq<Byte>)
    | OpDestroyStream(done: bool)
    | OpURLNotify(done: bool)
    | OpClose
    | OpHostShutdown

  /** The browser makes one `NPStream` for a stream, and writes to it or destroys it only after offering it. */
  function Apply(s: Stream, op: Op): Stream {
    match op
    case OpNewStream(seekable) => if s.offered then s else NewStream(s, seekable)
    case OpWrite(offset, data) => if s.offered then Write(s, offset, data) else s
    case OpDestroyStream(done) => if s.offered then DestroyStream(s, done) else s
    case OpURLNotify(done) => URLNotify(s, done)
    case OpClose => Close(s)
    case OpHostShutdown => s.(hostAlive := false)
  }

  function Run(s: Stream, ops: seq<Op>): Stream
    decreases |ops|
  {
    if ops == [] then s else Run(Apply(s, ops[0]), ops[1..])
  }

  /** A stream as it is handed out. */
  predicate Fresh(s: Stream) {
    s == Requested(s.seekableRequested, s.bufferSize) || s == Unsolicited(s.seekableRequested, s.bufferSize)
  }

  // ---- The event language ----

  predicate OpenPart(mid: seq<Event>) {
    || mid == []
    || mid == [FailedOpen]
    || (mid[0] == Opened && forall i :: 1 <= i < |mid| ==> mid[i].DataArrived?)
  }

  predicate AllCompleted(done: seq<Event>) {
    forall i :: 0 <= i < |done| ==> done[i].Completed?
  }

  predicate Splits(trace: seq<Event>, mid: seq<Event>, done: seq<Event>) {
    trace == [Created] + mid + done && OpenPart(mid) && AllCompleted(done) && |done| <= 2
  }

  /** Created, then nothing, a failed open, or an opening with its data, then up to two completions. */
  ghost predicate InLanguage(trace: seq<Event>) {
    exists mid, done :: Splits(trace, mid, done)
  }

  /** The browser offers a non-seekable `NPStream` for a seekable request that has been completed already. */
  predicate RejectsLate(s: Stream, op: Op) {
    op == OpNewStream(false) && !s.offered && s.seekableRequested && s.completed
  }

  predicate EverRejectsLate(s: Stream, ops: seq<Op>)
    decreases |ops|
  {
    ops != [] && (RejectsLate(s, ops[0]) || EverRejectsLate(Apply(s, ops[0]), ops[1..]))
  }

  /** How the trace and the fields of a stream hang together. */
  ghost predicate Consistent(s: Stream, mid: seq<Event>, done: seq<Event>) {
    && Splits(s.trace, mid, done)
    && (s.completed ==> done != [])
    && (!s.completed && done != [] ==> |done| == 1 && s.offered && !s.attached && !s.isOpen)
    && (!s.offered ==> mid == [] && !s.attached && !s.isOpen && !s.pdata)
    && (s.attached ==> s.pdata)
    && (s.isOpen ==> mid != [] && mid[0] == Opened)
    && (s.completed ==> !(s.attached && s.isOpen) && !(s.pdata && s.isOpen))
    && (s.isOpen && !s.completed && s.pdata ==> s.attached)
  }

  lemma OfferSteps(s: Stream, seekable: bool, mid: seq<Event>, done: seq<Event>) returns (mid': seq<Event>)
    requires Consistent(s, mid, done) && !RejectsLate(s, OpNewStream(seekable)) && !s.offered
    ensures Consistent(NewStream(s, seekable), mid', done)
  {
    mid' :=
      if s.seekableRequested && !seekable then [FailedOpen]
      else if s.completed then []
      else [Opened];
    assert NewStream(s, seekable).trace == [Created] + mid' + done;
  }

  lemma WriteSteps(s: Stream, offset: nat, data: seq<Byte>, mid: seq<Event>, done: seq<Event>)
      returns (mid': seq<Event>)
    requires Consistent(s, mid, done)
    ensures Consistent(Write(s, offset, data), mid', done)
  {
    var t := Write(s, offset, data);
    mid' := mid;
    if t != s {
      mid' := mid + [DataArrived(data[..Consumed(s.bufferSize, |data|)], offset)];
      assert t.trace == [Created] + mid' + done;
    }
  }

  lemma EndSteps(s: Stream, t: Stream, mid: seq<Event>, done: seq<Event>, more: seq<Event>)
    requires Consistent(s, mid, done) && t.trace == s.trace + more && AllCompleted(more) && |done + more| <= 2
    requires t.offered == s.offered && (t.attached ==> s.attached) && (t.isOpen ==> s.isOpen) && (t.pdata ==> s.pdata)
    requires t.completed ==> s.completed || more != []
    requires !t.completed && done + more != [] ==> |done + more| == 1 && t.offered && !t.attached && !t.isOpen
    requires t.attached ==> t.pdata
    requires t.completed ==> !(t.attached && t.isOpen) && !(t.pdata && t.isOpen)
    requires t.isOpen && !t.completed && t.pdata ==> t.attached
    ensures Consistent(t, mid, done + more)
  {
    assert t.trace == [Created] + mid + (done + more);
  }

  lemma CloseSteps(s: Stream, mid: seq<Event>, done: seq<Event>) returns (done': seq<Event>)
    requires Consistent(s, mid, done)
    ensures Consistent(Close(s), mid, done')
  {
    var more :=
      if !s.attached then []
      else (if s.isOpen then [Completed(true)] else [])
           + (if s.completed || !s.hostAlive then [] else [Completed(false)]);
    done' := done + more;
    assert s.trace + more == Close(s).trace;
    EndSteps(s, Close(s), mid, done, more);
  }

  lemma DestroySteps(s: Stream, reason: bool, mid: seq<Event>, done: seq<Event>) returns (done': seq<Event>)
    requires Consistent(s, mid, done)
    ensures Consistent(DestroyStream(s, reason), mid, done')
  {
    var more := if !s.attached || s.completed || (Seekable(s) && reason) then [] else [Completed(reason)];
    done' := done + more;
    assert DestroyStream(s, reason).trace == s.trace + more;
    EndSteps(s, DestroyStream(s, reason), mid, done, more);
  }

  lemma NotifySteps(s: Stream, reason: bool, mid: seq<Event>, done: seq<Event>) returns (done': seq<Event>)
    requires Consistent(s, mid, done)
    ensures Consistent(URLNotify(s, reason), mid, done')
  {
    var t := URLNotify(s, reason);
    var more :=
      if t.completed == s.completed then []
      else (if s.attached && s.isOpen then [Completed(true)] else []) + [Completed(reason)];
    done' := done + more;
    assert s.trace + more == t.trace;
    EndSteps(s, t, mid, done, more);
  }

  lemma Steps(s: Stream, op: Op, mid: seq<Event>, done: seq<Event>) returns (mid': seq<Event>, done': seq<Event>)
    requires Consistent(s, mid, done) && !RejectsLate(s, op)
    ensures Consistent(Apply(s, op), mid', done')
  {
    mid', done' := mid, done;
    match op
    case OpNewStream(seekable) => if !s.offered { mid' := OfferSteps(s, seekable, mid, done); }
    case OpWrite(offset, data) => if s.offered { mid' := WriteSteps(s, offset, data, mid, done); }
    case OpDestroyStream(reason) => if s.offered { done' := DestroySteps(s, reason, mid, done); }
    case OpURLNotify(reason) => done' := NotifySteps(s, reason, mid, done);
    case OpClose => done' := CloseSteps(s, mid, done);
    case OpHostShutdown => EndSteps(s, Apply(s, op), mid, done, []);
  }

  lemma {:induction false} RunInLanguage(s: Stream, ops: seq<Op>, mid: seq<Event>, done: seq<Event>)
    requires Consistent(s, mid, done) && !EverRejectsLate(s, ops)
    ensures InLanguage(Run(s, ops).trace)
    decreases |ops|
  {
    if ops != [] {
      var mid', done' := Steps(s, ops[0], mid, done);
      RunInLanguage(Apply(s, ops[0]), ops[1..], mid', done');
    }
  }

  /** A completed stream that has been rejected afterwards: it never sends anything again. */
  ghost predicate Spoilt(s: Stream, done: seq<Event>) {
    && s.trace == [Created] + done + [FailedOpen]
    && done != [] && AllCompleted(done)
    && s.completed && s.offered && !s.isOpen && !s.attached
  }

  lemma PartsOf(trace: seq<Event>, mid: seq<Event>, done: seq<Event>)
    requires trace == [Created] + mid + done
    ensures forall i :: 1 <= i <= |mid| ==> trace[i] == mid[i - 1]
    ensures forall i :: |mid| < i < |trace| ==> trace[i] == done[i - |mid| - 1] && trace[i] in done
    ensures mid != [] ==> trace[1] == mid[0] && (done == [] ==> trace[|trace| - 1] == mid[|mid| - 1])
  {
  }

  lemma SpoiltNotInLanguage(s: Stream, done: seq<Event>)
    requires Spoilt(s, done)
    ensures !InLanguage(s.trace)
  {
    forall mid, end | s.trace == [Created] + mid + end && AllCompleted(end)
      ensures !OpenPart(mid)
    {
      assert s.trace[|s.trace| - 1] == FailedOpen && s.trace[1] == done[0];
      PartsOf(s.trace, mid, end);
    }
  }

  lemma SpoiltStep(s: Stream, op: Op, done: seq<Event>)
    requires Spoilt(s, done)
    ensures Spoilt(Apply(s, op), done)
  {
    match op
    case OpNewStream(_) =>
    case OpWrite(_, _) =>
    case OpDestroyStream(_) =>
    case OpURLNotify(_) =>
    case OpClose =>
    case OpHostShutdown =>
  }

  lemma LateRejectionSpoils(s: Stream, op: Op, mid: seq<Event>, done: seq<Event>)
    requires Consistent(s, mid, done) && RejectsLate(s, op)
    ensures Spoilt(Apply(s, op), done)
  {
    assert Apply(s, op).trace == [Created] + done + [FailedOpen];
  }

  lemma {:induction false} RunSpoils(s: Stream, ops: seq<Op>, mid: seq<Event>, done: seq<Event>)
    requires (Consistent(s, mid, done) && EverRejectsLate(s, ops)) || Spoilt(s, done)
    ensures !InLanguage(Run(s, ops).trace)
    decreases |ops|
  {
    if ops == [] {
      SpoiltNotInLanguage(s, done);
    } else {
      var t := Apply(s, ops[0]);
      if Spoilt(s, done) {
        SpoiltStep(s, ops[0], done);
        RunSpoils(t, ops[1..], mid, done);
      } else if RejectsLate(s, ops[0]) {
        LateRejectionSpoils(s, ops[0], mid, done);
        RunSpoils(t, ops[1..], mid, done);
      } else {
        var mid', done' := Steps(s, ops[0], mid, done);
        RunSpoils(t, ops[1..], mid', done');
      }
    }
  }

  /**
   The events of every run form the language exactly when the browser never offers a non-seekable `NPStream` for a
   seekable request that has completed before: nothing checks for that case, and it sends FailedOpen after Completed.
   */
  lemma EventLanguage(s: Stream, ops: seq<Op>)
    requires Fresh(s)
    ensures InLanguage(Run(s, ops).trace) <==> !EverRejectsLate(s, ops)
  {
    assert Splits(s.trace, [], []);
    if EverRejectsLate(s, ops) {
      RunSpoils(s, ops, [], []);
    } else {
      RunInLanguage(s, ops, [], []);
    }
  }

  /** The late rejection does occur: a failed request, then an offer that cannot seek. */
  lemma LateRejectionExample()
    ensures var ops := [OpURLNotify(false), OpNewStream(false)];
            Run(Requested(true, 1), ops).trace == [Created, Completed(false), FailedOpen]
  {
    var ops := [OpURLNotify(false), OpNewStream(false)];
    var s := Apply(Requested(true, 1), ops[0]);
    assert ops[1..] == [ops[1]];
    RunOne(s, ops[1]);
  }

  ghost predicate DataInOrder(t: seq<Event>) {
    forall i :: 0 <= i < |t| && t[i].DataArrived? ==>
      (exists j :: 0 <= j < i && t[j] == Opened) && (forall j :: 0 <= j < i ==> !t[j].Completed?)
  }

  lemma SplitInOrder(t: seq<Event>, mid: seq<Event>, done: seq<Event>)
    requires Splits(t, mid, done)
    ensures DataInOrder(t)
  {
    forall i | 0 <= i < |t| && t[i].DataArrived?
      ensures (exists j :: 0 <= j < i && t[j] == Opened) && (forall j :: 0 <= j < i ==> !t[j].Completed?)
    {
      PartsOf(t, mid, done);
      assert t[i] == mid[i - 1] && t[1] == mid[0] == Opened;
    }
  }

  lemma {:induction false} RunInOrder(s: Stream, ops: seq<Op>, mid: seq<Event>, done: seq<Event>)
    requires Consistent(s, mid, done) || Spoilt(s, done)
    ensures DataInOrder(Run(s, ops).trace)
    decreases |ops|
  {
    if ops == [] {
      if Consistent(s, mid, done) {
        SplitInOrder(s.trace, mid, done);
      } else {
        assert forall e :: e in s.trace ==> e == Created || e == FailedOpen || e in done;
      }
    } else if Spoilt(s, done) {
      SpoiltStep(s, ops[0], done);
      RunInOrder(Apply(s, ops[0]), ops[1..], mid, done);
    } else if RejectsLate(s, ops[0]) {
      LateRejectionSpoils(s, ops[0], mid, done);
      RunInOrder(Apply(s, ops[0]), ops[1..], mid, done);
    } else {
      var mid', done' := Steps(s, ops[0], mid, done);
      RunInOrder(Apply(s, ops[0]), ops[1..], mid', done');
    }
  }

  /** No data precedes the opening or follows a completion, in any run at all. */
  lemma DataOnlyWhileOpen(s: Stream, ops: seq<Op>)
    requires Fresh(s)
    ensures DataInOrder(Run(s, ops).trace)
  {
    assert Splits(s.trace, [], []);
    RunInOrder(s, ops, [], []);
  }

  // ---- The ordinary end of a stream ----

  predicate AllWrites(ops: seq<Op>) {
    forall i :: 0 <= i < |ops| ==> ops[i].OpWrite?
  }

  predicate AllData(events: seq<Event>) {
    forall i :: 0 <= i < |events| ==> events[i].DataArrived?
  }

  lemma {:induction false} RunConcat(s: Stream, first: seq<Op>, second: seq<Op>)
    ensures Run(s, first + second) == Run(Run(s, first), second)
    decreases |first|
  {
    if first == [] {
      assert first + second == second;
    } else {
      assert (first + second)[1..] == first[1..] + second;
      RunConcat(Apply(s, first[0]), first[1..], second);
    }
  }

  /** Whether data written now is passed on. */
  predicate Receiving(s: Stream) {
    s.offered && s.pdata && s.isOpen
  }

  /** What an open stream sends for one write. */
  function Sends(bufferSize: nat, write: Op): seq<Event>
    requires write.OpWrite?
  {
    var n := Consumed(bufferSize, |write.data|);
    if n > 0 then [DataArrived(write.data[..n], write.offset)] else []
  }

  function DataOf(bufferSize: nat, writes: seq<Op>): (data: seq<Event>)
    requires AllWrites(writes)
    ensures AllData(data)
    decreases |writes|
  {
    if writes == [] then [] else Sends(bufferSize, writes[0]) + DataOf(bufferSize, writes[1..])
  }

  function Sent(s: Stream, data: seq<Event>): Stream {
    s.(trace := s.trace + data)
  }

  lemma WriteSends(s: Stream, op: Op)
    requires op.OpWrite?
    ensures Apply(s, op) == if Receiving(s) then Sent(s, Sends(s.bufferSize, op)) else s
  {
    assert s.trace + [] == s.trace;
  }

  lemma {:induction false} RunWrites(s: Stream, writes: seq<Op>)
    requires AllWrites(writes)
    ensures Run(s, writes) == if Receiving(s) then Sent(s, DataOf(s.bufferSize, writes)) else s
    decreases |writes|
  {
    if writes == [] {
      assert s.trace + [] == s.trace;
    } else {
      var t := Apply(s, writes[0]);
      WriteSends(s, writes[0]);
      RunWrites(t, writes[1..]);
      var first, rest := Sends(s.bufferSize, writes[0]), DataOf(s.bufferSize, writes[1..]);
      assert s.trace + first + rest == s.trace + (first + rest);
    }
  }

  lemma Opens(s: Stream, seekable: bool)
    requires Fresh(s) && (s.seekableRequested ==> seekable)
    ensures var t := Apply(s, OpNewStream(seekable));
            && t.trace == [Created, Opened] && Receiving(t) && t.attached && !t.completed && t.hostAlive
            && t.seekableRequested == s.seekableRequested && t.bufferSize == s.bufferSize
            && Seekable(t) == s.seekableRequested
  {
  }

  /** The opening of a stream that is not rejected, and the writes that follow. */
  lemma OpensAndReceives(s: Stream, seekable: bool, writes: seq<Op>)
    requires Fresh(s) && (s.seekableRequested ==> seekable) && AllWrites(writes)
    ensures var t := Run(s, [OpNewStream(seekable)] + writes);
            && t.trace == [Created, Opened] + DataOf(s.bufferSize, writes)
            && Receiving(t) && t.attached && !t.completed && t.seekableRequested == s.seekableRequested && t.hostAlive
            && Seekable(t) == s.seekableRequested
  {
    var ops := [OpNewStream(seekable)] + writes;
    var s1 := Apply(s, OpNewStream(seekable));
    assert ops[1..] == writes;
    Opens(s, seekable);
    RunWrites(s1, writes);
  }

  /**
   A stream that cannot seek and is ended by `DestroyStream` and then `URLNotify`, with no call of `close`, reports its
   completion exactly once, with the reason that `DestroyStream` gave, after all of its data; late writes are ignored.
   */
  lemma OrdinaryEnd(s: Stream, ops: seq<Op>, seekable: bool, writes: seq<Op>, done: bool, late: seq<Op>,
                    notifyDone: bool)
    requires Fresh(s) && !s.seekableRequested && AllWrites(writes) && AllWrites(late)
    requires ops == [OpNewStream(seekable)] + writes + ([OpDestroyStream(done)] + late + [OpURLNotify(notifyDone)])
    ensures Run(s, ops).trace == [Created, Opened] + DataOf(s.bufferSize, writes) + [Completed(done)]
  {
    var first := [OpNewStream(seekable)] + writes;
    var last := [OpDestroyStream(done)] + late + [OpURLNotify(notifyDone)];
    RunConcat(s, first, last);
    OpensAndReceives(s, seekable, writes);
    EndsOnce(Run(s, first), done, late, notifyDone);
  }

  lemma EndsOnce(s: Stream, done: bool, late: seq<Op>, notifyDone: bool)
    requires s.offered && s.pdata && s.attached && !s.completed && !s.seekableRequested && AllWrites(late)
    ensures Run(s, [OpDestroyStream(done)] + late + [OpURLNotify(notifyDone)]).trace == s.trace + [Completed(done)]
  {
    var ops := [OpDestroyStream(done)] + late + [OpURLNotify(notifyDone)];
    var s1 := Apply(s, OpDestroyStream(done));
    assert ops[1..] == late + [OpURLNotify(notifyDone)];
    RunConcat(s1, late, [OpURLNotify(notifyDone)]);
    RunWrites(s1, late);
    RunOne(s1, OpURLNotify(notifyDone));
  }

  /**
   A seekable stream is not told when everything has been sent, by `DestroyStream` or by `URLNotify`: only the first
   failure that one of them reports completes it, after all of its data.
   */
  lemma SeekableEnd(s: Stream, ops: seq<Op>, writes: seq<Op>, done: bool, late: seq<Op>, notifyDone: bool)
    requires Fresh(s) && s.seekableRequested && AllWrites(writes) && AllWrites(late)
    requires ops == [OpNewStream(true)] + writes + ([OpDestroyStream(done)] + late + [OpURLNotify(notifyDone)])
    ensures Run(s, ops).trace
            == [Created, Opened] + DataOf(s.bufferSize, writes) + if done && notifyDone then [] else [Completed(false)]
  {
    var first := [OpNewStream(true)] + writes;
    RunConcat(s, first, [OpDestroyStream(done)] + late + [OpURLNotify(notifyDone)]);
    OpensAndReceives(s, true, writes);
    SeekableEndsOnce(Run(s, first), done, late, notifyDone);
  }

  lemma SeekableEndsOnce(s: Stream, done: bool, late: seq<Op>, notifyDone: bool)
    requires s.offered && s.pdata && s.attached && !s.completed && Seekable(s) && AllWrites(late)
    ensures Run(s, [OpDestroyStream(done)] + late + [OpURLNotify(notifyDone)]).trace
            == s.trace + if done && notifyDone then [] else [Completed(false)]
  {
    var ops := [OpDestroyStream(done)] + late + [OpURLNotify(notifyDone)];
    var s1 := Apply(s, OpDestroyStream(done));
    assert ops[1..] == late + [OpURLNotify(notifyDone)];
    RunConcat(s1, late, [OpURLNotify(notifyDone)]);
    RunWrites(s1, late);
    RunOne(s1, OpURLNotify(notifyDone));
    assert s.trace + [] == s.trace;
  }

  /** A seekable request that is offered a stream that cannot seek fails to open, and gets no data, only its reason. */
  lemma RejectedEnd(s: Stream, writes: seq<Op>, notifyDone: bool)
    requires Fresh(s) && s.seekableRequested && AllWrites(writes)
    ensures Run(s, [OpNewStream(false)] + writes + [OpURLNotify(notifyDone)]).trace
            == [Created, FailedOpen, Completed(notifyDone)]
  {
    var s1 := Apply(s, OpNewStream(false));
    RunOne(s, OpNewStream(false));
    RunConcat(s, [OpNewStream(false)], writes);
    RunConcat(s, [OpNewStream(false)] + writes, [OpURLNotify(notifyDone)]);
    RunWrites(s1, writes);
    RunOne(s1, OpURLNotify(notifyDone));
  }

  lemma RunOne(s: Stream, op: Op)
    ensures Run(s, [op]) == Apply(s, op)
  {
    assert Run(Apply(s, op), [op][1..]) == Apply(s, op);
  }
}
