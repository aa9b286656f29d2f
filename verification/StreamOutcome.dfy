/**
 What the HTTP callback is told about the end of a stream (NpapiStream.cpp with SimpleStreamHelper.cpp): the first
 completion decides, and `close` sends a successful one of its own before the one that gives the reason.
 */
module StreamOutcomes {
  import opened Common
  import opened StreamEvents
  import opened HttpHeaders
  import opened StreamBody

  /** The first completion among the events, if there is one. */
  function FirstOutcome(events: seq<Event>): Option<bool> {
    if events == [] then None
    else if events[0].Completed? then Some(events[0].success)
    else FirstOutcome(events[1..])
  }

  lemma {:induction false} FirstOutcomeOf(first: seq<Event>, second: seq<Event>)
    ensures FirstOutcome(first + second)
            == if FirstOutcome(first).Some? then FirstOutcome(first) else FirstOutcome(second)
  {
    if first == [] {
      assert first + second == second;
    } else {
      assert (first + second)[1..] == first[1..] + second;
      FirstOutcomeOf(first[1..], second);
    }
  }

  /** The callback's success is that of the first completion. */
  lemma {:induction false} CallbackToldFirst(h: Helper, events: seq<Event>)
    requires h.callback && h.calls == []
    ensures var calls := Observe(h, events).calls;
            match FirstOutcome(events)
            case None => calls == []
            case Some(success) => |calls| == 1 && calls[0].success == success
    decreases |events|
  {
    if events != [] {
      if events[0].Completed? {
        SilentAfterCall(OnEvent(h, events[0]), events[1..]);
      } else {
        CallbackToldFirst(OnEvent(h, events[0]), events[1..]);
      }
    }
  }

  // ---- Which call decides ----

  /** An open stream that holds its `NPStream` and has not been completed. */
  predicate Active(s: Stream) {
    s.offered && s.pdata && s.attached && s.isOpen && !s.completed
  }

  /** The calls that end an active stream. A seekable one stays open when the browser is done with sending. */
  predicate Ending(seekable: bool, op: Op) {
    op.OpClose? || op.OpDestroyStream? || (op.OpURLNotify? && !(seekable && op.done))
  }

  /** The calls among them that are reported as a success. */
  predicate EndsWithSuccess(seekable: bool, op: Op) {
    op.OpClose? || op.OpURLNotify? || (op.OpDestroyStream? && op.done && !seekable)
  }

  function FirstEnding(seekable: bool, ops: seq<Op>): Option<Op> {
    if ops == [] then None
    else if Ending(seekable, ops[0]) then Some(ops[0])
    else FirstEnding(seekable, ops[1..])
  }

  lemma QuietStep(s: Stream, op: Op)
    requires Active(s) && !Ending(Seekable(s), op)
    ensures var t := Apply(s, op);
            Active(t) && Seekable(t) == Seekable(s) && FirstOutcome(t.trace) == FirstOutcome(s.trace)
  {
    match op
    case OpNewStream(_) =>
    case OpWrite(_, _) =>
      WriteSends(s, op);
      FirstOutcomeOf(s.trace, Sends(s.bufferSize, op));
    case OpURLNotify(_) =>
    case OpHostShutdown =>
  }

  /** The completions that an ending call sends. */
  function Endings(s: Stream, op: Op): seq<Event>
    requires Active(s) && Ending(Seekable(s), op)
  {
    match op
    case OpClose => [Completed(true)] + if s.hostAlive then [Completed(false)] else []
    case OpDestroyStream(done) => if Seekable(s) && done then [] else [Completed(done)]
    case OpURLNotify(done) => [Completed(true), Completed(done)]
  }

  lemma EndingStep(s: Stream, op: Op)
    requires Active(s) && Ending(Seekable(s), op)
    ensures Apply(s, op).trace == s.trace + Endings(s, op)
  {
    match op
    case OpClose =>
    case OpDestroyStream(_) => assert s.trace + [] == s.trace;
    case OpURLNotify(_) =>
  }

  /** What each call that ends an active stream sends, and so who is told what. */
  lemma EndsOfActive(s: Stream, done: bool)
    requires Active(s)
    ensures Apply(s, OpClose).trace
            == s.trace + if s.hostAlive then [Completed(true), Completed(false)] else [Completed(true)]
    ensures Apply(s, OpDestroyStream(done)).trace
            == if s.seekableRequested && s.seekableByServer && done then s.trace else s.trace + [Completed(done)]
    ensures Apply(s, OpURLNotify(done)).trace
            == if s.seekableRequested && s.seekableByServer && done then s.trace
               else s.trace + [Completed(true), Completed(done)]
  {
    EndingStep(s, OpClose);
    EndingStep(s, OpDestroyStream(done));
    if !(Seekable(s) && done) { EndingStep(s, OpURLNotify(done)); }
  }

  /** A seekable stream that the browser has destroyed after sending everything: only failures are reported now. */
  predicate Served(s: Stream) {
    s.offered && !s.pdata && !s.attached && !s.completed && Seekable(s)
  }

  lemma ServedStep(s: Stream, op: Op)
    requires Served(s)
    ensures var t := Apply(s, op);
            (t.trace == s.trace && Served(t)) || t.trace == s.trace + [Completed(false)]
  {
    match op
    case OpNewStream(_) =>
    case OpWrite(_, _) =>
    case OpDestroyStream(_) =>
    case OpURLNotify(_) =>
    case OpClose =>
    case OpHostShutdown =>
  }

  lemma {:induction false} ServedNeverSucceeds(s: Stream, ops: seq<Op>)
    requires Served(s) && FirstOutcome(s.trace) != Some(true)
    ensures FirstOutcome(Run(s, ops).trace) != Some(true)
    decreases |ops|
  {
    if ops != [] {
      var t := Apply(s, ops[0]);
      ServedStep(s, ops[0]);
      FirstOutcomeOf(s.trace, [Completed(false)]);
      if Served(t) && t.trace == s.trace {
        ServedNeverSucceeds(t, ops[1..]);
      } else {
        OutcomeStays(t, ops[1..]);
      }
    }
  }

  lemma CloseGrows(s: Stream) returns (more: seq<Event>)
    ensures Close(s).trace == s.trace + more
  {
    more :=
      if !s.attached then []
      else (if s.isOpen then [Completed(true)] else [])
           + if s.completed || !s.hostAlive then [] else [Completed(false)];
    assert s.trace + [] == s.trace;
  }

  lemma SignalGrows(s: Stream, done: bool) returns (more: seq<Event>)
    ensures SignalCompleted(s, done).trace == s.trace + more
  {
    if s.completed || (Seekable(s) && done) {
      more := [];
      assert s.trace + [] == s.trace;
    } else {
      var closing := CloseGrows(s.(completed := true));
      more := closing + [Completed(done)];
      assert (s.trace + closing) + [Completed(done)] == s.trace + more;
    }
  }

  lemma NotifyGrows(s: Stream, done: bool) returns (more: seq<Event>)
    ensures URLNotify(s, done).trace == s.trace + more
  {
    more := SignalGrows(s, done);
  }

  lemma OfferGrows(s: Stream, seekable: bool) returns (more: seq<Event>)
    ensures NewStream(s, seekable).trace == s.trace + more
  {
    more := if s.seekableRequested && !seekable then [FailedOpen] else if s.completed then [] else [Opened];
    assert s.trace + [] == s.trace;
  }

  lemma WriteGrows(s: Stream, op: Op) returns (more: seq<Event>)
    requires op.OpWrite?
    ensures Apply(s, op).trace == s.trace + more
  {
    WriteSends(s, op);
    more := if Receiving(s) then Sends(s.bufferSize, op) else [];
    assert s.trace + [] == s.trace;
  }

  lemma DestroyGrows(s: Stream, done: bool) returns (more: seq<Event>)
    ensures DestroyStream(s, done).trace == s.trace + more
  {
    more := if s.pdata && s.attached && !s.completed && !(Seekable(s) && done) then [Completed(done)] else [];
    assert s.trace + [] == s.trace;
  }

  lemma Grows(s: Stream, op: Op) returns (more: seq<Event>)
    ensures Apply(s, op).trace == s.trace + more
  {
    more := [];
    assert s.trace + [] == s.trace;
    match op
    case OpNewStream(seekable) => if !s.offered { more := OfferGrows(s, seekable); }
    case OpWrite(_, _) => more := WriteGrows(s, op);
    case OpDestroyStream(done) => if s.offered { more := DestroyGrows(s, done); }
    case OpURLNotify(done) => more := NotifyGrows(s, done);
    case OpClose => more := CloseGrows(s);
    case OpHostShutdown =>
  }

  /** What has been reported first stays what has been reported first. */
  lemma {:induction false} OutcomeStays(s: Stream, ops: seq<Op>)
    requires FirstOutcome(s.trace).Some?
    ensures FirstOutcome(Run(s, ops).trace) == FirstOutcome(s.trace)
    decreases |ops|
  {
    if ops != [] {
      var more := Grows(s, ops[0]);
      FirstOutcomeOf(s.trace, more);
      OutcomeStays(Apply(s, ops[0]), ops[1..]);
    }
  }

  lemma EndDecides(s: Stream, op: Op, rest: seq<Op>)
    requires Active(s) && Ending(Seekable(s), op) && FirstOutcome(s.trace) == None
    ensures FirstOutcome(Run(Apply(s, op), rest).trace) == Some(true) <==> EndsWithSuccess(Seekable(s), op)
  {
    var t := Apply(s, op);
    EndingStep(s, op);
    FirstOutcomeOf(s.trace, Endings(s, op));
    if Endings(s, op) == [] {
      ServedNeverSucceeds(t, rest);
    } else {
      OutcomeStays(t, rest);
    }
  }

  /**
   The exact condition: an active stream is reported as a success if and only if the first call that ends it is the
   user's `close`, the browser's `URLNotify`, or, when the stream cannot seek, the browser's `DestroyStream` after
   everything has been sent. The reason that `URLNotify` gives makes no difference.
   */
  lemma {:induction false} SuccessIff(s: Stream, ops: seq<Op>)
    requires Active(s) && FirstOutcome(s.trace) == None
    ensures FirstOutcome(Run(s, ops).trace) == Some(true)
            <==> var end := FirstEnding(Seekable(s), ops); end.Some? && EndsWithSuccess(Seekable(s), end.value)
    decreases |ops|
  {
    if ops != [] {
      if Ending(Seekable(s), ops[0]) {
        EndDecides(s, ops[0], ops[1..]);
      } else {
        QuietStep(s, ops[0]);
        SuccessIff(Apply(s, ops[0]), ops[1..]);
      }
    }
  }

  /** The same of the callback: what it is told depends on the first ending call in just this way. */
  lemma CallbackSuccessIff(source: string, s: Stream, ops: seq<Op>)
    requires Active(s) && FirstOutcome(s.trace) == None
    ensures var calls := Observe(NewHelper(source), Run(s, ops).trace).calls;
            (|calls| == 1 && calls[0].success)
            <==> var end := FirstEnding(Seekable(s), ops); end.Some? && EndsWithSuccess(Seekable(s), end.value)
  {
    SuccessIff(s, ops);
    CallbackToldFirst(NewHelper(source), Run(s, ops).trace);
  }

  // ---- Successes that are none ----

  lemma PartialBodyObserved(source: string, bufferSize: nat, body: seq<Byte>, offers: seq<nat>, trace: seq<Event>)
    requires trace == [Created, Opened] + DataOf(bufferSize, Feed(bufferSize, body, 0, offers))
                      + [Completed(true), Completed(false)]
    ensures var end := FeedEnd(bufferSize, body, 0, offers);
            Observe(NewHelper(source), trace).calls == [HttpResult(true, Entries(Split(source)), body[..end], end)]
  {
    var data := FeedDelivers(bufferSize, body, 0, offers);
    var end := FeedEnd(bufferSize, body, 0, offers);
    assert body[0..end] == body[..end];
    OpenedRun(source, data, [Completed(true), Completed(false)]);
  }

  /**
   A user who closes the stream early is told the same as if it had ended well: the callback gets success and the part
   of the body that had arrived, because `close` reports success before the browser reports the break. And so it is
   when the browser notifies a failure while the stream is open, because that closes it.
   */
  lemma EarlyEndReportsSuccess(source: string, s: Stream, seekable: bool, body: seq<Byte>, offers: seq<nat>, end: Op)
    requires Fresh(s) && !s.seekableRequested && (end == OpClose || end == OpURLNotify(false))
    ensures var fed := Run(s, [OpNewStream(seekable)] + Feed(s.bufferSize, body, 0, offers));
            var n := FeedEnd(s.bufferSize, body, 0, offers);
            && Apply(fed, end).trace == fed.trace + [Completed(true), Completed(false)]
            && Observe(NewHelper(source), Apply(fed, end).trace).calls
               == [HttpResult(true, Entries(Split(source)), body[..n], n)]
  {
    var fed := Run(s, [OpNewStream(seekable)] + Feed(s.bufferSize, body, 0, offers));
    OpensAndReceives(s, seekable, Feed(s.bufferSize, body, 0, offers));
    EndingStep(fed, end);
    PartialBodyObserved(source, s.bufferSize, body, offers, Apply(fed, end).trace);
  }
}
