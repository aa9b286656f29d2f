/**
 How long a stream keeps itself alive (NpapiStream.cpp): exactly until the browser has notified the plugin and some
 call has detached the stream from its `NPStream`, which not every run does.
 */
module StreamLifetimes {
  import opened StreamEvents

  // ---- The exact condition ----

  ghost predicate HeldUntilBoth(s: Stream) {
    s.selfReference <==> !(s.destroyed && s.notified)
  }

  /** The call makes the browser destroy the stream, or is the browser's destruction, while the stream is attached. */
  predicate Detaching(s: Stream, op: Op) {
    s.attached
    && match op
       case OpDestroyStream(_) => true
       case OpClose => s.hostAlive
       case OpURLNotify(done) => s.hostAlive && !s.completed && !(Seekable(s) && done)
       case _ => false
  }

  predicate EverDetached(s: Stream, ops: seq<Op>)
    decreases |ops|
  {
    ops != [] && (Detaching(s, ops[0]) || EverDetached(Apply(s, ops[0]), ops[1..]))
  }

  predicate EverNotified(ops: seq<Op>) {
    ops != [] && (ops[0].OpURLNotify? || EverNotified(ops[1..]))
  }

  /** An attached stream has been offered, and nothing has destroyed it yet. */
  ghost predicate Tracked(s: Stream) {
    HeldUntilBoth(s) && (s.attached ==> s.offered && s.pdata && !s.destroyed) && (s.destroyed ==> s.offered)
  }

  lemma TrackedStep(s: Stream, op: Op)
    requires Tracked(s)
    ensures var t := Apply(s, op);
            && Tracked(t)
            && (t.destroyed <==> s.destroyed || Detaching(s, op))
            && (t.notified <==> s.notified || op.OpURLNotify?)
  {
    match op
    case OpNewStream(_) =>
    case OpWrite(_, _) =>
    case OpDestroyStream(_) =>
    case OpURLNotify(_) =>
    case OpClose =>
    case OpHostShutdown =>
  }

  lemma {:induction false} TrackedRun(s: Stream, ops: seq<Op>)
    requires Tracked(s)
    ensures var t := Run(s, ops);
            && Tracked(t)
            && (t.destroyed <==> s.destroyed || EverDetached(s, ops))
            && (t.notified <==> s.notified || EverNotified(ops))
    decreases |ops|
  {
    if ops != [] {
      TrackedStep(s, ops[0]);
      TrackedRun(Apply(s, ops[0]), ops[1..]);
    }
  }

  /**
   The self-reference goes if and only if the browser has notified the plugin, or never has to, and some call has
   detached the stream while it was attached, in either order.
   */
  lemma ReleasedIff(s: Stream, ops: seq<Op>)
    requires Fresh(s)
    ensures !Run(s, ops).selfReference <==> (s.notified || EverNotified(ops)) && EverDetached(s, ops)
  {
    TrackedRun(s, ops);
  }

  /** A stream that the plugin requested needs both; one that the browser offered on its own is never notified. */
  lemma WhoNeedsNotification(seekable: bool, bufferSize: nat, ops: seq<Op>)
    ensures var s := Requested(seekable, bufferSize);
            !Run(s, ops).selfReference <==> EverNotified(ops) && EverDetached(s, ops)
    ensures var s := Unsolicited(seekable, bufferSize);
            !Run(s, ops).selfReference <==> EverDetached(s, ops)
  {
    ReleasedIff(Requested(seekable, bufferSize), ops);
    ReleasedIff(Unsolicited(seekable, bufferSize), ops);
  }

  // ---- Runs that never release the stream ----

  /** The state a rejection leaves behind: nothing can detach the stream any more. */
  predicate Rejected(s: Stream) {
    s.offered && !s.attached && !s.destroyed && s.selfReference
  }

  lemma RejectedStep(s: Stream, op: Op)
    requires Rejected(s)
    ensures Rejected(Apply(s, op))
  {
    match op
    case OpNewStream(_) =>
    case OpWrite(_, _) =>
    case OpDestroyStream(_) =>
    case OpURLNotify(_) =>
    case OpClose =>
    case OpHostShutdown =>
  }

  /** A stream rejected because it cannot seek is never told that it was destroyed, and keeps itself alive for ever. */
  lemma {:induction false} RejectedNeverReleased(s: Stream, ops: seq<Op>)
    requires Rejected(s)
    ensures Run(s, ops).selfReference
    decreases |ops|
  {
    if ops != [] {
      RejectedStep(s, ops[0]);
      RejectedNeverReleased(Apply(s, ops[0]), ops[1..]);
    }
  }

  /** So the reference of every rejected request is held for ever, whatever came before and whatever comes after. */
  lemma RejectionLeaks(s: Stream, before: seq<Op>, ops: seq<Op>)
    requires Fresh(s) && s.seekableRequested && !Run(s, before).offered
    ensures Run(s, before + [OpNewStream(false)] + ops).selfReference
  {
    TrackedRun(s, before);
    UnofferedUnattached(s, before);
    var t := Run(s, before);
    var last := [OpNewStream(false)];
    RunOne(t, last[0]);
    RunConcat(s, before, last);
    RunConcat(s, before + last, ops);
    RejectedNeverReleased(Apply(t, last[0]), ops);
  }

  lemma UnofferedStep(s: Stream, op: Op)
    requires !s.offered && !s.attached && !op.OpNewStream?
    ensures var t := Apply(s, op);
            !t.offered && !t.attached && !Detaching(s, op) && t.seekableRequested == s.seekableRequested
  {
    match op
    case OpWrite(_, _) =>
    case OpDestroyStream(_) =>
    case OpURLNotify(_) =>
    case OpClose =>
    case OpHostShutdown =>
  }

  lemma {:induction false} NeverOfferedNotDetached(s: Stream, ops: seq<Op>)
    requires !s.offered && !s.attached && forall i :: 0 <= i < |ops| ==> !ops[i].OpNewStream?
    ensures !EverDetached(s, ops)
    decreases |ops|
  {
    if ops != [] {
      UnofferedStep(s, ops[0]);
      NeverOfferedNotDetached(Apply(s, ops[0]), ops[1..]);
    }
  }

  /** A request that is never offered a stream, whether or not it fails, is never released. */
  lemma FailedRequestLeaks(s: Stream, ops: seq<Op>)
    requires Fresh(s) && forall i :: 0 <= i < |ops| ==> !ops[i].OpNewStream?
    ensures Run(s, ops).selfReference
  {
    NeverOfferedNotDetached(s, ops);
    ReleasedIff(s, ops);
  }

  /** A stream that is closed after the host's shutdown lets go of its `NPStream` without being destroyed. */
  lemma CloseAfterShutdownLeaks(s: Stream, before: seq<Op>, ops: seq<Op>)
    requires Fresh(s) && Run(s, before).attached && !Run(s, before).hostAlive
    ensures Run(s, before + [OpClose] + ops).selfReference
  {
    var t, last := Run(s, before), [OpClose];
    TrackedRun(s, before);
    RunOne(t, last[0]);
    RunConcat(s, before, last);
    RunConcat(s, before + last, ops);
    RejectedNeverReleased(Apply(t, last[0]), ops);
  }

  lemma OfferedStep(s: Stream, op: Op)
    requires s.offered
    ensures Apply(s, op).offered
  {
    match op
    case OpNewStream(_) =>
    case OpWrite(_, _) =>
    case OpDestroyStream(_) =>
    case OpURLNotify(_) =>
    case OpClose =>
    case OpHostShutdown =>
  }

  lemma {:induction false} OfferedStays(s: Stream, ops: seq<Op>)
    requires s.offered
    ensures Run(s, ops).offered
    decreases |ops|
  {
    if ops != [] {
      OfferedStep(s, ops[0]);
      OfferedStays(Apply(s, ops[0]), ops[1..]);
    }
  }

  lemma {:induction false} UnofferedUnattached(s: Stream, ops: seq<Op>)
    requires !Run(s, ops).offered && !s.offered && !s.attached
    ensures !Run(s, ops).attached && Run(s, ops).seekableRequested == s.seekableRequested
    decreases |ops|
  {
    if ops != [] {
      var t := Apply(s, ops[0]);
      if ops[0].OpNewStream? { OfferedStays(t, ops[1..]); }
      UnofferedStep(s, ops[0]);
      UnofferedUnattached(t, ops[1..]);
    }
  }
}
