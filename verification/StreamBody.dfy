/**
 The way of a body from the browser's offers through the stream to one HTTP callback (NpapiStream.cpp and
 SimpleStreamHelper.cpp): it survives any way in which the browser cuts it up and offers it again, and the callback is
 called once. The helper's blocks are in `StreamHelpers`.
 */
module StreamBody {
  import opened Common
  import opened E = StreamEvents
  import opened HttpHeaders

  /** What the callback is given. A failure carries no headers and no data, but still the number of bytes received. */
  datatype HttpResult = HttpResult(success: bool, headers: seq<Header>, data: seq<Byte>, size: nat)

  /** The helper as a value: `source` is the header text of the stream it observes, `bytes` the body received so far. */
  datatype Helper = Helper(source: string, bytes: seq<Byte>, callback: bool, self: bool, calls: seq<HttpResult>)

  function NewHelper(source: string): Helper {
    Helper(source, [], true, true, [])
  }

  function OnData(h: Helper, data: seq<Byte>): Helper {
    h.(bytes := h.bytes + data)
  }

  /** What the callback is given for a completion. */
  function ResultOf(success: bool, headers: string, body: seq<Byte>): HttpResult {
    if success then HttpResult(true, Entries(Split(headers)), body, |body|) else HttpResult(false, [], [], |body|)
  }

  /** An event without its stream: the callback is dropped all the same, but only a failure is reported. */
  function OnCompleted(h: Helper, success: bool, stream: Option<string>): Helper {
    var headers := if stream.Some? then stream.value else [];
    h.(callback := false, self := false,
       calls := if h.callback && (stream.Some? || !success) then h.calls + [ResultOf(success, headers, h.bytes)]
                else h.calls)
  }

  function OnEvent(h: Helper, e: Event): Helper {
    match e
    case DataArrived(data, _) => OnData(h, data)
    case Completed(success) => OnCompleted(h, success, Some(h.source))
    case _ => h
  }

  /** An observer that is attached from the first of these events on. */
  function Observe(h: Helper, events: seq<Event>): Helper
    decreases |events|
  {
    if events == [] then h else Observe(OnEvent(h, events[0]), events[1..])
  }

  lemma {:induction false} ObserveConcat(h: Helper, first: seq<Event>, second: seq<Event>)
    ensures Observe(h, first + second) == Observe(Observe(h, first), second)
    decreases |first|
  {
    if first == [] {
      assert first + second == second;
    } else {
      assert (first + second)[1..] == first[1..] + second;
      ObserveConcat(OnEvent(h, first[0]), first[1..], second);
    }
  }

  lemma ObserveOne(h: Helper, e: Event)
    ensures Observe(h, [e]) == OnEvent(h, e)
  {
    assert Observe(OnEvent(h, e), [e][1..]) == OnEvent(h, e);
  }

  /** The bytes that the data events among these carry. */
  function Body(events: seq<Event>): seq<Byte>
    decreases |events|
  {
    if events == [] then []
    else (if events[0].DataArrived? then events[0].data else []) + Body(events[1..])
  }

  lemma {:induction false} ObservesBody(h: Helper, events: seq<Event>)
    requires forall e :: e in events ==> !e.Completed?
    ensures Observe(h, events) == h.(bytes := h.bytes + Body(events))
    decreases |events|
  {
    if events == [] {
      assert h.bytes + [] == h.bytes;
    } else {
      ObservesBody(OnEvent(h, events[0]), events[1..]);
      BodyStep(h, events);
    }
  }

  lemma BodyStep(h: Helper, events: seq<Event>)
    requires events != [] && !events[0].Completed?
    ensures var next := OnEvent(h, events[0]);
            next.(bytes := next.bytes + Body(events[1..])) == h.(bytes := h.bytes + Body(events))
  {
    var rest := Body(events[1..]);
    if events[0].DataArrived? {
      assert h.bytes + events[0].data + rest == h.bytes + (events[0].data + rest);
    } else {
      assert [] + rest == rest;
    }
  }

  lemma {:induction false} SilentAfterCall(h: Helper, events: seq<Event>)
    requires !h.callback
    ensures var t := Observe(h, events); t.calls == h.calls && !t.callback && (!h.self ==> !t.self)
    decreases |events|
  {
    if events != [] { SilentAfterCall(OnEvent(h, events[0]), events[1..]); }
  }

  /**
   The callback is called for the first completion there is, with everything that arrived before it, and never again.
   */
  lemma CalledForFirstCompletion(source: string, events: seq<Event>, i: nat)
    requires i < |events| && events[i].Completed? && forall j :: 0 <= j < i ==> !events[j].Completed?
    ensures var h, body := Observe(NewHelper(source), events), Body(events[..i]);
            && h.calls == [if events[i].success then HttpResult(true, Entries(Split(source)), body, |body|)
                           else HttpResult(false, [], [], |body|)]
            && !h.self
  {
    var start := NewHelper(source);
    var h := Observe(start, events[..i]);
    assert events == events[..i] + ([events[i]] + events[i + 1..]);
    ObserveConcat(start, events[..i], [events[i]] + events[i + 1..]);
    ObservesBody(start, events[..i]);
    assert start.bytes + Body(events[..i]) == Body(events[..i]);
    ObserveConcat(h, [events[i]], events[i + 1..]);
    ObserveOne(h, events[i]);
    SilentAfterCall(OnEvent(h, events[i]), events[i + 1..]);
  }

  /** Over any events at all: one call if there is a completion among them, none otherwise. */
  lemma SingleNotification(source: string, events: seq<Event>)
    ensures |Observe(NewHelper(source), events).calls| == if exists e :: e in events && e.Completed? then 1 else 0
  {
    if exists i :: 0 <= i < |events| && events[i].Completed? {
      var i := FirstCompletion(events);
      CalledForFirstCompletion(source, events, i);
      assert events[i] in events;
    } else {
      ObservesBody(NewHelper(source), events);
    }
  }

  lemma FirstCompletion(events: seq<Event>) returns (i: nat)
    requires exists k :: 0 <= k < |events| && events[k].Completed?
    ensures i < |events| && events[i].Completed? && forall j :: 0 <= j < i ==> !events[j].Completed?
  {
    i := 0;
    while !events[i].Completed?
      invariant i < |events| && forall j :: 0 <= j < i ==> !events[j].Completed?
      decreases |events| - i
    {
      i := i + 1;
    }
  }

  // ---- Events without a stream ----

  /** A completion as the helper receives it: with the header text of its stream, or without a stream. */
  datatype Notice = Notice(success: bool, stream: Option<string>)

  function Notify(h: Helper, notices: seq<Notice>): Helper
    decreases |notices|
  {
    if notices == [] then h else Notify(OnCompleted(h, notices[0].success, notices[0].stream), notices[1..])
  }

  lemma {:induction false} SilentWithoutCallback(h: Helper, notices: seq<Notice>)
    requires !h.callback
    ensures Notify(h, notices).calls == h.calls
    decreases |notices|
  {
    if notices != [] { SilentWithoutCallback(OnCompleted(h, notices[0].success, notices[0].stream), notices[1..]); }
  }

  /**
   With completions that can lack their stream, the callback is called at most once, and it is called if and only if
   the first of them has its stream or is a failure: a success without a stream drops the callback, and later ones
   come too late.
   */
  lemma CalledIffFirstHasStream(h: Helper, notices: seq<Notice>)
    requires h.callback
    ensures var calls := Notify(h, notices).calls;
            var called := notices != [] && (notices[0].stream.Some? || !notices[0].success);
            |calls| == |h.calls| + if called then 1 else 0
  {
    if notices != [] { SilentWithoutCallback(OnCompleted(h, notices[0].success, notices[0].stream), notices[1..]); }
  }

  // ---- From the browser's offers to the callback ----

  /** What the browser offers at `pos` when it has `len` more bytes at hand. */
  function OfferAt(body: seq<Byte>, pos: nat, len: nat): seq<Byte>
    requires pos <= |body|
  {
    if pos + len < |body| then body[pos..pos + len] else body[pos..]
  }

  /** The browser's writes: each offer starts where the one before was consumed up to. */
  function Feed(bufferSize: nat, body: seq<Byte>, pos: nat, offers: seq<nat>): (writes: seq<Op>)
    requires pos <= |body|
    ensures AllWrites(writes)
    decreases |offers|
  {
    if offers == [] then []
    else
      var data := OfferAt(body, pos, offers[0]);
      [OpWrite(pos, data)] + Feed(bufferSize, body, pos + Consumed(bufferSize, |data|), offers[1..])
  }

  /** How far the offers get. */
  function FeedEnd(bufferSize: nat, body: seq<Byte>, pos: nat, offers: seq<nat>): (end: nat)
    requires pos <= |body|
    ensures pos <= end <= |body|
    decreases |offers|
  {
    if offers == [] then pos
    else FeedEnd(bufferSize, body, pos + Consumed(bufferSize, |OfferAt(body, pos, offers[0])|), offers[1..])
  }

  /** The data events continue each other from `pos` on. */
  predicate Contiguous(events: seq<Event>, pos: nat)
    decreases |events|
  {
    || events == []
    || (&& events[0].DataArrived? && events[0].offset == pos
        && Contiguous(events[1..], pos + |events[0].data|))
  }

  lemma PieceThenRest(body: seq<Byte>, pos: nat, n: nat, end: nat, rest: seq<Event>) returns (data: seq<Event>)
    requires pos + n <= end <= |body| && AllData(rest) && Contiguous(rest, pos + n) && Body(rest) == body[pos + n..end]
    ensures data == (if n > 0 then [DataArrived(body[pos..pos + n], pos)] else []) + rest
    ensures AllData(data) && Contiguous(data, pos) && Body(data) == body[pos..end]
  {
    data := (if n > 0 then [DataArrived(body[pos..pos + n], pos)] else []) + rest;
    if n > 0 {
      assert data[1..] == rest;
      assert body[pos..pos + n] + body[pos + n..end] == body[pos..end];
    } else {
      assert data == rest;
    }
  }

  /** What is sent is the consumed part of the first offer, and then what the later offers send. */
  lemma FeedSends(bufferSize: nat, body: seq<Byte>, pos: nat, offers: seq<nat>)
    requires pos <= |body| && offers != []
    ensures var n := Consumed(bufferSize, |OfferAt(body, pos, offers[0])|);
            DataOf(bufferSize, Feed(bufferSize, body, pos, offers))
            == (if n > 0 then [DataArrived(body[pos..pos + n], pos)] else [])
               + DataOf(bufferSize, Feed(bufferSize, body, pos + n, offers[1..]))
  {
    var offered := OfferAt(body, pos, offers[0]);
    var n := Consumed(bufferSize, |offered|);
    assert offered[..n] == body[pos..pos + n];
    assert Feed(bufferSize, body, pos, offers)[1..] == Feed(bufferSize, body, pos + n, offers[1..]);
  }

  /** Whatever the sizes of the offers, what is delivered is the next stretch of the body, in contiguous pieces. */
  lemma {:induction false} FeedDelivers(bufferSize: nat, body: seq<Byte>, pos: nat, offers: seq<nat>)
      returns (data: seq<Event>)
    requires pos <= |body|
    ensures data == DataOf(bufferSize, Feed(bufferSize, body, pos, offers)) && AllData(data)
    ensures Contiguous(data, pos) && Body(data) == body[pos..FeedEnd(bufferSize, body, pos, offers)]
    decreases |offers|
  {
    data := [];
    if offers != [] {
      var n := Consumed(bufferSize, |OfferAt(body, pos, offers[0])|);
      var rest := FeedDelivers(bufferSize, body, pos + n, offers[1..]);
      data := OfferThenRest(bufferSize, body, pos, offers, rest);
    }
  }

  lemma OfferThenRest(bufferSize: nat, body: seq<Byte>, pos: nat, offers: seq<nat>, rest: seq<Event>)
      returns (data: seq<Event>)
    requires pos <= |body| && offers != [] && AllData(rest)
    requires var next := pos + Consumed(bufferSize, |OfferAt(body, pos, offers[0])|);
             && rest == DataOf(bufferSize, Feed(bufferSize, body, next, offers[1..])) && Contiguous(rest, next)
             && Body(rest) == body[next..FeedEnd(bufferSize, body, next, offers[1..])]
    ensures data == DataOf(bufferSize, Feed(bufferSize, body, pos, offers)) && AllData(data)
    ensures Contiguous(data, pos) && Body(data) == body[pos..FeedEnd(bufferSize, body, pos, offers)]
  {
    var n := Consumed(bufferSize, |OfferAt(body, pos, offers[0])|);
    FeedSends(bufferSize, body, pos, offers);
    data := PieceThenRest(body, pos, n, FeedEnd(bufferSize, body, pos + n, offers[1..]), rest);
  }

  /** Every offer of at least one byte makes progress, so `|body|` of them are enough. */
  lemma {:induction false} FeedProgresses(bufferSize: nat, body: seq<Byte>, pos: nat, offers: seq<nat>)
    requires bufferSize > 0 && pos <= |body| && forall i :: 0 <= i < |offers| ==> offers[i] > 0
    ensures FeedEnd(bufferSize, body, pos, offers) >= if pos + |offers| < |body| then pos + |offers| else |body|
    decreases |offers|
  {
    if offers != [] {
      FeedProgresses(bufferSize, body, pos + Consumed(bufferSize, |OfferAt(body, pos, offers[0])|), offers[1..]);
    }
  }

  /** How much the offers can carry: at most a buffer's worth of each. */
  function Room(bufferSize: nat, offers: seq<nat>): nat {
    if offers == [] then 0
    else (if offers[0] < bufferSize then offers[0] else bufferSize) + Room(bufferSize, offers[1..])
  }

  /** The exact end: as far as there is room, and no further than the body. */
  lemma {:induction false} FeedEndIs(bufferSize: nat, body: seq<Byte>, pos: nat, offers: seq<nat>)
    requires pos <= |body|
    ensures FeedEnd(bufferSize, body, pos, offers)
            == if pos + Room(bufferSize, offers) < |body| then pos + Room(bufferSize, offers) else |body|
    decreases |offers|
  {
    if offers != [] {
      FeedEndIs(bufferSize, body, pos + Consumed(bufferSize, |OfferAt(body, pos, offers[0])|), offers[1..]);
    }
  }

  /** Data continues what has been received and precedes every completion, as the helper needs it for a whole body. */
  predicate Deliverable(h: Helper, events: seq<Event>)
    decreases |events|
  {
    || events == []
    || (&& (events[0].DataArrived? ==> events[0].offset == |h.bytes| && h.callback)
        && Deliverable(OnEvent(h, events[0]), events[1..]))
  }

  lemma {:induction false} ContiguousDeliverable(h: Helper, data: seq<Event>, rest: seq<Event>)
    requires AllData(data) && Contiguous(data, |h.bytes|) && h.callback
    requires Deliverable(h.(bytes := h.bytes + Body(data)), rest)
    ensures Deliverable(h, data + rest)
    decreases |data|
  {
    if data == [] {
      assert data + rest == rest && h.bytes + [] == h.bytes;
    } else {
      assert (data + rest)[1..] == data[1..] + rest;
      var h' := OnEvent(h, data[0]);
      assert h'.bytes + Body(data[1..]) == h.bytes + Body(data);
      ContiguousDeliverable(h', data[1..], rest);
    }
  }

  lemma OpenedBody(data: seq<Event>)
    ensures Body([Created, Opened] + data) == Body(data)
  {
    var events := [Created, Opened] + data;
    assert events[1..] == [Opened] + data && ([Opened] + data)[1..] == data;
    assert Body([Opened] + data) == [] + Body(data) == Body(data);
    assert Body(events) == [] + Body(events[1..]);
  }

  lemma OpenedDeliverable(source: string, data: seq<Event>, ends: seq<Event>)
    requires AllData(data) && Contiguous(data, 0) && AllCompleted(ends)
    ensures Deliverable(NewHelper(source), [Created, Opened] + data + ends)
  {
    var events := [Created, Opened] + data + ends;
    var start := NewHelper(source);
    CompletionsDeliverable(start.(bytes := start.bytes + Body(data)), ends);
    ContiguousDeliverable(start, data, ends);
    assert events[1..] == [Opened] + (data + ends) && events[1..][1..] == data + ends;
    assert Deliverable(start, events[1..]);
  }

  /** The callback of a stream that was opened, delivered `data`, and was completed with `ends`. */
  lemma OpenedRun(source: string, data: seq<Event>, ends: seq<Event>)
    requires AllData(data) && ends != [] && AllCompleted(ends)
    ensures var body := Body(data);
            Observe(NewHelper(source), [Created, Opened] + data + ends).calls
            == [if ends[0].success then HttpResult(true, Entries(Split(source)), body, |body|)
                else HttpResult(false, [], [], |body|)]
  {
    var events := [Created, Opened] + data + ends;
    var i := |data| + 2;
    assert events[..i] == [Created, Opened] + data;
    OpenedBody(data);
    CalledForFirstCompletion(source, events, i);
  }

  lemma {:induction false} CompletionsDeliverable(h: Helper, ends: seq<Event>)
    requires AllCompleted(ends)
    ensures Deliverable(h, ends)
    decreases |ends|
  {
    if ends != [] { CompletionsDeliverable(OnEvent(h, ends[0]), ends[1..]); }
  }

  /** What the callback of a stream is told that was fed and then completed. */
  lemma FedBodyObserved(source: string, bufferSize: nat, body: seq<Byte>, offers: seq<nat>, done: bool)
    ensures var trace := [Created, Opened] + DataOf(bufferSize, Feed(bufferSize, body, 0, offers)) + [Completed(done)];
            var end := FeedEnd(bufferSize, body, 0, offers);
            && Observe(NewHelper(source), trace).calls
               == [if done then HttpResult(true, Entries(Split(source)), body[..end], end)
                   else HttpResult(false, [], [], end)]
            && Deliverable(NewHelper(source), trace)
  {
    var data := FeedDelivers(bufferSize, body, 0, offers);
    var end := FeedEnd(bufferSize, body, 0, offers);
    assert body[0..end] == body[..end];
    OpenedRun(source, data, [Completed(done)]);
    OpenedDeliverable(source, data, [Completed(done)]);
  }

  /** A request from its opening over its writes to its end: destroyed, perhaps written to again, and notified. */
  function OrdinaryRun(s: Stream, seekable: bool, body: seq<Byte>, offers: seq<nat>, done: bool, late: seq<Op>,
                       notifyDone: bool): seq<Op> {
    [OpNewStream(seekable)] + Feed(s.bufferSize, body, 0, offers)
    + ([OpDestroyStream(done)] + late + [OpURLNotify(notifyDone)])
  }

  /**
   End to end: a stream that cannot seek, with any buffer size, any body and any offers of the browser, and any reason
   for its end. The callback is called exactly once, for that reason, with the stream's headers and exactly the part of
   the body that the offers got to.
   */
  lemma FedPartArrives(source: string, s: Stream, seekable: bool, body: seq<Byte>, offers: seq<nat>, done: bool,
                       late: seq<Op>, notifyDone: bool)
    requires Fresh(s) && !s.seekableRequested && AllWrites(late)
    ensures var trace := Run(s, OrdinaryRun(s, seekable, body, offers, done, late, notifyDone)).trace;
            var end := FeedEnd(s.bufferSize, body, 0, offers);
            && Observe(NewHelper(source), trace).calls
               == [if done then HttpResult(true, Entries(Split(source)), body[..end], end)
                   else HttpResult(false, [], [], end)]
            && Deliverable(NewHelper(source), trace)
  {
    var writes := Feed(s.bufferSize, body, 0, offers);
    OrdinaryEnd(s, OrdinaryRun(s, seekable, body, offers, done, late, notifyDone),
                seekable, writes, done, late, notifyDone);
    FedBodyObserved(source, s.bufferSize, body, offers, done);
  }

  /**
   In particular, when the browser destroys the stream with success, the callback is called once with success, the
   headers and the whole body if and only if the offers have room for it, however they cut it up.
   */
  lemma BodyArrives(source: string, s: Stream, seekable: bool, body: seq<Byte>, offers: seq<nat>, late: seq<Op>,
                    notifyDone: bool)
    requires Fresh(s) && !s.seekableRequested && AllWrites(late)
    ensures var trace := Run(s, OrdinaryRun(s, seekable, body, offers, true, late, notifyDone)).trace;
            var calls := Observe(NewHelper(source), trace).calls;
            && |calls| == 1 && calls[0].success && calls[0].size == |calls[0].data| && calls[0].data <= body
            && (calls[0].data == body <==> Room(s.bufferSize, offers) >= |body|)
  {
    FedPartArrives(source, s, seekable, body, offers, true, late, notifyDone);
    FeedEndIs(s.bufferSize, body, 0, offers);
    var end := FeedEnd(s.bufferSize, body, 0, offers);
    assert end == |body| ==> body[..end] == body;
    assert end < |body| ==> |body[..end]| != |body|;
  }
}
