/**
 The stream object and the NPAPI entry points that drive it, with the re-entrance they have in NpapiStream.cpp and
 NpapiPlugin.cpp: `close` asks the browser to destroy the stream, and the browser calls `NPP_DestroyStream` back
 before it returns. Every method is proved against `StreamEvents`.
 */
module NpapiStreams {
  import opened Common
  import E = StreamEvents

  /** What a stream is told of itself when it is offered. */
  datatype StreamInfo = StreamInfo(url: string, mimeType: string, length: nat, headers: string)

  /** How the browser is to deliver a stream. */
  datatype StreamType = Normal | AsFile | Seek

  /** How the plugin accepts an unsolicited stream: with a sink of its own, or with a callback. */
  datatype Acceptance = Acceptance(bufferSize: nat, sink: bool, callback: bool)

  datatype Observer = NoObserver | OwnSink | HttpHelper(blockSize: nat)

  /** The browser's handle of a stream. */
  class NPStream {
    const url: string
    const end: nat
    const headers: Option<string>
    var pdata: NpapiStream?
    var notifyData: NpapiStream?

    constructor (notifyData: NpapiStream?, url: string, end: nat, headers: Option<string>)
      ensures this.notifyData == notifyData && pdata == null
      ensures this.url == url && this.end == end && this.headers == headers
    {
      this.url, this.end, this.headers := url, end, headers;
      this.pdata := null;
      this.notifyData := notifyData;
    }
  }

  class NpapiStream {
    const seekableRequested: bool
    const cached: bool
    const internalBufferSize: nat
    var info: StreamInfo
    var stream: NPStream?
    var isOpen: bool
    var completed: bool
    var seekableByServer: bool
    var selfReference: bool
    var streamDestroyed: bool
    var streamNotified: bool
    /** The host's function table still has `NPN_DestroyStream`. */
    var hostAlive: bool
    /** The handle the browser has offered for this stream, and every event sent to the observers. */
    ghost var handle: NPStream?
    ghost var trace: seq<E.Event>

    ghost predicate Valid()
      reads this, handle
    {
      && (stream != null ==> stream == handle && handle.pdata == this)
      && (handle != null ==> handle.pdata == null || handle.pdata == this)
    }

    ghost function State(): E.Stream
      reads this, handle
    {
      E.Stream(
        stream != null, handle != null && handle.pdata == this, handle != null, isOpen, completed,
        seekableRequested, seekableByServer, internalBufferSize,
        selfReference, streamDestroyed, streamNotified, hostAlive, trace)
    }

    /** `setMimeType`, `setLength`, `setUrl` and `setHeaders`. */
    method Describe(np: NPStream, mimeType: string)
      modifies this`info
      ensures info == Offered(old(info), np, mimeType) && State() == old(State())
    {
      info := info.(mimeType := mimeType, length := np.end, url := np.url);
      if np.headers.Some? { info := info.(headers := np.headers.value); }
    }

    /** A stream the plugin has requested: `setCreated`, then the Created event. */
    constructor Request(url: string, cached: bool, seekable: bool, bufferSize: nat)
      ensures Valid() && State() == E.Requested(seekable, bufferSize) && handle == null
      ensures this.cached == cached && info == StreamInfo(url, "", 0, "")
    {
      this.cached, info := cached, StreamInfo(url, "", 0, "");
      seekableRequested, internalBufferSize := seekable, bufferSize;
      stream, handle, isOpen, completed, seekableByServer := null, null, false, false, false;
      streamDestroyed, streamNotified, hostAlive := false, false, true;
      selfReference := true;
      trace := [E.Created];
    }

    /** A stream the browser has offered: notified from the start. */
    constructor Unsolicited(url: string, seekable: bool, bufferSize: nat)
      ensures Valid() && State() == E.Unsolicited(seekable, bufferSize) && handle == null
      ensures !cached && info == StreamInfo(url, "", 0, "")
    {
      cached, info := false, StreamInfo(url, "", 0, "");
      seekableRequested, internalBufferSize := seekable, bufferSize;
      stream, handle, isOpen, completed, seekableByServer := null, null, false, false, false;
      streamDestroyed, hostAlive := false, true;
      selfReference := true;
      streamNotified := true;
      trace := [E.Created];
    }

    predicate IsSeekable()
      reads this
    {
      seekableRequested && seekableByServer
    }

    method SendEvent(e: E.Event)
      modifies this`trace
      ensures trace == old(trace) + [e] && State() == old(State()).(trace := old(trace) + [e])
    {
      trace := trace + [e];
    }

    method SetDestroyed()
      modifies this`streamDestroyed, this`selfReference
      ensures streamDestroyed && selfReference == (old(selfReference) && !streamNotified)
    {
      streamDestroyed := true;
      if streamNotified { selfReference := false; }
    }

    method SetNotified()
      modifies this`streamNotified, this`selfReference
      ensures streamNotified && selfReference == (old(selfReference) && !streamDestroyed)
    {
      streamNotified := true;
      if streamDestroyed { selfReference := false; }
    }

    method Close() returns (result: bool)
      requires Valid()
      modifies this, handle
      ensures Valid() && handle == old(handle) && info == old(info) && State() == E.Close(old(State()))
      ensures result <==> old(stream != null && hostAlive)
      decreases if stream != null then 1 else 0, 1
    {
      if stream == null { return false; }
      E.CloseInParts(State());
      ReportClosing();
      result := HostDestroyStream(stream);
      stream := null;
    }

    /** An open stream reports success. */
    method ReportClosing()
      modifies this`isOpen, this`trace
      ensures State() == E.Closing(old(State()))
    {
      if isOpen { SendEvent(E.Completed(true)); }
      isOpen := false;
    }

    method CloseCompleted()
      requires Valid()
      modifies this, handle
      ensures Valid() && handle == old(handle) && info == old(info)
      ensures State() == E.Close(old(State()).(completed := true))
      decreases if stream != null then 1 else 0, 2
    {
      completed := true;
      var _ := Close();
    }

    /** `NPN_DestroyStream` with reason "user break": the browser calls the plugin back at once. */
    method HostDestroyStream(np: NPStream) returns (ok: bool)
      requires Valid() && np == stream && !isOpen
      modifies this, np
      ensures Valid() && handle == old(handle) && info == old(info) && ok == hostAlive
      ensures State() == if old(hostAlive) then E.DestroyStream(old(State()), false) else old(State())
      decreases if stream != null then 1 else 0, 0
    {
      ok := hostAlive;
      if hostAlive { PluginDestroyStream(np, this, false); }
    }

    method SignalCompleted(success: bool)
      requires Valid()
      modifies this, handle
      ensures Valid() && handle == old(handle) && info == old(info)
      ensures State() == E.SignalCompleted(old(State()), success)
      decreases if stream != null then 1 else 0, 3
    {
      if IsSeekable() && success { return; }
      if completed { return; }
      CloseCompleted();
      SendEvent(E.Completed(success));
    }

    method SignalOpened()
      modifies this`isOpen, this`trace
      ensures isOpen && trace == old(trace) + [E.Opened]
    {
      isOpen := true;
      SendEvent(E.Opened);
    }

    method SignalDataArrived(data: seq<Byte>, offset: nat) returns (effectiveLen: nat)
      modifies this`trace
      ensures effectiveLen == (if |data| < internalBufferSize then |data| else internalBufferSize)
      ensures var sent := if isOpen && effectiveLen > 0 then [E.DataArrived(data[..effectiveLen], offset)] else [];
              trace == old(trace) + sent
    {
      effectiveLen := if |data| < internalBufferSize then |data| else internalBufferSize;
      if effectiveLen > 0 {
        if isOpen { SendEvent(E.DataArrived(data[..effectiveLen], offset)); }
      }
    }
  }

  /** `NPP_DestroyStream`. `owner` is the stream that `np` was offered for. */
  method PluginDestroyStream(np: NPStream, ghost owner: NpapiStream, done: bool)
    requires owner.Valid() && owner.handle == np
    modifies np, owner
    ensures owner.Valid() && owner.handle == np && owner.info == old(owner.info)
    ensures owner.State() == E.DestroyStream(old(owner.State()), done)
    decreases if owner.stream != null then 1 else 0, -1
  {
    var s := np.pdata;
    if s == null || s.stream == null { return; }
    s.stream := null;
    np.pdata := null;
    np.notifyData := null;
    if !s.completed { s.SignalCompleted(done); }
    s.SetDestroyed();
  }

  /** `NPP_Write`: what it returns tells the browser how much it must offer again; -1 for a handle without a stream. */
  method PluginWrite(np: NPStream, ghost owner: NpapiStream, offset: nat, data: seq<Byte>) returns (taken: int)
    requires owner.Valid() && owner.handle == np
    modifies owner`trace
    ensures owner.Valid() && owner.handle == np && owner.State() == E.Write(old(owner.State()), offset, data)
    ensures taken == if np.pdata == null then -1 else E.Consumed(owner.internalBufferSize, |data|)
  {
    var s := np.pdata;
    if s == null { return -1; }
    taken := s.SignalDataArrived(data, offset);
  }

  /** `NPP_URLNotify`. */
  method PluginURLNotify(notifyData: NpapiStream?, done: bool)
    requires notifyData != null ==> notifyData.Valid()
    modifies notifyData, if notifyData != null then {notifyData.handle} else {}
    ensures notifyData != null ==>
      && notifyData.Valid() && notifyData.info == old(notifyData.info)
      && notifyData.State() == E.URLNotify(old(notifyData.State()), done)
  {
    if notifyData == null { return; }
    notifyData.SignalCompleted(done);
    notifyData.SetNotified();
  }

  /**
   The stream that a handle carries when it is offered: the one it was requested for, if nothing else has been set.
   */
  function Carried(np: NPStream): NpapiStream?
    reads np
  {
    if np.notifyData != null && np.pdata == null then np.notifyData else np.pdata
  }

  /** What a stream knows of itself once the browser has offered it; without headers it keeps those it had. */
  function Offered(was: StreamInfo, np: NPStream, mimeType: string): StreamInfo {
    StreamInfo(np.url, mimeType, np.end, if np.headers.Some? then np.headers.value else was.headers)
  }

  /** A sink goes before a callback; the callback gets a helper with blocks of the stream's buffer size. */
  function ObserverFor(handler: Option<Acceptance>): Observer {
    match handler
    case None => NoObserver
    case Some(a) => if a.sink then OwnSink else if a.callback then HttpHelper(a.bufferSize) else NoObserver
  }

  /**
   `NPP_NewStream`. A handle that carries no stream is unsolicited; `handler` says how the plugin accepts it, if it
   does, and then a stream is made for it and `observer` attached to that.
   */
  method PluginNewStream(np: NPStream, mimeType: string, handler: Option<Acceptance>, seekable: bool)
      returns (s: NpapiStream?, accepted: bool, streamType: StreamType, observer: Observer)
    requires Carried(np) != null ==> Carried(np).handle == null && Carried(np).stream == null
    modifies np, Carried(np)
    ensures s == null <==> old(Carried(np)) == null && handler.None?
    ensures s == null ==> accepted && np.pdata == old(np.pdata)
    ensures s != null ==>
      && s.Valid() && s.handle == np && np.pdata == s
      && s.info.url == np.url && s.info.mimeType == mimeType && s.info.length == np.end
    ensures old(Carried(np)) != null ==>
      && s == old(Carried(np)) && s.State() == E.NewStream(old(Carried(np).State()), seekable)
      && s.info.headers == (if np.headers.Some? then np.headers.value else old(Carried(np).info.headers))
      && observer == NoObserver
    ensures old(Carried(np)) == null && handler.Some? ==>
      && fresh(s) && s.State() == E.NewStream(E.Unsolicited(seekable, handler.value.bufferSize), seekable)
      && s.info.headers == (if np.headers.Some? then np.headers.value else "")
      && (handler.value.sink ==> observer == OwnSink)
      && (!handler.value.sink && handler.value.callback ==> observer == HttpHelper(handler.value.bufferSize))
      && (!handler.value.sink && !handler.value.callback ==> observer == NoObserver)
    ensures s != null ==> (accepted <==> !(s.seekableRequested && !seekable))
    ensures s != null && accepted ==>
      streamType == if s.seekableRequested && seekable then Seek else if s.cached then AsFile else Normal
  {
    if np.notifyData != null && np.pdata == null { np.pdata := np.notifyData; }
    s := np.pdata;
    observer := NoObserver;
    if s == null {
      if handler.None? { return null, true, Normal, NoObserver; }
      s := new NpapiStream.Unsolicited(np.url, seekable, handler.value.bufferSize);
      observer := ObserverFor(handler);
      np.pdata := s;
    }
    accepted, streamType := OfferStream(np, s, mimeType, seekable);
  }

  /** The stream gets its handle and what the browser says of it, and is opened, or rejected because it cannot seek. */
  method OfferStream(np: NPStream, s: NpapiStream, mimeType: string, seekable: bool)
      returns (accepted: bool, streamType: StreamType)
    requires s.handle == null && s.stream == null && np.pdata == s
    modifies s
    ensures s.Valid() && s.handle == np && s.info == Offered(old(s.info), np, mimeType)
    ensures s.State() == E.NewStream(old(s.State()), seekable)
    ensures accepted <==> !(s.seekableRequested && !seekable)
    ensures accepted ==>
      streamType == if s.seekableRequested && seekable then Seek else if s.cached then AsFile else Normal
  {
    s.handle := np;
    s.stream := np;
    s.Describe(np, mimeType);
    s.seekableByServer := seekable;
    accepted, streamType := OpenStream(s);
  }

  method OpenStream(s: NpapiStream) returns (accepted: bool, streamType: StreamType)
    modifies s`stream, s`isOpen, s`trace
    ensures accepted <==> !(s.seekableRequested && !s.seekableByServer)
    ensures s.stream == if accepted then old(s.stream) else null
    ensures s.isOpen == (old(s.isOpen) || (accepted && !s.completed))
    ensures s.trace
            == old(s.trace) + if !accepted then [E.FailedOpen] else if s.completed then [] else [E.Opened]
    ensures accepted ==> streamType == if s.IsSeekable() then Seek else if s.cached then AsFile else Normal
  {
    if s.seekableRequested && !s.seekableByServer {
      s.SendEvent(E.FailedOpen);
      s.stream := null;
      return false, Normal;
    }
    streamType := if s.IsSeekable() then Seek else if s.cached then AsFile else Normal;
    if !s.completed { s.SignalOpened(); }
    accepted := true;
  }
}
