/**
 The reference counts of NPObjects (NpResourceHostFuncs.cpp), as the plugin's wrappers (NPObjectAPI.cpp) and its host
 (NpapiBrowserHost.cpp) change them: who holds which reference, and when an object goes.
 */
module ReferenceCounts {
  import opened Common

  /** Objects have identities that are never used again; JSAPI objects are known by their address, which is. */
  type Obj = nat
  type Address = nat
  datatype Api = Api(address: Address, birth: nat)

  /** `auto`: the host keeps the object's API alive as long as the object. */
  datatype NPObject = NPObject(count: nat, api: Option<Api>, auto: bool)

  /**
   The objects that are allocated; the references held by pages, variants and callers (`outside`), by the live
   NPObjectAPI wrappers that have an object, by the queue of deferred releases (which can hold NULL), and by nobody
   any more (`lost`); the cache of wrappers; the APIs that live; and the host's list of those it keeps alive.
   */
  datatype World = World(heap: map<Obj, NPObject>, next: Obj,
                         outside: multiset<Obj>, wrapped: multiset<Obj>, deferred: seq<Option<Obj>>,
                         lost: multiset<Obj>, cache: map<Address, Obj>, apis: map<Address, nat>, births: nat,
                         retained: multiset<Api>, hostAlive: bool, shutDown: bool)

  const START := World(map[], 0, multiset{}, multiset{}, [], multiset{}, map[], map[], 0, multiset{}, true, false)

  predicate Lives(apis: map<Address, nat>, api: Api) {
    api.address in apis && apis[api.address] == api.birth
  }

  predicate ApiLives(w: World, api: Api) {
    Lives(w.apis, api)
  }

  // ---- The browser's functions ----

  function Created(heap: map<Obj, NPObject>, o: Obj, api: Option<Api>, auto: bool): map<Obj, NPObject> {
    heap[o := NPObject(1, api, auto)]
  }

  function Retained(heap: map<Obj, NPObject>, o: Obj): map<Obj, NPObject>
    requires o in heap
  {
    heap[o := heap[o].(count := heap[o].count + 1)]
  }

  /** The last release deallocates; releasing NULL does nothing. */
  function Released(heap: map<Obj, NPObject>, o: Option<Obj>): map<Obj, NPObject> {
    if o.None? || o.value !in heap then heap
    else if heap[o.value].count <= 1 then heap - {o.value}
    else heap[o.value := heap[o.value].(count := heap[o.value].count - 1)]
  }

  function AllReleased(heap: map<Obj, NPObject>, deferred: seq<Option<Obj>>): map<Obj, NPObject> {
    if deferred == [] then heap else AllReleased(Released(heap, deferred[0]), deferred[1..])
  }

  /** What the host's list loses with a release: the API of an auto-release wrapper that goes, if that still lives. */
  function LetGo(heap: map<Obj, NPObject>, o: Option<Obj>, apis: map<Address, nat>): multiset<Api> {
    if o.None? || o.value !in heap || heap[o.value].count > 1 then multiset{}
    else
      var obj := heap[o.value];
      if obj.auto && obj.api.Some? && Lives(apis, obj.api.value) then multiset{obj.api.value} else multiset{}
  }

  function AllLetGo(heap: map<Obj, NPObject>, deferred: seq<Option<Obj>>, apis: map<Address, nat>): multiset<Api>
    decreases |deferred|
  {
    if deferred == [] then multiset{}
    else LetGo(heap, deferred[0], apis) + AllLetGo(Released(heap, deferred[0]), deferred[1..], apis)
  }

  // ---- The plugin's operations ----

  /** The entries whose weak reference has not expired. */
  function Unexpired(cache: map<Address, Obj>, heap: map<Obj, NPObject>): map<Address, Obj> {
    map a | a in cache && cache[a] in heap :: cache[a]
  }

  /** `DoDeferredRelease`. */
  function Drain(w: World): World {
    var heap := AllReleased(w.heap, w.deferred);
    w.(heap := heap, deferred := [], cache := Unexpired(w.cache, heap),
       retained := w.retained - AllLetGo(w.heap, w.deferred, w.apis))
  }

  /** One release. When the host lets go of an API with it, it works off its queue as well. */
  function Dropped(w: World, o: Option<Obj>): World {
    var letGo := if w.hostAlive then LetGo(w.heap, o, w.apis) else multiset{};
    var t := w.(heap := Released(w.heap, o), retained := w.retained - letGo);
    if letGo == multiset{} then t else Drain(t)
  }

  function Wrap(w: World, o: Option<Obj>): World
    requires o.Some? ==> o.value in w.heap
  {
    if o.None? then w else w.(heap := Retained(w.heap, o.value), wrapped := w.wrapped + multiset{o.value})
  }

  /** The destructor: the reference goes into the queue, which is worked off at once on the main thread only. */
  function Unwrap(w: World, o: Option<Obj>, mainThread: bool): World
    requires o.Some? ==> o.value in w.wrapped
  {
    var mine := if o.Some? then multiset{o.value} else multiset{};
    var t := w.(wrapped := w.wrapped - mine);
    if !w.hostAlive then t.(lost := w.lost + mine)
    else
      var queued := t.(deferred := w.deferred + [o]);
      if mainThread then Drain(queued) else queued
  }

  /** The cached wrapper of an address, when it still lives. */
  function Cached(w: World, address: Address): Option<Obj> {
    if address in w.cache && w.cache[address] in w.heap then Some(w.cache[address]) else None
  }

  datatype Handed = Handed(world: World, obj: Option<Obj>)

  /** A new wrapper, unless the browser creates none; the host keeps a living API alive for an auto-release wrapper. */
  function NewObject(w: World, api: Api, created: bool, auto: bool): Handed {
    if !created then Handed(w, None)
    else
      Handed(w.(heap := Created(w.heap, w.next, Some(api), auto), next := w.next + 1,
                outside := w.outside + multiset{w.next},
                retained := w.retained + if auto && ApiLives(w, api) then multiset{api} else multiset{}),
             Some(w.next))
  }

  /** `getJSAPIWrapper`: a wrapper for an API that is gone is not cached, and is no auto-release wrapper. */
  function GetWrapper(w: World, api: Api, created: bool, auto: bool): Handed {
    if !ApiLives(w, api) then NewObject(w, api, created, false)
    else
      var hit := Cached(w, api.address);
      if hit.Some? then
        Handed(w.(heap := Retained(w.heap, hit.value), outside := w.outside + multiset{hit.value}), hit)
      else
        var h := NewObject(w.(cache := w.cache - {api.address}), api, created, auto);
        if h.obj.None? then h else h.(world := h.world.(cache := h.world.cache[api.address := h.obj.value]))
  }

  // ---- Runs ----

  datatype Op =
    | OpCreate
    | OpRetain(o: Obj)
    | OpRelease(o: Obj)
    | OpWrap(wrapping: Option<Obj>)
    | OpUnwrap(unwrapping: Option<Obj>, mainThread: bool)
    | OpDrain
    | OpGetWrapper(api: Api, created: bool, auto: bool)
    | OpApiBorn(address: Address)
    | OpApiDies(address: Address)
    | OpShutdown
    | OpHostDies

  /**
   Holders of a reference pass it on or release it; a wrapper is destroyed once; the host is used while it lives; and an
   API does not die while the host keeps it alive.
   */
  ghost predicate Legal(w: World, op: Op) {
    match op
    case OpCreate => true
    case OpRetain(o) => o in w.heap
    case OpRelease(o) => o in w.outside
    case OpWrap(o) => w.hostAlive && (o.Some? ==> o.value in w.heap)
    case OpUnwrap(o, _) => o.Some? ==> o.value in w.wrapped
    case OpDrain => w.hostAlive
    case OpGetWrapper(_, _, _) => w.hostAlive
    case OpApiBorn(a) => a !in w.apis
    case OpApiDies(a) => a in w.apis ==> w.retained[Api(a, w.apis[a])] == 0
    case OpShutdown => w.hostAlive
    case OpHostDies => w.hostAlive
  }

  ghost function Step(w: World, op: Op): World
    requires Legal(w, op)
  {
    match op
    case OpCreate =>
      w.(heap := Created(w.heap, w.next, None, false), next := w.next + 1, outside := w.outside + multiset{w.next})
    case OpRetain(o) => w.(heap := Retained(w.heap, o), outside := w.outside + multiset{o})
    case OpRelease(o) => Dropped(w.(outside := w.outside - multiset{o}), Some(o))
    case OpWrap(o) => Wrap(w, o)
    case OpUnwrap(o, mainThread) => Unwrap(w, o, mainThread)
    case OpDrain => Drain(w)
    case OpGetWrapper(api, created, auto) => GetWrapper(w, api, created, auto).world
    case OpApiBorn(a) => w.(apis := w.apis[a := w.births], births := w.births + 1)
    case OpApiDies(a) => w.(apis := w.apis - {a})
    case OpShutdown => Drain(w.(retained := multiset{}, shutDown := true))
    case OpHostDies =>
      w.(deferred := [], lost := w.lost + Queued(w.deferred), cache := map[], retained := multiset{},
         hostAlive := false)
  }

  /** Nothing happens when nobody can do this now. */
  ghost function Next(w: World, op: Op): World {
    if Legal(w, op) then Step(w, op) else w
  }

  ghost function Run(w: World, ops: seq<Op>): World
    decreases |ops|
  {
    if ops == [] then w else Run(Next(w, ops[0]), ops[1..])
  }

  /** What has become of the start. */
  ghost function Now(ops: seq<Op>): World {
    Run(START, ops)
  }

  // ---- Conservation ----

  /** The objects in the queue, each as often as it is queued. */
  function Queued(deferred: seq<Option<Obj>>): multiset<Obj> {
    if deferred == [] then multiset{}
    else (if deferred[0].Some? then multiset{deferred[0].value} else multiset{}) + Queued(deferred[1..])
  }

  function Count(heap: map<Obj, NPObject>, o: Obj): nat {
    if o in heap then heap[o].count else 0
  }

  ghost function Held(w: World, o: Obj): nat {
    w.outside[o] + w.wrapped[o] + Queued(w.deferred)[o] + w.lost[o]
  }

  /** Each count is the number of references that are held, and what is held is allocated. */
  ghost predicate Conserved(w: World) {
    && (forall o: Obj :: Count(w.heap, o) == Held(w, o))
    && (forall o :: o in w.heap ==> w.heap[o].count > 0 && o < w.next)
    && (w.hostAlive ==> w.lost == multiset{})
    && (!w.hostAlive ==> w.deferred == [] && w.cache == map[])
    && (forall a :: a in w.cache ==> w.cache[a] < w.next)
  }

  lemma {:induction false} QueuedOne(deferred: seq<Option<Obj>>, o: Option<Obj>)
    ensures Queued(deferred + [o]) == Queued(deferred) + if o.Some? then multiset{o.value} else multiset{}
  {
    if deferred == [] {
      assert deferred + [o] == [o] && [o][1..] == [];
    } else {
      assert (deferred + [o])[1..] == deferred[1..] + [o];
      QueuedOne(deferred[1..], o);
    }
  }

  /** Every count in the heap is positive. */
  ghost predicate Positive(heap: map<Obj, NPObject>) {
    forall o :: o in heap ==> heap[o].count > 0
  }

  lemma {:induction false} AllReleasedCounts(heap: map<Obj, NPObject>, deferred: seq<Option<Obj>>, o: Obj)
    requires Positive(heap)
    ensures var after := AllReleased(heap, deferred);
            && Positive(after) && (o in after ==> o in heap && after[o] == heap[o].(count := after[o].count))
            && (Count(heap, o) >= Queued(deferred)[o] ==> Count(after, o) == Count(heap, o) - Queued(deferred)[o])
    decreases |deferred|
  {
    if deferred != [] {
      var one := Released(heap, deferred[0]);
      assert Count(one, o) == if deferred[0] == Some(o) && o in heap then Count(heap, o) - 1 else Count(heap, o);
      AllReleasedCounts(one, deferred[1..], o);
    }
  }

  lemma DrainConserves(w: World)
    requires Conserved(w)
    ensures Conserved(Drain(w))
    ensures forall o: Obj :: Count(Drain(w).heap, o) == Count(w.heap, o) - Queued(w.deferred)[o]
  {
    var t := Drain(w);
    assert Positive(w.heap);
    forall o: Obj ensures Count(t.heap, o) == Held(t, o) && Positive(t.heap) && (o in t.heap ==> o in w.heap)
                          && Count(t.heap, o) == Count(w.heap, o) - Queued(w.deferred)[o] {
      assert Count(w.heap, o) == Held(w, o);
      AllReleasedCounts(w.heap, w.deferred, o);
    }
  }

  /** The reference moves from the wrapper into the queue. */
  lemma QueueingConserves(w: World, o: Option<Obj>, mine: multiset<Obj>)
    requires Conserved(w) && w.hostAlive && (o.Some? ==> o.value in w.wrapped)
    requires mine == if o.Some? then multiset{o.value} else multiset{}
    ensures Conserved(w.(wrapped := w.wrapped - mine, deferred := w.deferred + [o]))
  {
    var t := w.(wrapped := w.wrapped - mine, deferred := w.deferred + [o]);
    QueuedOne(w.deferred, o);
    forall p: Obj ensures Count(t.heap, p) == Held(t, p) {
      assert Count(w.heap, p) == Held(w, p);
      assert mine <= w.wrapped;
    }
  }

  lemma LosingConserves(w: World, mine: multiset<Obj>)
    requires Conserved(w) && !w.hostAlive && mine <= w.wrapped
    ensures Conserved(w.(wrapped := w.wrapped - mine, lost := w.lost + mine))
  {
    var t := w.(wrapped := w.wrapped - mine, lost := w.lost + mine);
    forall p: Obj ensures Count(t.heap, p) == Held(t, p) { assert Count(w.heap, p) == Held(w, p); }
  }

  lemma UnwrapConserves(w: World, o: Option<Obj>, mainThread: bool)
    requires Conserved(w) && Legal(w, OpUnwrap(o, mainThread))
    ensures Conserved(Unwrap(w, o, mainThread))
  {
    var mine := if o.Some? then multiset{o.value} else multiset{};
    if w.hostAlive {
      QueueingConserves(w, o, mine);
      DrainConserves(w.(wrapped := w.wrapped - mine, deferred := w.deferred + [o]));
    } else {
      LosingConserves(w, mine);
    }
  }

  lemma GetWrapperConserves(w: World, api: Api, created: bool, auto: bool)
    requires Conserved(w) && w.hostAlive
    ensures Conserved(GetWrapper(w, api, created, auto).world)
  {
    if !ApiLives(w, api) {
      NewObjectConserves(w, api, created, false);
    } else if Cached(w, api.address).Some? {
      RetainConserves(w, Cached(w, api.address).value);
    } else {
      var u := w.(cache := w.cache - {api.address});
      SameCountsConserved(w, u);
      NewObjectConserves(u, api, created, auto);
    }
  }

  lemma SameCountsConserved(w: World, u: World)
    requires Conserved(w) && u == w.(cache := u.cache, apis := u.apis, births := u.births, retained := u.retained,
                                     shutDown := u.shutDown)
    requires forall a :: a in u.cache ==> a in w.cache && u.cache[a] == w.cache[a]
    ensures Conserved(u)
  {
    forall o: Obj ensures Count(u.heap, o) == Held(u, o) { assert Count(w.heap, o) == Held(w, o); }
  }

  lemma NewObjectConserves(w: World, api: Api, created: bool, auto: bool)
    requires Conserved(w)
    ensures Conserved(NewObject(w, api, created, auto).world) && w.next <= NewObject(w, api, created, auto).world.next
  {
    var t := NewObject(w, api, created, auto).world;
    forall o: Obj ensures Count(t.heap, o) == Held(t, o) { assert Count(w.heap, o) == Held(w, o); }
  }

  lemma HostDeathConserves(w: World)
    requires Conserved(w) && w.hostAlive
    ensures Conserved(Step(w, OpHostDies))
  {
    var t := Step(w, OpHostDies);
    forall o: Obj ensures Count(t.heap, o) == Held(t, o) { assert Count(w.heap, o) == Held(w, o); }
  }

  lemma CreateConserves(w: World)
    requires Conserved(w)
    ensures Conserved(Step(w, OpCreate))
  {
    var t := Step(w, OpCreate);
    forall o: Obj ensures Count(t.heap, o) == Held(t, o) { assert Count(w.heap, o) == Held(w, o); }
  }

  lemma RetainConserves(w: World, o: Obj)
    requires Conserved(w) && o in w.heap
    ensures Conserved(Step(w, OpRetain(o))) && (w.hostAlive ==> Conserved(Wrap(w, Some(o))))
  {
    var t, u := Step(w, OpRetain(o)), Wrap(w, Some(o));
    forall p: Obj ensures Count(t.heap, p) == Held(t, p) && Count(u.heap, p) == Held(u, p) {
      assert Count(w.heap, p) == Held(w, p);
    }
  }

  lemma OneReleaseConserves(w: World, o: Obj, retained: multiset<Api>)
    requires Conserved(w) && o in w.outside
    ensures Conserved(w.(heap := Released(w.heap, Some(o)), outside := w.outside - multiset{o}, retained := retained))
  {
    var t := w.(heap := Released(w.heap, Some(o)), outside := w.outside - multiset{o}, retained := retained);
    forall p: Obj ensures Count(t.heap, p) == Held(t, p) { assert Count(w.heap, p) == Held(w, p); }
  }

  lemma ReleaseConserves(w: World, o: Obj)
    requires Conserved(w) && o in w.outside
    ensures Conserved(Step(w, OpRelease(o)))
  {
    var t := ReleaseInParts(w, o);
    OneReleaseConserves(w, o, t.retained);
    DrainConserves(t);
  }

  /** The world after the release itself; the rest, if there is any, is a drain. */
  lemma ReleaseInParts(w: World, o: Obj) returns (t: World)
    requires o in w.outside
    ensures t == w.(heap := Released(w.heap, Some(o)), outside := w.outside - multiset{o}, retained := t.retained)
    ensures Step(w, OpRelease(o)) == t || (w.hostAlive && Step(w, OpRelease(o)) == Drain(t))
  {
    var letGo := if w.hostAlive then LetGo(w.heap, Some(o), w.apis) else multiset{};
    t := w.(heap := Released(w.heap, Some(o)), outside := w.outside - multiset{o}, retained := w.retained - letGo);
  }

  lemma ShutdownConserves(w: World)
    requires Conserved(w) && w.hostAlive
    ensures Conserved(Step(w, OpShutdown))
  {
    var t := w.(retained := multiset{}, shutDown := true);
    SameCountsConserved(w, t);
    DrainConserves(t);
  }

  lemma StepConserves(w: World, op: Op)
    requires Conserved(w)
    ensures Conserved(Next(w, op))
  {
    if Legal(w, op) { LegalConserves(w, op); }
  }

  lemma LegalConserves(w: World, op: Op)
    requires Conserved(w) && Legal(w, op)
    ensures Conserved(Step(w, op))
  {
    match op
    case OpUnwrap(o, mainThread) => UnwrapConserves(w, o, mainThread);
    case OpDrain => DrainConserves(w);
    case OpGetWrapper(api, created, auto) => GetWrapperConserves(w, api, created, auto);
    case OpShutdown => ShutdownConserves(w);
    case OpHostDies => HostDeathConserves(w);
    case OpCreate => CreateConserves(w);
    case OpRetain(o) => RetainConserves(w, o);
    case OpRelease(o) => ReleaseConserves(w, o);
    case OpWrap(o) => if o.Some? { RetainConserves(w, o.value); }
    case OpApiBorn(_) => SameCountsConserved(w, Step(w, op));
    case OpApiDies(_) => SameCountsConserved(w, Step(w, op));
  }

  lemma {:induction false} RunConserves(w: World, ops: seq<Op>)
    requires Conserved(w)
    ensures Conserved(Run(w, ops))
    decreases |ops|
  {
    if ops != [] {
      StepConserves(w, ops[0]);
      RunConserves(Next(w, ops[0]), ops[1..]);
    }
  }

  /**
   After any operations from the start, the impossible ones being left out: the count of every object is the number of
   references to it that are held outside, by wrappers, by the queue, and, only once the host has died, by nobody; so
   no object goes while a wrapper, a caller or the queue still refers to it, and every object that is referred to by
   none of them, nor lost, has gone.
   */
  lemma ReferencesConserved(ops: seq<Op>, o: Obj)
    ensures var w := Now(ops);
            && Count(w.heap, o) == w.outside[o] + w.wrapped[o] + Queued(w.deferred)[o] + w.lost[o]
            && (w.hostAlive ==> w.lost[o] == 0)
            && (o in w.heap <==> o in w.outside || o in w.wrapped || Some(o) in w.deferred || o in w.lost)
  {
    var w := Now(ops);
    RunConserves(START, ops);
    assert Count(w.heap, o) == Held(w, o);
    QueuedIffIn(w.deferred, o);
  }

  lemma {:induction false} QueuedIffIn(deferred: seq<Option<Obj>>, o: Obj)
    ensures o in Queued(deferred) <==> Some(o) in deferred
  {
    if deferred != [] {
      QueuedIffIn(deferred[1..], o);
      assert deferred == [deferred[0]] + deferred[1..];
    }
  }

  /** A drain gives back exactly the queue's share: what is left is what a caller or a wrapper still refers to. */
  lemma DrainLeavesTheReferenced(w: World, o: Obj)
    requires Conserved(w) && w.hostAlive
    ensures Drain(w).deferred == [] && Count(Drain(w).heap, o) == w.outside[o] + w.wrapped[o]
    ensures o in Drain(w).heap <==> o in w.outside || o in w.wrapped
    ensures forall a :: a in Drain(w).cache <==> a in w.cache && w.cache[a] in Drain(w).heap
  {
    DrainConserves(w);
    assert Count(w.heap, o) == Held(w, o);
  }

  /** When every caller and every wrapper has let go while the host lives, a drain leaves nothing allocated. */
  lemma NothingLeft(w: World)
    requires Conserved(w) && w.hostAlive && w.outside == multiset{} && w.wrapped == multiset{}
    ensures Drain(w).heap == map[]
  {
    forall o | o in Drain(w).heap ensures false { DrainLeavesTheReferenced(w, o); }
  }

  lemma NextKeepsLost(w: World, op: Op, o: Obj)
    requires !w.hostAlive
    ensures Next(w, op).lost[o] >= w.lost[o] && !Next(w, op).hostAlive
  {
    if !Legal(w, op) { return; }
    match op
    case OpRelease(p) => var t := ReleaseInParts(w, p);
    case OpUnwrap(_, _) =>
    case _ =>
  }

  lemma {:induction false} RunKeepsLost(w: World, ops: seq<Op>, o: Obj)
    requires !w.hostAlive
    ensures Run(w, ops).lost[o] >= w.lost[o] && !Run(w, ops).hostAlive
    decreases |ops|
  {
    if ops != [] {
      NextKeepsLost(w, ops[0], o);
      RunKeepsLost(Next(w, ops[0]), ops[1..], o);
    }
  }

  /** A wrapper that is destroyed after its host never releases its object: no later run deallocates it. */
  lemma LostIsNeverReleased(w: World, ops: seq<Op>, o: Obj)
    requires Conserved(w) && !w.hostAlive && w.lost[o] > 0
    ensures o in Run(w, ops).heap
  {
    RunConserves(w, ops);
    RunKeepsLost(w, ops, o);
    assert Count(Run(w, ops).heap, o) == Held(Run(w, ops), o);
  }

  // ---- The cache of wrappers ----

  ghost predicate IsCached(w: World, address: Address, o: Obj) {
    o in w.heap && address in w.cache && w.cache[address] == o
  }

  lemma DrainKeepsCached(w: World, address: Address, o: Obj)
    requires IsCached(w, address, o)
    ensures o in Drain(w).heap ==> IsCached(Drain(w), address, o)
  {
  }

  lemma GetWrapperKeepsCached(w: World, api: Api, created: bool, auto: bool, address: Address, o: Obj)
    requires Conserved(w) && IsCached(w, address, o)
    ensures IsCached(GetWrapper(w, api, created, auto).world, address, o)
  {
    if ApiLives(w, api) && Cached(w, api.address).None? {
      assert api.address != address;
      NewObjectKeepsCached(w.(cache := w.cache - {api.address}), api, created, auto, address, o);
    } else {
      NewObjectKeepsCached(w, api, created, false, address, o);
    }
  }

  lemma NewObjectKeepsCached(w: World, api: Api, created: bool, auto: bool, address: Address, o: Obj)
    requires IsCached(w, address, o) && o < w.next
    ensures IsCached(NewObject(w, api, created, auto).world, address, o)
  {
  }

  lemma StepKeepsCached(w: World, op: Op, address: Address, o: Obj)
    requires Conserved(w) && IsCached(w, address, o) && !op.OpHostDies?
    ensures o in Next(w, op).heap ==> IsCached(Next(w, op), address, o)
  {
    if !Legal(w, op) { return; }
    if op.OpDrain? {
      DrainKeepsCached(w, address, o);
    } else if op.OpShutdown? {
      DrainKeepsCached(w.(retained := multiset{}, shutDown := true), address, o);
    } else if op.OpRelease? {
      var t := ReleaseInParts(w, op.o);
      if o in t.heap { DrainKeepsCached(t, address, o); } else { DrainRevivesNothing(t, o); }
    } else if op.OpUnwrap? && op.mainThread && w.hostAlive {
      DrainKeepsCached(Queueing(w, op.unwrapping), address, o);
    } else if op.OpGetWrapper? {
      GetWrapperKeepsCached(w, op.api, op.created, op.auto, address, o);
    }
  }

  /** The world while a destroyed wrapper's reference is in the queue. */
  function Queueing(w: World, o: Option<Obj>): World {
    var mine := if o.Some? then multiset{o.value} else multiset{};
    w.(wrapped := w.wrapped - mine, deferred := w.deferred + [o])
  }

  lemma {:induction false} AllReleasedRevivesNothing(heap: map<Obj, NPObject>, deferred: seq<Option<Obj>>, o: Obj)
    requires o !in heap
    ensures o !in AllReleased(heap, deferred)
    decreases |deferred|
  {
    if deferred != [] { AllReleasedRevivesNothing(Released(heap, deferred[0]), deferred[1..], o); }
  }

  lemma DrainRevivesNothing(w: World, o: Obj)
    requires o !in w.heap
    ensures o !in Drain(w).heap
  {
    AllReleasedRevivesNothing(w.heap, w.deferred, o);
  }

  /** An object that has gone does not come back. */
  lemma StepRevivesNothing(w: World, op: Op, o: Obj)
    requires Conserved(w) && o < w.next && o !in w.heap
    ensures o < Next(w, op).next && o !in Next(w, op).heap
  {
    if !Legal(w, op) { return; }
    if op.OpDrain? {
      DrainRevivesNothing(w, o);
    } else if op.OpShutdown? {
      DrainRevivesNothing(w.(retained := multiset{}, shutDown := true), o);
    } else if op.OpRelease? {
      var t := ReleaseInParts(w, op.o);
      DrainRevivesNothing(t, o);
    } else if op.OpUnwrap? && op.mainThread && w.hostAlive {
      DrainRevivesNothing(Queueing(w, op.unwrapping), o);
    } else {
      OtherRevivesNothing(w, op, o);
    }
  }

  lemma OtherRevivesNothing(w: World, op: Op, o: Obj)
    requires Legal(w, op) && o < w.next && o !in w.heap
    requires !op.OpDrain? && !op.OpShutdown? && !op.OpRelease? && !(op.OpUnwrap? && op.mainThread && w.hostAlive)
    ensures o < Step(w, op).next && o !in Step(w, op).heap
  {
    match op
    case OpCreate =>
    case OpRetain(_) =>
    case OpWrap(_) =>
    case OpUnwrap(_, _) =>
    case OpGetWrapper(api, created, auto) => GetWrapperRevivesNothing(w, api, created, auto, o);
    case OpApiBorn(_) =>
    case OpApiDies(_) =>
    case OpHostDies =>
  }

  lemma GetWrapperRevivesNothing(w: World, api: Api, created: bool, auto: bool, o: Obj)
    requires o < w.next && o !in w.heap
    ensures var t := GetWrapper(w, api, created, auto).world; o < t.next && o !in t.heap
  {
  }

  lemma {:induction false} RunRevivesNothing(w: World, ops: seq<Op>, o: Obj)
    requires Conserved(w) && o < w.next && o !in w.heap
    ensures o !in Run(w, ops).heap
    decreases |ops|
  {
    if ops != [] {
      StepRevivesNothing(w, ops[0], o);
      StepConserves(w, ops[0]);
      RunRevivesNothing(Next(w, ops[0]), ops[1..], o);
    }
  }

  lemma {:induction false} RunKeepsCached(w: World, ops: seq<Op>, address: Address, o: Obj)
    requires Conserved(w) && IsCached(w, address, o)
    requires o in Run(w, ops).heap && Run(w, ops).hostAlive
    ensures IsCached(Run(w, ops), address, o)
    decreases |ops|
  {
    if ops != [] {
      var t := StaysCached(w, ops[0], ops[1..], address, o);
      RunKeepsCached(t, ops[1..], address, o);
    }
  }

  /** The first of the operations at whose end the object and the host still live. */
  lemma StaysCached(w: World, op: Op, rest: seq<Op>, address: Address, o: Obj) returns (t: World)
    requires Conserved(w) && IsCached(w, address, o)
    requires o in Run(Next(w, op), rest).heap && Run(Next(w, op), rest).hostAlive
    ensures t == Next(w, op) && Conserved(t) && IsCached(t, address, o)
  {
    t := NextConserved(w, op);
    if op.OpHostDies? && w.hostAlive { RunKeepsLost(t, rest, o); }
    if o !in t.heap { RunRevivesNothing(t, rest, o); }
    StepKeepsCached(w, op, address, o);
  }

  lemma NextConserved(w: World, op: Op) returns (t: World)
    requires Conserved(w)
    ensures t == Next(w, op) && Conserved(t) && t.next >= w.next && (op.OpHostDies? && w.hostAlive ==> !t.hostAlive)
  {
    t := Next(w, op);
    StepConserves(w, op);
    NextGrows(w, op);
  }

  lemma NextGrows(w: World, op: Op)
    ensures Next(w, op).next >= w.next
  {
    if !Legal(w, op) { return; }
    match op
    case OpRelease(o) => var t := ReleaseInParts(w, o);
    case OpGetWrapper(_, _, _) =>
    case OpUnwrap(_, _) =>
    case _ =>
  }

  /** All of an object but its count. */
  predicate SameKind(a: NPObject, b: NPObject) {
    a.api == b.api && a.auto == b.auto
  }

  lemma DrainKeepsKind(w: World, o: Obj)
    requires Positive(w.heap) && o in Drain(w).heap
    ensures o in w.heap && SameKind(Drain(w).heap[o], w.heap[o])
  {
    AllReleasedCounts(w.heap, w.deferred, o);
  }

  lemma GetWrapperKeepsKind(w: World, api: Api, created: bool, auto: bool, o: Obj)
    requires Conserved(w) && o in w.heap
    ensures var t := GetWrapper(w, api, created, auto).world; o in t.heap && SameKind(t.heap[o], w.heap[o])
  {
  }

  lemma CountsKeepKind(heap: map<Obj, NPObject>, p: Obj, o: Obj)
    requires o in heap
    ensures p in heap ==> SameKind(Retained(heap, p)[o], heap[o])
    ensures o in Released(heap, Some(p)) ==> SameKind(Released(heap, Some(p))[o], heap[o])
    ensures p != o ==> forall api, auto :: Created(heap, p, api, auto)[o] == heap[o]
    ensures Positive(heap) ==> Positive(Released(heap, Some(p)))
  {
  }

  lemma ReleaseKeepsKind(w: World, p: Obj, o: Obj)
    requires Positive(w.heap) && p in w.outside && o in w.heap && o in Step(w, OpRelease(p)).heap
    ensures SameKind(Step(w, OpRelease(p)).heap[o], w.heap[o])
  {
    var t := ReleaseInParts(w, p);
    CountsKeepKind(w.heap, p, o);
    if Step(w, OpRelease(p)) != t { DrainKeepsKind(t, o); }
  }

  lemma CountingKeepsKind(w: World, op: Op, o: Obj)
    requires Conserved(w) && Legal(w, op) && o in w.heap && (op.OpCreate? || op.OpRetain? || op.OpWrap?)
    ensures o in Step(w, op).heap && SameKind(Step(w, op).heap[o], w.heap[o])
  {
    match op
    case OpCreate => CountsKeepKind(w.heap, w.next, o);
    case OpRetain(p) => CountsKeepKind(w.heap, p, o);
    case OpWrap(p) => if p.Some? { CountsKeepKind(w.heap, p.value, o); }
  }

  lemma DrainingKeepsKind(w: World, op: Op, o: Obj)
    requires Conserved(w) && Legal(w, op) && o in Step(w, op).heap && (op.OpDrain? || op.OpShutdown? || op.OpUnwrap?)
    ensures o in w.heap && SameKind(Step(w, op).heap[o], w.heap[o])
  {
    match op
    case OpDrain => DrainKeepsKind(w, o);
    case OpShutdown => DrainKeepsKind(w.(retained := multiset{}, shutDown := true), o);
    case OpUnwrap(p, mainThread) => if mainThread && w.hostAlive { DrainKeepsKind(Queueing(w, p), o); }
  }

  lemma StepKeepsKind(w: World, op: Op, o: Obj)
    requires Conserved(w) && o in w.heap && o in Next(w, op).heap
    ensures SameKind(Next(w, op).heap[o], w.heap[o])
  {
    if !Legal(w, op) { return; }
    match op
    case OpCreate => CountingKeepsKind(w, op, o);
    case OpRetain(_) => CountingKeepsKind(w, op, o);
    case OpWrap(_) => CountingKeepsKind(w, op, o);
    case OpRelease(p) => ReleaseKeepsKind(w, p, o);
    case OpDrain => DrainingKeepsKind(w, op, o);
    case OpShutdown => DrainingKeepsKind(w, op, o);
    case OpUnwrap(_, _) => DrainingKeepsKind(w, op, o);
    case OpGetWrapper(api, created, auto) => GetWrapperKeepsKind(w, api, created, auto, o);
    case OpApiBorn(_) =>
    case OpApiDies(_) =>
    case OpHostDies =>
  }

  /** An object stands for the same API as long as it lives. */
  lemma {:induction false} RunKeepsKind(w: World, ops: seq<Op>, o: Obj)
    requires Conserved(w) && o in w.heap && o in Run(w, ops).heap
    ensures SameKind(Run(w, ops).heap[o], w.heap[o])
    decreases |ops|
  {
    if ops != [] {
      var t := StepTowards(w, ops[0], ops[1..], o);
      RunKeepsKind(t, ops[1..], o);
    }
  }

  /** The first step of a run at whose end the object still lives. */
  lemma StepTowards(w: World, op: Op, rest: seq<Op>, o: Obj) returns (t: World)
    requires Conserved(w) && o in w.heap && o in Run(Next(w, op), rest).heap
    ensures t == Next(w, op) && Conserved(t) && o in t.heap && SameKind(t.heap[o], w.heap[o])
  {
    t := NextConserved(w, op);
    if o !in t.heap { RunRevivesNothing(t, rest, o); }
    StepKeepsKind(w, op, o);
  }

  /**
   The same wrapper for the same API: whatever happens in between, as long as the wrapper lives on and the host does,
   the next call hands out the wrapper of the first again; each of the two calls adds one reference for its caller.
   */
  lemma SameWrapper(w: World, api: Api, created: bool, auto: bool, ops: seq<Op>, again: Op)
    requires Conserved(w) && w.hostAlive && ApiLives(w, api) && again.OpGetWrapper? && again.api == api
    requires var first := GetWrapper(w, api, created, auto);
             && first.obj.Some?
             && var later := Run(first.world, ops);
                first.obj.value in later.heap && later.hostAlive && ApiLives(later, api)
    ensures var first := GetWrapper(w, api, created, auto);
            var later := Run(first.world, ops);
            var second := GetWrapper(later, api, again.created, again.auto);
            && second.obj == first.obj
            && first.world.outside == w.outside + multiset{first.obj.value}
            && second.world.outside == later.outside + multiset{first.obj.value}
            && second.world.heap[first.obj.value].api == first.world.heap[first.obj.value].api
  {
    var first := GetWrapper(w, api, created, auto);
    GetWrapperConserves(w, api, created, auto);
    RunKeepsCached(first.world, ops, api.address, first.obj.value);
    RunKeepsKind(first.world, ops, first.obj.value);
  }

  // ---- Which API a wrapper stands for ----

  /** The cached wrapper stands for an API at its address that was born no later than the one there. */
  ghost predicate StandsForEarlier(w: World, made: Option<Api>, a: Address) {
    && made.Some? && made.value.address == a && made.value.birth < w.births
    && (a in w.apis ==> made.value.birth <= w.apis[a])
  }

  ghost predicate ApisCounted(w: World) {
    forall a :: a in w.apis ==> w.apis[a] < w.births
  }

  ghost predicate InBirthOrder(w: World) {
    && ApisCounted(w)
    && forall a :: a in w.cache && w.cache[a] in w.heap ==> StandsForEarlier(w, w.heap[w.cache[a]].api, a)
  }

  lemma UnwrapKeepsApis(w: World, o: Option<Obj>, mainThread: bool)
    requires o.Some? ==> o.value in w.wrapped
    ensures Unwrap(w, o, mainThread).apis == w.apis && Unwrap(w, o, mainThread).births == w.births
  {
  }

  lemma GetWrapperKeepsApis(w: World, api: Api, created: bool, auto: bool)
    ensures var t := GetWrapper(w, api, created, auto).world; t.apis == w.apis && t.births == w.births
  {
    var u := w.(cache := w.cache - {api.address});
    var t := NewObject(u, api, created, auto).world;
    assert t.apis == w.apis && t.births == w.births;
  }

  /** Only births and deaths touch the APIs. */
  lemma StepChangesApis(w: World, op: Op)
    requires Legal(w, op)
    ensures var t := Step(w, op);
            if op.OpApiBorn? then t.births == w.births + 1 && t.apis == w.apis[op.address := w.births]
            else t.births == w.births && t.apis == if op.OpApiDies? then w.apis - {op.address} else w.apis
  {
    match op
    case OpUnwrap(o, mainThread) => UnwrapKeepsApis(w, o, mainThread);
    case OpGetWrapper(api, created, auto) => GetWrapperKeepsApis(w, api, created, auto);
    case OpRelease(o) => var t := ReleaseInParts(w, o);
    case _ =>
  }

  lemma ApisStayCounted(w: World, t: World)
    requires ApisCounted(w) && t.births >= w.births
    requires forall a :: a in t.apis ==> (a in w.apis && t.apis[a] == w.apis[a]) || (w.births <= t.apis[a] < t.births)
    ensures ApisCounted(t) && forall made, a :: StandsForEarlier(w, made, a) ==> StandsForEarlier(t, made, a)
  {
  }

  lemma StepKeepsApisCounted(w: World, op: Op)
    requires Legal(w, op) && ApisCounted(w)
    ensures ApisCounted(Step(w, op))
    ensures forall made, a :: StandsForEarlier(w, made, a) ==> StandsForEarlier(Step(w, op), made, a)
  {
    StepChangesApis(w, op);
    ApisStayCounted(w, Step(w, op));
  }

  lemma StepKeepsBirthOrder(w: World, op: Op)
    requires Conserved(w) && InBirthOrder(w)
    ensures InBirthOrder(Next(w, op))
  {
    if !Legal(w, op) { return; }
    var t := Step(w, op);
    StepKeepsApisCounted(w, op);
    forall a | a in t.cache && t.cache[a] in t.heap ensures StandsForEarlier(t, t.heap[t.cache[a]].api, a) {
      var o := t.cache[a];
      StepCaches(w, op, a, o);
      if JustMade(w, op, a, o) {
        assert StandsForEarlier(w, Some(op.api), a);
      } else {
        assert StandsForEarlier(w, w.heap[o].api, a);
      }
    }
  }

  lemma {:induction false} RunKeepsBirthOrder(w: World, ops: seq<Op>)
    requires Conserved(w) && InBirthOrder(w)
    ensures InBirthOrder(Run(w, ops))
    decreases |ops|
  {
    if ops != [] {
      StepConserves(w, ops[0]);
      StepKeepsBirthOrder(w, ops[0]);
      RunKeepsBirthOrder(Next(w, ops[0]), ops[1..]);
    }
  }

  /** Call `i` of the run asked for the wrapper of a living API and was given `o`. */
  ghost predicate Given(ops: seq<Op>, i: nat, api: Api, o: Obj) {
    && i < |ops| && ops[i].OpGetWrapper? && ops[i].api == api
    && var w := Run(START, ops[..i]);
       w.hostAlive && ApiLives(w, api) && GetWrapper(w, api, ops[i].created, ops[i].auto).obj == Some(o)
  }

  lemma DrainCaches(w: World, a: Address, o: Obj)
    requires Positive(w.heap) && IsCached(Drain(w), a, o)
    ensures IsCached(w, a, o) && Drain(w).heap[o].api == w.heap[o].api
  {
    DrainKeepsKind(w, o);
  }

  /** The object has just been made for the API that was asked for. */
  ghost predicate JustMade(w: World, op: Op, a: Address, o: Obj) {
    && Legal(w, op) && op.OpGetWrapper? && op.api.address == a && ApiLives(w, op.api)
    && GetWrapper(w, op.api, op.created, op.auto).obj == Some(o)
    && o in Step(w, op).heap && Step(w, op).heap[o].api == Some(op.api)
  }

  lemma GetWrapperCaches(w: World, op: Op, a: Address, o: Obj)
    requires Conserved(w) && Legal(w, op) && op.OpGetWrapper? && IsCached(Step(w, op), a, o)
    ensures (IsCached(w, a, o) && Step(w, op).heap[o].api == w.heap[o].api) || JustMade(w, op, a, o)
  {
    var api := op.api;
    if ApiLives(w, api) && Cached(w, api.address).None? && op.created && a == api.address {
      assert o == w.next;
    } else {
      assert a in w.cache && w.cache[a] == o;
    }
  }

  /** A cached object was cached before, or it has just been made for the API that was asked for. */
  lemma StepCaches(w: World, op: Op, a: Address, o: Obj)
    requires Conserved(w) && IsCached(Next(w, op), a, o)
    ensures (IsCached(w, a, o) && Next(w, op).heap[o].api == w.heap[o].api) || JustMade(w, op, a, o)
  {
    if !Legal(w, op) { return; }
    if op.OpGetWrapper? {
      GetWrapperCaches(w, op, a, o);
    } else if op.OpDrain? {
      DrainCaches(w, a, o);
    } else if op.OpShutdown? {
      DrainCaches(w.(retained := multiset{}, shutDown := true), a, o);
    } else if op.OpRelease? {
      ReleaseCaches(w, op.o, a, o);
    } else if op.OpUnwrap? && op.mainThread && w.hostAlive {
      DrainCaches(Queueing(w, op.unwrapping), a, o);
    } else {
      OtherCaches(w, op, a, o);
    }
  }

  lemma ReleaseCaches(w: World, p: Obj, a: Address, o: Obj)
    requires Positive(w.heap) && p in w.outside && IsCached(Step(w, OpRelease(p)), a, o)
    ensures IsCached(w, a, o) && Step(w, OpRelease(p)).heap[o].api == w.heap[o].api
  {
    var t := ReleaseInParts(w, p);
    if p in w.heap { CountsKeepKind(w.heap, p, p); }
    if Step(w, OpRelease(p)) != t { DrainCaches(t, a, o); }
    CountsKeepKind(w.heap, p, o);
  }

  lemma OtherCaches(w: World, op: Op, a: Address, o: Obj)
    requires Conserved(w) && Legal(w, op) && IsCached(Step(w, op), a, o)
    requires op.OpCreate? || op.OpRetain? || op.OpWrap? || op.OpApiBorn? || op.OpApiDies? || op.OpHostDies?
             || (op.OpUnwrap? && !(op.mainThread && w.hostAlive))
    ensures IsCached(w, a, o) && Step(w, op).heap[o].api == w.heap[o].api
  {
  }

  lemma {:induction false} RunSplits(w: World, ops: seq<Op>, n: nat)
    requires n <= |ops|
    ensures Run(w, ops) == Run(Run(w, ops[..n]), ops[n..])
    decreases n
  {
    if n > 0 {
      RunSplits(Next(w, ops[0]), ops[1..], n - 1);
      assert ops[..n][1..] == ops[1..][..n - 1] && ops[n..] == ops[1..][n - 1..];
    } else {
      assert ops[..0] == [] && ops[0..] == ops;
    }
  }

  /** Every cached object was given to the API that it stands for. */
  lemma {:induction false} CachedWasGiven(ops: seq<Op>, a: Address, o: Obj) returns (i: nat)
    requires IsCached(Now(ops), a, o)
    ensures Now(ops).heap[o].api.Some? && Given(ops, i, Now(ops).heap[o].api.value, o)
    decreases |ops|
  {
    var n := |ops| - 1;
    var before := ops[..n];
    var w := RunLast(ops);
    StepCaches(w, ops[n], a, o);
    if JustMade(w, ops[n], a, o) {
      i := n;
    } else {
      i := CachedWasGiven(before, a, o);
      assert before[..i] == ops[..i];
    }
  }

  lemma RunLast(ops: seq<Op>) returns (w: World)
    requires ops != []
    ensures var n := |ops| - 1; w == Run(START, ops[..n]) && Now(ops) == Next(w, ops[n]) && Conserved(w)
  {
    var n := |ops| - 1;
    RunSplits(START, ops, n);
    w := Run(START, ops[..n]);
    assert ops[n..] == [ops[n]];
    RunConserves(START, ops[..n]);
    assert Run(w, [ops[n]]) == Run(Next(w, ops[n]), [ops[n]][1..]);
  }

  /** An API that was born at the address before this one has been given a wrapper that still lives. */
  ghost predicate OlderWrapperLives(ops: seq<Op>, api: Api) {
    exists i: nat, birth: nat, o: Obj ::
      Given(ops, i, Api(api.address, birth), o) && birth < api.birth && o in Now(ops).heap
  }

  /** A wrapper that was given to a living API stays cached at its address, and is for nothing younger than that API. */
  lemma GivenStaysCached(ops: seq<Op>, i: nat, api: Api, o: Obj)
    requires Given(ops, i, api, o)
    requires o in Now(ops).heap && Now(ops).hostAlive
    ensures IsCached(Now(ops), api.address, o)
    ensures var made := Now(ops).heap[o].api; made.Some? && made.value.birth <= api.birth
  {
    RunSplits(START, ops, i);
    var w := Run(START, ops[..i]);
    RunConserves(START, ops[..i]);
    RunKeepsBirthOrder(START, ops[..i]);
    var t := Step(w, ops[i]);
    StepConserves(w, ops[i]);
    StepKeepsBirthOrder(w, ops[i]);
    assert ops[i..][1..] == ops[i + 1..] && ops[i..][0] == ops[i];
    assert IsCached(t, api.address, o);
    RunKeepsCached(t, ops[i + 1..], api.address, o);
    RunKeepsKind(t, ops[i + 1..], o);
  }

  /**
   The cache goes by the address alone. After any run, the wrapper that is handed out for a living API stands for it
   if and only if no API that was born at its address before has been given a wrapper that still lives.
   */
  lemma WrapperIsForApiIff(ops: seq<Op>, api: Api, created: bool, auto: bool)
    requires var w := Now(ops); w.hostAlive && ApiLives(w, api) && GetWrapper(w, api, created, auto).obj.Some?
    ensures var h := GetWrapper(Now(ops), api, created, auto);
            h.world.heap[h.obj.value].api == Some(api) <==> !OlderWrapperLives(ops, api)
  {
    var w, h := Now(ops), GetWrapper(Now(ops), api, created, auto);
    RunConserves(START, ops);
    RunKeepsBirthOrder(START, ops);
    if h.world.heap[h.obj.value].api == Some(api) {
      forall i: nat, birth: nat, o: Obj | Given(ops, i, Api(api.address, birth), o) && o in w.heap
        ensures birth >= api.birth
      {
        GivenStaysCached(ops, i, Api(api.address, birth), o);
      }
    } else {
      assert IsCached(w, api.address, h.obj.value);
      var i := CachedWasGiven(ops, api.address, h.obj.value);
    }
  }

  /** The other case occurs: a page keeps the wrapper of an API that dies, and another one is born at its address. */
  lemma WrapperOfADeadApi(a: Address)
    ensures var ops := [OpApiBorn(a), OpGetWrapper(Api(a, 0), true, false), OpApiDies(a), OpApiBorn(a)];
            var w := Run(START, ops);
            && w.hostAlive && ApiLives(w, Api(a, 1)) && !ApiLives(w, Api(a, 0))
            && var h := GetWrapper(w, Api(a, 1), true, false);
               h.obj.Some? && h.obj.value in h.world.heap && h.world.heap[h.obj.value].api == Some(Api(a, 0))
  {
    var w1 := Step(START, OpApiBorn(a));
    var w2 := Step(w1, OpGetWrapper(Api(a, 0), true, false));
    var w3 := Step(w2, OpApiDies(a));
    var w4 := Step(w3, OpApiBorn(a));
    RunFirst(w3, OpApiBorn(a), []);
    RunFirst(w2, OpApiDies(a), [OpApiBorn(a)]);
    RunFirst(w1, OpGetWrapper(Api(a, 0), true, false), [OpApiDies(a), OpApiBorn(a)]);
    RunFirst(START, OpApiBorn(a), [OpGetWrapper(Api(a, 0), true, false), OpApiDies(a), OpApiBorn(a)]);
    assert w2.cache[a] == 0 && w2.heap[0].api == Some(Api(a, 0));
  }

  lemma RunFirst(w: World, op: Op, rest: seq<Op>)
    requires Legal(w, op)
    ensures Run(w, [op] + rest) == Run(Step(w, op), rest)
  {
    assert ([op] + rest)[1..] == rest;
  }
}
