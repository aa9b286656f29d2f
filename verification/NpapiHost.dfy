/**
 The host's side of the reference counts as it runs (NpapiBrowserHost.cpp, BrowserHost.cpp): its queue of deferred
 releases, its cache and its list of APIs that it keeps alive, updated in place, above the browser's count of every
 object; and the wrapper that retains its object and queues it again. A release can bring about a drain from within.
 */
module NpapiHosts {
  import opened Common
  import opened ReferenceCounts

  /** The queue is covered by the counts, with one more reference to `o` that is about to be released. */
  ghost predicate Covered(heap: map<Obj, NPObject>, deferred: seq<Option<Obj>>, o: Option<Obj>) {
    && Positive(heap)
    && forall p: Obj :: Queued(deferred)[p] + (if o == Some(p) then 1 else 0) <= Count(heap, p)
  }

  class NpapiBrowserHost {
    // the browser's side
    var heap: map<Obj, NPObject>
    var next: Obj
    // the host's own
    var deferred: seq<Option<Obj>>
    var cache: map<Address, Obj>
    var retained: multiset<Api>
    var alive: bool
    var shutDown: bool
    // the JSAPI objects that live
    var apis: map<Address, nat>
    var births: nat
    // who holds the references
    ghost var outside: multiset<Obj>
    ghost var wrapped: multiset<Obj>
    ghost var lost: multiset<Obj>

    constructor ()
      ensures State() == START && Conserved(State())
    {
      heap, next := map[], 0;
      deferred, cache, retained, alive, shutDown := [], map[], multiset{}, true, false;
      apis, births := map[], 0;
      outside, wrapped, lost := multiset{}, multiset{}, multiset{};
    }

    ghost function State(): World
      reads this
    {
      World(heap, next, outside, wrapped, deferred, lost, cache, apis, births, retained, alive, shutDown)
    }

    /** `NH_CreateObject`. */
    method CreateObject(api: Option<Api>, auto: bool) returns (o: Obj)
      modifies this`heap, this`next, this`outside
      ensures o == old(next) && next == o + 1 && heap == Created(old(heap), o, api, auto)
      ensures outside == old(outside) + multiset{o}
    {
      o := next;
      heap := heap[o := NPObject(1, api, auto)];
      next := next + 1;
      outside := outside + multiset{o};
    }

    /** `NH_RetainObject`. */
    method RetainObject(o: Obj)
      requires o in heap
      modifies this`heap
      ensures heap == Retained(old(heap), o)
    {
      var obj := heap[o];
      heap := heap[o := obj.(count := obj.count + 1)];
    }

    /** `NH_ReleaseObject`; what goes with an auto-release wrapper is in `Deallocated`. */
    method ReleaseObject(o: Option<Obj>)
      requires Covered(heap, deferred, o)
      modifies this`heap, this`deferred, this`cache, this`retained
      ensures State() == Dropped(old(State()), o) && Covered(heap, deferred, None)
      decreases |deferred|, 1, 1
    {
      if o.Some? { ReleaseReference(o.value); } else { DroppedNull(State()); }
    }

    method ReleaseReference(o: Obj)
      requires Covered(heap, deferred, Some(o))
      modifies this`heap, this`deferred, this`cache, this`retained
      ensures State() == Dropped(old(State()), Some(o)) && Covered(heap, deferred, None)
      decreases |deferred|, 1, 0
    {
      CoveredRelease(heap, deferred, o);
      DroppedInParts(State(), o);
      var gone := CountDown(o);
      if gone.Some? { Deallocated(gone.value); }
    }

    /** One reference less; the object that goes with it, if it was the last. */
    method CountDown(o: Obj) returns (gone: Option<NPObject>)
      requires o in heap && heap[o].count > 0
      modifies this`heap
      ensures heap == Released(old(heap), Some(o))
      ensures gone == if old(heap)[o].count <= 1 then Some(old(heap)[o]) else None
    {
      var obj := heap[o];
      var count := obj.count - 1;
      gone := None;
      if count == 0 {
        heap := heap - {o};
        gone := Some(obj);
      } else {
        heap := heap[o := obj.(count := count)];
      }
    }

    /** The destructor of a wrapper, and `releaseJSAPIPtr`, which works off the queue when it has taken the API out. */
    method Deallocated(obj: NPObject)
      requires Covered(heap, deferred, None)
      modifies this`heap, this`deferred, this`cache, this`retained
      ensures State() == Deallocation(old(State()), obj) && Covered(heap, deferred, None)
      decreases |deferred|, 0, 2
    {
      if obj.auto && alive && obj.api.Some? {
        var api := obj.api.value;
        if api.address in apis && apis[api.address] == api.birth {
          retained := retained - multiset{api};
          DoDeferredRelease();
        }
      }
    }

    method DoDeferredRelease()
      requires Covered(heap, deferred, None) && alive
      modifies this`heap, this`deferred, this`cache, this`retained
      ensures State() == Drain(old(State())) && Covered(heap, deferred, None)
      decreases |deferred|, 0, 1
    {
      ghost var was := State();
      while deferred != []
        invariant Covered(heap, deferred, None) && |deferred| <= |was.deferred|
        invariant Drain(State()) == Drain(was)
        decreases |deferred|
      {
        PopAndRelease();
      }
      DrainsNothing(State());
      DropExpired();
    }

    method PopAndRelease()
      requires Covered(heap, deferred, None) && alive && deferred != []
      modifies this`heap, this`deferred, this`cache, this`retained
      ensures Drain(State()) == Drain(old(State())) && Covered(heap, deferred, None) && |deferred| < |old(deferred)|
      decreases |deferred|, 0, 0
    {
      DrainsOne(State());
      CoveredPop(heap, deferred);
      var cur := deferred[0];
      deferred := deferred[1..];
      ReleaseObject(cur);
    }

    /** The entries whose object has gone are erased, the others stay. */
    method DropExpired()
      modifies this`cache
      ensures cache == Unexpired(old(cache), heap)
    {
      var rest := cache.Keys;
      while rest != {}
        invariant rest <= cache.Keys <= old(cache).Keys
        invariant forall a :: a in cache ==> cache[a] == old(cache)[a] && (a in rest || cache[a] in heap)
        invariant forall a :: a in old(cache) && old(cache)[a] in heap ==> a in cache
        decreases |rest|
      {
        var a :| a in rest;
        if cache[a] !in heap { cache := cache - {a}; }
        rest := rest - {a};
      }
    }

    /** `deferred_release`. */
    method DeferredRelease(o: Option<Obj>, mainThread: bool)
      requires Conserved(State().(deferred := deferred + [o])) && alive
      modifies this`heap, this`deferred, this`cache, this`retained
      ensures var queued := old(State()).(deferred := old(deferred) + [o]);
              State() == (if mainThread then Drain(queued) else queued) && Conserved(State())
    {
      deferred := deferred + [o];
      if mainThread {
        ConservedCovers(State());
        DrainConserves(State());
        DoDeferredRelease();
      }
    }

    /** A holder outside gives a reference back. */
    method ReleaseFromOutside(o: Obj)
      requires Conserved(State()) && o in outside
      modifies this`heap, this`deferred, this`cache, this`retained, this`outside
      ensures State() == Step(old(State()), OpRelease(o)) && Conserved(State())
    {
      ReleaseConserves(State(), o);
      OutsideCovers(State(), o);
      GiveUp(o);
      ReleaseObject(Some(o));
    }

    ghost method GiveUp(o: Obj)
      modifies this`outside
      ensures State() == old(State()).(outside := old(outside) - multiset{o})
    {
      outside := outside - multiset{o};
    }

    method NewWrapper(api: Api, created: bool, auto: bool) returns (ret: Option<Obj>)
      modifies this`heap, this`next, this`outside, this`retained
      ensures Handed(State(), ret) == NewObject(old(State()), api, created, auto)
    {
      if !created { return None; }
      var o := CreateObject(Some(api), auto);
      RetainJSAPI(api, auto);
      ret := Some(o);
    }

    /** `retainJSAPIPtr` for an auto-release wrapper of an API that lives. */
    method RetainJSAPI(api: Api, auto: bool)
      modifies this`retained
      ensures retained == old(retained) + if auto && Lives(apis, api) then multiset{api} else multiset{}
    {
      if auto && api.address in apis && apis[api.address] == api.birth { retained := retained + multiset{api}; }
    }

    method GetJSAPIWrapper(api: Api, created: bool, autoRelease: bool) returns (ret: Option<Obj>)
      requires Conserved(State()) && alive
      modifies this`heap, this`next, this`cache, this`outside, this`retained
      ensures Handed(State(), ret) == GetWrapper(old(State()), api, created, autoRelease)
      ensures Conserved(State())
      ensures old(Lives(apis, api)) && old(Cached(State(), api.address)).None? && created ==>
        && ret == Some(old(next)) && heap == old(heap)[old(next) := NPObject(1, Some(api), autoRelease)]
        && retained == old(retained) + if autoRelease then multiset{api} else multiset{}
    {
      GetWrapperConserves(State(), api, created, autoRelease);
      if !(api.address in apis && apis[api.address] == api.birth) {
        ret := NewWrapper(api, created, false);
        return;
      }
      ret := TakeCached(api.address);
      if ret.None? {
        ret := NewWrapper(api, created, autoRelease);
        if ret.Some? { cache := cache[api.address := ret.value]; }
      }
    }

    /** Another reference to the cached wrapper, or an expired entry less. */
    method TakeCached(address: Address) returns (ret: Option<Obj>)
      modifies this`heap, this`cache, this`outside
      ensures var was := old(State());
              && ret == Cached(was, address)
              && State() == if ret.Some?
                            then was.(heap := Retained(was.heap, ret.value),
                                      outside := was.outside + multiset{ret.value})
                            else was.(cache := was.cache - {address})
    {
      ret := None;
      if address in cache {
        var ref := cache[address];
        if ref in heap {
          ret := Some(ref);
          RetainObject(ref);
          outside := outside + multiset{ref};
          return;
        }
      }
      cache := cache - {address};
    }

    /** The part of `shutdown` that concerns the list: nothing is kept alive any more, and the queue is worked off. */
    method FreeRetainedObjects()
      requires Conserved(State()) && alive
      modifies this`heap, this`deferred, this`cache, this`retained, this`shutDown
      ensures State() == Step(old(State()), OpShutdown) && Conserved(State())
    {
      ShutdownConserves(State());
      ConservedCovers(State());
      retained, shutDown := multiset{}, true;
      DoDeferredRelease();
    }
  }

  lemma ConservedCovers(w: World)
    requires Conserved(w)
    ensures Covered(w.heap, w.deferred, None)
  {
    forall p: Obj ensures Queued(w.deferred)[p] <= Count(w.heap, p) { assert Count(w.heap, p) == Held(w, p); }
  }

  lemma OutsideCovers(w: World, o: Obj)
    requires Conserved(w) && o in w.outside
    ensures Covered(w.heap, w.deferred, Some(o))
  {
    forall p: Obj ensures Queued(w.deferred)[p] + (if o == p then 1 else 0) <= Count(w.heap, p) {
      assert Count(w.heap, p) == Held(w, p);
    }
  }

  lemma CoveredRelease(heap: map<Obj, NPObject>, deferred: seq<Option<Obj>>, o: Obj)
    requires Covered(heap, deferred, Some(o))
    ensures o in heap && Covered(Released(heap, Some(o)), deferred, None)
  {
    assert Queued(deferred)[o] + 1 <= Count(heap, o);
    forall p: Obj ensures Queued(deferred)[p] <= Count(Released(heap, Some(o)), p) {
      assert Queued(deferred)[p] + (if o == p then 1 else 0) <= Count(heap, p);
    }
  }

  lemma CoveredPop(heap: map<Obj, NPObject>, deferred: seq<Option<Obj>>)
    requires Covered(heap, deferred, None) && deferred != []
    ensures Covered(heap, deferred[1..], deferred[0])
  {
    forall p: Obj ensures Queued(deferred[1..])[p] + (if deferred[0] == Some(p) then 1 else 0) <= Count(heap, p) {
      assert Queued(deferred)[p] <= Count(heap, p);
    }
  }

  /** What the host does when a wrapper has been deallocated. */
  function Deallocation(w: World, obj: NPObject): World {
    if w.hostAlive && obj.auto && obj.api.Some? && ApiLives(w, obj.api.value)
    then Drain(w.(retained := w.retained - multiset{obj.api.value}))
    else w
  }

  lemma DroppedNull(w: World)
    ensures Dropped(w, None) == w
  {
    assert w.retained - multiset{} == w.retained;
  }

  lemma DroppedInParts(w: World, o: Obj)
    requires o in w.heap
    ensures var t, obj := w.(heap := Released(w.heap, Some(o))), w.heap[o];
            && Dropped(w, Some(o)) == (if obj.count <= 1 then Deallocation(t, obj) else t)
            && |Dropped(w, Some(o)).deferred| <= |w.deferred|
  {
    assert w.retained - multiset{} == w.retained;
  }

  lemma DrainsNothing(w: World)
    ensures w.deferred == [] ==> Drain(w) == w.(cache := Unexpired(w.cache, w.heap))
  {
    assert w.retained - multiset{} == w.retained;
  }

  /** A drain within a drain has nothing left to do for the outer one. */
  lemma DrainTwice(w: World)
    ensures Drain(Drain(w)) == Drain(w)
  {
    assert w.retained - AllLetGo(w.heap, w.deferred, w.apis) - multiset{} == Drain(w).retained;
  }

  /** Releasing the first of the queue, with all that this brings about, and then draining, is draining. */
  lemma DrainsOne(w: World)
    requires w.deferred != [] && w.hostAlive
    ensures Drain(Dropped(w.(deferred := w.deferred[1..]), w.deferred[0])) == Drain(w)
  {
    var first, rest := w.deferred[0], w.deferred[1..];
    var letGo := LetGo(w.heap, first, w.apis);
    var t := w.(deferred := rest, heap := Released(w.heap, first), retained := w.retained - letGo);
    assert w.retained - letGo - AllLetGo(t.heap, rest, w.apis) == w.retained - AllLetGo(w.heap, w.deferred, w.apis);
    assert Drain(t) == Drain(w);
    DrainTwice(t);
  }

  /** The wrapper around an object of the page, or around NULL. */
  class NPObjectAPI {
    const host: NpapiBrowserHost
    var obj: Option<Obj>

    constructor (o: Option<Obj>, host: NpapiBrowserHost)
      requires Conserved(host.State()) && host.alive && (o.Some? ==> o.value in host.heap)
      modifies host`heap, host`wrapped
      ensures this.host == host && obj == o
      ensures host.State() == Wrap(old(host.State()), o) && Conserved(host.State())
      ensures o.Some? ==>
        && host.wrapped == old(host.wrapped) + multiset{o.value} && o.value in host.heap
        && host.heap[o.value].count == old(host.heap[o.value].count) + 1
    {
      this.host := host;
      obj := o;
      new;
      if o.Some? {
        RetainConserves(host.State(), o.value);
        host.RetainObject(o.value);
        host.wrapped := host.wrapped + multiset{o.value};
      }
    }

    method Destroy(mainThread: bool)
      requires Conserved(host.State()) && (obj.Some? ==> obj.value in host.wrapped)
      modifies this`obj, host`heap, host`deferred, host`cache, host`retained, host`wrapped, host`lost
      ensures obj == None
      ensures host.State() == Unwrap(old(host.State()), old(obj), mainThread) && Conserved(host.State())
    {
      UnwrapConserves(host.State(), obj, mainThread);
      ghost var mine := if obj.Some? then multiset{obj.value} else multiset{};
      if host.alive {
        QueueingConserves(host.State(), obj, mine);
        host.wrapped := host.wrapped - mine;
        host.DeferredRelease(obj, mainThread);
      } else {
        host.wrapped, host.lost := host.wrapped - mine, host.lost + mine;
      }
      obj := None;
    }
  }
}
