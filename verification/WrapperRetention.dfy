/**
 The list of APIs that the host keeps alive (BrowserHost.cpp) for the auto-release wrappers that it hands out
 (NPJavascriptObject.cpp): until the host's shutdown it has each API exactly as often as such a wrapper of it lives.
 */
module WrapperRetention {
  import opened Common
  import opened ReferenceCounts

  ghost function AutoWrappers(heap: map<Obj, NPObject>, api: Api): set<Obj> {
    set o | o in heap && heap[o].auto && heap[o].api == Some(api)
  }

  /** Every auto-release wrapper stands for an API that lives. */
  ghost predicate AutoForLiving(heap: map<Obj, NPObject>, apis: map<Address, nat>) {
    forall o :: o in heap && heap[o].auto ==> heap[o].api.Some? && Lives(apis, heap[o].api.value)
  }

  ghost predicate Balanced(heap: map<Obj, NPObject>, apis: map<Address, nat>, retained: multiset<Api>) {
    AutoForLiving(heap, apis) && forall api :: retained[api] == |AutoWrappers(heap, api)|
  }

  ghost predicate Retains(w: World) {
    w.hostAlive && !w.shutDown ==> Balanced(w.heap, w.apis, w.retained)
  }

  // ---- One object more, one less, or a count that changes ----

  lemma SameWrappers(heap: map<Obj, NPObject>, other: map<Obj, NPObject>, apis: map<Address, nat>,
                     retained: multiset<Api>)
    requires Balanced(heap, apis, retained) && other.Keys == heap.Keys
    requires forall o :: o in heap ==> SameKind(other[o], heap[o])
    ensures Balanced(other, apis, retained)
  {
    forall api ensures AutoWrappers(other, api) == AutoWrappers(heap, api) {
    }
  }

  lemma OneMore(heap: map<Obj, NPObject>, o: Obj, obj: NPObject, apis: map<Address, nat>, retained: multiset<Api>)
    requires Balanced(heap, apis, retained) && o !in heap
    requires obj.auto ==> obj.api.Some? && Lives(apis, obj.api.value)
    ensures Balanced(heap[o := obj], apis, retained + if obj.auto then multiset{obj.api.value} else multiset{})
  {
    forall api
      ensures |AutoWrappers(heap[o := obj], api)|
              == |AutoWrappers(heap, api)| + if obj.auto && obj.api == Some(api) then 1 else 0
    {
      OneMoreWrapper(heap, o, obj, api);
    }
  }

  lemma OneMoreWrapper(heap: map<Obj, NPObject>, o: Obj, obj: NPObject, api: Api)
    requires o !in heap
    ensures |AutoWrappers(heap[o := obj], api)|
            == |AutoWrappers(heap, api)| + if obj.auto && obj.api == Some(api) then 1 else 0
  {
    var more := if obj.auto && obj.api == Some(api) then {o} else {};
    assert AutoWrappers(heap[o := obj], api) == AutoWrappers(heap, api) + more;
  }

  lemma OneLess(heap: map<Obj, NPObject>, o: Obj, apis: map<Address, nat>, retained: multiset<Api>)
    requires Balanced(heap, apis, retained) && o in heap
    ensures var obj := heap[o];
            Balanced(heap - {o}, apis, retained - if obj.auto then multiset{obj.api.value} else multiset{})
  {
    var obj := heap[o];
    forall api
      ensures |AutoWrappers(heap - {o}, api)|
              == |AutoWrappers(heap, api)| - if obj.auto && obj.api == Some(api) then 1 else 0
    {
      var less := if obj.auto && obj.api == Some(api) then {o} else {};
      assert less <= AutoWrappers(heap, api);
      assert AutoWrappers(heap - {o}, api) == AutoWrappers(heap, api) - less;
    }
  }

  /** A release takes an API from the list exactly when it takes the wrapper from the heap. */
  lemma ReleaseBalances(heap: map<Obj, NPObject>, o: Option<Obj>, apis: map<Address, nat>, retained: multiset<Api>)
    requires Balanced(heap, apis, retained)
    ensures Balanced(Released(heap, o), apis, retained - LetGo(heap, o, apis))
  {
    if o.Some? && o.value in heap {
      if heap[o.value].count <= 1 {
        OneLess(heap, o.value, apis, retained);
      } else {
        SameWrappers(heap, Released(heap, o), apis, retained);
      }
    }
  }

  lemma {:induction false} AllReleasesBalance(heap: map<Obj, NPObject>, deferred: seq<Option<Obj>>,
                                              apis: map<Address, nat>, retained: multiset<Api>)
    requires Balanced(heap, apis, retained)
    ensures Balanced(AllReleased(heap, deferred), apis, retained - AllLetGo(heap, deferred, apis))
    decreases |deferred|
  {
    if deferred != [] {
      var first, one := LetGo(heap, deferred[0], apis), Released(heap, deferred[0]);
      ReleaseBalances(heap, deferred[0], apis, retained);
      AllReleasesBalance(one, deferred[1..], apis, retained - first);
      var rest := AllLetGo(one, deferred[1..], apis);
      assert retained - first - rest == retained - (first + rest);
    }
  }

  // ---- The operations ----

  lemma DrainRetains(w: World)
    requires Retains(w)
    ensures Retains(Drain(w))
  {
    if w.hostAlive && !w.shutDown { AllReleasesBalance(w.heap, w.deferred, w.apis, w.retained); }
  }

  lemma ReleaseRetains(w: World, o: Obj)
    requires Retains(w) && o in w.outside
    ensures Retains(Step(w, OpRelease(o)))
  {
    var u := w.(outside := w.outside - multiset{o});
    if w.hostAlive && !w.shutDown {
      ReleaseBalances(w.heap, Some(o), w.apis, w.retained);
      DrainRetains(u.(heap := Released(w.heap, Some(o)), retained := w.retained - LetGo(w.heap, Some(o), w.apis)));
    }
  }

  lemma NewObjectRetains(w: World, api: Api, created: bool, auto: bool)
    requires Conserved(w) && Retains(w) && (auto ==> ApiLives(w, api))
    ensures Retains(NewObject(w, api, created, auto).world)
  {
    if created && w.hostAlive && !w.shutDown {
      OneMore(w.heap, w.next, NPObject(1, Some(api), auto), w.apis, w.retained);
    }
  }

  lemma GetWrapperRetains(w: World, api: Api, created: bool, auto: bool)
    requires Conserved(w) && Retains(w)
    ensures Retains(GetWrapper(w, api, created, auto).world)
  {
    if !ApiLives(w, api) {
      NewObjectRetains(w, api, created, false);
    } else {
      var hit, u := Cached(w, api.address), w.(cache := w.cache - {api.address});
      if hit.Some? {
        if w.hostAlive && !w.shutDown { SameWrappers(w.heap, Retained(w.heap, hit.value), w.apis, w.retained); }
      } else {
        SameCountsConserved(w, u);
        NewObjectRetains(u, api, created, auto);
      }
    }
  }

  /** An API that a wrapper keeps alive does not die. */
  lemma DeathRetains(w: World, a: Address)
    requires Retains(w) && Legal(w, OpApiDies(a))
    ensures Retains(Step(w, OpApiDies(a)))
  {
    if w.hostAlive && !w.shutDown {
      forall o | o in w.heap && w.heap[o].auto ensures Lives(w.apis - {a}, w.heap[o].api.value) {
        var api := w.heap[o].api.value;
        assert o in AutoWrappers(w.heap, api);
        assert w.retained[api] > 0;
      }
    }
  }

  lemma CountsRetain(w: World, op: Op)
    requires Conserved(w) && Retains(w) && Legal(w, op) && (op.OpCreate? || op.OpRetain? || op.OpWrap?)
    ensures Retains(Step(w, op))
  {
    if w.hostAlive && !w.shutDown {
      match op
      case OpCreate => OneMore(w.heap, w.next, NPObject(1, None, false), w.apis, w.retained);
      case OpRetain(o) => SameWrappers(w.heap, Retained(w.heap, o), w.apis, w.retained);
      case OpWrap(o) => if o.Some? { SameWrappers(w.heap, Retained(w.heap, o.value), w.apis, w.retained); }
    }
  }

  lemma StepRetains(w: World, op: Op)
    requires Conserved(w) && Retains(w)
    ensures Retains(Next(w, op))
  {
    if !Legal(w, op) { return; }
    match op
    case OpCreate => CountsRetain(w, op);
    case OpRetain(_) => CountsRetain(w, op);
    case OpWrap(_) => CountsRetain(w, op);
    case OpRelease(o) => ReleaseRetains(w, o);
    case OpUnwrap(o, mainThread) => if mainThread && w.hostAlive { DrainRetains(Queueing(w, o)); }
    case OpDrain => DrainRetains(w);
    case OpGetWrapper(api, created, auto) => GetWrapperRetains(w, api, created, auto);
    case OpApiBorn(_) =>
    case OpApiDies(a) => DeathRetains(w, a);
    case OpShutdown =>
    case OpHostDies =>
  }

  lemma {:induction false} RunRetains(w: World, ops: seq<Op>)
    requires Conserved(w) && Retains(w)
    ensures Retains(Run(w, ops))
    decreases |ops|
  {
    if ops != [] {
      StepRetains(w, ops[0]);
      StepConserves(w, ops[0]);
      RunRetains(Next(w, ops[0]), ops[1..]);
    }
  }

  /**
   In every run up to the host's shutdown, the host keeps each API alive exactly once for every auto-release wrapper
   of it that lives, and every such wrapper stands for an API that lives.
   */
  lemma RetainedOncePerWrapper(ops: seq<Op>, api: Api, o: Obj)
    requires Now(ops).hostAlive && !Now(ops).shutDown
    ensures var w := Now(ops);
            && w.retained[api] == |AutoWrappers(w.heap, api)|
            && (o in w.heap && w.heap[o].auto ==> w.heap[o].api.Some? && ApiLives(w, w.heap[o].api.value))
  {
    assert AutoWrappers(START.heap, api) == {};
    assert forall any :: AutoWrappers(START.heap, any) == {};
    RunRetains(START, ops);
  }

  /** So up to the shutdown an auto-release wrapper is never handed out for an API that it does not stand for. */
  lemma AutoWrapperIsForApi(ops: seq<Op>, api: Api, created: bool, auto: bool)
    requires Now(ops).hostAlive && !Now(ops).shutDown
    requires ApiLives(Now(ops), api) && GetWrapper(Now(ops), api, created, auto).obj.Some?
    ensures var h := GetWrapper(Now(ops), api, created, auto);
            var obj := h.world.heap[h.obj.value];
            obj.auto ==> obj.api == Some(api) && !OlderWrapperLives(ops, api)
  {
    var w, h := Now(ops), GetWrapper(Now(ops), api, created, auto);
    RunConserves(START, ops);
    RunKeepsBirthOrder(START, ops);
    RetainedOncePerWrapper(ops, api, h.obj.value);
    WrapperIsForApiIff(ops, api, created, auto);
  }

  // ---- What is asked for is made ----

  /**
   For a living API without a cached wrapper, a wrapper is made that is an auto-release wrapper exactly when one was
   asked for, with one reference for the caller, and then the host keeps the API alive once more; it is cached. When
   the browser makes none, nobody gets anything and nothing is kept alive.
   */
  lemma MadeAsAsked(w: World, api: Api, created: bool, auto: bool)
    requires ApiLives(w, api) && Cached(w, api.address).None?
    ensures var h := GetWrapper(w, api, created, auto);
            if created then
              && h.obj == Some(w.next) && h.world.heap == w.heap[w.next := NPObject(1, Some(api), auto)]
              && h.world.outside == w.outside + multiset{w.next} && h.world.next == w.next + 1
              && h.world.retained == (if auto then w.retained[api := w.retained[api] + 1] else w.retained)
              && Cached(h.world, api.address) == h.obj
            else
              h.obj == None && h.world.heap == w.heap && h.world.outside == w.outside && h.world.retained == w.retained
  {
    var h := GetWrapper(w, api, created, auto);
    if created { assert h.world.cache[api.address] == w.next; }
  }

  /** For an API that is gone the wrapper is made, but never an auto-release one, and it is not cached. */
  lemma MadeForDeadApi(w: World, api: Api, created: bool, auto: bool)
    requires !ApiLives(w, api)
    ensures var h := GetWrapper(w, api, created, auto);
            && h.world.retained == w.retained && h.world.cache == w.cache
            && (if created then h.obj == Some(w.next) && h.world.heap == w.heap[w.next := NPObject(1, Some(api), false)]
                else h.obj == None && h.world.heap == w.heap)
  {
  }

  /**
   An auto-release wrapper keeps its API alive: whatever is done after it has been handed out, as long as it is
   allocated and up to the shutdown, its API lives, is on the host's list, and cannot die.
   */
  lemma AutoWrapperKeepsApiAlive(before: seq<Op>, api: Api, ops: seq<Op>)
    requires ApiLives(Now(before), api) && Cached(Now(before), api.address).None? && Now(before).hostAlive
    ensures var o := Now(before).next;
            var t := Now(before + [OpGetWrapper(api, true, true)] + ops);
            o in t.heap && t.hostAlive && !t.shutDown ==>
              ApiLives(t, api) && api in t.retained && !Legal(t, OpApiDies(api.address))
  {
    var w, op := Now(before), OpGetWrapper(api, true, true);
    var all := before + [op] + ops;
    var u := Step(w, op);
    RunConserves(START, before);
    MadeAsAsked(w, api, true, true);
    GetWrapperConserves(w, api, true, true);
    RunThrough(before, op, ops);
    if w.next in Now(all).heap && Now(all).hostAlive && !Now(all).shutDown {
      RunKeepsKind(u, ops, w.next);
      RetainedOncePerWrapper(all, api, w.next);
      assert w.next in AutoWrappers(Now(all).heap, api);
    }
  }

  lemma RunThrough(before: seq<Op>, op: Op, ops: seq<Op>)
    requires Legal(Now(before), op)
    ensures Now(before + [op] + ops) == Run(Step(Now(before), op), ops)
  {
    var all := before + [op] + ops;
    RunSplits(START, all, |before|);
    assert all[..|before|] == before && all[|before|..] == [op] + ops;
    RunFirst(Now(before), op, ops);
  }

  /** Whose reference each operation adds. */
  lemma OperationsAdd(w: World, o: Obj)
    requires Conserved(w)
    ensures var t := Step(w, OpCreate);
            t.heap == w.heap[w.next := NPObject(1, None, false)] && t.outside == w.outside + multiset{w.next}
    ensures o in w.heap ==>
      var t := Step(w, OpRetain(o));
      Count(t.heap, o) == Count(w.heap, o) + 1 && t.outside == w.outside + multiset{o}
    ensures o in w.heap && w.hostAlive ==>
      var t := Step(w, OpWrap(Some(o)));
      Count(t.heap, o) == Count(w.heap, o) + 1 && t.wrapped == w.wrapped + multiset{o}
  {
  }

  /** What a drain leaves, and which APIs live. */
  lemma OperationsEnd(w: World, o: Obj, a: Address)
    requires Conserved(w)
    ensures w.hostAlive ==>
      var t := Step(w, OpDrain); t.deferred == [] && Count(t.heap, o) == w.outside[o] + w.wrapped[o]
    ensures Legal(w, OpApiBorn(a)) ==>
      var t := Step(w, OpApiBorn(a)); ApiLives(t, Api(a, w.births)) && t.births == w.births + 1
    ensures Legal(w, OpApiDies(a)) ==> forall birth :: !ApiLives(Step(w, OpApiDies(a)), Api(a, birth))
  {
    if w.hostAlive { DrainLeavesTheReferenced(w, o); }
  }

  // ---- When the host works off its queue ----

  /** The last reference of an auto-release wrapper of a living API: the API leaves the list, and the queue is empty. */
  lemma LastReleaseDrains(w: World, o: Obj)
    requires w.hostAlive && o in w.outside && o in w.heap && w.heap[o].count == 1 && w.heap[o].auto
    requires w.heap[o].api.Some? && ApiLives(w, w.heap[o].api.value)
    ensures var t := Step(w, OpRelease(o)); o !in t.heap && t.deferred == []
    ensures Conserved(w) && w.deferred == [] ==>
      Step(w, OpRelease(o)).retained == w.retained - multiset{w.heap[o].api.value}
  {
    var u := w.(outside := w.outside - multiset{o});
    assert LetGo(u.heap, Some(o), u.apis) == multiset{w.heap[o].api.value};
    var t := u.(heap := Released(w.heap, Some(o)), retained := w.retained - multiset{w.heap[o].api.value});
    assert Step(w, OpRelease(o)) == Drain(t);
    if o in Drain(t).heap { AllReleasedRevivesNothing(t.heap, t.deferred, o); }
    assert t.retained - multiset{} == t.retained;
  }

  /**
   Every other release only counts down, and deallocates with the last reference: of an object that is no auto-release
   wrapper, whose API has gone, or whose host has.
   */
  lemma OtherReleasesOnlyCount(w: World, o: Obj)
    requires o in w.outside && o in w.heap
    requires var obj := w.heap[o];
             obj.count > 1 || !obj.auto || obj.api.None? || !ApiLives(w, obj.api.value) || !w.hostAlive
    ensures var t := Step(w, OpRelease(o));
            && t.deferred == w.deferred && t.cache == w.cache && t.retained == w.retained
            && t.outside == w.outside - multiset{o}
            && t.heap == if w.heap[o].count <= 1 then w.heap - {o}
                         else w.heap[o := w.heap[o].(count := w.heap[o].count - 1)]
  {
    assert w.retained - multiset{} == w.retained;
  }

  /**
   While the host lives, a wrapper that is destroyed on the main thread leaves nothing in the queue, and one that is
   destroyed elsewhere leaves its reference there.
   */
  lemma DestructionQueues(w: World, o: Obj, mainThread: bool)
    requires Conserved(w) && w.hostAlive && o in w.wrapped
    ensures var t := Step(w, OpUnwrap(Some(o), mainThread));
            && t.wrapped == w.wrapped - multiset{o}
            && t.deferred == (if mainThread then [] else w.deferred + [Some(o)])
            && (mainThread ==> Count(t.heap, o) == w.outside[o] + w.wrapped[o] - 1)
  {
    var u := Queueing(w, Some(o));
    QueueingConserves(w, Some(o), multiset{o});
    if mainThread { DrainLeavesTheReferenced(u, o); }
  }

  /** The shutdown empties the list and the queue: from then on every API can die. */
  lemma ShutdownLetsGo(w: World, a: Address)
    requires Conserved(w) && w.hostAlive
    ensures var t := Step(w, OpShutdown);
            && t.retained == multiset{} && t.deferred == [] && t.shutDown && Legal(t, OpApiDies(a))
            && forall o: Obj :: Count(t.heap, o) == w.outside[o] + w.wrapped[o]
  {
    var u := w.(retained := multiset{}, shutDown := true);
    forall o: Obj ensures Count(Drain(u).heap, o) == w.outside[o] + w.wrapped[o] {
      SameCountsConserved(w, u);
      DrainLeavesTheReferenced(u, o);
    }
  }

  /** The host's death drops its queue, its cache and its list; what was queued is lost. */
  lemma DeathDropsQueue(w: World, o: Obj)
    requires Conserved(w) && w.hostAlive
    ensures var t := Step(w, OpHostDies);
            && !t.hostAlive && t.deferred == [] && t.cache == map[] && t.retained == multiset{}
            && t.heap == w.heap && t.lost[o] == Queued(w.deferred)[o]
  {
  }
}
