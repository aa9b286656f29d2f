/**
 The event source of a plugin (PluginEventSource.cpp) and the manager that observes a stream to keep it alive
 (BrowserStreamManager.cpp). A handler may attach, detach and send before it answers, so everything here is
 re-entrant; what the handlers do is a script, one reaction for each delivery, and every statement is about all
 scripts.
 */
module EventDelivery {

  type Sink = nat

  /**
   The manager is a sink with a reaction of its own; nobody else attaches or detaches it, and it outlives the source.
   */
  const MANAGER: Sink := 0

  datatype Event = Attached | Detached | Completed | Other(code: nat)

  /** Attached and Detached come from the source itself. */
  type StreamEvent = e: Event | !e.Attached? && !e.Detached? witness Completed

  datatype Action =
    | Attach(sink: Sink)
    | Detach(leaving: Sink)
    | Send(event: StreamEvent)
    | Expire(expired: Sink)
    | RetainStream
    | ReleaseStream

  datatype Reaction = Reaction(actions: seq<Action>, handled: bool)

  /** The call of a handler: how many handlers were running already, and what it answered. */
  datatype Delivery = Delivery(depth: nat, sink: Sink, event: Event, handled: bool)

  /**
   The list of weak references, the sinks that live, those whose handlers are running (and are held by them), the
   reactions to come, the deliveries so far, and whether the manager has the stream in its set.
   */
  datatype World = World(observers: seq<Sink>, alive: set<Sink>, held: seq<Sink>, script: seq<Reaction>,
                         log: seq<Delivery>, retained: bool)

  datatype Answer = Answer(world: World, handled: bool)

  /**
   What no call undoes: sinks that are gone stay gone, those that are held stay, and the log only grows, at its depth.
   */
  ghost predicate Later(w: World, t: World) {
    && t.alive <= w.alive && t.held == w.held && |t.script| <= |w.script|
    && (forall s :: s in w.held && s in w.alive ==> s in t.alive)
    && (MANAGER in w.alive ==> MANAGER in t.alive)
    && |w.log| <= |t.log| && t.log[..|w.log|] == w.log
    && forall i :: |w.log| <= i < |t.log| ==> t.log[i].depth >= |w.held|
  }

  lemma LaterJoins(w: World, t: World, u: World)
    requires Later(w, t) && Later(t, u)
    ensures Later(w, u)
  {
    assert u.log[..|w.log|] == t.log[..|w.log|];
    forall i | |w.log| <= i < |u.log| ensures u.log[i].depth >= |w.held| {
      if i < |t.log| { assert u.log[i] == u.log[..|t.log|][i]; }
    }
  }

  function Logged(w: World, s: Sink, event: Event, handled: bool): World {
    w.(log := w.log + [Delivery(|w.held|, s, event, handled)])
  }

  function Only(sinks: seq<Sink>, which: set<Sink>): seq<Sink> {
    if sinks == [] then []
    else (if sinks[0] in which then [sinks[0]] else []) + Only(sinks[1..], which)
  }

  /** How the list looks when `s` is detached, and the references to it that were in it; expired ones go silently. */
  function Kept(observers: seq<Sink>, alive: set<Sink>, s: Sink): seq<Sink> {
    Only(observers, alive - {s})
  }

  // ---- The calls ----

  /** `HandleEvent` of a sink. */
  function Handle(w: World, s: Sink, event: Event): (a: Answer)
    ensures Later(Logged(w, s, event, a.handled), a.world)
    ensures forall i :: |w.log| < i < |a.world.log| ==> a.world.log[i].depth > |w.held|
    decreases |w.script|, if s == MANAGER && event == Completed then 4 else 1, 0
  {
    if s == MANAGER then
      var t := Logged(w, s, event, false);
      if event != Completed then Answer(t, false)
      else
        var u := Released(t.(held := w.held + [s]));
        Answer(u.(held := w.held), false)
    else if w.script == [] then
      Answer(Logged(w, s, event, false), false)
    else
      var reaction := w.script[0];
      var t := Logged(w, s, event, reaction.handled);
      var u := Perform(t.(held := w.held + [s], script := w.script[1..]), reaction.actions);
      Answer(u.(held := w.held), reaction.handled)
  }

  /** What one handler does, action after action. */
  function Perform(w: World, actions: seq<Action>): (t: World)
    ensures Later(w, t)
    decreases |w.script|, 8, |actions|
  {
    if actions == [] then w
    else
      var u := Do(w, actions[0]);
      var t := Perform(u, actions[1..]);
      LaterJoins(w, u, t);
      t
  }

  /** Only living sinks are passed to the source, and only the manager attaches and detaches the manager. */
  function Do(w: World, action: Action): (t: World)
    ensures Later(w, t)
    decreases |w.script|, 7, 0
  {
    match action
    case Attach(s) => if s in w.alive && s != MANAGER then Joined(w, s) else w
    case Detach(s) => if s in w.alive && s != MANAGER then Left(w, s) else w
    case Send(event) => SendTo(w, event, w.observers).world
    case Expire(s) => if s in w.held || s == MANAGER then w else w.(alive := w.alive - {s})
    case RetainStream => if MANAGER in w.alive then Joined(w, MANAGER).(retained := true) else w
    case ReleaseStream => if MANAGER in w.alive then Released(w) else w
  }

  /** `AttachObserver`. */
  function Joined(w: World, s: Sink): (t: World)
    ensures Later(w, t)
    decreases |w.script|, 6, 0
  {
    var a := Handle(w.(observers := w.observers + [s]), s, Attached);
    LaterJoins(w, Logged(w.(observers := w.observers + [s]), s, Attached, a.handled), a.world);
    a.world
  }

  /** `DetachObserver`. */
  function Left(w: World, s: Sink): (t: World)
    ensures Later(w, t)
    decreases |w.script|, 3, 0
  {
    var t := w.(observers := Kept(w.observers, w.alive, s));
    TellDetached(t, s, |Only(w.observers, {s})|)
  }

  /** One Detached event for every reference that was erased. */
  function TellDetached(w: World, s: Sink, n: nat): (t: World)
    ensures Later(w, t)
    decreases |w.script|, 2, n
  {
    if n == 0 then w
    else
      var a := Handle(w, s, Detached);
      LaterJoins(w, Logged(w, s, Detached, a.handled), a.world);
      var t := TellDetached(a.world, s, n - 1);
      LaterJoins(w, a.world, t);
      t
  }

  lemma TellsOne(was: World, w: World, s: Sink, n: nat)
    requires n > 0 && Later(was, w)
    ensures var a := Handle(w, s, Detached);
            Later(was, a.world) && TellDetached(w, s, n) == TellDetached(a.world, s, n - 1)
  {
    var a := Handle(w, s, Detached);
    LaterJoins(w, Logged(w, s, Detached, a.handled), a.world);
    LaterJoins(was, w, a.world);
  }

  /** `SendEvent`, going through the rest of its copy of the list. */
  function SendTo(w: World, event: StreamEvent, rest: seq<Sink>): (a: Answer)
    ensures Later(w, a.world)
    decreases |w.script|, 5, |rest|
  {
    if rest == [] then Answer(w, false)
    else if rest[0] !in w.alive then SendTo(w, event, rest[1..])
    else
      var h := Handle(w, rest[0], event);
      LaterJoins(w, Logged(w, rest[0], event, h.handled), h.world);
      if h.handled then Answer(h.world, true)
      else
        var a := SendTo(h.world, event, rest[1..]);
        LaterJoins(w, h.world, a.world);
        a
  }

  /** `releaseStream`. */
  function Released(w: World): (t: World)
    ensures Later(w, t)
    decreases |w.script|, 3, 1
  {
    Left(w, MANAGER).(retained := false)
  }

  // ---- Conservation ----

  /** How often an event was delivered to a sink. */
  function Count(log: seq<Delivery>, s: Sink, event: Event): nat {
    if log == [] then 0
    else
      var d := log[|log| - 1];
      Count(log[..|log| - 1], s, event) + if d.sink == s && d.event == event then 1 else 0
  }

  function Times(sinks: seq<Sink>, s: Sink): nat {
    if sinks == [] then 0 else (if sinks[0] == s then 1 else 0) + Times(sinks[1..], s)
  }

  /** Attached less Detached is the number of times that a living sink is in the list or is still owed a Detached. */
  ghost predicate Balanced(w: World, owed: map<Sink, nat>) {
    forall s :: s in w.alive ==>
      Count(w.log, s, Attached)
      == Count(w.log, s, Detached) + Times(w.observers, s) + if s in owed then owed[s] else 0
  }

  /** The manager has the stream in its set exactly while it observes it. */
  ghost predicate Managed(w: World) {
    MANAGER in w.alive && (w.retained <==> MANAGER in w.observers)
  }

  ghost predicate Sound(w: World, owed: map<Sink, nat>) {
    Balanced(w, owed) && Managed(w)
  }

  lemma CountNext(w: World, s: Sink, event: Event, handled: bool)
    ensures forall p, e :: Count(Logged(w, s, event, handled).log, p, e)
                           == Count(w.log, p, e) + if p == s && e == event then 1 else 0
  {
    var t := Logged(w, s, event, handled);
    assert t.log[..|w.log|] == w.log;
  }

  lemma {:induction false} CountGrows(log: seq<Delivery>, n: nat, s: Sink, event: Event)
    requires n <= |log|
    ensures Count(log[..n], s, event) <= Count(log, s, event)
    decreases |log|
  {
    if n < |log| {
      CountGrows(log[..|log| - 1], n, s, event);
      assert log[..|log| - 1][..n] == log[..n];
    } else {
      assert log[..n] == log;
    }
  }

  lemma {:induction false} TimesOneMore(sinks: seq<Sink>, s: Sink, p: Sink)
    ensures Times(sinks + [s], p) == Times(sinks, p) + if p == s then 1 else 0
    ensures (Times(sinks, p) > 0) == (p in sinks)
  {
    if sinks == [] {
      assert sinks + [s] == [s] && [s][1..] == [];
    } else {
      assert (sinks + [s])[1..] == sinks[1..] + [s];
      TimesOneMore(sinks[1..], s, p);
      assert sinks == [sinks[0]] + sinks[1..];
    }
  }

  lemma OnlyFirst(sinks: seq<Sink>, which: set<Sink>)
    requires sinks != []
    ensures if sinks[0] in which then Only(sinks, which) == [sinks[0]] + Only(sinks[1..], which)
                                      && Only(sinks, which)[1..] == Only(sinks[1..], which)
            else Only(sinks, which) == Only(sinks[1..], which)
  {
  }

  lemma {:induction false} TimesOnly(sinks: seq<Sink>, which: set<Sink>, p: Sink)
    ensures Times(Only(sinks, which), p) == if p in which then Times(sinks, p) else 0
  {
    if sinks != [] {
      TimesOnly(sinks[1..], which, p);
      OnlyFirst(sinks, which);
    }
  }

  lemma {:induction false} OnlyOne(sinks: seq<Sink>, s: Sink)
    ensures |Only(sinks, {s})| == Times(sinks, s)
  {
    if sinks != [] { OnlyOne(sinks[1..], s); }
  }

  /** Detaching keeps the living others in their order, and no others. */
  lemma {:induction false} KeptInOrder(observers: seq<Sink>, alive: set<Sink>, s: Sink, others: set<Sink>)
    requires others <= alive - {s}
    ensures Only(Kept(observers, alive, s), others) == Only(observers, others)
    ensures forall p :: p in Kept(observers, alive, s) <==> p in observers && p in alive && p != s
  {
    if observers != [] {
      KeptInOrder(observers[1..], alive, s, others);
      OnlyFirst(observers, alive - {s});
      OnlyFirst(observers, others);
      if observers[0] in alive - {s} { OnlyFirst(Kept(observers, alive, s), others); }
      assert observers == [observers[0]] + observers[1..];
    }
  }

  function Owing(owed: map<Sink, nat>, s: Sink, n: nat): map<Sink, nat> {
    owed[s := n + if s in owed then owed[s] else 0]
  }

  lemma JoiningBalances(w: World, s: Sink, handled: bool, owed: map<Sink, nat>)
    requires Balanced(w, owed)
    ensures Balanced(Logged(w.(observers := w.observers + [s]), s, Attached, handled), owed)
  {
    var t := w.(observers := w.observers + [s]);
    CountNext(t, s, Attached, handled);
    forall p | p in w.alive ensures Times(t.observers, p) == Times(w.observers, p) + if p == s then 1 else 0 {
      TimesOneMore(w.observers, s, p);
    }
  }

  lemma LeavingBalances(w: World, s: Sink, owed: map<Sink, nat>)
    requires Balanced(w, owed) && s in w.alive
    ensures Balanced(w.(observers := Kept(w.observers, w.alive, s)), Owing(owed, s, |Only(w.observers, {s})|))
  {
    OnlyOne(w.observers, s);
    forall p | p in w.alive
      ensures Times(Kept(w.observers, w.alive, s), p) == if p == s then 0 else Times(w.observers, p)
    {
      TimesOnly(w.observers, w.alive - {s}, p);
    }
  }

  lemma OwedOneLess(w: World, s: Sink, handled: bool, n: nat, owed: map<Sink, nat>)
    requires Balanced(w, Owing(owed, s, n + 1))
    ensures Balanced(Logged(w, s, Detached, handled), Owing(owed, s, n))
  {
    CountNext(w, s, Detached, handled);
  }

  lemma OwedNothing(w: World, s: Sink, owed: map<Sink, nat>)
    requires Balanced(w, Owing(owed, s, 0))
    ensures Balanced(w, owed)
  {
  }

  // The manager's own calls involve no other handler.

  lemma ToldManager(w: World, n: nat) returns (next: World)
    requires n > 0
    ensures next == Logged(w, MANAGER, Detached, false)
    ensures TellDetached(w, MANAGER, n) == TellDetached(next, MANAGER, n - 1)
  {
    next := Logged(w, MANAGER, Detached, false);
  }

  lemma {:induction false} TellManager(w: World, n: nat, owed: map<Sink, nat>) returns (t: World)
    requires Balanced(w, Owing(owed, MANAGER, n))
    ensures t == TellDetached(w, MANAGER, n) && t == w.(log := t.log) && Balanced(t, owed)
    decreases n
  {
    if n == 0 {
      OwedNothing(w, MANAGER, owed);
      t := w;
    } else {
      var next := ToldManager(w, n);
      OwedOneLess(w, MANAGER, false, n - 1, owed);
      t := TellManager(next, n - 1, owed);
    }
  }

  lemma ManagerJoins(w: World, owed: map<Sink, nat>)
    requires Sound(w, owed)
    ensures var t := Joined(w, MANAGER).(retained := true); Sound(t, owed)
  {
    JoiningBalances(w, MANAGER, false, owed);
  }

  lemma ManagerLeaves(w: World, owed: map<Sink, nat>)
    requires Sound(w, owed)
    ensures Sound(Released(w), owed) && !Released(w).retained
  {
    LeavingBalances(w, MANAGER, owed);
    var t := TellManager(w.(observers := Kept(w.observers, w.alive, MANAGER)), |Only(w.observers, {MANAGER})|, owed);
    KeptInOrder(w.observers, w.alive, MANAGER, {});
  }

  // Every call keeps the balance, whatever is still owed around it.

  /** The counts are the same whatever the handler answers. */
  lemma AnswersCountAlike(w: World, s: Sink, event: Event, handled: bool, owed: map<Sink, nat>)
    requires Sound(Logged(w, s, event, false), owed)
    ensures Sound(Logged(w, s, event, handled), owed)
  {
    var t, u := Logged(w, s, event, false), Logged(w, s, event, handled);
    CountNext(w, s, event, false);
    CountNext(w, s, event, handled);
    assert forall p, e :: Count(u.log, p, e) == Count(t.log, p, e);
    CountsDecide(t, u, owed);
  }

  lemma CountsDecide(t: World, u: World, owed: map<Sink, nat>)
    requires Sound(t, owed) && u == t.(log := u.log) && forall p, e :: Count(u.log, p, e) == Count(t.log, p, e)
    ensures Sound(u, owed)
  {
  }

  lemma {:induction false} HandleKeeps(w: World, s: Sink, event: Event, owed: map<Sink, nat>)
    requires Sound(Logged(w, s, event, false), owed)
    ensures Sound(Handle(w, s, event).world, owed)
    decreases |w.script|, if s == MANAGER && event == Completed then 4 else 1, 0
  {
    if s == MANAGER {
      if event == Completed { ManagerLeaves(Logged(w, s, event, false).(held := w.held + [s]), owed); }
    } else if w.script != [] {
      var reaction := w.script[0];
      var t := Logged(w, s, event, reaction.handled);
      AnswersCountAlike(w, s, event, reaction.handled, owed);
      PerformKeeps(t.(held := w.held + [s], script := w.script[1..]), reaction.actions, owed);
    }
  }

  lemma {:induction false} PerformKeeps(w: World, actions: seq<Action>, owed: map<Sink, nat>)
    requires Sound(w, owed)
    ensures Sound(Perform(w, actions), owed)
    decreases |w.script|, 8, |actions|
  {
    if actions != [] {
      DoKeeps(w, actions[0], owed);
      PerformKeeps(Do(w, actions[0]), actions[1..], owed);
    }
  }

  lemma {:induction false} DoKeeps(w: World, action: Action, owed: map<Sink, nat>)
    requires Sound(w, owed)
    ensures Sound(Do(w, action), owed)
    decreases |w.script|, 7, 0
  {
    match action
    case Attach(s) => if s in w.alive && s != MANAGER { JoinedKeeps(w, s, owed); }
    case Detach(s) => if s in w.alive && s != MANAGER { LeftKeeps(w, s, owed); }
    case Send(event) => SendKeeps(w, event, w.observers, owed);
    case Expire(s) =>
    case RetainStream => ManagerJoins(w, owed);
    case ReleaseStream => ManagerLeaves(w, owed);
  }

  lemma {:induction false} JoinedKeeps(w: World, s: Sink, owed: map<Sink, nat>)
    requires Sound(w, owed) && s != MANAGER
    ensures Sound(Joined(w, s), owed)
    decreases |w.script|, 6, 0
  {
    var t := w.(observers := w.observers + [s]);
    JoiningBalances(w, s, false, owed);
    HandleKeeps(t, s, Attached, owed);
  }

  lemma {:induction false} LeftKeeps(w: World, s: Sink, owed: map<Sink, nat>)
    requires Sound(w, owed) && s in w.alive && s != MANAGER
    ensures Sound(Left(w, s), owed)
    decreases |w.script|, 3, 0
  {
    var t := w.(observers := Kept(w.observers, w.alive, s));
    LeavingBalances(w, s, owed);
    KeptInOrder(w.observers, w.alive, s, {});
    TellKeeps(t, s, |Only(w.observers, {s})|, owed);
  }

  lemma {:induction false} TellKeeps(w: World, s: Sink, n: nat, owed: map<Sink, nat>)
    requires Sound(w, Owing(owed, s, n)) && s != MANAGER
    ensures Sound(TellDetached(w, s, n), owed)
    decreases |w.script|, 2, n
  {
    if n == 0 {
      OwedNothing(w, s, owed);
    } else {
      var t := ToldKeeps(w, s, n - 1, owed);
      TellKeeps(t, s, n - 1, owed);
    }
  }

  lemma {:induction false} ToldKeeps(w: World, s: Sink, n: nat, owed: map<Sink, nat>) returns (t: World)
    requires Sound(w, Owing(owed, s, n + 1)) && s != MANAGER
    ensures t == Handle(w, s, Detached).world && Sound(t, Owing(owed, s, n))
    decreases |w.script|, 2, 0
  {
    t := Handle(w, s, Detached).world;
    OwedOneLess(w, s, false, n, owed);
    HandleKeeps(w, s, Detached, Owing(owed, s, n));
  }

  lemma {:induction false} SendKeeps(w: World, event: StreamEvent, rest: seq<Sink>, owed: map<Sink, nat>)
    requires Sound(w, owed)
    ensures Sound(SendTo(w, event, rest).world, owed)
    decreases |w.script|, 5, |rest|
  {
    if rest != [] {
      if rest[0] in w.alive {
        var h := Handle(w, rest[0], event);
        CountNext(w, rest[0], event, false);
        HandleKeeps(w, rest[0], event, owed);
        if !h.handled { SendKeeps(h.world, event, rest[1..], owed); }
      } else {
        SendKeeps(w, event, rest[1..], owed);
      }
    }
  }

  /**
   Observers are conserved: whatever is called on a new source, and whatever the handlers do in between, a living sink
   has had as many Attached events more than Detached events as it is in the list, and the manager's set has the
   stream exactly while the manager is in the list.
   */
  lemma ObserversConserved(alive: set<Sink>, script: seq<Reaction>, calls: seq<Action>, s: Sink)
    requires MANAGER in alive
    ensures var w := Perform(World([], alive, [], script, [], false), calls);
            && (s in w.alive ==> Count(w.log, s, Attached) == Count(w.log, s, Detached) + Times(w.observers, s))
            && (w.retained <==> MANAGER in w.observers)
  {
    PerformKeeps(World([], alive, [], script, [], false), calls, map[]);
  }

  // ---- Delivery ----

  /** The deliveries at one depth: those made by the calls at that depth, without what their handlers made. */
  function At(log: seq<Delivery>, depth: nat): seq<Delivery> {
    if log == [] then []
    else At(log[..|log| - 1], depth) + if log[|log| - 1].depth == depth then [log[|log| - 1]] else []
  }

  lemma {:induction false} DeeperIsElsewhere(log: seq<Delivery>, n: nat, depth: nat)
    requires n <= |log| && forall i :: n <= i < |log| ==> log[i].depth > depth
    ensures At(log, depth) == At(log[..n], depth)
    decreases |log|
  {
    if n < |log| {
      DeeperIsElsewhere(log[..|log| - 1], n, depth);
      assert log[..|log| - 1][..n] == log[..n];
    } else {
      assert log[..n] == log;
    }
  }

  lemma HandleDeliversOnce(w: World, s: Sink, event: Event)
    ensures var a := Handle(w, s, event);
            At(a.world.log, |w.held|) == At(w.log, |w.held|) + [Delivery(|w.held|, s, event, a.handled)]
  {
    var a := Handle(w, s, event);
    var logged := Logged(w, s, event, a.handled);
    DeeperIsElsewhere(a.world.log, |w.log| + 1, |w.held|);
    assert logged.log[..|w.log|] == w.log;
  }

  /**
   The turn of one sink: if it lives just then, its handler is called, which is one delivery at this depth; otherwise
   nothing happens.
   */
  ghost predicate Turn(before: World, s: Sink, event: Event, after: World, handled: bool) {
    if s in before.alive then
      && Handle(before, s, event) == Answer(after, handled)
      && At(after.log, |before.held|) == At(before.log, |before.held|) + [Delivery(|before.held|, s, event, handled)]
    else
      after == before && !handled
  }

  /** The turns of the first sinks of a snapshot; `worlds` are the ones between them, `handled` is the last answer. */
  ghost predicate Turns(worlds: seq<World>, event: Event, snapshot: seq<Sink>, handled: bool) {
    && 1 <= |worlds| <= |snapshot| + 1
    && forall i :: 0 <= i < |worlds| - 1 ==>
         Turn(worlds[i], snapshot[i], event, worlds[i + 1], handled && i == |worlds| - 2)
  }

  /** The deliveries of these turns: the sinks that lived at their turn. */
  function Visits(worlds: seq<World>, event: Event, snapshot: seq<Sink>, handled: bool): seq<Delivery>
    requires 1 <= |worlds| <= |snapshot| + 1
  {
    if |worlds| == 1 then []
    else
      (if snapshot[0] in worlds[0].alive
       then [Delivery(|worlds[0].held|, snapshot[0], event, handled && |worlds| == 2)] else [])
      + Visits(worlds[1..], event, snapshot[1..], handled)
  }

  /**
   What a call of `SendEvent` has done: a turn for each sink of the snapshot, in order, up to the first that answers
   true, which is the call's answer; at its own depth it has delivered to those that lived at their turn, and to
   nobody else.
   */
  ghost predicate Delivered(w: World, event: StreamEvent, snapshot: seq<Sink>, worlds: seq<World>, a: Answer) {
    && Turns(worlds, event, snapshot, a.handled)
    && worlds[0] == w && worlds[|worlds| - 1] == a.world
    && (if a.handled then |worlds| > 1 else |worlds| == |snapshot| + 1)
    && At(a.world.log, |w.held|) == At(w.log, |w.held|) + Visits(worlds, event, snapshot, a.handled)
  }

  lemma TurnThenTurns(w: World, event: StreamEvent, snapshot: seq<Sink>, next: World, worlds: seq<World>, a: Answer)
    requires snapshot != [] && Turn(w, snapshot[0], event, next, false) && next.held == w.held
    requires Delivered(next, event, snapshot[1..], worlds, a)
    ensures Delivered(w, event, snapshot, [w] + worlds, a)
  {
    var all := [w] + worlds;
    assert all[1..] == worlds;
    forall i | 0 <= i < |all| - 1
      ensures Turn(all[i], snapshot[i], event, all[i + 1], a.handled && i == |all| - 2)
    {
      if i > 0 {
        assert snapshot[i] == snapshot[1..][i - 1];
        assert Turn(worlds[i - 1], snapshot[1..][i - 1], event, worlds[i], a.handled && i - 1 == |worlds| - 2);
      }
    }
    VisitsNext(all, event, snapshot, a.handled);
  }

  lemma VisitsNext(worlds: seq<World>, event: Event, snapshot: seq<Sink>, handled: bool)
    requires 2 <= |worlds| <= |snapshot| + 1 && (|worlds| == 2 ==> !handled)
    ensures Visits(worlds, event, snapshot, handled)
            == (if snapshot[0] in worlds[0].alive
                then [Delivery(|worlds[0].held|, snapshot[0], event, false)] else [])
               + Visits(worlds[1..], event, snapshot[1..], handled)
  {
  }

  lemma LastTurn(w: World, event: StreamEvent, snapshot: seq<Sink>, a: Answer)
    requires snapshot != [] && snapshot[0] in w.alive && a.handled && Turn(w, snapshot[0], event, a.world, true)
    ensures Delivered(w, event, snapshot, [w, a.world], a)
  {
    var worlds := [w, a.world];
    assert worlds[1..] == [a.world];
    assert Visits([a.world], event, snapshot[1..], true) == [];
  }

  /**
   `SendEvent` goes through the list as it was on entry, whatever is attached, detached or sent meanwhile: in that
   order, it calls each sink that lives at its turn, until the first that answers true, and returns whether there was
   one.
   */
  lemma {:induction false} SnapshotDelivery(w: World, event: StreamEvent, snapshot: seq<Sink>)
      returns (a: Answer, worlds: seq<World>)
    ensures a == SendTo(w, event, snapshot) && Delivered(w, event, snapshot, worlds, a)
    decreases |snapshot|
  {
    if snapshot == [] {
      a, worlds := Answer(w, false), [w];
      assert At(w.log, |w.held|) + [] == At(w.log, |w.held|);
    } else if snapshot[0] !in w.alive {
      var rest;
      a, rest := SnapshotDelivery(w, event, snapshot[1..]);
      worlds := [w] + rest;
      TurnThenTurns(w, event, snapshot, w, rest, a);
    } else {
      var h := Handle(w, snapshot[0], event);
      HandleDeliversOnce(w, snapshot[0], event);
      if h.handled {
        a, worlds := h, [w, h.world];
        LastTurn(w, event, snapshot, a);
      } else {
        var rest;
        a, rest := SnapshotDelivery(h.world, event, snapshot[1..]);
        worlds := [w] + rest;
        TurnThenTurns(w, event, snapshot, h.world, rest, a);
      }
    }
  }

  // ---- The manager lets go ----

  /** The manager is not in the list, or it has been attached since `w`. */
  ghost predicate Gone(w: World, t: World) {
    Count(t.log, MANAGER, Attached) > Count(w.log, MANAGER, Attached) || MANAGER !in t.observers
  }

  lemma GoneSince(w: World, h: World, t: World)
    requires Later(w, h) && Later(h, t) && Gone(h, t)
    ensures Gone(w, t)
  {
    CountGrows(h.log, |w.log|, MANAGER, Attached);
  }

  lemma CompletedToManager(w: World) returns (h: World)
    requires Sound(w, map[])
    ensures Handle(w, MANAGER, Completed) == Answer(h, false)
    ensures Later(w, h) && Sound(h, map[]) && MANAGER !in h.observers
  {
    h := Handle(w, MANAGER, Completed).world;
    CountNext(w, MANAGER, Completed, false);
    ManagerLeaves(Logged(w, MANAGER, Completed, false).(held := w.held + [MANAGER]), map[]);
    LaterJoins(w, Logged(w, MANAGER, Completed, false), h);
  }

  /** Sending to some and then to others is sending to them all, unless one of the first answers true. */
  lemma {:induction false} SendInParts(w: World, event: StreamEvent, first: seq<Sink>, second: seq<Sink>)
    ensures var a := SendTo(w, event, first);
            SendTo(w, event, first + second) == if a.handled then a else SendTo(a.world, event, second)
    decreases |first|
  {
    if first == [] {
      assert first + second == second;
    } else {
      assert (first + second)[1..] == first[1..] + second;
      if first[0] !in w.alive {
        SendInParts(w, event, first[1..], second);
      } else {
        SendInParts(Handle(w, first[0], event).world, event, first[1..], second);
      }
    }
  }

  /** From the manager's turn on, it is gone or attached again, whoever answers true behind it. */
  lemma GoneFromItsTurn(w: World, rest: seq<Sink>)
    requires Sound(w, map[]) && rest != [] && rest[0] == MANAGER
    ensures var t := SendTo(w, Completed, rest).world; Later(w, t) && Sound(t, map[]) && Gone(w, t)
  {
    var h := CompletedToManager(w);
    var t := SendTo(h, Completed, rest[1..]).world;
    SendKeeps(h, Completed, rest[1..], map[]);
    NotReattached(h, t);
    LaterJoins(w, h, t);
    GoneSince(w, h, t);
  }

  /** By conservation, a sink that is not in the list gets into it only with an Attached event. */
  lemma NotReattached(w: World, t: World)
    requires Sound(w, map[]) && Sound(t, map[]) && Later(w, t) && MANAGER !in w.observers
    ensures Gone(w, t)
  {
    CountGrows(t.log, |w.log|, MANAGER, Attached);
    CountGrows(t.log, |w.log|, MANAGER, Detached);
    TimesOneMore(w.observers, MANAGER, MANAGER);
    TimesOneMore(t.observers, MANAGER, MANAGER);
  }

  /**
   A stream leaves the manager's set with its Completed event if no observer in front of the manager answers true,
   whatever those behind it answer, unless it is retained again meanwhile. If one in front does, the event ends there,
   and the manager is as the handlers up to that one leave it. `i` is the manager's first place in the list, or the
   end of the list when it is not there.
   */
  lemma CompletedReleases(w: World, i: nat)
    requires Sound(w, map[]) && i <= |w.observers| && MANAGER !in w.observers[..i]
    requires i < |w.observers| ==> w.observers[i] == MANAGER
    ensures var a, front := SendTo(w, Completed, w.observers), SendTo(w, Completed, w.observers[..i]);
            if i < |w.observers| && front.handled then a == front
            else Count(a.world.log, MANAGER, Attached) == Count(w.log, MANAGER, Attached) ==> !a.world.retained
  {
    var t := SendTo(w, Completed, w.observers).world;
    var front := SendTo(w, Completed, w.observers[..i]);
    assert w.observers == w.observers[..i] + w.observers[i..];
    SendInParts(w, Completed, w.observers[..i], w.observers[i..]);
    if i == |w.observers| {
      SendKeeps(w, Completed, w.observers, map[]);
      NotReattached(w, t);
    } else if !front.handled {
      SendKeeps(w, Completed, w.observers[..i], map[]);
      GoneFromItsTurn(front.world, w.observers[i..]);
      GoneSince(w, front.world, t);
    }
  }
}
