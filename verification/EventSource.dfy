/** The event source as it runs, with its list changed in place by calls that nest in each other. */
module EventSources {
  import opened EventDelivery

  class PluginEventSource {
    // the source
    var observers: seq<Sink>
    // the sinks around it, and the manager's set
    var alive: set<Sink>
    var held: seq<Sink>
    var script: seq<Reaction>
    var retained: bool
    // what has been delivered
    var log: seq<Delivery>

    constructor (alive: set<Sink>, script: seq<Reaction>)
      ensures State() == World([], alive, [], script, [], false)
    {
      observers, retained, held, log := [], false, [], [];
      this.alive, this.script := alive, script;
    }

    ghost function State(): World
      reads this
    {
      World(observers, alive, held, script, log, retained)
    }

    method AttachObserver(s: Sink)
      requires MANAGER in alive
      modifies this
      ensures State() == Joined(old(State()), s)
      decreases |script|, 6, 0
    {
      observers := observers + [s];
      var _ := HandleEvent(s, Attached);
    }

    method DetachObserver(s: Sink)
      requires MANAGER in alive && s in alive
      modifies this
      ensures State() == Left(old(State()), s)
      decreases |script|, 3, 0
    {
      var n := Erase(s);
      Tell(s, n);
    }

    /** The second loop: one event for each of them. */
    method Tell(s: Sink, times: nat)
      requires MANAGER in alive
      modifies this
      ensures State() == TellDetached(old(State()), s, times)
      decreases |script|, 2, 0
    {
      ghost var was := State();
      var n := times;
      while n > 0
        invariant Later(was, State()) && TellDetached(State(), s, n) == TellDetached(was, s, times)
        decreases n
      {
        ghost var before := State();
        TellsOne(was, before, s, n);
        var _ := HandleEvent(s, Detached);
        n := n - 1;
      }
    }

    /** The first loop of `DetachObserver`: counts the references that it erases and that have not expired. */
    method Erase(s: Sink) returns (detached: nat)
      requires s in alive
      modifies this`observers
      ensures observers == Kept(old(observers), alive, s) && detached == |Only(old(observers), {s})|
    {
      var it := 0;
      detached := 0;
      while it < |observers|
        invariant it <= |observers|
        invariant observers[..it] + Kept(observers[it..], alive, s) == Kept(old(observers), alive, s)
        invariant detached + |Only(observers[it..], {s})| == |Only(old(observers), {s})|
        decreases |observers| - it
      {
        OnlyFirst(observers[it..], alive - {s});
        OnlyFirst(observers[it..], {s});
        assert observers[it..][1..] == observers[it + 1..];
        if observers[it] !in alive || observers[it] == s {
          if observers[it] in alive { detached := detached + 1; }
          EraseAt(it);
        } else {
          assert observers[..it] + ([observers[it]] + Kept(observers[it + 1..], alive, s))
                 == observers[..it + 1] + Kept(observers[it + 1..], alive, s);
          it := it + 1;
        }
      }
      assert observers[..it] == observers;
    }

    method EraseAt(it: nat)
      requires it < |observers|
      modifies this`observers
      ensures |observers| == |old(observers)| - 1
      ensures observers[..it] == old(observers[..it]) && observers[it..] == old(observers[it + 1..])
    {
      observers := observers[..it] + observers[it + 1..];
    }

    method SendEvent(event: StreamEvent) returns (handled: bool)
      requires MANAGER in alive
      modifies this
      ensures Answer(State(), handled) == SendTo(old(State()), event, old(observers))
      decreases |script|, 5, 0
    {
      ghost var was := State();
      var copy, it := observers, 0;
      while it < |copy|
        invariant it <= |copy| && Later(was, State())
        invariant SendTo(State(), event, copy[it..]) == SendTo(was, event, copy)
        decreases |copy| - it
      {
        assert copy[it..][1..] == copy[it + 1..];
        if copy[it] in alive {
          handled := HandleEvent(copy[it], event);
          if handled { return; }
        }
        it := it + 1;
      }
      handled := false;
    }

    /** A handler: the manager's own, or the next reaction of the script. */
    method HandleEvent(s: Sink, event: Event) returns (handled: bool)
      requires MANAGER in alive
      modifies this
      ensures Answer(State(), handled) == Handle(old(State()), s, event)
      decreases |script|, if s == MANAGER && event == Completed then 4 else 1, 0
    {
      var depth, running := |held|, held;
      if s == MANAGER {
        log := log + [Delivery(depth, s, event, false)];
        if event == Completed {
          held := held + [s];
          OnStreamCompleted();
          held := running;
        }
        handled := false;
      } else if script == [] {
        log := log + [Delivery(depth, s, event, false)];
        handled := false;
      } else {
        var reaction := script[0];
        log := log + [Delivery(depth, s, event, reaction.handled)];
        held, script := held + [s], script[1..];
        PerformAll(reaction.actions);
        held := running;
        handled := reaction.handled;
      }
    }

    /** `onStreamCompleted` and `releaseStream` of the manager. */
    method OnStreamCompleted()
      requires MANAGER in alive
      modifies this
      ensures State() == Released(old(State()))
      decreases |script|, 3, 1
    {
      DetachObserver(MANAGER);
      retained := false;
    }

    /** `retainStream` of the manager. */
    method Retain()
      requires MANAGER in alive
      modifies this
      ensures State() == Joined(old(State()), MANAGER).(retained := true)
      decreases |script|, 6, 1
    {
      AttachObserver(MANAGER);
      retained := true;
    }

    method PerformAll(actions: seq<Action>)
      requires MANAGER in alive
      modifies this
      ensures State() == Perform(old(State()), actions)
      decreases |script|, 8, |actions|
    {
      if actions != [] {
        PerformOne(actions[0]);
        PerformAll(actions[1..]);
      }
    }

    method PerformOne(action: Action)
      requires MANAGER in alive
      modifies this
      ensures State() == Do(old(State()), action)
      decreases |script|, 7, 0
    {
      match action
      case Attach(s) => if s in alive && s != MANAGER { AttachObserver(s); }
      case Detach(s) => if s in alive && s != MANAGER { DetachObserver(s); }
      case Send(event) => var _ := SendEvent(event);
      case Expire(s) => if s !in held && s != MANAGER { alive := alive - {s}; }
      case RetainStream => Retain();
      case ReleaseStream => OnStreamCompleted();
    }
  }
}
