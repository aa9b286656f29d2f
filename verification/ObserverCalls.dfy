/**
 What the calls of the event source mean for the sinks around it (PluginEventSource.cpp): who is in the list, who is
 called, and who is not called any more.
 */
module ObserverCalls {
  import opened EventDelivery

  // ---- Handlers ----

  /** A handler's answer is its own, it gets the event at its caller's depth, and nothing stays held behind it. */
  lemma HandlerAnswers(w: World, s: Sink, event: Event)
    ensures var a := Handle(w, s, event);
            && a.handled == (s != MANAGER && w.script != [] && w.script[0].handled)
            && |w.log| < |a.world.log| && a.world.log[|w.log|] == Delivery(|w.held|, s, event, a.handled)
            && a.world.held == w.held
  {
    var a := Handle(w, s, event);
    var logged := Logged(w, s, event, a.handled);
    assert logged.log[|w.log|] == a.world.log[..|logged.log|][|w.log|];
  }

  /** What a handler does, it does in order. */
  lemma {:induction false} PerformInOrder(w: World, first: seq<Action>, second: seq<Action>)
    ensures Perform(w, first + second) == Perform(Perform(w, first), second)
    decreases |first|
  {
    if first == [] {
      assert first + second == second;
    } else {
      assert (first + second)[1..] == first[1..] + second;
      PerformInOrder(Do(w, first[0]), first[1..], second);
    }
  }

  /** The next handler does nothing. */
  predicate Quiet(w: World) {
    w.script == [] || w.script[0].actions == []
  }

  function QuietAnswer(w: World): bool {
    w.script != [] && w.script[0].handled
  }

  /** What is left of the script when one more handler has run. */
  function LaterScript(script: seq<Reaction>): seq<Reaction> {
    if script == [] then [] else script[1..]
  }

  lemma QuietHandler(w: World, s: Sink, event: Event)
    requires s != MANAGER && Quiet(w)
    ensures Handle(w, s, event)
            == Answer(w.(script := LaterScript(w.script),
                         log := w.log + [Delivery(|w.held|, s, event, QuietAnswer(w))]),
                      QuietAnswer(w))
  {
    if w.script != [] {
      var t := Logged(w, s, event, w.script[0].handled).(held := w.held + [s], script := w.script[1..]);
      assert Perform(t, []) == t;
    }
  }

  /** A handler attaches another sink: that is called within, one deeper, and is in the list when this one is done. */
  lemma HandlerAttaches(w: World, s: Sink, event: Event, other: Sink, handled: bool)
    requires s != MANAGER && other != MANAGER && other in w.alive && w.script == [Reaction([Attach(other)], handled)]
    ensures Handle(w, s, event)
            == Answer(w.(observers := w.observers + [other], script := [],
                         log := w.log + [Delivery(|w.held|, s, event, handled),
                                         Delivery(|w.held| + 1, other, Attached, false)]),
                      handled)
  {
    var t := Logged(w, s, event, handled).(held := w.held + [s], script := []);
    AttachedGoesLast(t, other);
    assert Perform(t, [Attach(other)]) == Perform(Joined(t, other), []) by {
      assert [Attach(other)][1..] == [];
    }
    assert Joined(t, other).log == w.log + [Delivery(|w.held|, s, event, handled),
                                            Delivery(|w.held| + 1, other, Attached, false)];
  }

  // ---- The list ----

  /** An attached sink is the last in the list, and is told at once. */
  lemma AttachedGoesLast(w: World, s: Sink)
    requires s != MANAGER && Quiet(w)
    ensures Joined(w, s)
            == w.(observers := w.observers + [s], script := LaterScript(w.script),
                  log := w.log + [Delivery(|w.held|, s, Attached, QuietAnswer(w))])
  {
    QuietHandler(w.(observers := w.observers + [s]), s, Attached);
  }

  lemma ManagerGoesLast(w: World)
    ensures Joined(w, MANAGER)
            == w.(observers := w.observers + [MANAGER], log := w.log + [Delivery(|w.held|, MANAGER, Attached, false)])
  {
  }

  /** So many equal deliveries. */
  function Repeated(n: nat, d: Delivery): seq<Delivery> {
    seq(n, _ => d)
  }

  lemma {:induction false} ToldQuietly(w: World, s: Sink, n: nat)
    requires s != MANAGER && w.script == []
    ensures TellDetached(w, s, n) == w.(log := w.log + Repeated(n, Delivery(|w.held|, s, Detached, false)))
    decreases n
  {
    var d := Delivery(|w.held|, s, Detached, false);
    if n == 0 {
      assert w.log + Repeated(0, d) == w.log;
    } else {
      QuietHandler(w, s, Detached);
      ToldQuietly(w.(log := w.log + [d]), s, n - 1);
      assert [d] + Repeated(n - 1, d) == Repeated(n, d);
      assert w.log + [d] + Repeated(n - 1, d) == w.log + Repeated(n, d);
    }
  }

  /** A detached sink is not in the list any more, and is told once for every time that it was. */
  lemma DetachedIsTold(w: World, s: Sink)
    requires s != MANAGER && s in w.alive && w.script == []
    ensures var t := Left(w, s);
            && t.log == w.log + Repeated(Times(w.observers, s), Delivery(|w.held|, s, Detached, false))
            && t.alive == w.alive && forall p :: p in t.observers <==> p in w.observers && p in w.alive && p != s
  {
    OnlyOne(w.observers, s);
    KeptInOrder(w.observers, w.alive, s, {});
    ToldQuietly(w.(observers := Kept(w.observers, w.alive, s)), s, Times(w.observers, s));
  }

  /** A sink that was attached last is called last: if nobody in front answers true and it still lives then. */
  lemma LastIsCalledLast(w: World, event: StreamEvent, front: seq<Sink>, s: Sink)
    ensures var f := SendTo(w, event, front);
            SendTo(w, event, front + [s])
            == if f.handled || s !in f.world.alive then f else Handle(f.world, s, event)
  {
    SendInParts(w, event, front, [s]);
    var f := SendTo(w, event, front);
    assert [s][1..] == [];
    assert f == Answer(f.world, f.handled);
    if !f.handled && s in f.world.alive {
      var h := Handle(f.world, s, event);
      assert SendTo(h.world, event, []) == Answer(h.world, false);
    }
  }

  // ---- What a handler can do ----

  /** The deliveries of one event to these sinks, none of which answers true. */
  function Passed(sinks: seq<Sink>, depth: nat, event: Event): seq<Delivery> {
    seq(|sinks|, i requires 0 <= i < |sinks| => Delivery(depth, sinks[i], event, false))
  }

  lemma HandledQuietly(w: World, s: Sink, event: StreamEvent)
    requires w.script == [] && event != Completed
    ensures Handle(w, s, event) == Answer(w.(log := w.log + [Delivery(|w.held|, s, event, false)]), false)
  {
    if s != MANAGER { QuietHandler(w, s, event); }
  }

  lemma PassedFirst(log: seq<Delivery>, s: Sink, sinks: seq<Sink>, depth: nat, event: Event)
    ensures log + [Delivery(depth, s, event, false)] + Passed(sinks, depth, event)
            == log + Passed([s] + sinks, depth, event)
  {
    assert Passed([s] + sinks, depth, event) == [Delivery(depth, s, event, false)] + Passed(sinks, depth, event);
  }

  /** An event that nobody reacts to is delivered to every living sink of the list, in order. */
  lemma {:induction false} SentQuietly(w: World, event: StreamEvent, rest: seq<Sink>)
    requires w.script == [] && event != Completed
    ensures SendTo(w, event, rest)
            == Answer(w.(log := w.log + Passed(Only(rest, w.alive), |w.held|, event)), false)
    decreases |rest|
  {
    if rest == [] {
      assert w.log + Passed([], |w.held|, event) == w.log;
    } else {
      OnlyFirst(rest, w.alive);
      if rest[0] in w.alive {
        HandledQuietly(w, rest[0], event);
        SentQuietly(w.(log := w.log + [Delivery(|w.held|, rest[0], event, false)]), event, rest[1..]);
        PassedFirst(w.log, rest[0], Only(rest[1..], w.alive), |w.held|, event);
      } else {
        SentQuietly(w, event, rest[1..]);
      }
    }
  }

  /**
   What the actions of a handler come to when no other handler acts: a living sink is attached last or is detached, an
   event goes to the living sinks of the list, and nothing is done for a sink that is gone.
   */
  lemma ActionsAct(w: World, s: Sink, event: StreamEvent)
    requires s != MANAGER && w.script == [] && event != Completed
    ensures s in w.alive ==> Do(w, Attach(s)).observers == w.observers + [s] && s !in Do(w, Detach(s)).observers
    ensures s !in w.alive ==> Do(w, Attach(s)) == w && Do(w, Detach(s)) == w
    ensures Do(w, Send(event)).log == w.log + Passed(Only(w.observers, w.alive), |w.held|, event)
    ensures Do(w, Expire(s)).alive == if s in w.held then w.alive else w.alive - {s}
  {
    if s in w.alive { ComesAndGoes(w, s); }
    SentQuietly(w, event, w.observers);
  }

  lemma ComesAndGoes(w: World, s: Sink)
    requires s != MANAGER && w.script == [] && s in w.alive
    ensures Joined(w, s).observers == w.observers + [s] && s !in Left(w, s).observers
  {
    AttachedGoesLast(w, s);
    DetachedIsTold(w, s);
  }

  /** Retaining puts the manager behind the others and the stream into its set. */
  lemma ManagerComes(w: World)
    requires MANAGER in w.alive
    ensures var t := Do(w, RetainStream); t.retained && t.observers == w.observers + [MANAGER]
  {
    ManagerGoesLast(w);
  }

  /** Releasing takes both out. */
  lemma ManagerGoes(w: World)
    requires MANAGER in w.alive
    ensures var t := Do(w, ReleaseStream);
            !t.retained && forall p :: p in t.observers <==> p in w.observers && p in w.alive && p != MANAGER
  {
    var kept := Kept(w.observers, w.alive, MANAGER);
    ManagerToldQuietly(w.(observers := kept), |Only(w.observers, {MANAGER})|);
    assert Do(w, ReleaseStream) == Released(w) && Left(w, MANAGER).observers == kept;
    KeptInOrder(w.observers, w.alive, MANAGER, {});
  }

  lemma {:induction false} ManagerToldQuietly(w: World, n: nat)
    ensures TellDetached(w, MANAGER, n).observers == w.observers
    decreases n
  {
    if n > 0 {
      var next := ToldManager(w, n);
      ManagerToldQuietly(next, n - 1);
    }
  }

  // ---- Sinks that are gone ----

  /** Nothing that has been delivered since was delivered to `s`. */
  ghost predicate Silent(w: World, t: World, s: Sink) {
    && Later(w, t)
    && forall i :: |w.log| <= i < |t.log| ==> t.log[i].sink != s
  }

  ghost predicate IsGone(w: World, s: Sink) {
    s !in w.alive && MANAGER in w.alive
  }

  lemma SilentJoins(w: World, t: World, u: World, s: Sink)
    requires Silent(w, t, s) && Silent(t, u, s)
    ensures Silent(w, u, s)
  {
    LaterJoins(w, t, u);
    forall i | |w.log| <= i < |u.log| ensures u.log[i].sink != s {
      if i < |t.log| { assert u.log[i] == u.log[..|t.log|][i]; }
    }
  }

  lemma {:induction false} HandleSilent(w: World, p: Sink, event: Event, s: Sink)
    requires IsGone(w, s) && p != s
    ensures Silent(w, Handle(w, p, event).world, s)
    decreases |w.script|, if p == MANAGER && event == Completed then 4 else 1, 0
  {
    var a := Handle(w, p, event);
    var t := Logged(w, p, event, a.handled);
    LaterJoins(w, t, a.world);
    assert Silent(w, t, s);
    if p == MANAGER {
      if event == Completed {
        var running := t.(held := w.held + [p]);
        LeftSilent(running, MANAGER, s);
        assert a.world == Released(running).(held := w.held);
        assert a.world.log == Released(running).log == Left(running, MANAGER).log;
        assert Silent(t, a.world, s);
        SilentJoins(w, t, a.world, s);
      }
    } else if w.script != [] {
      PerformSilent(t.(held := w.held + [p], script := w.script[1..]), w.script[0].actions, s);
      assert Silent(t, a.world, s);
      SilentJoins(w, t, a.world, s);
    }
  }

  lemma {:induction false} PerformSilent(w: World, actions: seq<Action>, s: Sink)
    requires IsGone(w, s)
    ensures Silent(w, Perform(w, actions), s)
    decreases |w.script|, 8, |actions|
  {
    if actions != [] {
      DoSilent(w, actions[0], s);
      PerformSilent(Do(w, actions[0]), actions[1..], s);
      SilentJoins(w, Do(w, actions[0]), Perform(w, actions), s);
    }
  }

  lemma {:induction false} DoSilent(w: World, action: Action, s: Sink)
    requires IsGone(w, s)
    ensures Silent(w, Do(w, action), s)
    decreases |w.script|, 7, 0
  {
    match action
    case Attach(p) => if p in w.alive && p != MANAGER { JoinedSilent(w, p, s); }
    case Detach(p) => if p in w.alive && p != MANAGER { LeftSilent(w, p, s); }
    case Send(event) => SendSilent(w, event, w.observers, s);
    case Expire(_) =>
    case RetainStream => JoinedSilent(w, MANAGER, s);
    case ReleaseStream => LeftSilent(w, MANAGER, s);
  }

  lemma {:induction false} JoinedSilent(w: World, p: Sink, s: Sink)
    requires IsGone(w, s) && p != s
    ensures Silent(w, Joined(w, p), s)
    decreases |w.script|, 6, 0
  {
    HandleSilent(w.(observers := w.observers + [p]), p, Attached, s);
  }

  lemma {:induction false} LeftSilent(w: World, p: Sink, s: Sink)
    requires IsGone(w, s) && p != s
    ensures Silent(w, Left(w, p), s)
    decreases |w.script|, 3, 0
  {
    TellSilent(w.(observers := Kept(w.observers, w.alive, p)), p, |Only(w.observers, {p})|, s);
  }

  lemma {:induction false} TellSilent(w: World, p: Sink, n: nat, s: Sink)
    requires IsGone(w, s) && p != s
    ensures Silent(w, TellDetached(w, p, n), s)
    decreases |w.script|, 2, n
  {
    if n > 0 {
      var t := Handle(w, p, Detached).world;
      HandleSilent(w, p, Detached, s);
      TellSilent(t, p, n - 1, s);
      SilentJoins(w, t, TellDetached(w, p, n), s);
    }
  }

  lemma {:induction false} SendSilent(w: World, event: StreamEvent, rest: seq<Sink>, s: Sink)
    requires IsGone(w, s)
    ensures Silent(w, SendTo(w, event, rest).world, s)
    decreases |w.script|, 5, |rest|
  {
    if rest != [] {
      if rest[0] !in w.alive {
        SendSilent(w, event, rest[1..], s);
      } else {
        var h := Handle(w, rest[0], event);
        HandleSilent(w, rest[0], event, s);
        if !h.handled {
          SendSilent(h.world, event, rest[1..], s);
          SilentJoins(w, h.world, SendTo(w, event, rest).world, s);
        }
      }
    }
  }

  /**
   A sink that has expired is never called again, whatever is called on the source and whatever the handlers do: not by
   a copy of the list that still has it, and not to be told that it is detached.
   */
  lemma ExpiredIsNeverCalled(w: World, s: Sink, actions: seq<Action>)
    requires s != MANAGER && s !in w.held && MANAGER in w.alive
    ensures var u := Do(w, Expire(s));
            var t := Perform(u, actions);
            && s !in t.alive && |w.log| <= |t.log| && t.log[..|w.log|] == w.log
            && forall i :: |w.log| <= i < |t.log| ==> t.log[i].sink != s
  {
    PerformSilent(Do(w, Expire(s)), actions, s);
  }
}
