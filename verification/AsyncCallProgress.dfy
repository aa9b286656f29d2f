/**
 What becomes of a call, and of a shutdown, that is let go on (BrowserHost.cpp): a call on a living host is handed to
 the browser, whose firing runs it; every call can return; and a shutdown can finish, after which everything that was
 listed has run.
 */
module AsyncCallProgress {
  import opened Common
  import opened AsyncCallPool
  import opened AsyncCallProtocol

  // ---- Accepted calls are handed to the browser ----

  /** The browser has been given the record: it may still fire it, or it has. */
  predicate HandedOver(s: State, id: nat) {
    id in s.accepted || id in s.fires
  }

  /** The table of browser functions still takes the request. */
  predicate Posts(s: State, step: Step, id: nat) {
    step == Calls(id, Post) && Do(s, step).Some? && !s.funcsCleared
  }

  lemma CallStepHandsOver(s: State, caller: nat, action: CallAction, id: nat)
    requires CallStep(s, caller, action).Some?
    ensures var t := CallStep(s, caller, action).value;
            && t.fires == s.fires
            && (id in t.accepted <==> id in s.accepted || (caller == id && action == Post && !s.funcsCleared))
  {
  }

  lemma FireStepHandsOver(s: State, fired: nat, action: FireAction, id: nat)
    requires FireStep(s, fired, action).Some?
    ensures HandedOver(FireStep(s, fired, action).value, id) <==> HandedOver(s, id)
  {
  }

  lemma StepHandsOver(s: State, step: Step, id: nat)
    ensures HandedOver(Next(s, step), id) <==> HandedOver(s, id) || Posts(s, step, id)
  {
    if Do(s, step).None? { return; }
    match step
    case Calls(caller, action) => CallStepHandsOver(s, caller, action, id);
    case Fires(fired, action) => FireStepHandsOver(s, fired, action, id);
    case Shuts(_) =>
  }

  /** At step `i`, the call posts its record while the table takes it. */
  predicate PostedAt(s: State, steps: seq<Step>, id: nat, i: nat) {
    Takes(s, steps, i, Calls(id, Post)) && !After(s, steps[..i]).funcsCleared
  }

  lemma PostedLater(s: State, steps: seq<Step>, id: nat, i: nat)
    requires steps != []
    ensures PostedAt(Next(s, steps[0]), steps[1..], id, i) <==> PostedAt(s, steps, id, i + 1)
    ensures PostedAt(s, steps, id, 0) <==> Posts(s, steps[0], id)
  {
    assert steps[..0] == [];
    if i < |steps[1..]| { assert steps[..i + 1][1..] == steps[1..][..i]; }
  }

  lemma {:induction false} RunHandsOver(s: State, steps: seq<Step>, id: nat)
    ensures HandedOver(After(s, steps), id) <==> HandedOver(s, id) || exists i :: PostedAt(s, steps, id, i)
    decreases |steps|
  {
    if steps != [] {
      var t := Next(s, steps[0]);
      RunHandsOver(t, steps[1..], id);
      StepHandsOver(s, steps[0], id);
      PostedLater(s, steps, id, 0);
      forall i: nat ensures PostedAt(t, steps[1..], id, i) <==> PostedAt(s, steps, id, i + 1) {
        PostedLater(s, steps, id, i);
      }
      if i: nat :| PostedAt(s, steps, id, i) && i > 0 { assert PostedAt(t, steps[1..], id, i - 1); }
    }
  }

  /**
   In every run, the browser has been given the record of a call if and only if the call has posted it while the table
   of browser functions was not cleared.
   */
  lemma HandedOverIffPosted(steps: seq<Step>, id: nat)
    ensures HandedOver(Now(steps), id) <==> exists i :: PostedAt(INITIAL, steps, id, i)
  {
    RunHandsOver(INITIAL, steps, id);
  }

  /** A run that is given by the states it goes through; every one of its steps is taken. */
  ghost predicate Path(states: seq<State>, steps: seq<Step>) {
    && |states| == |steps| + 1
    && forall i, j :: 0 <= i < |steps| && j == i + 1 ==> Do(states[i], steps[i]) == Some(states[j])
  }

  lemma PathBefore(s: State, step: Step, states: seq<State>, steps: seq<Step>) returns (all: seq<State>)
    requires Path(states, steps) && Do(s, step) == Some(states[0])
    ensures all == [s] + states && Path(all, [step] + steps)
  {
    all := [s] + states;
  }

  lemma PathOfFour(s0: State, a: Step, s1: State, b: Step, s2: State, c: Step, s3: State, d: Step, s4: State)
      returns (states: seq<State>)
    requires Do(s0, a) == Some(s1) && Do(s1, b) == Some(s2) && Do(s2, c) == Some(s3) && Do(s3, d) == Some(s4)
    ensures states == [s0, s1, s2, s3, s4] && Path(states, [a, b, c, d])
  {
    states := [s0, s1, s2, s3, s4];
  }

  /**
   A record that the browser may fire runs when it does: firing, extraction, call and deletion are each taken, and in
   the end it has run once and has been deleted once, and the shutdown has not been needed.
   */
  lemma AcceptedRuns(before: seq<Step>, id: nat) returns (states: seq<State>)
    requires BeforeDrain(Now(before)) && id in Now(before).accepted
    ensures Path(states, [Fires(id, Fire), Fires(id, Extract), Fires(id, Run), Fires(id, Delete)])
    ensures states[0] == Now(before) && states[0].ran[id] == 0 && states[0].freed[id] == 0
    ensures states[4].ran[id] == 1 && states[4].freed[id] == 1 && states[4].shutdown == states[0].shutdown
  {
    var s := Now(before);
    RunKeeps(INITIAL, before);
    assert Placed(s, id) && Counted(s, id);
    var s1 := Do(s, Fires(id, Fire)).value;
    var s2 := Do(s1, Fires(id, Extract)).value;
    var s3 := Do(s2, Fires(id, Run)).value;
    var s4 := Do(s3, Fires(id, Delete)).value;
    states := PathOfFour(s, Fires(id, Fire), s1, Fires(id, Extract), s2, Fires(id, Run), s3, Fires(id, Delete), s4);
  }

  lemma CallMakesAndPosts(s: State, id: nat) returns (s1: State, s2: State, s3: State)
    requires id in s.calls && s.calls[id].Making? && MutexFree(s) && !s.flag && !s.funcsCleared
    ensures Do(s, Calls(id, Make)) == Some(s1) && Do(s1, Calls(id, Recheck)) == Some(s2)
    ensures Do(s2, Calls(id, Post)) == Some(s3)
    ensures s3.calls == s.calls[id := Returned(true, true)] && s3.accepted == s.accepted + {id} && s3.ran == s.ran
    ensures s3.pool.dataList == s.pool.dataList + {id} && s3.shutdown == s.shutdown
  {
    s1 := Do(s, Calls(id, Make)).value;
    s2 := Do(s1, Calls(id, Recheck)).value;
    s3 := Do(s2, Calls(id, Post)).value;
  }

  /** A call that begins on a living host takes all its steps, returns true, and the browser has its record. */
  lemma CallOnLivingHost(before: seq<Step>, id: nat) returns (states: seq<State>)
    requires Now(before).shutdown.Alive? && id !in Now(before).calls
    ensures Path(states, [Calls(id, Begin), Calls(id, CheckFlag), Calls(id, Make), Calls(id, Recheck), Calls(id, Post)])
    ensures states[0] == Now(before)
    ensures var t := states[5];
            && t.calls == states[0].calls[id := Returned(true, true)] && t.accepted == states[0].accepted + {id}
            && t.pool.dataList == states[0].pool.dataList + {id} && t.ran == states[0].ran
            && t.shutdown == states[0].shutdown
  {
    var s := Now(before);
    RunKeeps(INITIAL, before);
    var s1 := SetCall(s, id, CheckingFlag);
    var s2 := SetCall(s1, id, Making);
    var s3, s4, s5 := CallMakesAndPosts(s2, id);
    var rest := PathOfFour(s1, Calls(id, CheckFlag), s2, Calls(id, Make), s3, Calls(id, Recheck), s4,
                           Calls(id, Post), s5);
    states := PathBefore(s, Calls(id, Begin), rest,
                         [Calls(id, CheckFlag), Calls(id, Make), Calls(id, Recheck), Calls(id, Post)]);
  }

  lemma {:induction false} PathIsRun(states: seq<State>, steps: seq<Step>)
    requires Path(states, steps)
    ensures After(states[0], steps) == states[|steps|]
    decreases |steps|
  {
    if steps != [] {
      assert Do(states[0], steps[0]) == Some(states[1]);
      PathIsRun(states[1..], steps[1..]);
    }
  }

  lemma PathAfterRun(before: seq<Step>, states: seq<State>, steps: seq<Step>)
    requires Path(states, steps) && states[0] == Now(before)
    ensures Now(before + steps) == states[|steps|]
  {
    AfterSplits(INITIAL, before + steps, |before|);
    assert (before + steps)[..|before|] == before && (before + steps)[|before|..] == steps;
    PathIsRun(states, steps);
  }

  /** So a call that is scheduled on a living host returns true, and has run once when the browser has fired it. */
  lemma ScheduledCallRuns(before: seq<Step>, id: nat)
    requires Now(before).shutdown.Alive? && id !in Now(before).calls
    ensures var call := [Calls(id, Begin), Calls(id, CheckFlag), Calls(id, Make), Calls(id, Recheck), Calls(id, Post)];
            var fire := [Fires(id, Fire), Fires(id, Extract), Fires(id, Run), Fires(id, Delete)];
            var s, t := Now(before + call), Now(before + call + fire);
            && id in s.calls && s.calls[id] == Returned(true, true) && s.ran[id] == 0
            && t.ran[id] == 1 && t.freed[id] == 1 && t.shutdown.Alive?
  {
    var call := [Calls(id, Begin), Calls(id, CheckFlag), Calls(id, Make), Calls(id, Recheck), Calls(id, Post)];
    var fire := [Fires(id, Fire), Fires(id, Extract), Fires(id, Run), Fires(id, Delete)];
    var calling := CallOnLivingHost(before, id);
    PathAfterRun(before, calling, call);
    var firing := AcceptedRuns(before + call, id);
    PathAfterRun(before + call, firing, fire);
  }

  // ---- Calls that have begun can return ----

  /** The call has returned, with this answer, and nothing else has changed but its record. */
  ghost predicate ReturnedWith(s: State, t: State, id: nat, result: bool) {
    && id in t.calls && t.calls[id].Returned? && t.calls[id].result == result
    && t.calls - {id} == s.calls - {id} && t.fires == s.fires && t.shutdown == s.shutdown && t.flag == s.flag
    && t.ran == s.ran && t.freed == s.freed && (!result ==> id !in t.pool.dataList && t.accepted == s.accepted)
  }

  /**
   From every reachable state in which nobody drains the list, a call that has begun can return by its own steps alone:
   true if it has passed its last look at the flag or the flag is clear, and false, with no record listed, otherwise.
   */
  lemma {:induction false} CallReturns(s: State, id: nat) returns (states: seq<State>, steps: seq<Step>)
    requires Inv(s) && MutexFree(s) && id in s.calls && !s.calls[id].Returned?
    ensures Path(states, steps) && (forall step :: step in steps ==> step.Calls? && step.id == id)
    ensures states[0] == s
    ensures ReturnedWith(s, states[|steps|], id, Answer(s, id))
    decreases CallRank(s.calls[id])
  {
    var step, t := CallGoesOn(s, id);
    if t.calls[id].Returned? {
      states, steps := [s, t], [step];
    } else {
      var later, rest := CallReturns(t, id);
      states := PathBefore(s, step, later, rest);
      steps := [step] + rest;
    }
  }

  /** The answer that a call is going to give if nobody else takes a step. */
  predicate Answer(s: State, id: nat)
    requires id in s.calls
  {
    s.calls[id].Posting? || (!s.flag && !s.calls[id].Removing?)
  }

  lemma CallGoesOn(s: State, id: nat) returns (step: Step, t: State)
    requires Inv(s) && MutexFree(s) && id in s.calls && !s.calls[id].Returned?
    ensures step.Calls? && step.id == id && Do(s, step) == Some(t) && Inv(t) && MutexFree(t)
    ensures id in t.calls && CallRank(t.calls[id]) < CallRank(s.calls[id])
    ensures t.calls - {id} == s.calls - {id} && t.fires == s.fires && t.shutdown == s.shutdown && t.flag == s.flag
    ensures t.ran == s.ran && t.freed == s.freed && (!Answer(s, id) ==> t.accepted == s.accepted)
    ensures if !t.calls[id].Returned? then Answer(t, id) == Answer(s, id)
            else t.calls[id].result == Answer(s, id) && (!Answer(s, id) ==> id !in t.pool.dataList)
  {
    step := Calls(id, match s.calls[id]
                      case CheckingFlag => CheckFlag
                      case Making => Make
                      case Rechecking => Recheck
                      case Posting => Post
                      case Removing => Withdraw);
    assert Placed(s, id);
    t := Do(s, step).value;
    NextKeeps(s, step);
  }

  /** How far a call still is from its end. */
  function CallRank(pc: CallPc): nat {
    match pc
    case CheckingFlag => 4
    case Making => 3
    case Rechecking => 2
    case Posting => 1
    case Removing => 1
    case Returned(_, _) => 0
  }

  // ---- A shutdown can finish ----

  /** How far the shutdown still is from its end. */
  function ShutdownRank(s: State): nat {
    match s.shutdown
    case Alive => 4 + |s.pool.dataList|
    case SettingFlag => 3 + |s.pool.dataList|
    case Locking => 2 + |s.pool.dataList|
    case Draining(todo) => 1 + |todo|
    case _ => 0
  }

  lemma ShutdownStep(s: State) returns (step: Step, t: State)
    requires Inv(s) && !s.shutdown.ShutDown? && !s.shutdown.Destroyed?
    ensures step.Shuts? && Do(s, step) == Some(t) && Inv(t) && ShutdownRank(t) < ShutdownRank(s)
    ensures t.calls == s.calls && t.fires == s.fires && t.accepted == s.accepted && !t.shutdown.Destroyed?
    ensures s.pool.canceled <= t.pool.canceled
    ensures if t.shutdown.ShutDown? then t.pool.dataList == {} && s.pool.dataList <= t.pool.canceled
            else t.pool.dataList == s.pool.dataList
  {
    match s.shutdown {
      case Alive => step := Shuts(ClearFuncs);
      case SettingFlag => step := Shuts(SetFlag);
      case Locking => step := Shuts(LockAndCancel);
      case Draining(todo) =>
        if todo == {} {
          step := Shuts(ClearAndUnlock);
        } else {
          var id :| id in todo;
          step := Shuts(RunOne(id));
        }
    }
    t := Do(s, step).value;
    NextKeeps(s, step);
  }

  lemma {:induction false} ShutdownGoesOn(s: State) returns (states: seq<State>, steps: seq<Step>)
    requires Inv(s) && !s.shutdown.ShutDown? && !s.shutdown.Destroyed?
    ensures Path(states, steps) && (forall step :: step in steps ==> step.Shuts?)
    ensures states[0] == s
    ensures var t := states[|steps|];
            && Inv(t) && t.shutdown.ShutDown? && t.calls == s.calls && t.fires == s.fires && t.accepted == s.accepted
            && t.pool.dataList == {} && s.pool.dataList <= t.pool.canceled
    decreases ShutdownRank(s)
  {
    var step, t := ShutdownStep(s);
    if t.shutdown.ShutDown? {
      states, steps := [s, t], [step];
    } else {
      var later, rest := ShutdownGoesOn(t);
      states, steps := [s] + later, [step] + rest;
    }
  }

  /**
   From every reachable state the host can finish its shutdown by its own steps alone; then nothing is listed any more,
   and everything that was listed has run once.
   */
  lemma ShutdownFinishes(before: seq<Step>) returns (states: seq<State>, steps: seq<Step>)
    requires !Now(before).shutdown.ShutDown? && !Now(before).shutdown.Destroyed?
    ensures Path(states, steps) && (forall step :: step in steps ==> step.Shuts?)
    ensures states[0] == Now(before)
    ensures var t := states[|steps|];
            && t.shutdown.ShutDown? && t.calls == states[0].calls && t.fires == states[0].fires
            && t.pool.dataList == {} && forall id :: id in states[0].pool.dataList ==> t.ran[id] == 1
  {
    RunKeeps(INITIAL, before);
    states, steps := ShutdownGoesOn(Now(before));
    var t := states[|steps|];
    forall id | id in states[0].pool.dataList ensures t.ran[id] == 1 { assert Counted(t, id); }
  }
}
