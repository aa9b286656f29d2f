/**
 The interleavings of BrowserHost.cpp: threads that call `ScheduleAsyncCall`, the browser that fires accepted calls,
 and one thread that shuts the host down. A record is named by the call that made it.
 */
module AsyncCallProtocol {
  import opened Common
  import opened AsyncCallPool

  /** Where one call of `ScheduleAsyncCall` is; `made` tells whether it got as far as making a record. */
  datatype CallPc =
    | CheckingFlag
    | Making
    | Rechecking
    | Posting
    | Removing
    | Returned(result: bool, made: bool)

  /** Where the browser's firing of a record is: `Finished(true)` has run and deleted it. */
  datatype FirePc = Extracting | Running | Deleting | Finished(ran: bool)

  datatype ShutdownPc =
    | Alive
    | SettingFlag
    | Locking
    | Draining(todo: set<nat>)
    | ShutDown
    | Destroyed

  /**
   `ran` and `freed` count how often each record was run and deleted; `accepted` is what the browser may still fire.
   */
  datatype State = State(
    pool: Pool<nat>, flag: bool, funcsCleared: bool, hasFunc: set<nat>, accepted: set<nat>,
    calls: map<nat, CallPc>, fires: map<nat, FirePc>, shutdown: ShutdownPc, ran: multiset<nat>, freed: multiset<nat>)

  const INITIAL := State(Pool({}, {}), false, false, {}, {}, map[], map[], Alive, multiset{}, multiset{})

  datatype CallAction = Begin | CheckFlag | Make | Recheck | Post | Withdraw

  datatype FireAction = Fire | Extract | Run | Delete

  datatype ShutdownAction = ClearFuncs | SetFlag | LockAndCancel | RunOne(id: nat) | ClearAndUnlock | DestroyManager

  datatype Step = Calls(id: nat, call: CallAction) | Fires(id: nat, fire: FireAction) | Shuts(shut: ShutdownAction)

  /** The manager's mutex is held across steps only while `shutdown` drains the list. */
  predicate MutexFree(s: State) {
    !s.shutdown.Draining?
  }

  function SetCall(s: State, id: nat, pc: CallPc): State {
    s.(calls := s.calls[id := pc])
  }

  function SetFire(s: State, id: nat, pc: FirePc): State {
    s.(fires := s.fires[id := pc])
  }

  /** `_asyncCallData::call`. */
  function RunRecord(s: State, id: nat): State {
    if id in s.hasFunc then s.(hasFunc := s.hasFunc - {id}, ran := s.ran + multiset{id}) else s
  }

  function CallStep(s: State, id: nat, action: CallAction): Option<State> {
    if action.Begin? then
      if id !in s.calls && !s.shutdown.Destroyed? then Some(SetCall(s, id, CheckingFlag)) else None
    else if id !in s.calls then
      None
    else match action
      case Begin => None
      case CheckFlag =>
        if s.calls[id].CheckingFlag? then
          Some(SetCall(s, id, if s.flag then Returned(false, false) else Making))
        else None
      case Make =>
        if s.calls[id].Making? && MutexFree(s) then
          Some(SetCall(s, id, Rechecking).(pool := Insert(s.pool, id), hasFunc := s.hasFunc + {id}))
        else None
      case Recheck =>
        if s.calls[id].Rechecking? then Some(SetCall(s, id, if s.flag then Removing else Posting)) else None
      case Post =>
        // A cleared function table swallows the request, and the call still returns true.
        if s.calls[id].Posting? then
          var accepted := if s.funcsCleared then s.accepted else s.accepted + {id};
          Some(SetCall(s, id, Returned(true, true)).(accepted := accepted))
        else None
      case Withdraw =>
        if s.calls[id].Removing? && MutexFree(s) then
          Some(SetCall(s, id, Returned(false, true)).(pool := Erase(s.pool, id)))
        else None
  }

  function FireStep(s: State, id: nat, action: FireAction): Option<State> {
    if action.Fire? then
      if id in s.accepted && !s.shutdown.Destroyed? then
        Some(SetFire(s, id, Extracting).(accepted := s.accepted - {id}))
      else None
    else if id !in s.fires then
      None
    else match action
      case Fire => None
      case Extract =>
        if s.fires[id].Extracting? && MutexFree(s) then
          Some(SetFire(s, id, if id in s.pool.dataList then Running else Finished(false)).(pool := Erase(s.pool, id)))
        else None
      case Run => if s.fires[id].Running? then Some(SetFire(RunRecord(s, id), id, Deleting)) else None
      case Delete =>
        if s.fires[id].Deleting? then Some(SetFire(s, id, Finished(true)).(freed := s.freed + multiset{id})) else None
  }

  /** The host, and with it the manager, stays while a call or a firing is still in progress. */
  predicate Unused(s: State) {
    && (forall id :: id in s.calls ==> s.calls[id].Returned?)
    && (forall id :: id in s.fires ==> s.fires[id].Finished?)
  }

  function ShutStep(s: State, action: ShutdownAction): Option<State> {
    match action
    case ClearFuncs => if s.shutdown.Alive? then Some(s.(funcsCleared := true, shutdown := SettingFlag)) else None
    case SetFlag => if s.shutdown.SettingFlag? then Some(s.(flag := true, shutdown := Locking)) else None
    case LockAndCancel =>
      if s.shutdown.Locking? then Some(s.(pool := Cancel(s.pool), shutdown := Draining(s.pool.dataList))) else None
    case RunOne(id) =>
      if s.shutdown.Draining? && id in s.shutdown.todo then
        Some(RunRecord(s, id).(shutdown := Draining(s.shutdown.todo - {id})))
      else None
    case ClearAndUnlock =>
      if s.shutdown == Draining({}) then Some(s.(pool := Drained(s.pool), shutdown := ShutDown)) else None
    case DestroyManager =>
      if s.shutdown.ShutDown? && Unused(s) then
        Some(s.(freed := s.freed + multiset(s.pool.canceled), shutdown := Destroyed))
      else None
  }

  function Do(s: State, step: Step): Option<State> {
    match step
    case Calls(id, action) => CallStep(s, id, action)
    case Fires(id, action) => FireStep(s, id, action)
    case Shuts(action) => ShutStep(s, action)
  }

  /** Nothing happens when the step cannot be taken. */
  function Next(s: State, step: Step): State {
    match Do(s, step)
    case Some(t) => t
    case None => s
  }

  function After(s: State, steps: seq<Step>): State
    decreases |steps|
  {
    if steps == [] then s else After(Next(s, steps[0]), steps[1..])
  }

  /** What has become of the start. */
  function Now(steps: seq<Step>): State {
    After(INITIAL, steps)
  }

  /** Step `i` is this one, and it is taken. */
  predicate Takes(s: State, steps: seq<Step>, i: nat, step: Step) {
    i < |steps| && steps[i] == step && Do(After(s, steps[..i]), step).Some?
  }

  // ---- Where a record is ----

  predicate Made(s: State, id: nat) {
    && id in s.calls
    && var pc := s.calls[id];
       pc.Rechecking? || pc.Posting? || pc.Removing? || (pc.Returned? && pc.made)
  }

  predicate Pending(s: State, id: nat) {
    id in s.pool.dataList && id !in s.pool.canceled
  }

  predicate InFlight(s: State, id: nat) {
    id in s.fires && (s.fires[id].Running? || s.fires[id].Deleting?)
  }

  predicate FreedAfterCall(s: State, id: nat) {
    id in s.fires && s.fires[id] == Finished(true)
  }

  predicate Canceled(s: State, id: nat) {
    id in s.pool.canceled
  }

  predicate Withdrawn(s: State, id: nat) {
    id in s.calls && s.calls[id] == Returned(false, true) && id !in s.pool.canceled
  }

  predicate Owned(s: State, id: nat) {
    InFlight(s, id) || FreedAfterCall(s, id)
  }

  /** The drain has not copied the list yet. */
  predicate BeforeDrain(s: State) {
    s.shutdown.Alive? || s.shutdown.SettingFlag? || s.shutdown.Locking?
  }

  /** The record's function has been called. */
  predicate HasRun(s: State, id: nat) {
    || FreedAfterCall(s, id)
    || (id in s.fires && s.fires[id].Deleting?)
    || (Canceled(s, id) && !(s.shutdown.Draining? && id in s.shutdown.todo))
  }

  /** Where record `id` can be, given where the call that made it is. */
  ghost predicate Placed(s: State, id: nat) {
    && (id in s.pool.dataList || id in s.pool.canceled || Owned(s, id) ==> Made(s, id))
    && (Owned(s, id) ==> id !in s.pool.dataList && id !in s.pool.canceled)
    && (id in s.accepted ==> id in s.calls && s.calls[id] == Returned(true, true) && id !in s.fires)
    && (id in s.fires ==> id in s.calls && s.calls[id] == Returned(true, true))
    && (id in s.calls && (s.calls[id].Rechecking? || s.calls[id].Removing?) ==>
          id in s.pool.dataList || id in s.pool.canceled)
    && (id in s.calls && (s.calls[id].Posting? || s.calls[id] == Returned(true, true)) ==>
          (BeforeDrain(s) && id in s.pool.dataList) || id in s.pool.canceled || Owned(s, id))
    && (id in s.calls && s.calls[id].Returned? && s.calls[id].result ==> s.calls[id].made)
    && (id in s.calls && s.calls[id] == Returned(false, true) ==> id !in s.pool.dataList || s.shutdown.Draining?)
    && (s.shutdown.ShutDown? || s.shutdown.Destroyed? ==>
          id in s.pool.dataList ==> s.calls[id].Rechecking? || s.calls[id].Removing?)
  }

  /** What has been done to record `id`: it runs once, and it is deleted once at most. */
  ghost predicate Counted(s: State, id: nat) {
    && s.ran[id] == (if HasRun(s, id) then 1 else 0)
    && (id in s.hasFunc <==> Made(s, id) && !HasRun(s, id))
    && s.freed[id] == (if FreedAfterCall(s, id) || (s.shutdown.Destroyed? && Canceled(s, id)) then 1 else 0)
  }

  ghost predicate Phased(s: State) {
    && (s.flag <==> !s.shutdown.Alive? && !s.shutdown.SettingFlag?)
    && (s.funcsCleared <==> !s.shutdown.Alive?)
    && (BeforeDrain(s) ==> s.pool.canceled == {})
    && (s.shutdown.Draining? ==> s.pool.dataList == s.pool.canceled && s.shutdown.todo <= s.pool.dataList)
    && (s.shutdown.ShutDown? || s.shutdown.Destroyed? ==> s.pool.dataList !! s.pool.canceled)
    && (s.shutdown.Destroyed? ==> Unused(s))
  }

  ghost predicate Inv(s: State) {
    Phased(s) && forall id :: Placed(s, id) && Counted(s, id)
  }

  lemma CallStepKeepsOwn(s: State, id: nat, action: CallAction)
    requires Inv(s) && CallStep(s, id, action).Some?
    ensures var t := CallStep(s, id, action).value; Phased(t) && Placed(t, id) && Counted(t, id)
  {
    assert Placed(s, id) && Counted(s, id);
  }

  lemma CallStepKeepsOther(s: State, id: nat, action: CallAction, i: nat)
    requires Inv(s) && CallStep(s, id, action).Some? && i != id
    ensures var t := CallStep(s, id, action).value; Placed(t, i) && Counted(t, i)
  {
    assert Placed(s, i) && Counted(s, i);
  }

  lemma CallStepKeeps(s: State, id: nat, action: CallAction)
    requires Inv(s) && CallStep(s, id, action).Some?
    ensures Inv(CallStep(s, id, action).value)
  {
    var t := CallStep(s, id, action).value;
    CallStepKeepsOwn(s, id, action);
    forall i ensures Placed(t, i) && Counted(t, i) {
      if i != id { CallStepKeepsOther(s, id, action, i); }
    }
  }

  lemma FireStepKeepsOwn(s: State, id: nat, action: FireAction)
    requires Inv(s) && FireStep(s, id, action).Some?
    ensures var t := FireStep(s, id, action).value; Phased(t) && Placed(t, id) && Counted(t, id)
  {
    assert Placed(s, id) && Counted(s, id);
  }

  lemma FireStepKeepsOther(s: State, id: nat, action: FireAction, i: nat)
    requires Inv(s) && FireStep(s, id, action).Some? && i != id
    ensures var t := FireStep(s, id, action).value; Placed(t, i) && Counted(t, i)
  {
    assert Placed(s, i) && Counted(s, i);
  }

  lemma FireStepKeeps(s: State, id: nat, action: FireAction)
    requires Inv(s) && FireStep(s, id, action).Some?
    ensures Inv(FireStep(s, id, action).value)
  {
    var t := FireStep(s, id, action).value;
    FireStepKeepsOwn(s, id, action);
    forall i ensures Placed(t, i) && Counted(t, i) {
      if i != id { FireStepKeepsOther(s, id, action, i); }
    }
  }

  lemma ShutStepKeeps(s: State, action: ShutdownAction)
    requires Inv(s) && ShutStep(s, action).Some?
    ensures Inv(ShutStep(s, action).value)
  {
    var t := ShutStep(s, action).value;
    forall i ensures Placed(t, i) && Counted(t, i) {
      assert Placed(s, i) && Counted(s, i);
    }
  }

  lemma NextKeeps(s: State, step: Step)
    requires Inv(s)
    ensures Inv(Next(s, step))
  {
    if Do(s, step).Some? {
      match step
      case Calls(id, action) => CallStepKeeps(s, id, action);
      case Fires(id, action) => FireStepKeeps(s, id, action);
      case Shuts(action) => ShutStepKeeps(s, action);
    }
  }

  lemma {:induction false} RunKeeps(s: State, steps: seq<Step>)
    requires Inv(s)
    ensures Inv(After(s, steps))
    decreases |steps|
  {
    if steps != [] {
      NextKeeps(s, steps[0]);
      RunKeeps(Next(s, steps[0]), steps[1..]);
    }
  }

  // ---- What holds over whole runs ----

  /** No function is called twice and no record is deleted twice, in any interleaving. */
  lemma AtMostOnce(steps: seq<Step>, id: nat)
    ensures Now(steps).ran[id] <= 1 && Now(steps).freed[id] <= 1
  {
    RunKeeps(INITIAL, steps);
    assert Counted(Now(steps), id);
  }

  /**
   A call that returned true is never forgotten: once the manager's shutdown has finished, its function has been
   called exactly once, or a firing has taken the record out and is about to call it.
   */
  lemma TrueMeansCalled(steps: seq<Step>, id: nat)
    requires Now(steps).shutdown.ShutDown? || Now(steps).shutdown.Destroyed?
    requires id in Now(steps).calls && Now(steps).calls[id].Returned? && Now(steps).calls[id].result
    ensures var s := Now(steps);
            && (s.ran[id] == 1 <==> !(id in s.fires && s.fires[id].Running?))
            && (s.shutdown.Destroyed? ==> s.ran[id] == 1 && s.freed[id] == 1)
  {
    RunKeeps(INITIAL, steps);
    var s := Now(steps);
    assert Placed(s, id) && Counted(s, id);
  }

  /** In how many of the five places the record is. */
  function Places(s: State, id: nat): nat {
    (if Pending(s, id) then 1 else 0) + (if InFlight(s, id) then 1 else 0) + (if FreedAfterCall(s, id) then 1 else 0)
    + (if Canceled(s, id) then 1 else 0) + (if Withdrawn(s, id) then 1 else 0)
  }

  /**
   Every record ever made is in exactly one place: pending, in flight, deleted after its call, cancelled, or
   withdrawn.
   */
  lemma OwnershipPartition(steps: seq<Step>, id: nat)
    ensures Places(Now(steps), id) == if Made(Now(steps), id) then 1 else 0
  {
    RunKeeps(INITIAL, steps);
    var s := Now(steps);
    assert Placed(s, id) && Counted(s, id);
  }

  /** Nobody touches a deleted record: not the scheduling call, not the firing, not the drain. */
  lemma NoUseAfterFree(steps: seq<Step>, id: nat)
    ensures var s := Now(steps);
            && (id in s.calls && !s.calls[id].Returned? ==> s.freed[id] == 0)
            && (id in s.fires && !s.fires[id].Finished? ==> s.freed[id] == 0)
            && (s.shutdown.Draining? && id in s.shutdown.todo ==> s.freed[id] == 0)
            && (id in s.pool.dataList ==> s.freed[id] == 0)
  {
    RunKeeps(INITIAL, steps);
    var s := Now(steps);
    assert Placed(s, id) && Counted(s, id);
  }

  /** A firing that comes after the shutdown finds its record gone and does nothing but end. */
  lemma LateFiringIsHarmless(steps: seq<Step>, id: nat)
    requires var s := Now(steps); s.shutdown.ShutDown? && id in s.fires && s.fires[id].Extracting?
    ensures Do(Now(steps), Fires(id, Extract)) == Some(SetFire(Now(steps), id, Finished(false)))
  {
    RunKeeps(INITIAL, steps);
    var s := Now(steps);
    assert Placed(s, id);
    assert id !in s.pool.dataList;
    assert Erase(s.pool, id) == s.pool;
  }

  // ---- What false means ----

  /** The function of a call that returned false has been called if the drain found its record. */
  lemma FalseCalledIffCanceled(steps: seq<Step>, id: nat)
    requires Now(steps).shutdown.ShutDown? || Now(steps).shutdown.Destroyed?
    requires id in Now(steps).calls && Now(steps).calls[id].Returned? && !Now(steps).calls[id].result
    ensures var s := Now(steps);
            && s.ran[id] == (if id in s.pool.canceled then 1 else 0)
            && (s.freed[id] > 0 ==> id in s.pool.canceled)
  {
    RunKeeps(INITIAL, steps);
    var s := Now(steps);
    assert Placed(s, id) && Counted(s, id);
  }

  lemma {:induction false} AfterSplits(s: State, steps: seq<Step>, n: nat)
    requires n <= |steps|
    ensures After(s, steps) == After(After(s, steps[..n]), steps[n..])
    decreases n
  {
    if n > 0 {
      AfterSplits(Next(s, steps[0]), steps[1..], n - 1);
      assert steps[..n][1..] == steps[1..][..n - 1] && steps[n..] == steps[1..][n - 1..];
    } else {
      assert steps[..0] == [] && steps[0..] == steps;
    }
  }

  /**
   A record is made by Make, a call that has returned stays as it is, and a call with a record returns false by
   Withdraw.
   */
  ghost predicate MakesStepwise(s: State, t: State, taken: bool, step: Step, id: nat) {
    && (Made(s, id) ==> Made(t, id))
    && (Made(t, id) && !Made(s, id) ==> taken && step == Calls(id, Make))
    && (id in s.calls && s.calls[id].Returned? ==> id in t.calls && t.calls[id] == s.calls[id])
    && (id in t.calls && t.calls[id] == Returned(false, true) && !(id in s.calls && s.calls[id].Returned?)
        ==> taken && step == Calls(id, Withdraw))
  }

  lemma StepMakes(s: State, step: Step, id: nat)
    ensures MakesStepwise(s, Next(s, step), Do(s, step).Some?, step, id)
  {
    match step
    case Calls(caller, action) => CallStepMakes(s, caller, action, id);
    case Fires(_, _) =>
    case Shuts(_) =>
  }

  lemma CallStepMakes(s: State, caller: nat, action: CallAction, id: nat)
    ensures var t := CallStep(s, caller, action);
            MakesStepwise(s, if t.Some? then t.value else s, t.Some?, Calls(caller, action), id)
  {
  }

  lemma StepCancels(s: State, step: Step, id: nat)
    ensures var t := Next(s, step);
            && (id in s.pool.canceled ==> id in t.pool.canceled)
            && (id in t.pool.canceled && id !in s.pool.canceled ==>
                  Do(s, step).Some? && step == Shuts(LockAndCancel) && id in s.pool.dataList)
  {
    match step
    case Calls(_, _) =>
    case Fires(_, _) =>
    case Shuts(_) =>
  }

  lemma {:induction false} RunMakes(s: State, steps: seq<Step>, id: nat)
    ensures var t := After(s, steps);
            && (Made(s, id) ==> Made(t, id))
            && (id in s.pool.canceled ==> id in t.pool.canceled)
            && (id in s.calls && s.calls[id].Returned? ==> id in t.calls && t.calls[id] == s.calls[id])
    decreases |steps|
  {
    if steps != [] {
      StepMakes(s, steps[0], id);
      StepCancels(s, steps[0], id);
      RunMakes(Next(s, steps[0]), steps[1..], id);
    }
  }

  lemma TakesLater(s: State, steps: seq<Step>, i: nat, step: Step)
    requires steps != []
    ensures Takes(Next(s, steps[0]), steps[1..], i, step) ==> Takes(s, steps, i + 1, step)
    ensures After(s, steps[..0]) == s && (i <= |steps[1..]| ==>
              After(s, steps[..i + 1]) == After(Next(s, steps[0]), steps[1..][..i]))
  {
    if i <= |steps[1..]| { assert steps[..i + 1][1..] == steps[1..][..i]; }
  }

  /** A record comes from the Make of its call. */
  lemma {:induction false} FindMake(s: State, steps: seq<Step>, id: nat) returns (i: nat)
    requires !Made(s, id) && Made(After(s, steps), id)
    ensures Takes(s, steps, i, Calls(id, Make))
    decreases |steps|
  {
    var t := Next(s, steps[0]);
    StepMakes(s, steps[0], id);
    if Made(t, id) {
      i := 0;
    } else {
      i := FindMake(t, steps[1..], id);
      TakesLater(s, steps, i, Calls(id, Make));
      i := i + 1;
    }
  }

  /** A call that has made its record returns false through its Withdraw. */
  lemma {:induction false} FindWithdraw(s: State, steps: seq<Step>, id: nat) returns (k: nat)
    requires !(id in s.calls && s.calls[id].Returned?)
    requires id in After(s, steps).calls && After(s, steps).calls[id] == Returned(false, true)
    ensures Takes(s, steps, k, Calls(id, Withdraw))
    decreases |steps|
  {
    var t := Next(s, steps[0]);
    StepMakes(s, steps[0], id);
    if id in t.calls && t.calls[id].Returned? {
      RunMakes(t, steps[1..], id);
      k := 0;
    } else {
      k := FindWithdraw(t, steps[1..], id);
      TakesLater(s, steps, k, Calls(id, Withdraw));
      k := k + 1;
    }
  }

  /** A record is cancelled by the one step that locks and copies the list. */
  lemma {:induction false} FindCancel(s: State, steps: seq<Step>, id: nat) returns (j: nat)
    requires id !in s.pool.canceled && id in After(s, steps).pool.canceled
    ensures Takes(s, steps, j, Shuts(LockAndCancel)) && id in After(s, steps[..j]).pool.dataList
    decreases |steps|
  {
    var t := Next(s, steps[0]);
    StepCancels(s, steps[0], id);
    if id in t.pool.canceled {
      j := 0;
    } else {
      j := FindCancel(t, steps[1..], id);
      TakesLater(s, steps, j, Shuts(LockAndCancel));
      j := j + 1;
    }
  }

  /**
   The host copied the list while the record of the call was in it: after the call had made it, before it withdrew
   it.
   */
  ghost predicate CopiedBetween(steps: seq<Step>, id: nat, i: nat, j: nat, k: nat) {
    && i < j < k
    && Takes(INITIAL, steps, i, Calls(id, Make))
    && Takes(INITIAL, steps, j, Shuts(LockAndCancel))
    && Takes(INITIAL, steps, k, Calls(id, Withdraw))
  }

  /** What a step that is taken has done stays done. */
  lemma AfterTaking(steps: seq<Step>, i: nat, step: Step, n: nat, id: nat) returns (before: State, after: State)
    requires Takes(INITIAL, steps, i, step) && i < n <= |steps|
    ensures before == Now(steps[..i]) && Do(before, step) == Some(after) && Inv(before)
    ensures Made(after, id) ==> Made(Now(steps[..n]), id)
    ensures id in after.pool.canceled ==> id in Now(steps[..n]).pool.canceled
    ensures id in after.calls && after.calls[id].Returned? ==>
      id in Now(steps[..n]).calls && Now(steps[..n]).calls[id] == after.calls[id]
  {
    before := Now(steps[..i]);
    after := Next(before, step);
    AfterSplits(INITIAL, steps[..n], i);
    assert steps[..n][..i] == steps[..i] && steps[..n][i..][0] == step;
    RunMakes(after, steps[..n][i..][1..], id);
    RunKeeps(INITIAL, steps[..i]);
  }

  lemma CopiedIsCanceled(steps: seq<Step>, id: nat, i: nat, j: nat, k: nat)
    requires CopiedBetween(steps, id, i, j, k)
    ensures id in Now(steps).pool.canceled
  {
    var s0, s1 := AfterTaking(steps, i, Calls(id, Make), j, id);
    var u, v := AfterTaking(steps, j, Shuts(LockAndCancel), |steps|, id);
    NotYetReturned(steps, id, j, k);
    assert Placed(u, id);
    assert steps[..|steps|] == steps;
  }

  lemma NotYetReturned(steps: seq<Step>, id: nat, j: nat, k: nat)
    requires j < k && Takes(INITIAL, steps, k, Calls(id, Withdraw))
    ensures var u := Now(steps[..j]); !(id in u.calls && u.calls[id].Returned?)
  {
    AfterSplits(INITIAL, steps[..k], j);
    assert steps[..k][..j] == steps[..j];
    RunMakes(Now(steps[..j]), steps[..k][j..], id);
  }

  lemma CanceledWasCopied(steps: seq<Step>, id: nat) returns (i: nat, j: nat, k: nat)
    requires id in Now(steps).pool.canceled
    requires id in Now(steps).calls && Now(steps).calls[id] == Returned(false, true)
    ensures CopiedBetween(steps, id, i, j, k)
  {
    j := FindCancel(INITIAL, steps, id);
    var u := Now(steps[..j]);
    RunKeeps(INITIAL, steps[..j]);
    assert Placed(u, id);
    i := FindMake(INITIAL, steps[..j], id);
    assert steps[..j][..i] == steps[..i];
    k := WithdrawAfter(steps, j, id);
  }

  lemma WithdrawAfter(steps: seq<Step>, j: nat, id: nat) returns (k: nat)
    requires Takes(INITIAL, steps, j, Shuts(LockAndCancel)) && id in Now(steps[..j]).pool.dataList
    requires id in Now(steps).calls && Now(steps).calls[id] == Returned(false, true)
    ensures k > j && Takes(INITIAL, steps, k, Calls(id, Withdraw))
  {
    var u := Now(steps[..j]);
    RunKeeps(INITIAL, steps[..j]);
    assert Placed(u, id);
    AfterSplits(INITIAL, steps, j);
    RunMakes(u, steps[j..], id);
    var n := FindWithdraw(u, steps[j..], id);
    AfterSplits(INITIAL, steps[..j + n], j);
    assert steps[..j + n][..j] == steps[..j] && steps[..j + n][j..] == steps[j..][..n];
    k := j + n;
  }

  /**
   The other answer says less: after the shutdown, the function of a call that returned false has been called if and
   only if the host copied the list after the call had made its record and before it withdrew it.
   */
  lemma FalseCalledIff(steps: seq<Step>, id: nat)
    requires Now(steps).shutdown.ShutDown? || Now(steps).shutdown.Destroyed?
    requires id in Now(steps).calls && Now(steps).calls[id].Returned? && !Now(steps).calls[id].result
    ensures Now(steps).ran[id] == 1 <==> exists i, j, k :: CopiedBetween(steps, id, i, j, k)
  {
    FalseCalledIffCanceled(steps, id);
    var s := Now(steps);
    RunKeeps(INITIAL, steps);
    assert Placed(s, id);
    if id in s.pool.canceled {
      var i, j, k := CanceledWasCopied(steps, id);
    }
    forall i, j, k | CopiedBetween(steps, id, i, j, k) ensures id in s.pool.canceled {
      CopiedIsCanceled(steps, id, i, j, k);
    }
  }

  /**
   A caller who sees the flag set before the call can rely on false: the call makes no record, and nothing ever runs.
   */
  lemma FlagSetMeansNeverCalled(steps: seq<Step>, id: nat, i: nat)
    requires Takes(INITIAL, steps, i, Calls(id, CheckFlag)) && Now(steps[..i]).flag
    ensures id in Now(steps).calls && Now(steps).calls[id] == Returned(false, false) && Now(steps).ran[id] == 0
  {
    var s, t := AfterTaking(steps, i, Calls(id, CheckFlag), |steps|, id);
    assert steps[..|steps|] == steps;
    RunKeeps(INITIAL, steps);
    assert Placed(Now(steps), id) && Counted(Now(steps), id);
  }

  /** A run given by the states it goes through. */
  ghost predicate Path(states: seq<State>, steps: seq<Step>) {
    && |states| == |steps| + 1
    && forall i, j :: 0 <= i < |steps| && j == i + 1 ==> Do(states[i], steps[i]) == Some(states[j])
  }

  lemma {:induction false} PathRuns(states: seq<State>, steps: seq<Step>)
    requires Path(states, steps)
    ensures After(states[0], steps) == states[|steps|]
    decreases |steps|
  {
    if steps != [] { PathRuns(states[1..], steps[1..]); }
  }

  lemma AfterConcat(s: State, first: seq<Step>, second: seq<Step>)
    ensures After(s, first + second) == After(After(s, first), second)
  {
    AfterSplits(s, first + second, |first|);
    assert (first + second)[..|first|] == first && (first + second)[|first|..] == second;
  }

  /** A call has made its record but not yet looked at the flag again; the host is about to drain the list. */
  const RACE := INITIAL.(calls := map[0 := Rechecking], pool := Pool({0}, {}), hasFunc := {0},
                         funcsCleared := true, flag := true, shutdown := Locking)

  const RACE_STEPS := [Calls(0, Begin), Calls(0, CheckFlag), Calls(0, Make), Shuts(ClearFuncs), Shuts(SetFlag)]

  lemma RaceIsReachable()
    ensures After(INITIAL, RACE_STEPS) == RACE
  {
    var s1 := SetCall(INITIAL, 0, CheckingFlag);
    var s2 := SetCall(s1, 0, Making);
    var s3 := SetCall(s2, 0, Rechecking).(pool := Insert(s2.pool, 0), hasFunc := {0});
    var s4 := s3.(funcsCleared := true, shutdown := SettingFlag);
    assert s3.calls == RACE.calls;
    assert INITIAL.hasFunc + {0} == {0} && INITIAL.pool.dataList + {0} == {0};
    assert Do(INITIAL, RACE_STEPS[0]) == Some(s1) && Do(s1, RACE_STEPS[1]) == Some(s2);
    assert Do(s2, RACE_STEPS[2]) == Some(s3) && Do(s3, RACE_STEPS[3]) == Some(s4);
    assert Do(s4, RACE_STEPS[4]) == Some(RACE);
    PathRuns([INITIAL, s1, s2, s3, s4, RACE], RACE_STEPS);
  }

  /** A run in which `ScheduleAsyncCall` returns false although the function has been called. */
  lemma FalseYetCalled() returns (steps: seq<Step>, s: State)
    ensures After(INITIAL, steps) == s
    ensures s.shutdown.ShutDown? && 0 in s.calls && s.calls[0] == Returned(false, true) && s.ran[0] == 1
  {
    var s1 := RACE.(pool := Cancel(RACE.pool), shutdown := Draining({0}));
    var s2 := RunRecord(s1, 0).(shutdown := Draining({}));
    var s3 := s2.(pool := Drained(s2.pool), shutdown := ShutDown);
    var s4 := SetCall(s3, 0, Removing);
    s := SetCall(s4, 0, Returned(false, true)).(pool := Erase(s4.pool, 0));
    var rest := [Shuts(LockAndCancel), Shuts(RunOne(0)), Shuts(ClearAndUnlock), Calls(0, Recheck), Calls(0, Withdraw)];
    assert {0} - {0} == {};
    assert Do(RACE, rest[0]) == Some(s1) && Do(s1, rest[1]) == Some(s2) && Do(s2, rest[2]) == Some(s3);
    assert Do(s3, rest[3]) == Some(s4) && Do(s4, rest[4]) == Some(s);
    PathRuns([RACE, s1, s2, s3, s4, s], rest);
    RaceIsReachable();
    AfterConcat(INITIAL, RACE_STEPS, rest);
    steps := RACE_STEPS + rest;
  }
}
