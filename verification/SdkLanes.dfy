/** shioaji-proxy/main.py: the two single-permit lanes in front of the broker SDK
    (`run_broker_query`, `run_streaming_control`).

    Any number of callers may be anywhere in these functions at once. Each action below is one
    indivisible operation of one call: a semaphore or lock operation, a flag write, the
    executor picking up the closure, the caller's wait timing out. A run is any list of actions
    in any order; an action that is not enabled does nothing. */
module SdkLanes {
  import opened Common

  type CallId = nat

  datatype Lane = Broker | Streaming

  datatype Stage =
    | Checked        // found the process not poisoned
    | Rejected       // poisoned, or the lane was busy
    | Claimed        // holds the permit
    | Flagged        // streaming: in-flight flag set
    | Queued         // closure submitted, not started
    | WaitingLock    // worker waits for the session lock
    | Running        // inside the SDK closure, session lock held
    | Returned       // closure left, future resolved, done callback not run yet
    | Clearing       // streaming: flag cleared, permit not released yet
    | Released       // permit given back

  datatype Call = Call(lane: Lane, stage: Stage)

  /** One semaphore, with counts of how often it was taken and given back. */
  datatype Permit = Permit(free: nat, acquired: nat, released: nat)

  datatype State = State(broker: Permit, streaming: Permit, lock: Option<CallId>, inflight: bool, poisoned: bool,
                         calls: map<CallId, Call>)

  const INITIAL := State(Permit(1, 0, 0), Permit(1, 0, 0), None, false, false, map[])

  datatype Action =
    | Check(c: CallId, lane: Lane)
    | Acquire(c: CallId)
    | SetFlag(c: CallId)
    | Submit(c: CallId)
    | Start(c: CallId)
    | TakeLock(c: CallId)
    | LockTimedOut(c: CallId)
    | Leave(c: CallId)
    | ClearFlag(c: CallId)
    | RunCallback(c: CallId)
    | CallerTimedOut(c: CallId)
    | PoisonNow

  function PermitOf(s: State, lane: Lane): Permit {
    if lane == Broker then s.broker else s.streaming
  }

  function WithPermit(s: State, lane: Lane, p: Permit): State {
    if lane == Broker then s.(broker := p) else s.(streaming := p)
  }

  function Take(p: Permit): Permit
    requires p.free > 0
  {
    Permit(p.free - 1, p.acquired + 1, p.released)
  }

  function Give(p: Permit): Permit {
    Permit(p.free + 1, p.acquired, p.released + 1)
  }

  predicate IsAt(s: State, c: CallId, stage: Stage) {
    c in s.calls && s.calls[c].stage == stage
  }

  predicate IsAtIn(s: State, c: CallId, stage: Stage, lane: Lane) {
    c in s.calls && s.calls[c] == Call(lane, stage)
  }

  function Move(s: State, c: CallId, stage: Stage): State
    requires c in s.calls
  {
    s.(calls := s.calls[c := s.calls[c].(stage := stage)])
  }

  /** Semaphore release, always by the done callback of one future. */
  function Release(s: State, c: CallId): State
    requires c in s.calls
  {
    WithPermit(Move(s, c, Released), s.calls[c].lane, Give(PermitOf(s, s.calls[c].lane)))
  }

  function Step(s: State, a: Action): State {
    match a
    case Check(c, lane) =>
      if c in s.calls then s
      else s.(calls := s.calls[c := Call(lane, if s.poisoned then Rejected else Checked)])
    case Acquire(c) =>
      if !IsAt(s, c, Checked) then s
      else
        var lane := s.calls[c].lane;
        if PermitOf(s, lane).free == 0 then Move(s, c, Rejected)
        else WithPermit(Move(s, c, Claimed), lane, Take(PermitOf(s, lane)))
    case SetFlag(c) => if IsAtIn(s, c, Claimed, Streaming) then Move(s, c, Flagged).(inflight := true) else s
    case Submit(c) =>
      if IsAtIn(s, c, Claimed, Broker) || IsAtIn(s, c, Flagged, Streaming) then Move(s, c, Queued) else s
    case Start(c) => if IsAt(s, c, Queued) then Move(s, c, WaitingLock) else s
    case TakeLock(c) =>
      if IsAt(s, c, WaitingLock) && s.lock.None? then Move(s, c, Running).(lock := Some(c)) else s
    case LockTimedOut(c) => if IsAt(s, c, WaitingLock) then Move(s, c, Returned) else s
    case Leave(c) => if IsAt(s, c, Running) then Move(s, c, Returned).(lock := None) else s
    case ClearFlag(c) => if IsAtIn(s, c, Returned, Streaming) then Move(s, c, Clearing).(inflight := false) else s
    case RunCallback(c) =>
      if IsAtIn(s, c, Returned, Broker) || IsAtIn(s, c, Clearing, Streaming) then Release(s, c) else s
    case CallerTimedOut(c) =>
      // A broker timeout cancels the future, which runs the done callback only if the closure
      // never started, and poisons the process. A streaming timeout changes nothing here.
      if c in s.calls && s.calls[c].lane == Broker && Submitted(s.calls[c].stage)
      then (if IsAt(s, c, Queued) then Release(s, c) else s).(poisoned := true)
      else s
    case PoisonNow => s.(poisoned := true)
  }

  /** The caller has a future to wait for in these stages. */
  predicate Submitted(stage: Stage) {
    stage.Queued? || stage.WaitingLock? || stage.Running? || stage.Returned? || stage.Clearing? || stage.Released?
  }

  function Run(actions: seq<Action>): State {
    if actions == [] then INITIAL else Step(Run(actions[..|actions| - 1]), actions[|actions| - 1])
  }

  // ---------- what a step can do ----------

  /** Stages in which a call owns the permit of its lane. */
  predicate Outstanding(stage: Stage) {
    || stage.Claimed? || stage.Flagged? || stage.Queued? || stage.WaitingLock? || stage.Running? || stage.Returned?
    || stage.Clearing?
  }

  /** Stages in which a streaming call keeps the in-flight flag up. */
  predicate Flies(stage: Stage) {
    stage.Flagged? || stage.Queued? || stage.WaitingLock? || stage.Running? || stage.Returned?
  }

  predicate Owns(s: State, lane: Lane, c: CallId) {
    c in s.calls && s.calls[c].lane == lane && Outstanding(s.calls[c].stage)
  }

  predicate KeepsFlag(s: State, c: CallId) {
    c in s.calls && s.calls[c].lane == Streaming && Flies(s.calls[c].stage)
  }

  function OtherLane(lane: Lane): Lane {
    if lane == Broker then Streaming else Broker
  }

  /** Flagging and clearing are for streaming calls only. */
  predicate LaneStages(call: Call) {
    (call.stage.Flagged? || call.stage.Clearing?) ==> call.lane == Streaming
  }

  /** From s to t only call c changed, to `call`, with the effects its stages stand for. */
  ghost predicate Moved(s: State, t: State, c: CallId, call: Call) {
    && t.calls == s.calls[c := call]
    && (c in s.calls ==> s.calls[c].lane == call.lane)
    && LaneStages(call)
    && PermitOf(t, OtherLane(call.lane)) == PermitOf(s, OtherLane(call.lane))
    && PermitOf(t, call.lane) == PermitAfter(PermitOf(s, call.lane), Owns(s, call.lane, c), Outstanding(call.stage))
    && (Owns(s, call.lane, c) || !Outstanding(call.stage) || PermitOf(s, call.lane).free > 0)
    && (if call.stage.Running? then s.lock.None? && t.lock == Some(c)
        else if IsAt(s, c, Running) then t.lock.None?
        else t.lock == s.lock)
    && (call.lane == Streaming ==>
          && (!KeepsFlag(s, c) && Flies(call.stage) ==> call.stage.Flagged?)
          && (KeepsFlag(s, c) && !Flies(call.stage) ==> call.stage.Clearing?))
    && (call.stage.Flagged? ==> t.inflight)
    && (call.stage.Clearing? ==> KeepsFlag(s, c) && !t.inflight)
    && (!call.stage.Flagged? && !call.stage.Clearing? ==> t.inflight == s.inflight)
  }

  function PermitAfter(p: Permit, owned: bool, owns: bool): Permit {
    if owned == owns then p
    else if owned then Give(p)
    else Permit(if p.free > 0 then p.free - 1 else 0, p.acquired + 1, p.released)
  }

  ghost predicate Unmoved(s: State, t: State) {
    t == s.(poisoned := t.poisoned)
  }

  /** The condition under which an action does something to its call. */
  predicate Enabled(s: State, a: Action) {
    match a
    case Check(c, _) => c !in s.calls
    case Acquire(c) => IsAt(s, c, Checked)
    case SetFlag(c) => IsAtIn(s, c, Claimed, Streaming)
    case Submit(c) => IsAtIn(s, c, Claimed, Broker) || IsAtIn(s, c, Flagged, Streaming)
    case Start(c) => IsAt(s, c, Queued)
    case TakeLock(c) => IsAt(s, c, WaitingLock) && s.lock.None?
    case LockTimedOut(c) => IsAt(s, c, WaitingLock)
    case Leave(c) => IsAt(s, c, Running)
    case ClearFlag(c) => IsAtIn(s, c, Returned, Streaming)
    case RunCallback(c) => IsAtIn(s, c, Returned, Broker) || IsAtIn(s, c, Clearing, Streaming)
    case CallerTimedOut(c) => IsAtIn(s, c, Queued, Broker)
    case PoisonNow => false
  }

  lemma StepShape(s: State, a: Action) returns (moved: bool, c: CallId)
    requires forall d :: d in s.calls ==> LaneStages(s.calls[d])
    ensures moved == Enabled(s, a) && (moved ==> c == a.c)
    ensures !moved ==> Unmoved(s, Step(s, a))
    ensures moved ==> c in Step(s, a).calls && Moved(s, Step(s, a), c, Step(s, a).calls[c])
  {
    moved := Enabled(s, a);
    c := if a.PoisonNow? then 0 else a.c;
    if moved {
      if a.Check? || a.Acquire? || a.SetFlag? {
        EntryShape(s, a);
      } else if a.Submit? || a.Start? || a.TakeLock? || a.LockTimedOut? || a.Leave? {
        WorkShape(s, a);
      } else {
        ExitShape(s, a);
      }
    }
  }

  lemma EntryShape(s: State, a: Action)
    requires Enabled(s, a) && (a.Check? || a.Acquire? || a.SetFlag?)
    ensures a.c in Step(s, a).calls && Moved(s, Step(s, a), a.c, Step(s, a).calls[a.c])
  {
  }

  lemma WorkShape(s: State, a: Action)
    requires Enabled(s, a) && (a.Submit? || a.Start? || a.TakeLock? || a.LockTimedOut? || a.Leave?)
    ensures a.c in Step(s, a).calls && Moved(s, Step(s, a), a.c, Step(s, a).calls[a.c])
  {
  }

  lemma ExitShape(s: State, a: Action)
    requires Enabled(s, a) && (a.ClearFlag? || a.RunCallback? || a.CallerTimedOut?)
    ensures a.c in Step(s, a).calls && Moved(s, Step(s, a), a.c, Step(s, a).calls[a.c])
  {
  }

  // ---------- the invariant ----------

  /** `holder` is the one call that owns the lane's permit, if any does. */
  ghost predicate HeldBy(s: State, lane: Lane, holder: Option<CallId>) {
    && PermitOf(s, lane).free == (if holder.None? then 1 else 0)
    && PermitOf(s, lane).acquired == PermitOf(s, lane).released + (if holder.None? then 0 else 1)
    && (holder.Some? ==> Owns(s, lane, holder.value))
    && forall c: CallId :: Owns(s, lane, c) ==> holder == Some(c)
  }

  ghost predicate LockHeld(s: State) {
    && (forall c: CallId :: IsAt(s, c, Running) ==> s.lock == Some(c))
    && (s.lock.Some? ==> IsAt(s, s.lock.value, Running))
  }

  ghost predicate FlagUp(s: State) {
    s.inflight <==> exists c: CallId :: KeepsFlag(s, c)
  }

  ghost predicate Invariant(s: State) {
    && (exists h :: HeldBy(s, Broker, h))
    && (exists h :: HeldBy(s, Streaming, h))
    && LockHeld(s) && FlagUp(s)
    && forall c :: c in s.calls ==> LaneStages(s.calls[c])
  }

  lemma KeepsLane(s: State, t: State, c: CallId, call: Call, lane: Lane, h: Option<CallId>) returns (h': Option<CallId>)
    requires HeldBy(s, lane, h) && Moved(s, t, c, call)
    ensures HeldBy(t, lane, h')
  {
    h' := if call.lane == lane && Outstanding(call.stage) then Some(c) else if h == Some(c) then None else h;
    forall d: CallId | Owns(t, lane, d) ensures h' == Some(d) {
      if d != c { assert Owns(s, lane, d); }
    }
  }

  lemma KeepsLock(s: State, t: State, c: CallId, call: Call)
    requires LockHeld(s) && Moved(s, t, c, call)
    ensures LockHeld(t)
  {
  }

  lemma KeepsFlagUp(s: State, t: State, c: CallId, call: Call, h: Option<CallId>)
    requires FlagUp(s) && HeldBy(s, Streaming, h) && Moved(s, t, c, call)
    ensures FlagUp(t)
  {
    forall d: CallId | KeepsFlag(s, d) ensures h == Some(d) {
      assert Owns(s, Streaming, d);
    }
    forall d: CallId | d != c ensures KeepsFlag(t, d) == KeepsFlag(s, d) {}
    if t.inflight && !KeepsFlag(t, c) {
      var d: CallId :| KeepsFlag(s, d);
      assert KeepsFlag(t, d);
    }
  }

  lemma UnmovedKeeps(s: State, t: State)
    requires Invariant(s) && Unmoved(s, t)
    ensures Invariant(t)
  {
    var hb :| HeldBy(s, Broker, hb);
    var hs :| HeldBy(s, Streaming, hs);
    forall c: CallId, lane ensures Owns(t, lane, c) == Owns(s, lane, c) {}
    assert HeldBy(t, Broker, hb) && HeldBy(t, Streaming, hs);
    forall c: CallId ensures KeepsFlag(t, c) == KeepsFlag(s, c) {}
  }

  lemma StepKeeps(s: State, a: Action)
    requires Invariant(s)
    ensures Invariant(Step(s, a))
  {
    var t := Step(s, a);
    var moved, c := StepShape(s, a);
    if moved {
      var hb :| HeldBy(s, Broker, hb);
      var hs :| HeldBy(s, Streaming, hs);
      var call := t.calls[c];
      var hb' := KeepsLane(s, t, c, call, Broker, hb);
      var hs' := KeepsLane(s, t, c, call, Streaming, hs);
      KeepsLock(s, t, c, call);
      KeepsFlagUp(s, t, c, call, hs);
    } else {
      UnmovedKeeps(s, t);
    }
  }

  lemma {:induction false} RunInvariant(actions: seq<Action>)
    ensures Invariant(Run(actions))
  {
    if actions == [] {
      assert HeldBy(INITIAL, Broker, None) && HeldBy(INITIAL, Streaming, None);
    } else {
      RunInvariant(actions[..|actions| - 1]);
      StepKeeps(Run(actions[..|actions| - 1]), actions[|actions| - 1]);
    }
  }

  // ---------- the promises ----------

  function OwnersOf(s: State, lane: Lane): set<CallId> {
    set c | c in s.calls && Owns(s, lane, c)
  }

  /** In every reachable state, permits and outstanding calls of a lane add up to one; every
      acquire is matched by one release except that of the outstanding call; the in-flight flag
      implies that the streaming permit is taken. */
  lemma PermitsBalance(actions: seq<Action>, lane: Lane)
    ensures var s := Run(actions);
            && PermitOf(s, lane).free + |OwnersOf(s, lane)| == 1
            && PermitOf(s, lane).acquired == PermitOf(s, lane).released + |OwnersOf(s, lane)|
            && (s.inflight ==> s.streaming.free == 0)
  {
    RunInvariant(actions);
    var s := Run(actions);
    var h :| HeldBy(s, lane, h);
    assert OwnersOf(s, lane) == if h.None? then {} else {h.value};
    if s.inflight {
      var hs :| HeldBy(s, Streaming, hs);
      var c: CallId :| KeepsFlag(s, c);
      assert Owns(s, Streaming, c);
    }
  }

  /** At most one SDK closure runs at any time, over both lanes, and it holds its permit. */
  lemma OneClosureAtATime(actions: seq<Action>, c: CallId, d: CallId)
    requires IsAt(Run(actions), c, Running) && IsAt(Run(actions), d, Running)
    ensures c == d
    ensures PermitOf(Run(actions), Run(actions).calls[c].lane).free == 0
  {
    RunInvariant(actions);
    var s := Run(actions);
    var h :| HeldBy(s, s.calls[c].lane, h);
    assert Owns(s, s.calls[c].lane, c);
  }

  /** The closure has been picked up and its done callback has not finished. */
  predicate PickedUp(s: State, c: CallId) {
    c in s.calls && (s.calls[c].stage.WaitingLock? || s.calls[c].stage.Running? || s.calls[c].stage.Returned?
                     || s.calls[c].stage.Clearing?)
  }

  /** A timeout never frees the lane while its call still runs: once a closure has been picked
      up, only the done callback of that call gives the permit back; after any other action
      the permit is still taken and the call still owns it. */
  lemma OnlyTheCallbackFrees(actions: seq<Action>, a: Action, c: CallId)
    requires PickedUp(Run(actions), c)
    ensures var s, t := Run(actions), Run(actions + [a]);
            var lane := s.calls[c].lane;
            && c in t.calls && t.calls[c].lane == lane
            && PermitOf(s, lane).free == 0
            && (PermitOf(t, lane).free != 0 ==> a == RunCallback(c) && t.calls[c].stage == Released)
            && (a != RunCallback(c) ==> PickedUp(t, c))
  {
    Snoc(actions, a);
    RunInvariant(actions);
    RunInvariant(actions + [a]);
    var s, t := Run(actions), Run(actions + [a]);
    var lane := s.calls[c].lane;
    var h :| HeldBy(s, lane, h);
    var h' :| HeldBy(t, lane, h');
    assert Owns(s, lane, c);
    var moved, d := StepShape(s, a);
    PickedUpStep(s, a, c);
  }

  lemma PickedUpStep(s: State, a: Action, c: CallId)
    requires PickedUp(s, c)
    ensures PickedUp(Step(s, a), c) || (a == RunCallback(c) && IsAt(Step(s, a), c, Released))
    ensures c in Step(s, a).calls && Step(s, a).calls[c].lane == s.calls[c].lane
  {
  }

  lemma ReleasedStep(s: State, a: Action, c: CallId)
    requires IsAt(s, c, Released)
    ensures IsAt(Step(s, a), c, Released)
  {
  }

  /** A released call stays released: its closure, run or cancelled, never runs again, and its
      permit is not given back twice. */
  lemma {:induction false} ReleasedIsFinal(actions: seq<Action>, n: nat, c: CallId)
    requires n <= |actions| && IsAt(Run(actions[..n]), c, Released)
    ensures IsAt(Run(actions), c, Released)
  {
    if n < |actions| {
      var before, a := actions[..|actions| - 1], actions[|actions| - 1];
      assert before[..n] == actions[..n];
      ReleasedIsFinal(before, n, c);
      ReleasedStep(Run(before), a, c);
    } else {
      assert actions[..n] == actions;
    }
  }

  // ---------- each permit comes back, once ----------

  /** The action gives the permit of call c back. */
  predicate Returns(s: State, a: Action, c: CallId) {
    && !a.PoisonNow? && a.c == c && c in s.calls
    && PermitOf(Step(s, a), s.calls[c].lane).released == PermitOf(s, s.calls[c].lane).released + 1
  }

  /** How often the permit of call c was given back in a run. */
  function TimesReturned(actions: seq<Action>, c: CallId): nat {
    if actions == [] then 0
    else
      var before, a := actions[..|actions| - 1], actions[|actions| - 1];
      TimesReturned(before, c) + (if Returns(Run(before), a, c) then 1 else 0)
  }

  /** Exactly the done callback, or the cancellation of a closure that never started. */
  predicate GivesBack(s: State, a: Action, c: CallId) {
    || (a == RunCallback(c) && (IsAtIn(s, c, Returned, Broker) || IsAtIn(s, c, Clearing, Streaming)))
    || (a == CallerTimedOut(c) && IsAtIn(s, c, Queued, Broker))
  }

  lemma ReturnsExactly(s: State, a: Action, c: CallId)
    ensures Returns(s, a, c) <==> GivesBack(s, a, c)
  {
  }

  lemma GivenBack(s: State, a: Action, c: CallId)
    requires GivesBack(s, a, c)
    ensures !IsAt(s, c, Released) && IsAt(Step(s, a), c, Released)
  {
  }

  lemma NotGivenBack(s: State, a: Action, c: CallId)
    requires !GivesBack(s, a, c) && !IsAt(s, c, Released)
    ensures !IsAt(Step(s, a), c, Released)
  {
  }

  lemma ReturnsStep(s: State, a: Action, c: CallId)
    ensures IsAt(Step(s, a), c, Released) <==> IsAt(s, c, Released) || Returns(s, a, c)
    ensures Returns(s, a, c) ==> !IsAt(s, c, Released)
  {
    ReturnsExactly(s, a, c);
    if IsAt(s, c, Released) {
      ReleasedStep(s, a, c);
    } else if GivesBack(s, a, c) {
      GivenBack(s, a, c);
    } else {
      NotGivenBack(s, a, c);
    }
  }

  /** Over every run the permit of a call is given back once if the call is released, and not at
      all before. */
  lemma {:induction false} ReturnedExactlyOnce(actions: seq<Action>, c: CallId)
    ensures TimesReturned(actions, c) == (if IsAt(Run(actions), c, Released) then 1 else 0)
  {
    if actions == [] {
    } else {
      var before, a := actions[..|actions| - 1], actions[|actions| - 1];
      ReturnedExactlyOnce(before, c);
      ReturnsStep(Run(before), a, c);
    }
  }

  /** The next operation of a call that holds a permit, without the help of any other call: the
      wait for the session lock may always time out. */
  function Next(c: CallId, call: Call): Action
    requires Outstanding(call.stage)
  {
    match call.stage
    case Claimed => if call.lane == Streaming then SetFlag(c) else Submit(c)
    case Flagged => Submit(c)
    case Queued => Start(c)
    case WaitingLock => LockTimedOut(c)
    case Running => Leave(c)
    case Returned => if call.lane == Streaming then ClearFlag(c) else RunCallback(c)
    case Clearing => RunCallback(c)
  }

  function StepsLeft(stage: Stage): nat
    requires Outstanding(stage)
  {
    match stage
    case Claimed => 7
    case Flagged => 6
    case Queued => 5
    case WaitingLock => 4
    case Running => 3
    case Returned => 2
    case Clearing => 1
  }

  lemma NextAdvances(s: State, c: CallId)
    requires c in s.calls && Outstanding(s.calls[c].stage) && LaneStages(s.calls[c])
    ensures var t := Step(s, Next(c, s.calls[c]));
            && c in t.calls && LaneStages(t.calls[c])
            && (t.calls[c].stage.Released?
                || (Outstanding(t.calls[c].stage) && StepsLeft(t.calls[c].stage) < StepsLeft(s.calls[c].stage)))
  {
  }

  /** No permit leaks: from every reachable state, whatever the other calls do or hold, at most
      seven further operations of the owner itself give the permit back. */
  lemma {:induction false} NoPermitLeaks(actions: seq<Action>, c: CallId) returns (more: seq<Action>)
    requires c in Run(actions).calls && Outstanding(Run(actions).calls[c].stage)
    ensures |more| <= StepsLeft(Run(actions).calls[c].stage)
    ensures forall i :: 0 <= i < |more| ==> !more[i].PoisonNow? && more[i].c == c
    ensures IsAt(Run(actions + more), c, Released)
    decreases StepsLeft(Run(actions).calls[c].stage)
  {
    RunInvariant(actions);
    var s := Run(actions);
    var a := Next(c, s.calls[c]);
    NextAdvances(s, c);
    Snoc(actions, a);
    if IsAt(Step(s, a), c, Released) {
      more := [a];
    } else {
      var rest := NoPermitLeaks(actions + [a], c);
      more := [a] + rest;
      assert actions + more == (actions + [a]) + rest;
    }
  }

  // ---------- a call is served, or turned away ----------

  /** The state after some further actions. */
  function After(s: State, actions: seq<Action>): State
    decreases |actions|
  {
    if actions == [] then s else After(Step(s, actions[0]), actions[1..])
  }

  lemma {:induction false} RunAfter(actions: seq<Action>, more: seq<Action>)
    ensures Run(actions + more) == After(Run(actions), more)
    decreases |more|
  {
    if more == [] {
      assert actions + more == actions;
    } else {
      Snoc(actions, more[0]);
      RunAfter(actions + [more[0]], more[1..]);
      assert actions + more == (actions + [more[0]]) + more[1..];
    }
  }

  lemma Unfold(s: State, a: Action, rest: seq<Action>)
    ensures After(s, [a] + rest) == After(Step(s, a), rest)
  {
    assert ([a] + rest)[1..] == rest;
  }

  lemma Unfold2(s: State, a: Action, b: Action, rest: seq<Action>)
    ensures After(s, [a, b] + rest) == After(Step(Step(s, a), b), rest)
  {
    assert [a, b] + rest == [a] + ([b] + rest);
    Unfold(s, a, [b] + rest);
    Unfold(Step(s, a), b, rest);
  }

  /** What a call does until its closure runs, and from there until its permit is back. */
  function Entry(c: CallId, lane: Lane): seq<Action> {
    [Check(c, lane), Acquire(c)] + Handover(c, lane) + [Start(c), TakeLock(c)]
  }

  function Handover(c: CallId, lane: Lane): seq<Action> {
    if lane == Streaming then [SetFlag(c), Submit(c)] else [Submit(c)]
  }

  function Exit(c: CallId, lane: Lane): seq<Action> {
    if lane == Streaming then [Leave(c), ClearFlag(c), RunCallback(c)] else [Leave(c), RunCallback(c)]
  }

  lemma Admitted(s: State, c: CallId, lane: Lane) returns (t: State)
    requires c !in s.calls && !s.poisoned && PermitOf(s, lane).free > 0
    ensures t == Step(Step(s, Check(c, lane)), Acquire(c))
    ensures IsAtIn(t, c, Claimed, lane) && PermitOf(t, lane).free == PermitOf(s, lane).free - 1 && t.lock == s.lock
  {
    var s1 := Step(s, Check(c, lane));
    assert IsAtIn(s1, c, Checked, lane);
    t := Step(s1, Acquire(c));
  }

  lemma HandedOver(s: State, c: CallId, lane: Lane, rest: seq<Action>) returns (t: State)
    requires IsAtIn(s, c, Claimed, lane)
    ensures After(s, Handover(c, lane) + rest) == After(t, rest)
    ensures IsAtIn(t, c, Queued, lane) && PermitOf(t, lane) == PermitOf(s, lane) && t.lock == s.lock
    ensures lane == Streaming ==> t.inflight
  {
    if lane == Streaming {
      var s1 := Step(s, SetFlag(c));
      assert IsAtIn(s1, c, Flagged, lane) && s1.inflight;
      t := Step(s1, Submit(c));
      Unfold2(s, SetFlag(c), Submit(c), rest);
    } else {
      t := Step(s, Submit(c));
      Unfold(s, Submit(c), rest);
    }
  }

  lemma Begun(s: State, c: CallId, lane: Lane) returns (t: State)
    requires IsAtIn(s, c, Queued, lane) && s.lock.None?
    ensures t == Step(Step(s, Start(c)), TakeLock(c))
    ensures IsAtIn(t, c, Running, lane) && PermitOf(t, lane) == PermitOf(s, lane) && t.lock == Some(c)
    ensures t.inflight == s.inflight
  {
    var s1 := Step(s, Start(c));
    assert IsAtIn(s1, c, WaitingLock, lane);
    t := Step(s1, TakeLock(c));
  }

  lemma EntryRuns(s: State, c: CallId, lane: Lane)
    requires c !in s.calls && !s.poisoned && PermitOf(s, lane).free > 0 && s.lock.None?
    ensures var t := After(s, Entry(c, lane));
            && IsAtIn(t, c, Running, lane) && t.lock == Some(c) && PermitOf(t, lane).free == PermitOf(s, lane).free - 1
            && (lane == Streaming ==> t.inflight)
  {
    var claimed := Admitted(s, c, lane);
    var rest := [Start(c), TakeLock(c)];
    assert Entry(c, lane) == [Check(c, lane), Acquire(c)] + (Handover(c, lane) + rest);
    Unfold2(s, Check(c, lane), Acquire(c), Handover(c, lane) + rest);
    var queued := HandedOver(claimed, c, lane, rest);
    var running := Begun(queued, c, lane);
    Unfold2(queued, Start(c), TakeLock(c), []);
    assert rest + [] == rest;
  }

  lemma ExitReleases(s: State, c: CallId, lane: Lane)
    requires IsAtIn(s, c, Running, lane)
    ensures var t := After(s, Exit(c, lane));
            IsAtIn(t, c, Released, lane) && t.lock.None? && PermitOf(t, lane).free == PermitOf(s, lane).free + 1
  {
    var s1 := Step(s, Leave(c));
    assert IsAtIn(s1, c, Returned, lane) && s1.lock.None? && PermitOf(s1, lane) == PermitOf(s, lane);
    if lane == Streaming {
      assert Exit(c, lane) == [Leave(c)] + ([ClearFlag(c), RunCallback(c)] + []);
      Unfold(s, Leave(c), [ClearFlag(c), RunCallback(c)] + []);
      var s2 := Step(s1, ClearFlag(c));
      assert IsAtIn(s2, c, Clearing, lane) && s2.lock.None? && PermitOf(s2, lane) == PermitOf(s, lane);
      Unfold2(s1, ClearFlag(c), RunCallback(c), []);
    } else {
      assert Exit(c, lane) == [Leave(c), RunCallback(c)] + [];
      Unfold2(s, Leave(c), RunCallback(c), []);
    }
  }

  /** A new call of a lane whose permit is free, in a process that is not poisoned and while no closure runs, gets
      its closure run and gives its permit back, by its own operations alone. */
  lemma Served(actions: seq<Action>, c: CallId, lane: Lane)
    requires var s := Run(actions);
             c !in s.calls && !s.poisoned && PermitOf(s, lane).free > 0 && s.lock.None?
    ensures IsAtIn(Run(actions + Entry(c, lane)), c, Running, lane)
    ensures IsAtIn(Run(actions + Entry(c, lane) + Exit(c, lane)), c, Released, lane)
    ensures PermitOf(Run(actions + Entry(c, lane) + Exit(c, lane)), lane).free == PermitOf(Run(actions), lane).free
  {
    RunAfter(actions, Entry(c, lane));
    RunAfter(actions + Entry(c, lane), Exit(c, lane));
    EntryRuns(Run(actions), c, lane);
    ExitReleases(Run(actions + Entry(c, lane)), c, lane);
  }

  /** A call that finds the permit taken is turned away, and so is one checked after a poisoning. */
  lemma TurnedAway(actions: seq<Action>, c: CallId, lane: Lane)
    requires c !in Run(actions).calls && (Run(actions).poisoned || PermitOf(Run(actions), lane).free == 0)
    ensures IsAtIn(Run(actions + [Check(c, lane), Acquire(c)]), c, Rejected, lane)
  {
    RunAfter(actions, [Check(c, lane), Acquire(c)]);
    Unfold2(Run(actions), Check(c, lane), Acquire(c), []);
    assert [Check(c, lane), Acquire(c)] + [] == [Check(c, lane), Acquire(c)];
    var s1 := Step(Run(actions), Check(c, lane));
    assert IsAtIn(s1, c, if s1.poisoned then Rejected else Checked, lane);
  }

  lemma RejectedStep(s: State, a: Action, c: CallId)
    requires IsAt(s, c, Rejected)
    ensures IsAt(Step(s, a), c, Rejected)
  {
  }

  /** ... for ever. */
  lemma {:induction false} RejectedIsFinal(actions: seq<Action>, n: nat, c: CallId)
    requires n <= |actions| && IsAt(Run(actions[..n]), c, Rejected)
    ensures IsAt(Run(actions), c, Rejected)
  {
    if n < |actions| {
      var before, a := actions[..|actions| - 1], actions[|actions| - 1];
      assert before[..n] == actions[..n];
      RejectedIsFinal(before, n, c);
      RejectedStep(Run(before), a, c);
    } else {
      assert actions[..n] == actions;
    }
  }

  /** Action a poisons: it says so, or the caller of a broker call with a future gives up waiting. */
  predicate Poisons(s: State, a: Action) {
    || a.PoisonNow?
    || (a.CallerTimedOut? && a.c in s.calls && s.calls[a.c].lane == Broker
        && s.calls[a.c].stage !in {Checked, Rejected, Claimed, Flagged})
  }

  predicate PoisonedBy(actions: seq<Action>, i: nat)
    requires i < |actions|
  {
    Poisons(Run(actions[..i]), actions[i])
  }

  lemma PoisonStep(s: State, a: Action)
    ensures Step(s, a).poisoned <==> s.poisoned || Poisons(s, a)
  {
  }

  /** The process is poisoned exactly when some action poisoned it; a streaming timeout never does. */
  lemma {:induction false} PoisonedExactly(actions: seq<Action>, n: nat)
    requires n <= |actions|
    ensures Run(actions[..n]).poisoned <==> exists i: nat :: i < n && PoisonedBy(actions, i)
  {
    if n == 0 {
      assert actions[..0] == [];
    } else {
      PoisonedExactly(actions, n - 1);
      assert actions[..n][..n - 1] == actions[..n - 1];
      PoisonStep(Run(actions[..n - 1]), actions[n - 1]);
      assert Run(actions[..n]).poisoned <==> Run(actions[..n - 1]).poisoned || PoisonedBy(actions, n - 1);
    }
  }
}
