/** shioaji-research/main.py: the single query permit around `get_atr_warmup`.

    The SDK call cannot be cancelled once it runs, so on a timeout the permit is handed to the
    future's done callback instead of being released by the caller. As in SdkLanes, each action
    is one indivisible operation and a run is any list of actions. */
module QueryPermit {
  import opened Common

  type CallId = nat

  /** Where the calling thread is. */
  datatype Caller =
    | Rejected
    | Claimed      // holds the permit, nothing submitted
    | Waiting      // waits for the future
    | Failing      // timed out and could not cancel: release_here is false, callback not added yet
    | HandedOver   // callback added, it will release
    | Leaving      // in `finally` with release_here true
    | Gone

  datatype Job = NotSubmitted | Queued | Alive | Done | Cancelled

  datatype Call = Call(caller: Caller, job: Job, releases: nat)

  datatype State = State(permit: int, calls: map<CallId, Call>)

  const INITIAL := State(1, map[])

  datatype Action =
    | Begin(c: CallId)
    | Submit(c: CallId)
    | SubmitFails(c: CallId)
    | StartJob(c: CallId)
    | FinishJob(c: CallId)
    | GotResult(c: CallId)
    | TimedOut(c: CallId)
    | AddCallback(c: CallId)
    | Finally(c: CallId)

  function Put(s: State, c: CallId, call: Call): State {
    s.(calls := s.calls[c := call])
  }

  /** The semaphore release for call c, which ends in `call`. */
  function Release(s: State, c: CallId, call: Call): State {
    Put(s, c, call.(releases := call.releases + 1)).(permit := s.permit + 1)
  }

  function Step(s: State, a: Action): State {
    if a.Begin? then
      if a.c in s.calls then s
      else if s.permit <= 0 then Put(s, a.c, Call(Rejected, NotSubmitted, 0))
      else Put(s, a.c, Call(Claimed, NotSubmitted, 0)).(permit := s.permit - 1)
    else if a.c !in s.calls then s
    else
      var k := s.calls[a.c];
      match a
      case Submit(c) => if k.caller.Claimed? then Put(s, c, k.(caller := Waiting, job := Queued)) else s
      case SubmitFails(c) => if k.caller.Claimed? then Put(s, c, k.(caller := Leaving)) else s
      case StartJob(c) => if k.job.Queued? then Put(s, c, k.(job := Alive)) else s
      case FinishJob(c) =>
        if !k.job.Alive? then s
        else if k.caller.HandedOver? then Release(s, c, k.(job := Done, caller := Gone))
        else Put(s, c, k.(job := Done))
      case GotResult(c) => if k.caller.Waiting? && k.job.Done? then Put(s, c, k.(caller := Leaving)) else s
      case TimedOut(c) =>
        if !k.caller.Waiting? then s
        else if k.job.Queued? then Put(s, c, k.(caller := Leaving, job := Cancelled))
        else Put(s, c, k.(caller := Failing))
      case AddCallback(c) =>
        if !k.caller.Failing? then s
        else if k.job.Done? then Release(s, c, k.(caller := Gone))
        else Put(s, c, k.(caller := HandedOver))
      case Finally(c) => if k.caller.Leaving? then Release(s, c, k.(caller := Gone)) else s
  }

  function Run(actions: seq<Action>): State {
    if actions == [] then INITIAL else Step(Run(actions[..|actions| - 1]), actions[|actions| - 1])
  }

  /** The call holds the permit. */
  predicate Owns(k: Call) {
    !k.caller.Rejected? && !k.caller.Gone?
  }

  /** Which job states go with which caller states. */
  predicate Shape(k: Call) {
    && k.releases == (if k.caller.Gone? then 1 else 0)
    && match k.caller
       case Rejected => k.job.NotSubmitted?
       case Claimed => k.job.NotSubmitted?
       case Waiting => k.job.Queued? || k.job.Alive? || k.job.Done?
       case Failing => k.job.Alive? || k.job.Done?
       case HandedOver => k.job.Alive?
       case Leaving => k.job.NotSubmitted? || k.job.Done? || k.job.Cancelled?
       case Gone => k.job.NotSubmitted? || k.job.Done? || k.job.Cancelled?
  }

  ghost predicate HeldBy(s: State, holder: Option<CallId>) {
    && s.permit == (if holder.None? then 1 else 0)
    && (holder.Some? ==> holder.value in s.calls && Owns(s.calls[holder.value]))
    && (forall c :: c in s.calls && Owns(s.calls[c]) ==> holder == Some(c))
    && (forall c :: c in s.calls ==> Shape(s.calls[c]))
  }

  /** A step touches its own call only, keeps its shape, and moves the permit with its ownership. */
  ghost predicate Local(s: State, t: State, c: CallId) {
    && (forall d :: d != c ==> (d in t.calls <==> d in s.calls))
    && (forall d :: d != c && d in s.calls ==> t.calls[d] == s.calls[d])
    && c in t.calls && Shape(t.calls[c])
    && t.permit == s.permit + (if OwnsIn(s, c) then 1 else 0) - (if OwnsIn(t, c) then 1 else 0)
    && (OwnsIn(t, c) ==> OwnsIn(s, c) || s.permit > 0)
  }

  predicate OwnsIn(s: State, c: CallId) {
    c in s.calls && Owns(s.calls[c])
  }

  lemma CallerStep(s: State, a: Action)
    requires a.c in s.calls ==> Shape(s.calls[a.c])
    requires a.Begin? || a.Submit? || a.SubmitFails? || a.Finally?
    ensures Step(s, a) == s || Local(s, Step(s, a), a.c)
  {
  }

  lemma JobStep(s: State, a: Action)
    requires a.c in s.calls ==> Shape(s.calls[a.c])
    requires !a.Begin? && !a.Submit? && !a.SubmitFails? && !a.Finally?
    ensures Step(s, a) == s || Local(s, Step(s, a), a.c)
  {
  }

  lemma StepKeeps(s: State, a: Action, h: Option<CallId>) returns (h': Option<CallId>)
    requires HeldBy(s, h)
    ensures HeldBy(Step(s, a), h')
  {
    if a.Begin? || a.Submit? || a.SubmitFails? || a.Finally? { CallerStep(s, a); } else { JobStep(s, a); }
    if Step(s, a) == s {
      h' := h;
    } else {
      h' := HolderAfter(s, Step(s, a), a.c, h);
    }
  }

  lemma HolderAfter(s: State, t: State, c: CallId, h: Option<CallId>) returns (h': Option<CallId>)
    requires HeldBy(s, h) && Local(s, t, c)
    ensures HeldBy(t, h')
  {
    h' := if OwnsIn(t, c) then Some(c) else if h == Some(c) then None else h;
  }

  lemma {:induction false} RunKeeps(actions: seq<Action>) returns (h: Option<CallId>)
    ensures HeldBy(Run(actions), h)
  {
    if actions == [] {
      h := None;
    } else {
      h := RunKeeps(actions[..|actions| - 1]);
      h := StepKeeps(Run(actions[..|actions| - 1]), actions[|actions| - 1], h);
    }
  }

  /** At most one query is alive at any time, and while it is, the permit is taken, so every
      new request is turned away, even after the caller of that query has timed out. */
  lemma AtMostOneQueryAlive(actions: seq<Action>, c: CallId, d: CallId)
    requires c in Run(actions).calls && Run(actions).calls[c].job.Alive?
    ensures d in Run(actions).calls && Run(actions).calls[d].job.Alive? ==> c == d
    ensures Run(actions).permit == 0
    ensures d !in Run(actions).calls ==> Run(actions + [Begin(d)]).calls[d].caller == Rejected
  {
    var h := RunKeeps(actions);
    Snoc(actions, Begin(d));
  }

  /** Every admitted call gives the permit back exactly once, no later than it is gone, and the
      semaphore never exceeds its bound. */
  lemma ReleasedExactlyOnce(actions: seq<Action>, c: CallId)
    requires c in Run(actions).calls
    ensures 0 <= Run(actions).permit <= 1
    ensures Run(actions).calls[c].releases == (if Run(actions).calls[c].caller.Gone? then 1 else 0)
    ensures Owns(Run(actions).calls[c]) ==> Run(actions).permit == 0
  {
    var h := RunKeeps(actions);
  }

  // ---------- the permit comes back ----------

  /** The next operation of a call that holds the permit: its caller gives up at the earliest
      moment, and a query that runs is let finish. */
  function Next(c: CallId, k: Call): Action {
    match k.caller
    case Claimed => SubmitFails(c)
    case Waiting => TimedOut(c)
    case Failing => AddCallback(c)
    case HandedOver => FinishJob(c)
    case Leaving => Finally(c)
    case _ => Finally(c)
  }

  function StepsLeft(k: Call): nat {
    match k.caller
    case Claimed => 4
    case Waiting => 4
    case Failing => 3
    case HandedOver => 2
    case Leaving => 1
    case _ => 0
  }

  lemma NextAdvances(s: State, c: CallId)
    requires c in s.calls && Owns(s.calls[c]) && Shape(s.calls[c])
    ensures var t := Step(s, Next(c, s.calls[c]));
            && c in t.calls && Shape(t.calls[c]) && StepsLeft(t.calls[c]) < StepsLeft(s.calls[c])
            && (t.calls[c].caller.Gone? || Owns(t.calls[c]))
            && (t.calls[c].caller.Gone? ==> t.permit == s.permit + 1)
  {
  }

  lemma OwnerFacts(actions: seq<Action>, c: CallId)
    requires c in Run(actions).calls && Owns(Run(actions).calls[c])
    ensures Shape(Run(actions).calls[c])
  {
    var h := RunKeeps(actions);
  }

  lemma Regroup(actions: seq<Action>, a: Action, rest: seq<Action>)
    ensures actions + ([a] + rest) == (actions + [a]) + rest
  {
  }

  /** The permit never leaks: from every reachable state in which a call holds it, at most four
      further operations of that call give it back. */
  lemma {:induction false} PermitNeverLeaks(actions: seq<Action>, c: CallId) returns (more: seq<Action>)
    requires c in Run(actions).calls && Owns(Run(actions).calls[c])
    ensures |more| <= StepsLeft(Run(actions).calls[c])
    ensures forall i :: 0 <= i < |more| ==> more[i].c == c
    ensures var s := Run(actions + more);
            c in s.calls && s.calls[c].caller.Gone? && s.calls[c].releases == 1 && s.permit == 1
    decreases StepsLeft(Run(actions).calls[c])
  {
    OwnerFacts(actions, c);
    ReleasedExactlyOnce(actions, c);
    var a := Next(c, Run(actions).calls[c]);
    NextAdvances(Run(actions), c);
    Snoc(actions, a);
    if Run(actions + [a]).calls[c].caller.Gone? {
      more := [a];
      ReleasedExactlyOnce(actions + [a], c);
    } else {
      var rest := PermitNeverLeaks(actions + [a], c);
      more := [a] + rest;
      Regroup(actions, a, rest);
    }
  }

  // ---------- how a call ends ----------

  /** The state after some further actions. */
  function After(s: State, actions: seq<Action>): State
    decreases |actions|
  {
    if actions == [] then s else After(Step(s, actions[0]), actions[1..])
  }

  lemma {:induction false} RunAfter(actions: seq<Action>, more: seq<Action>)
    ensures Run(actions + more) == After(Run(actions), more)
    decreases |more|
  {
    if more == [] {
      assert actions + more == actions;
    } else {
      Snoc(actions, more[0]);
      RunAfter(actions + [more[0]], more[1..]);
      assert actions + more == (actions + [more[0]]) + more[1..];
    }
  }

  lemma Unfold(s: State, a: Action, rest: seq<Action>)
    ensures After(s, [a] + rest) == After(Step(s, a), rest)
  {
    assert ([a] + rest)[1..] == rest;
  }

  lemma Unfold2(s: State, a: Action, b: Action, rest: seq<Action>)
    ensures After(s, [a, b] + rest) == After(Step(Step(s, a), b), rest)
  {
    assert [a, b] + rest == [a] + ([b] + rest);
    Unfold(s, a, [b] + rest);
    Unfold(Step(s, a), b, rest);
  }

  lemma Unfold3(s: State, a: Action, b: Action, d: Action, rest: seq<Action>)
    ensures After(s, [a, b, d] + rest) == After(Step(Step(Step(s, a), b), d), rest)
  {
    assert [a, b, d] + rest == [a, b] + ([d] + rest);
    Unfold2(s, a, b, [d] + rest);
    Unfold(Step(Step(s, a), b), d, rest);
  }

  /** The ways a new call can go once it found the permit free. */
  datatype Course = Answered | GaveUpEarly | GaveUpLate | GaveUpAtTheEnd | NeverSubmitted

  function Steps(c: CallId, course: Course): seq<Action> {
    match course
    case Answered => [Begin(c), Submit(c), StartJob(c)] + ([FinishJob(c), GotResult(c), Finally(c)] + [])
    case GaveUpEarly => [Begin(c), Submit(c), TimedOut(c)] + [Finally(c)]
    case GaveUpLate => [Begin(c), Submit(c), StartJob(c)] + ([TimedOut(c), AddCallback(c), FinishJob(c)] + [])
    case GaveUpAtTheEnd => [Begin(c), Submit(c), StartJob(c)] + ([TimedOut(c), FinishJob(c), AddCallback(c)] + [])
    case NeverSubmitted => [Begin(c), SubmitFails(c), Finally(c)] + []
  }

  /** What becomes of the query: finished, cancelled before it started, or never submitted. */
  function Ending(course: Course): Job {
    match course
    case GaveUpEarly => Cancelled
    case NeverSubmitted => NotSubmitted
    case _ => Done
  }

  ghost predicate EndsAs(s: State, t: State, c: CallId, job: Job) {
    c in t.calls && t.calls[c] == Call(Gone, job, 1) && t.permit == s.permit
  }

  lemma Started(s: State, c: CallId, rest: seq<Action>) returns (t: State)
    requires c !in s.calls && s.permit > 0
    ensures After(s, [Begin(c), Submit(c), StartJob(c)] + rest) == After(t, rest)
    ensures c in t.calls && t.calls[c] == Call(Waiting, Alive, 0) && t.permit == s.permit - 1
  {
    Unfold3(s, Begin(c), Submit(c), StartJob(c), rest);
    t := Step(Step(Step(s, Begin(c)), Submit(c)), StartJob(c));
  }

  lemma AnsweredEnds(s: State, c: CallId)
    requires c in s.calls && s.calls[c] == Call(Waiting, Alive, 0)
    ensures var t := After(s, [FinishJob(c), GotResult(c), Finally(c)] + []);
            c in t.calls && t.calls[c] == Call(Gone, Done, 1) && t.permit == s.permit + 1
  {
    Unfold3(s, FinishJob(c), GotResult(c), Finally(c), []);
    var s1 := Step(s, FinishJob(c));
    assert s1.calls[c] == Call(Waiting, Done, 0) && s1.permit == s.permit;
  }

  lemma LateEnds(s: State, c: CallId)
    requires c in s.calls && s.calls[c] == Call(Waiting, Alive, 0)
    ensures var t := After(s, [TimedOut(c), AddCallback(c), FinishJob(c)] + []);
            c in t.calls && t.calls[c] == Call(Gone, Done, 1) && t.permit == s.permit + 1
  {
    Unfold3(s, TimedOut(c), AddCallback(c), FinishJob(c), []);
    var s1 := Step(s, TimedOut(c));
    assert s1.calls[c] == Call(Failing, Alive, 0) && s1.permit == s.permit;
  }

  lemma AtTheEndEnds(s: State, c: CallId)
    requires c in s.calls && s.calls[c] == Call(Waiting, Alive, 0)
    ensures var t := After(s, [TimedOut(c), FinishJob(c), AddCallback(c)] + []);
            c in t.calls && t.calls[c] == Call(Gone, Done, 1) && t.permit == s.permit + 1
  {
    Unfold3(s, TimedOut(c), FinishJob(c), AddCallback(c), []);
    var s1 := Step(s, TimedOut(c));
    assert s1.calls[c] == Call(Failing, Alive, 0) && s1.permit == s.permit;
  }

  lemma CourseEnds(s: State, c: CallId, course: Course)
    requires c !in s.calls && s.permit > 0
    ensures EndsAs(s, After(s, Steps(c, course)), c, Ending(course))
  {
    match course
    case Answered =>
      var t := Started(s, c, [FinishJob(c), GotResult(c), Finally(c)] + []);
      AnsweredEnds(t, c);
    case GaveUpLate =>
      var t := Started(s, c, [TimedOut(c), AddCallback(c), FinishJob(c)] + []);
      LateEnds(t, c);
    case GaveUpAtTheEnd =>
      var t := Started(s, c, [TimedOut(c), FinishJob(c), AddCallback(c)] + []);
      AtTheEndEnds(t, c);
    case _ => UnstartedEnds(s, c, course);
  }

  lemma UnstartedEnds(s: State, c: CallId, course: Course)
    requires c !in s.calls && s.permit > 0 && (course.GaveUpEarly? || course.NeverSubmitted?)
    ensures EndsAs(s, After(s, Steps(c, course)), c, Ending(course))
  {
    if course.GaveUpEarly? {
      Unfold3(s, Begin(c), Submit(c), TimedOut(c), [Finally(c)]);
      Unfold(Step(Step(Step(s, Begin(c)), Submit(c)), TimedOut(c)), Finally(c), []);
      assert [Finally(c)] + [] == [Finally(c)];
    } else {
      Unfold3(s, Begin(c), SubmitFails(c), Finally(c), []);
    }
  }

  /** From every reachable state with the permit free, each course of a new call ends with the permit back, given
      back once: with an answer, with the query cancelled before it started, with the late query finishing
      alone, with the query finishing just before the callback is added, or without a query. */
  lemma EveryCourseEnds(actions: seq<Action>, c: CallId, course: Course)
    requires c !in Run(actions).calls && Run(actions).permit > 0
    ensures EndsAs(Run(actions), Run(actions + Steps(c, course)), c, Ending(course))
  {
    RunAfter(actions, Steps(c, course));
    CourseEnds(Run(actions), c, course);
  }

  /** A late query keeps the permit until it finishes: after the caller has left, with the callback added, the permit
      is still taken and the query alive. */
  lemma LateQueryHolds(actions: seq<Action>, c: CallId)
    requires c !in Run(actions).calls && Run(actions).permit > 0
    ensures var t := Run(actions + ([Begin(c), Submit(c), StartJob(c)] + [TimedOut(c), AddCallback(c)]));
            c in t.calls && t.calls[c] == Call(HandedOver, Alive, 0) && t.permit == Run(actions).permit - 1
  {
    var more := [Begin(c), Submit(c), StartJob(c)] + [TimedOut(c), AddCallback(c)];
    RunAfter(actions, more);
    var running := Started(Run(actions), c, [TimedOut(c), AddCallback(c)]);
    Unfold2(running, TimedOut(c), AddCallback(c), []);
    assert [TimedOut(c), AddCallback(c)] + [] == [TimedOut(c), AddCallback(c)];
  }
}
