/**
 Where the guarantees of the engine end: which runs escape the daily ceiling, and what a suspending
 completion callback would break.
 */
module RunLimits {
  import opened Common
  import opened RunMachine
  import opened RunBehaviors

  // Runs that called Splunk and are not counted.

  /** The run made real calls, is over, and does not count against its day. */
  predicate Escaped(m: Machine, id: string) {
    id in m.runs && id in m.spent && m.spent[id] > 0 && Terminal(m.runs[id]) && !Counts(m.runs[id])
  }

  /**
   The steps that let a run escape: it made real calls that its row does not show, and a cancel is
   recorded on it at once, by the interruption of a new attempt, or by the recovery after a crash.
   */
  predicate Escapes(m: Machine, action: Action, id: string) {
    && id in m.runs && id in m.spent && m.spent[id] > 0
    && var r := m.runs[id];
       match action
       case Cancel(target) => m.up && target == id && r.status.Queued? && r.callsUsed == 0
       case Interrupt => CancelsUnused(m, id)
       case Progress => CancelsUnused(m, id)
       case Restart => !m.up && r.status.Running? && r.cancelRequested && r.callsUsed == 0
       case _ => false
  }

  /** An attempt that has made no call yet, on a run whose cancel has been requested. */
  predicate CancelsUnused(m: Machine, id: string)
    requires id in m.runs
  {
    m.up && m.attempt.Some? && m.attempt.value.runId == id && m.attempt.value.used == 0 && m.runs[id].cancelRequested
  }

  lemma CreatingEscapesNothing(m: Machine, action: Action, at: int, id: string)
    requires Sound(m) && (action.Enqueue? || action.ScheduleDue?)
    ensures Escaped(Next(m, action, at), id) <==> Escaped(m, id)
  {
  }

  lemma EndEscapesNothing(m: Machine, action: Action, at: int, id: string)
    requires Sound(m) && (action.Block? || action.Finish? || action.Overturn? || action.Fail?)
    ensures Escaped(Next(m, action, at), id) <==> Escaped(m, id)
  {
  }

  lemma AttemptEscapesExactly(m: Machine, action: Action, at: int, id: string)
    requires Sound(m) && (action.CallSplunk? || action.Progress? || action.Interrupt?)
    ensures Escaped(Next(m, action, at), id) <==> Escaped(m, id) || Escapes(m, action, id)
  {
  }

  lemma TableEscapesExactly(m: Machine, action: Action, at: int, id: string)
    requires Sound(m)
    requires !OfAttempt(action) && !action.Enqueue? && !action.ScheduleDue?
    ensures Escaped(Next(m, action, at), id) <==> Escaped(m, id) || Escapes(m, action, id)
  {
  }

  /** In every sound state and for every step: a run escapes exactly by the steps named. */
  lemma EscapesExactly(m: Machine, action: Action, at: int, id: string)
    requires Sound(m)
    ensures Escaped(Next(m, action, at), id) <==> Escaped(m, id) || Escapes(m, action, id)
  {
    if action.Enqueue? || action.ScheduleDue? {
      CreatingEscapesNothing(m, action, at, id);
    } else if action.Block? || action.Finish? || action.Overturn? || action.Fail? {
      EndEscapesNothing(m, action, at, id);
    } else if OfAttempt(action) {
      AttemptEscapesExactly(m, action, at, id);
    } else {
      TableEscapesExactly(m, action, at, id);
    }
  }

  ghost predicate EscapesWithin(states: seq<Machine>, steps: seq<Step>, n: nat, id: string)
    requires n <= |steps| && n <= |states|
  {
    exists k :: 0 <= k < n && Escapes(states[k], steps[k].action, id)
  }

  lemma OneMoreStep(states: seq<Machine>, steps: seq<Step>, n: nat, id: string)
    requires n < |steps| && n < |states|
    ensures EscapesWithin(states, steps, n + 1, id)
       <==> EscapesWithin(states, steps, n, id) || Escapes(states[n], steps[n].action, id)
  {
  }

  lemma NothingEscapedYet(m: Machine, id: string)
    requires Initial(m)
    ensures !Escaped(m, id)
  {
  }

  lemma StepEscapesExactly(states: seq<Machine>, steps: seq<Step>, k: nat, id: string)
    requires Behavior(states, steps) && k < |steps|
    ensures Escaped(states[k + 1], id) <==> Escaped(states[k], id) || Escapes(states[k], steps[k].action, id)
  {
    EveryStateIsSound(states, steps, k);
    EscapesExactly(states[k], steps[k].action, steps[k].at, id);
  }

  /** Along every behaviour, the escaped runs are exactly those for which such a step was taken. */
  lemma {:induction false} EscapedExactlyByAStep(states: seq<Machine>, steps: seq<Step>, i: nat, id: string)
    requires Behavior(states, steps) && i < |states|
    ensures Escaped(states[i], id) <==> EscapesWithin(states, steps, i, id)
  {
    if i > 0 {
      EscapedExactlyByAStep(states, steps, i - 1, id);
      OneMoreStep(states, steps, i - 1, id);
      StepEscapesExactly(states, steps, i - 1, id);
    } else {
      NothingEscapedYet(states[0], id);
    }
  }

  /**
   While no such step is taken, the daily ceiling does bound the runs that reached Splunk: each of
   them is active or counts, and no day has more of them than the maximum in force as its runs were created.
   */
  lemma RealCallsAreUnderTheCeiling(states: seq<Machine>, steps: seq<Step>, i: nat, day: int)
    requires Behavior(states, steps) && i < |states|
    requires forall k, id :: 0 <= k < i && id in states[k].runs ==> !Escapes(states[k], steps[k].action, id)
    ensures var m := states[i];
            && (forall id :: id in m.runs && id in m.spent && m.spent[id] > 0 ==>
                IsActive(m.runs[id]) || Counts(m.runs[id]))
            && |set id | id in m.runs && id in m.spent && Day(m.runs[id].createdAt) == day && m.spent[id] > 0|
               <= PeakOn(states, steps, i, day) <= m.ceiling
  {
    var m := states[i];
    DaysStayUnderTheirPeak(states, steps, i, day);
    PeaksAreUnderTheCeiling(states, steps, i, day);
    forall id | id in m.runs && id in m.spent && m.spent[id] > 0
      ensures IsActive(m.runs[id]) || Counts(m.runs[id])
    {
      EscapedExactlyByAStep(states, steps, i, id);
    }
    var called := set id | id in m.runs && id in m.spent && Day(m.runs[id].createdAt) == day && m.spent[id] > 0;
    SubsetSize(called, OccupiedOn(m.runs, day));
  }

  // A completion callback that suspends.

  /** The run is completed, and the attempt waits in a callback that has suspended. */
  function Suspended(m: Machine, gaps: bool, at: int): Machine
    requires m.attempt.Some?
  {
    var a := m.attempt.value;
    m.(now := at, runs := CompleteRun(m.runs, a.runId, FinalStatus(a, gaps), a.used, at))
  }

  /** A run is over while its attempt still waits in the callback, and no cancel was requested. */
  predicate AwaitsCallback(m: Machine) {
    && m.attempt.Some? && m.attempt.value.runId in m.runs
    && Terminal(m.runs[m.attempt.value.runId]) && !m.runs[m.attempt.value.runId].cancelRequested
  }

  /**
   If the completion callback could suspend, a shutdown during it would requeue the finished run,
   because `requeue_for_restart` does not look at the status: a terminal row changes, and there are
   two active runs exactly if another was enqueued meanwhile.
   */
  lemma SuspendedCallbackBreaksSingleRun(m: Machine, at: int)
    requires SingleActive(m.runs) && AwaitsCallback(m)
    ensures var done := m.attempt.value.runId;
            Terminal(m.runs[done]) && Interrupted(m, at).runs[done].status.Queued?
    ensures SingleActive(Interrupted(m, at).runs) <==> !HasActive(m.runs)
  {
    var done := m.attempt.value.runId;
    var after := Interrupted(m, at).runs;
    if other :| other in m.runs && IsActive(m.runs[other]) {
      assert IsActive(after[done]) && IsActive(after[other]);
    }
  }

  lemma Extend(states: seq<Machine>, steps: seq<Step>, step: Step, next: Machine)
    requires Behavior(states, steps) && states[|steps|].now <= step.at
    requires next == Next(states[|steps|], step.action, step.at)
    ensures Behavior(states + [next], steps + [step])
    ensures (states + [next])[|steps + [step]|] == next
  {
  }

  /** A machine with one run, for the examples below. */
  function OneRun(r: Run, attempt: Option<Attempt>, up: bool, spent: nat): Machine {
    var p := Policy(false, 360, Standard, 12, 4, None, None, "c", 0);
    Machine(map["r" := r], p, attempt, up, 0, map["r" := spent], 4)
  }

  const QUEUED := Run(Manual, Standard, Queued, 12, 0, false, 0, 0, None, None, "c")

  const RUNNING := QUEUED.(status := Running, startedAt := Some(0))

  function NoRun(up: bool): Machine {
    OneRun(QUEUED, None, up, 0).(runs := map[], spent := map[])
  }

  lemma FirstRunIsQueued() returns (states: seq<Machine>, steps: seq<Step>)
    ensures Behavior(states, steps) && |steps| == 2 && states[2] == OneRun(QUEUED, None, true, 0)
  {
    states, steps := [NoRun(false)], [];
    assert Initial(NoRun(false));
    Extend(states, steps, Step(Restart, 0), NoRun(true));
    states, steps := states + [NoRun(true)], steps + [Step(Restart, 0)];
    assert RunsSince(map[], Day(0) * DAY) == {};
    var enqueue := Step(Enqueue("r", Manual, None, true), 0);
    Extend(states, steps, enqueue, OneRun(QUEUED, None, true, 0));
    states, steps := states + [OneRun(QUEUED, None, true, 0)], steps + [enqueue];
  }

  lemma OneRunStarts() returns (states: seq<Machine>, steps: seq<Step>)
    ensures Behavior(states, steps)
    ensures states[|steps|] == OneRun(RUNNING, Some(Attempt("r", 12, 0, false)), true, 0)
  {
    states, steps := FirstRunIsQueued();
    var started := OneRun(RUNNING, Some(Attempt("r", 12, 0, false)), true, 0);
    Extend(states, steps, Step(Start("r"), 0), started);
    states, steps := states + [started], steps + [Step(Start("r"), 0)];
  }

  lemma OneCall() returns (states: seq<Machine>, steps: seq<Step>)
    ensures Behavior(states, steps)
    ensures states[|steps|] == OneRun(RUNNING, Some(Attempt("r", 12, 1, false)), true, 1)
  {
    states, steps := OneRunStarts();
    var called := OneRun(RUNNING, Some(Attempt("r", 12, 1, false)), true, 1);
    Extend(states, steps, Step(CallSplunk, 0), called);
    states, steps := states + [called], steps + [Step(CallSplunk, 0)];
  }

  /** The process dies before that call is recorded. */
  lemma OneCallThenCrash() returns (states: seq<Machine>, steps: seq<Step>)
    ensures Behavior(states, steps)
    ensures states[|steps|] == OneRun(RUNNING, None, false, 1)
  {
    states, steps := OneCall();
    Extend(states, steps, Step(Crashed, 0), OneRun(RUNNING, None, false, 1));
    states, steps := states + [OneRun(RUNNING, None, false, 1)], steps + [Step(Crashed, 0)];
  }

  /** It is reachable: a run finishes into a suspended callback, a second is enqueued, the process stops. */
  lemma SuspendedCallbackIsReached()
    ensures exists states: seq<Machine>, steps: seq<Step> ::
              && Behavior(states, steps) && states[|steps|].attempt.Some?
              && var m := EnqueueRun(Suspended(states[|steps|], false, 0), "s", Manual, None, true, 0);
                 AwaitsCallback(m) && SingleActive(m.runs) && !SingleActive(Interrupted(m, 0).runs)
  {
    var states, steps := OneRunStarts();
    var s := Suspended(states[|steps|], false, 0);
    assert RunsSince(s.runs, Day(0) * DAY) == {"r"};
    var m := EnqueueRun(s, "s", Manual, None, true, 0);
    assert IsActive(m.runs["s"]);
    SuspendedCallbackBreaksSingleRun(m, 0);
  }

  /**
   The ceiling is on counted runs, not on runs that reached Splunk: a run that made real calls escapes
   the count when it is recovered after a crash and cancelled before its next call.
   */
  lemma RecoveredThenCancelledEscapesTheCount()
    ensures exists states: seq<Machine>, steps: seq<Step>, id: string ::
              Behavior(states, steps) && Escaped(states[|steps|], id) && states[|steps|].runs[id].recoveryCount == 1
  {
    var states, steps := OneCallThenCrash();
    var queued := Run(Recovered, Standard, Queued, 12, 0, false, 1, 0, None, None, "c");
    var last := OneRun(queued.(status := Cancelled, cancelRequested := true, completedAt := Some(0)), None, true, 1);
    Extend(states, steps, Step(Restart, 0), OneRun(queued, None, true, 1));
    states, steps := states + [OneRun(queued, None, true, 1)], steps + [Step(Restart, 0)];
    Extend(states, steps, Step(Cancel("r"), 0), last);
    states, steps := states + [last], steps + [Step(Cancel("r"), 0)];
    assert states[|steps|] == last && "r" in last.runs;
  }

  /** Without any recovery: the cancel of a running run is recorded, and the process dies before it acts. */
  lemma CrashedCancelEscapesTheCount()
    ensures exists states: seq<Machine>, steps: seq<Step>, id: string ::
              Behavior(states, steps) && Escaped(states[|steps|], id) && states[|steps|].runs[id].recoveryCount == 0
  {
    var states, steps := OneCall();
    var asked := RUNNING.(cancelRequested := true);
    var a := Attempt("r", 12, 1, false);
    Extend(states, steps, Step(Cancel("r"), 0), OneRun(asked, Some(a), true, 1));
    states, steps := states + [OneRun(asked, Some(a), true, 1)], steps + [Step(Cancel("r"), 0)];
    Extend(states, steps, Step(Crashed, 0), OneRun(asked, None, false, 1));
    states, steps := states + [OneRun(asked, None, false, 1)], steps + [Step(Crashed, 0)];
    var last := OneRun(asked.(status := Cancelled, completedAt := Some(0)), None, true, 1);
    Extend(states, steps, Step(Restart, 0), last);
    states, steps := states + [last], steps + [Step(Restart, 0)];
    assert states[|steps|] == last && "r" in last.runs;
  }
}
