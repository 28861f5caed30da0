/**
 What holds along every behaviour of the assurance engine: every interleaving of manual and
 scheduled enqueues, operator cancels, calls, completions, shutdowns, crashes and restarts, under a
 clock that does not run backwards.
 */
module RunBehaviors {
  import opened Common
  import opened RunMachine

  datatype Step = Step(action: Action, at: int)

  ghost predicate Behavior(states: seq<Machine>, steps: seq<Step>) {
    && |states| == |steps| + 1
    && Initial(states[0])
    && forall i :: 0 <= i < |steps| ==>
         states[i].now <= steps[i].at && states[i + 1] == Next(states[i], steps[i].action, steps[i].at)
  }

  lemma {:induction false} EveryStateIsSound(states: seq<Machine>, steps: seq<Step>, i: nat)
    requires Behavior(states, steps) && i < |states|
    ensures Sound(states[i])
  {
    if i == 0 {
      InitiallySound(states[0]);
    } else {
      EveryStateIsSound(states, steps, i - 1);
      NextKeepsSound(states[i - 1], steps[i - 1].action, steps[i - 1].at);
    }
  }

  /** At most one run is queued or running. */
  lemma AtMostOneRunIsActive(states: seq<Machine>, steps: seq<Step>, i: nat)
    requires Behavior(states, steps) && i < |states|
    ensures |set id | id in states[i].runs && IsActive(states[i].runs[id])| <= 1
  {
    EveryStateIsSound(states, steps, i);
    var active := set id | id in states[i].runs && IsActive(states[i].runs[id]);
    if active != {} {
      var id :| id in active;
      assert active == {id};
    }
  }

  /**
   A run's budget suffices for its depth, and its calls stay within that budget for every attempt it
   has been given, crashes included.
   */
  lemma CallsAreBounded(states: seq<Machine>, steps: seq<Step>, i: nat, id: string)
    requires Behavior(states, steps) && i < |states| && id in states[i].runs
    ensures id in states[i].spent
    ensures CallEstimate(states[i].runs[id].depth) <= states[i].runs[id].callBudget
    ensures states[i].runs[id].callsUsed <= states[i].runs[id].callBudget
    ensures states[i].spent[id] <= states[i].runs[id].callBudget * (states[i].runs[id].recoveryCount + 1)
    ensures states[i].runs[id].status.Queued? ==>
              states[i].spent[id] <= states[i].runs[id].callBudget * states[i].runs[id].recoveryCount
  {
    EveryStateIsSound(states, steps, i);
    var m := states[i];
    assert SpendSound(m.runs[id], m.spent[id], CurrentUse(m, id));
    AllowanceStep(m.runs[id].callBudget, m.runs[id].recoveryCount);
  }

  /** The largest daily maximum in force at a step, among the first n, that created a run on the day. */
  function PeakOn(states: seq<Machine>, steps: seq<Step>, n: nat, day: int): nat
    requires n <= |steps| && |states| == |steps| + 1
  {
    if n == 0 then 0
    else
      var before, m := PeakOn(states, steps, n - 1, day), states[n - 1];
      if states[n].runs.Keys != m.runs.Keys && Day(steps[n - 1].at) == day && m.policy.maxRuns > before
      then m.policy.maxRuns else before
  }

  lemma CreationIsChecked(m: Machine, id: string, trigger: Trigger, depth: Option<Depth>, valid: bool, at: int,
                          day: int)
    ensures var n := EnqueueRun(m, id, trigger, depth, valid, at);
            && (n.runs == m.runs || n.runs.Keys != m.runs.Keys)
            && |OccupiedOn(n.runs, day)|
               <= if n.runs.Keys != m.runs.Keys && day == Day(at) then m.policy.maxRuns else |OccupiedOn(m.runs, day)|
  {
    var n := EnqueueRun(m, id, trigger, depth, valid, at);
    if EnqueueCheck(m, id, depth, valid, at).Ok? {
      assert id in n.runs && id !in m.runs;
      NewRunOccupies(m.runs, id, n.runs[id], day);
    }
  }

  /** One step fills a day at most up to the maximum then in force, and only by creating a run on it. */
  lemma StepFillsUpTo(m: Machine, action: Action, at: int, day: int)
    requires WorkerSound(m)
    ensures var n := Next(m, action, at);
            |OccupiedOn(n.runs, day)|
            <= if n.runs.Keys != m.runs.Keys && day == Day(at) then m.policy.maxRuns else |OccupiedOn(m.runs, day)|
  {
    var n := m.(now := at);
    if action.Enqueue? {
      CreationIsChecked(n, action.id, action.trigger, action.depth, action.connectionValid, at, day);
    } else if action.ScheduleDue? {
      CreationIsChecked(n, action.id, Scheduled, None, action.connectionValid, at, day);
    } else {
      OtherStepsFillNothing(m, action, at, day);
    }
  }

  lemma OtherStepsFillNothing(m: Machine, action: Action, at: int, day: int)
    requires WorkerSound(m) && !action.Enqueue? && !action.ScheduleDue?
    ensures var n := Next(m, action, at);
            n.runs.Keys == m.runs.Keys && |OccupiedOn(n.runs, day)| <= |OccupiedOn(m.runs, day)|
  {
    var n := Next(m, action, at);
    forall id | id in n.runs
      ensures id in m.runs && n.runs[id].createdAt == m.runs[id].createdAt
      ensures Occupies(n.runs[id]) ==> Occupies(m.runs[id])
    {
      StepOccupies(m, action, at, id);
    }
    OccupationShrinks(m.runs, n.runs, day);
  }

  lemma {:induction false} DaysStayUnderTheirPeak(states: seq<Machine>, steps: seq<Step>, i: nat, day: int)
    requires Behavior(states, steps) && i < |states|
    ensures |OccupiedOn(states[i].runs, day)| <= PeakOn(states, steps, i, day)
  {
    if i > 0 {
      DaysStayUnderTheirPeak(states, steps, i - 1, day);
      EveryStateIsSound(states, steps, i - 1);
      StepFillsUpTo(states[i - 1], steps[i - 1].action, steps[i - 1].at, day);
    } else {
      assert OccupiedOn(states[0].runs, day) == {};
    }
  }

  lemma {:induction false} PeaksAreUnderTheCeiling(states: seq<Machine>, steps: seq<Step>, i: nat, day: int)
    requires Behavior(states, steps) && i < |states|
    ensures PeakOn(states, steps, i, day) <= states[i].ceiling
  {
    if i > 0 {
      PeaksAreUnderTheCeiling(states, steps, i - 1, day);
      EveryStateIsSound(states, steps, i - 1);
      CeilingStaysAbove(states[i - 1], steps[i - 1].action, steps[i - 1].at);
    }
  }

  /**
   The runs created on one day that count against it, together with those still queued, never exceed
   the largest maximum that was in force when a run was created on that day; so never the largest of
   all, and under a fixed policy the configured one.
   */
  lemma DailyCeilingHolds(states: seq<Machine>, steps: seq<Step>, i: nat, day: int)
    requires Behavior(states, steps) && i < |states|
    ensures |set id | id in states[i].runs && Day(states[i].runs[id].createdAt) == day
                      && (Counts(states[i].runs[id]) || states[i].runs[id].status.Queued?)|
         <= PeakOn(states, steps, i, day) <= states[i].ceiling
  {
    DaysStayUnderTheirPeak(states, steps, i, day);
    PeaksAreUnderTheCeiling(states, steps, i, day);
    var m := states[i];
    var counted := set id | id in m.runs && Day(m.runs[id].createdAt) == day
                            && (Counts(m.runs[id]) || m.runs[id].status.Queued?);
    SubsetSize(counted, OccupiedOn(m.runs, day));
  }

  lemma {:induction false} FixedPolicyFixesCeiling(states: seq<Machine>, steps: seq<Step>, i: nat)
    requires Behavior(states, steps) && i < |states|
    requires forall k :: 0 <= k < i ==> !steps[k].action.ChangePolicy?
    ensures states[i].ceiling == states[i].policy.maxRuns == states[0].policy.maxRuns
  {
    if i > 0 {
      FixedPolicyFixesCeiling(states, steps, i - 1);
    }
  }

  // Finality.

  ghost predicate KeepsRun(m: Machine, n: Machine, id: string) {
    Lookup(n.runs, id) == Lookup(m.runs, id) && Lookup(n.spent, id) == Lookup(m.spent, id)
  }

  lemma AttemptKeepsTerminal(m: Machine, action: Action, at: int, id: string)
    requires WorkerSound(m) && id in m.runs && Terminal(m.runs[id]) && OfAttempt(action)
    ensures KeepsRun(m, Next(m, action, at), id)
  {
  }

  lemma TableKeepsTerminal(m: Machine, action: Action, at: int, id: string)
    requires id in m.runs && Terminal(m.runs[id]) && !OfAttempt(action)
    ensures KeepsRun(m, Next(m, action, at), id)
  {
  }

  lemma TerminalStepKeeps(m: Machine, action: Action, at: int, id: string)
    requires WorkerSound(m) && id in m.runs && id in m.spent && Terminal(m.runs[id])
    ensures var n := Next(m, action, at);
            id in n.runs && n.runs[id] == m.runs[id] && id in n.spent && n.spent[id] == m.spent[id]
  {
    if OfAttempt(action) {
      AttemptKeepsTerminal(m, action, at, id);
    } else {
      TableKeepsTerminal(m, action, at, id);
    }
    assert Lookup(m.runs, id).Some? && Lookup(m.spent, id).Some?;
  }

  /** A finished run is never touched again: not its row, and not its calls. */
  lemma {:induction false} TerminalIsFinal(states: seq<Machine>, steps: seq<Step>, i: nat, j: nat, id: string)
    requires Behavior(states, steps) && i <= j < |states|
    requires id in states[i].runs && Terminal(states[i].runs[id])
    ensures id in states[j].runs && states[j].runs[id] == states[i].runs[id]
    ensures id in states[i].spent && id in states[j].spent && states[j].spent[id] == states[i].spent[id]
  {
    EveryStateIsSound(states, steps, i);
    if i < j {
      TerminalIsFinal(states, steps, i, j - 1, id);
      EveryStateIsSound(states, steps, j - 1);
      TerminalStepKeeps(states[j - 1], steps[j - 1].action, steps[j - 1].at, id);
    }
  }

  /** The cancel stays recorded, and the run is neither queued, started nor recovered. */
  ghost predicate StaysCancelled(m: Machine, n: Machine, id: string)
    requires id in m.runs
  {
    && id in n.runs && n.runs[id].cancelRequested && !n.runs[id].status.Queued?
    && n.runs[id].startedAt == m.runs[id].startedAt
    && n.runs[id].recoveryCount == m.runs[id].recoveryCount
  }

  lemma AttemptKeepsCancelled(m: Machine, action: Action, at: int, id: string)
    requires WorkerSound(m) && id in m.runs && m.runs[id].cancelRequested && OfAttempt(action)
    ensures StaysCancelled(m, Next(m, action, at), id)
  {
  }

  lemma TableKeepsCancelled(m: Machine, action: Action, at: int, id: string)
    requires WorkerSound(m) && id in m.runs && m.runs[id].cancelRequested && !OfAttempt(action)
    ensures StaysCancelled(m, Next(m, action, at), id)
  {
  }

  lemma CancelledStepKeeps(m: Machine, action: Action, at: int, id: string)
    requires WorkerSound(m) && id in m.runs && m.runs[id].cancelRequested
    ensures StaysCancelled(m, Next(m, action, at), id)
  {
    if OfAttempt(action) {
      AttemptKeepsCancelled(m, action, at, id);
    } else {
      TableKeepsCancelled(m, action, at, id);
    }
  }

  /** Once a cancel is recorded on a run it is never queued, recovered or started again. */
  lemma {:induction false} CancellationIsFinal(states: seq<Machine>, steps: seq<Step>, i: nat, j: nat, id: string)
    requires Behavior(states, steps) && i <= j < |states|
    requires id in states[i].runs && states[i].runs[id].cancelRequested
    ensures id in states[j].runs && states[j].runs[id].cancelRequested
    ensures !states[j].runs[id].status.Queued?
    ensures states[j].runs[id].startedAt == states[i].runs[id].startedAt
    ensures states[j].runs[id].recoveryCount == states[i].runs[id].recoveryCount
  {
    if i == j {
      EveryStateIsSound(states, steps, i);
    } else {
      CancellationIsFinal(states, steps, i, j - 1, id);
      EveryStateIsSound(states, steps, j - 1);
      CancelledStepKeeps(states[j - 1], steps[j - 1].action, steps[j - 1].at, id);
    }
  }

  /** A restart leaves nothing running: every run is recovered once, or its cancellation completed. */
  lemma RestartSettlesEveryRun(states: seq<Machine>, steps: seq<Step>, i: nat, id: string)
    requires Behavior(states, steps) && i < |steps|
    requires steps[i].action.Restart? && !states[i].up && id in states[i].runs
    ensures id in states[i + 1].runs
    ensures var before, after := states[i].runs[id], states[i + 1].runs[id];
            if !before.status.Running? then after == before
            else if before.cancelRequested then after.status.Cancelled?
            else after.status.Queued? && after.recoveryCount == before.recoveryCount + 1
    ensures RecoverInterrupted(states[i + 1].runs, steps[i].at) == states[i + 1].runs
  {
    RecoveryIsIdempotent(states[i].runs, steps[i].at, steps[i].at);
  }

  /** Recovery runs in the constructor and again in `start`; the second time it finds nothing. */
  lemma RecoveryIsIdempotent(runs: RunTable, now: int, later: int)
    ensures RecoverInterrupted(RecoverInterrupted(runs, now), later) == RecoverInterrupted(runs, now)
  {
    var once := RecoverInterrupted(runs, now);
    assert forall id :: id in once ==> RecoverRun(once[id], later) == once[id];
  }

  // The schedule.

  predicate Fires(m: Machine, step: Step) {
    m.up && step.action.ScheduleDue? && Due(m.(now := step.at), step.at)
  }

  lemma LastScheduledGrows(m: Machine, action: Action, at: int)
    requires ScheduleSound(m) && m.now <= at && m.policy.lastScheduledAt.Some?
    ensures var n := Next(m, action, at);
            n.policy.lastScheduledAt.Some? && n.policy.lastScheduledAt.value >= m.policy.lastScheduledAt.value
  {
  }

  lemma {:induction false} FiringIsRemembered(states: seq<Machine>, steps: seq<Step>, i: nat, j: nat)
    requires Behavior(states, steps) && i < j < |states| && Fires(states[i], steps[i])
    ensures states[j].policy.lastScheduledAt.Some?
    ensures states[j].policy.lastScheduledAt.value >= steps[i].at
  {
    if j == i + 1 {
    } else {
      FiringIsRemembered(states, steps, i, j - 1);
      EveryStateIsSound(states, steps, j - 1);
      LastScheduledGrows(states[j - 1], steps[j - 1].action, steps[j - 1].at);
    }
  }

  /**
   Two scheduled firings are at least the interval apart that is in force at the second, whatever
   policy changes, rebindings and downtime lie between: missed intervals never burst.
   */
  lemma FiringsAreSpaced(states: seq<Machine>, steps: seq<Step>, i: nat, j: nat)
    requires Behavior(states, steps) && i < j < |steps|
    requires Fires(states[i], steps[i]) && Fires(states[j], steps[j])
    ensures steps[j].at >= steps[i].at + states[j].policy.interval * MINUTE
  {
    FiringIsRemembered(states, steps, i, j);
    EveryStateIsSound(states, steps, j);
  }

  /** `enabled` and a next run time go together, and the next run is an interval after the last. */
  lemma ScheduleIsCoherent(states: seq<Machine>, steps: seq<Step>, i: nat)
    requires Behavior(states, steps) && i < |states|
    ensures states[i].policy.enabled <==> states[i].policy.nextRunAt.Some?
    ensures states[i].policy.enabled && states[i].policy.lastScheduledAt.Some? ==>
              states[i].policy.nextRunAt.value
              >= states[i].policy.lastScheduledAt.value + states[i].policy.interval * MINUTE
  {
    EveryStateIsSound(states, steps, i);
  }
}
