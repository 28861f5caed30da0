/**
 How runs end, are admitted and are scheduled, in plain terms: each statement reads the next state off
 the state, column by column, without the functions that compute it.
 */
module RunOutcomes {
  import opened Common
  import opened RunMachine
  import opened RunBehaviors

  /** Nothing but the row of this run has changed in the table. */
  ghost predicate OnlyRow(before: RunTable, after: RunTable, id: string) {
    forall k :: k != id ==> Lookup(after, k) == Lookup(before, k)
  }

  /** The run has ended with this status, its admitted calls and this time; its other columns are as before. */
  ghost predicate EndsAs(m: Machine, n: Machine, status: RunStatus, calls: nat, at: int) {
    && m.attempt.Some? && n.attempt.None? && n.up == m.up && n.policy == m.policy && n.spent == m.spent
    && var id := m.attempt.value.runId;
       && id in m.runs && id in n.runs && OnlyRow(m.runs, n.runs, id)
       && n.runs[id] == m.runs[id].(status := status, callsUsed := calls, completedAt := Some(at))
  }

  /**
   A finished run is blocked by its budget if its client has refused a call, else partial if the
   discovery had gaps, else complete. It keeps the calls the client admitted.
   */
  ghost predicate FinishedAs(m: Machine, n: Machine, gaps: bool, at: int) {
    && m.attempt.Some? && m.attempt.value.runId in n.runs
    && var a := m.attempt.value;
       var status := n.runs[a.runId].status;
       && EndsAs(m, n, status, a.used, at)
       && (status.BudgetBlocked? <==> a.exceeded)
       && (status.Partial? <==> !a.exceeded && gaps)
       && (status.Complete? <==> !a.exceeded && !gaps)
  }

  lemma FinishEnds(m: Machine, gaps: bool, at: int)
    requires Sound(m) && m.attempt.Some?
    ensures FinishedAs(m, Next(m, Finish(gaps), at), gaps, at)
  {
  }

  /** A failure, and a completion that is overturned, end the run as failed with its calls. */
  lemma FailureEnds(m: Machine, gaps: bool, delivered: bool, at: int)
    requires Sound(m) && m.attempt.Some?
    ensures EndsAs(m, Next(m, Fail, at), Failed, m.attempt.value.used, at)
    ensures EndsAs(m, Next(m, Overturn(gaps, delivered), at), Failed, m.attempt.value.used, at)
  {
    OverturnedIsFailed(m.(now := at), gaps, at);
  }

  /** A preflight that is not ready ends the run as blocked by its connection, without calls. */
  lemma BlockEnds(m: Machine, at: int)
    requires Sound(m) && m.attempt.Some? && m.attempt.value.used == 0
    ensures EndsAs(m, Next(m, Block, at), ConnectionBlocked, 0, at)
  {
  }

  /** A refused binding ends the run before any call: it has started, and is blocked by its connection. */
  lemma RefusedBindingEnds(m: Machine, id: string, at: int)
    requires Sound(m) && m.up && m.attempt.None? && id in m.runs && m.runs[id].status.Queued?
    ensures var n := Next(Next(m, Start(id), at), Block, at);
            && n.attempt.None? && n.spent == m.spent && OnlyRow(m.runs, n.runs, id) && id in n.runs
            && n.runs[id] == m.runs[id].(status := ConnectionBlocked, callsUsed := 0, startedAt := Some(at),
                                         completedAt := Some(at), cancelRequested := false)
  {
  }

  /**
   An interruption completes the cancel if one was requested, with the calls admitted so far. Else the
   run is queued again, one recovery later, with nothing else of it changed.
   */
  lemma InterruptEnds(m: Machine, at: int)
    requires Sound(m) && m.attempt.Some?
    ensures var n, a := Next(m, Interrupt, at), m.attempt.value;
            && a.runId in m.runs && a.runId in n.runs && n.attempt.None? && OnlyRow(m.runs, n.runs, a.runId)
            && var before, after := m.runs[a.runId], n.runs[a.runId];
               && (after.status.Cancelled? <==> before.cancelRequested)
               && (before.cancelRequested ==> EndsAs(m, n, Cancelled, a.used, at))
               && (!before.cancelRequested ==>
                     after == before.(status := Queued, trigger := Recovered, startedAt := None,
                                      recoveryCount := before.recoveryCount + 1))
  {
  }

  /** A start takes a queued run, and gives it a fresh client with its budget. */
  lemma StartBegins(m: Machine, id: string, at: int)
    requires Sound(m) && m.up && m.attempt.None? && id in m.runs && m.runs[id].status.Queued?
    ensures var n := Next(m, Start(id), at);
            && n.attempt == Some(Attempt(id, m.runs[id].callBudget, 0, false)) && n.spent == m.spent
            && OnlyRow(m.runs, n.runs, id) && id in n.runs
            && n.runs[id] == m.runs[id].(status := Running, startedAt := Some(at), completedAt := None,
                                         cancelRequested := false)
  {
  }

  /** A cancel ends a queued run at once, marks a running one, and leaves any other alone. */
  lemma CancelMarks(m: Machine, id: string, at: int)
    requires Sound(m) && m.up && id in m.runs
    ensures var n, before := Next(m, Cancel(id), at), m.runs[id];
            && OnlyRow(m.runs, n.runs, id) && id in n.runs && n.attempt == m.attempt
            && n.runs[id] == (if before.status.Queued?
                              then before.(status := Cancelled, cancelRequested := true, completedAt := Some(at))
                              else if before.status.Running? then before.(cancelRequested := true)
                              else before)
  {
  }

  /** A progress report stores the calls admitted so far, and interrupts the run if a cancel is pending. */
  lemma ProgressStores(m: Machine, at: int)
    requires Sound(m) && m.attempt.Some?
    ensures var n, a := Next(m, Progress, at), m.attempt.value;
            && a.runId in m.runs
            && (m.runs[a.runId].cancelRequested ==> n == Next(m, Interrupt, at))
            && (!m.runs[a.runId].cancelRequested ==>
                  && n.attempt == m.attempt && OnlyRow(m.runs, n.runs, a.runId) && a.runId in n.runs
                  && n.runs[a.runId] == m.runs[a.runId].(callsUsed := a.used))
  {
  }

  /** What a restart makes of a row: interrupted ones are cancelled if that was asked, else queued again. */
  ghost predicate Recovers(before: Run, after: Run, at: int) {
    && (!before.status.Running? ==> after == before)
    && (before.status.Running? && before.cancelRequested ==>
          after == before.(status := Cancelled, completedAt := Some(at)))
    && (before.status.Running? && !before.cancelRequested ==>
          after == before.(status := Queued, trigger := Recovered, startedAt := None,
                           recoveryCount := before.recoveryCount + 1))
  }

  lemma RestartRecovers(m: Machine, at: int)
    requires Sound(m) && !m.up
    ensures var n := Next(m, Restart, at);
            && n.up && n.attempt.None? && n.policy == m.policy && n.spent == m.spent && n.runs.Keys == m.runs.Keys
            && forall id :: id in m.runs ==> Recovers(m.runs[id], n.runs[id], at)
  {
  }

  /** A rebind needs the expected connection and version and no active run; it turns the schedule off. */
  lemma RebindSets(m: Machine, connection: string, expected: string, version: int, at: int)
    requires m.up
    ensures var n := Next(m, Rebind(connection, expected, version), at);
            && n.runs == m.runs && n.attempt == m.attempt
            && n.policy == if m.policy.connection == expected && m.policy.updatedAt == version
                              && (forall k :: k in m.runs ==> !m.runs[k].status.Queued? && !m.runs[k].status.Running?)
                           then m.policy.(connection := connection, enabled := false, nextRunAt := None,
                                          updatedAt := at)
                           else m.policy
  {
    NoneActive(m.runs);
  }

  // The client of an attempt.

  /** One attempt is in progress in all of the states after i, up to j: it began with step i. */
  ghost predicate AttemptFrom(states: seq<Machine>, i: nat, j: nat) {
    && i < j < |states| && states[i].attempt.None?
    && forall k :: i < k <= j ==> states[k].attempt.Some?
  }

  /** The steps of the attempt that asked for a call while the limit was not, or was, reached. */
  ghost function CallsWithin(states: seq<Machine>, steps: seq<Step>, i: nat, j: nat, refused: bool): set<nat> {
    set k: nat | i < k < j && k < |states| && k < |steps| && steps[k].action.CallSplunk? && states[k].attempt.Some?
                 && (states[k].attempt.value.used == states[k].attempt.value.limit <==> refused)
  }

  lemma CallsGrow(states: seq<Machine>, steps: seq<Step>, i: nat, j: nat, refused: bool)
    requires i < j < |states| && j < |steps| && states[j].attempt.Some?
    ensures CallsWithin(states, steps, i, j + 1, refused)
         == CallsWithin(states, steps, i, j, refused)
            + if steps[j].action.CallSplunk?
                 && (states[j].attempt.value.used == states[j].attempt.value.limit <==> refused) then {j} else {}
  {
  }

  lemma AttemptStep(m: Machine, action: Action, at: int)
    requires WorkerSound(m) && m.attempt.Some? && Next(m, action, at).attempt.Some?
    ensures var a, b := m.attempt.value, Next(m, action, at).attempt.value;
            && b.limit == a.limit && b.runId == a.runId
            && b.used == a.used + (if action.CallSplunk? && a.used != a.limit then 1 else 0)
            && (b.exceeded <==> a.exceeded || (action.CallSplunk? && a.used == a.limit))
  {
  }

  lemma AttemptBegins(m: Machine, action: Action, at: int)
    requires WorkerSound(m) && m.attempt.None? && Next(m, action, at).attempt.Some?
    ensures var b := Next(m, action, at).attempt.value;
            action.Start? && b.runId == action.id && b.used == 0 && !b.exceeded
            && b.runId in m.runs && b.limit == m.runs[b.runId].callBudget
  {
  }

  lemma AttemptStepAlong(states: seq<Machine>, steps: seq<Step>, k: nat)
    requires Behavior(states, steps) && k < |steps| && states[k].attempt.Some? && states[k + 1].attempt.Some?
    ensures var a, b, asked := states[k].attempt.value, states[k + 1].attempt.value, steps[k].action.CallSplunk?;
            && b.used == a.used + (if asked && a.used != a.limit then 1 else 0)
            && (b.exceeded <==> a.exceeded || (asked && a.used == a.limit))
  {
    EveryStateIsSound(states, steps, k);
    AttemptStep(states[k], steps[k].action, steps[k].at);
  }

  /** The client's counters say which calls of the attempt were asked for. */
  ghost predicate ClientFits(a: Attempt, admitted: set<nat>, refused: set<nat>) {
    a.used == |admitted| && (a.exceeded <==> refused != {})
  }

  lemma FirstStateFits(states: seq<Machine>, steps: seq<Step>, i: nat)
    requires Behavior(states, steps) && AttemptFrom(states, i, i + 1)
    ensures steps[i].action.Start?
    ensures ClientFits(states[i + 1].attempt.value, CallsWithin(states, steps, i, i + 1, false),
                       CallsWithin(states, steps, i, i + 1, true))
  {
    EveryStateIsSound(states, steps, i);
    assert states[i + 1].attempt.Some? && states[i + 1] == Next(states[i], steps[i].action, steps[i].at);
    AttemptBegins(states[i], steps[i].action, steps[i].at);
    assert CallsWithin(states, steps, i, i + 1, false) == {} && CallsWithin(states, steps, i, i + 1, true) == {};
  }

  lemma NextStateFits(states: seq<Machine>, steps: seq<Step>, i: nat, k: nat)
    requires Behavior(states, steps) && i < k < |steps| && states[k].attempt.Some? && states[k + 1].attempt.Some?
    requires ClientFits(states[k].attempt.value, CallsWithin(states, steps, i, k, false),
                        CallsWithin(states, steps, i, k, true))
    ensures ClientFits(states[k + 1].attempt.value, CallsWithin(states, steps, i, k + 1, false),
                       CallsWithin(states, steps, i, k + 1, true))
  {
    AttemptStepAlong(states, steps, k);
    CallsGrow(states, steps, i, k, false);
    CallsGrow(states, steps, i, k, true);
    assert k !in CallsWithin(states, steps, i, k, false);
  }

  /**
   Along every behaviour, an attempt has used as many calls as it asked for below its limit, and its
   client has refused one if and only if it asked for one at the limit.
   */
  lemma {:induction false} ClientCounts(states: seq<Machine>, steps: seq<Step>, i: nat, j: nat)
    requires Behavior(states, steps) && AttemptFrom(states, i, j)
    ensures steps[i].action.Start?
    ensures ClientFits(states[j].attempt.value, CallsWithin(states, steps, i, j, false),
                       CallsWithin(states, steps, i, j, true))
    decreases j
  {
    if j == i + 1 {
      FirstStateFits(states, steps, i);
    } else {
      ClientCounts(states, steps, i, j - 1);
      NextStateFits(states, steps, i, j - 1);
    }
  }

  /**
   Along every behaviour a finished run is blocked by its budget if and only if its attempt asked for a
   call at the limit, and stores the number of calls it asked for below it.
   */
  lemma BlockedExactlyWhenRefused(states: seq<Machine>, steps: seq<Step>, i: nat, j: nat, gaps: bool)
    requires Behavior(states, steps) && AttemptFrom(states, i, j)
    requires j < |steps| && steps[j].action == Finish(gaps)
    ensures var id := states[j].attempt.value.runId;
            && id in states[j + 1].runs
            && (states[j + 1].runs[id].status.BudgetBlocked? <==> CallsWithin(states, steps, i, j, true) != {})
            && states[j + 1].runs[id].callsUsed == |CallsWithin(states, steps, i, j, false)|
  {
    ClientCounts(states, steps, i, j);
    EveryStateIsSound(states, steps, j);
    FinishEnds(states[j], gaps, steps[j].at);
    assert states[j + 1] == Next(states[j], steps[j].action, steps[j].at);
  }

  // Admission and schedule.

  /** The calls a discovery needs at most. */
  predicate Suffices(budget: nat, depth: Depth) {
    (depth.Quick? ==> budget >= 4) && (depth.Standard? ==> budget >= 9) && (depth.Deep? ==> budget >= 12)
  }

  /** The runs of the day that have ended otherwise than by a cancel, run, or have stored calls. */
  ghost function CountedToday(runs: RunTable, now: int): set<string> {
    set id | id in runs && runs[id].createdAt / 86400 == now / 86400
             && (runs[id].callsUsed > 0 || !(runs[id].status.Cancelled? || runs[id].status.Queued?))
  }

  ghost predicate Admissible(m: Machine, id: string, depth: Depth, valid: bool, at: int) {
    && valid && Suffices(m.policy.maxCalls, depth)
    && (forall k :: k in m.runs ==> !m.runs[k].status.Queued? && !m.runs[k].status.Running?)
    && |CountedToday(m.runs, at)| < m.policy.maxRuns
    && id !in m.runs
  }

  lemma CountedIsUsage(m: Machine, at: int)
    requires forall k :: k in m.runs ==> m.runs[k].createdAt <= at
    ensures UsageToday(m.runs, at) == |CountedToday(m.runs, at)|
  {
    assert RunsSince(m.runs, Day(at) * DAY) == CountedToday(m.runs, at);
  }

  lemma NoneActive(runs: RunTable)
    ensures !HasActive(runs) <==> forall k :: k in runs ==> !runs[k].status.Queued? && !runs[k].status.Running?
  {
  }

  lemma CheckAdmits(m: Machine, id: string, depth: Option<Depth>, valid: bool, at: int)
    requires (forall k :: k in m.runs ==> m.runs[k].createdAt <= at)
    ensures var chosen := if depth.Some? then depth.value else m.policy.depth;
            if Admissible(m, id, chosen, valid, at) then EnqueueCheck(m, id, depth, valid, at) == Ok(chosen)
            else EnqueueCheck(m, id, depth, valid, at).Err?
  {
    CountedIsUsage(m, at);
    NoneActive(m.runs);
  }

  /** Which request is admitted, and which run it creates; a refused one changes nothing. */
  lemma EnqueueAdmits(m: Machine, id: string, trigger: Trigger, depth: Option<Depth>, valid: bool, at: int)
    requires Sound(m) && m.now <= at && m.up
    ensures var n := Next(m, Enqueue(id, trigger, depth, valid), at);
            var chosen := if depth.Some? then depth.value else m.policy.depth;
            if Admissible(m, id, chosen, valid, at)
            then && OnlyRow(m.runs, n.runs, id)
                 && Lookup(n.runs, id) == Some(Run(trigger, chosen, Queued, m.policy.maxCalls, 0, false, 0, at, None,
                                                   None, m.policy.connection))
                 && n.policy == m.policy && n.attempt == m.attempt
            else n == m.(now := at)
  {
    CheckAdmits(m.(now := at), id, depth, valid, at);
  }

  /** The schedule is due: enabled, its time has come, and nothing is queued or running. */
  ghost predicate IsDue(m: Machine, at: int) {
    && m.policy.enabled && m.policy.nextRunAt.Some? && m.policy.nextRunAt.value <= at
    && forall k :: k in m.runs ==> !m.runs[k].status.Queued? && !m.runs[k].status.Running?
  }

  /**
   A tick that is not due changes nothing. A due one enqueues a scheduled run of the policy's depth
   where that is admissible, and in any case moves the schedule one interval past now.
   */
  lemma TickSchedules(m: Machine, id: string, valid: bool, at: int)
    requires Sound(m) && m.now <= at && m.up
    ensures var n := Next(m, ScheduleDue(id, valid), at);
            if !IsDue(m, at) then n == m.(now := at)
            else
              && n.policy == m.policy.(lastScheduledAt := Some(at), updatedAt := at,
                                       nextRunAt := Some(at + m.policy.interval * 60))
              && (if Admissible(m, id, m.policy.depth, valid, at)
                  then OnlyRow(m.runs, n.runs, id)
                       && Lookup(n.runs, id) == Some(Run(Scheduled, m.policy.depth, Queued, m.policy.maxCalls, 0, false,
                                                         0, at, None, None, m.policy.connection))
                  else n.runs == m.runs)
  {
    CheckAdmits(m.(now := at), id, None, valid, at);
    NoneActive(m.runs);
  }

  /** The next run time a policy update leaves. */
  ghost predicate NextRunFits(before: Policy, v: PolicyUpdate, after: Option<int>, at: int) {
    && (after.None? <==> !v.enabled)
    && (v.enabled && before.enabled && before.interval == v.interval && before.nextRunAt.Some? ==>
          after == before.nextRunAt)
    && (v.enabled && (!before.enabled || before.interval != v.interval || before.nextRunAt.None?) ==>
          after == Some(at + v.interval * 60))
  }

  /**
   A policy is refused if its budget is below its depth. Else it is stored, with the schedule kept only
   if it was enabled with the same interval, and started one interval from now otherwise.
   */
  lemma UpdateSetsPolicy(m: Machine, v: PolicyUpdate, at: int)
    requires m.up
    ensures var n := Next(m, ChangePolicy(v), at);
            && n.runs == m.runs && n.attempt == m.attempt && n.spent == m.spent
            && (!Suffices(v.maxCalls, v.depth) ==> n.policy == m.policy)
            && (Suffices(v.maxCalls, v.depth) ==>
                  && NextRunFits(m.policy, v, n.policy.nextRunAt, at)
                  && n.policy == m.policy.(enabled := v.enabled, interval := v.interval, depth := v.depth,
                                           maxCalls := v.maxCalls, maxRuns := v.maxRuns, updatedAt := at,
                                           nextRunAt := n.policy.nextRunAt))
  {
  }
}
