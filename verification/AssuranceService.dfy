/**
 The engine in place: the store's statements, the budgeted client and the service, each method
 proved to be the step of `RunMachine` it stands for and to keep the machine's invariant.
 */
module AssuranceService {
  import opened Common
  import opened RunMachine
  import RunOutcomes

  function RunningIds(runs: RunTable): set<string> {
    set id | id in runs && runs[id].status.Running?
  }

  function CancelPendingIds(runs: RunTable): set<string> {
    set id | id in runs && runs[id].status.Running? && runs[id].cancelRequested
  }

  /** The first statement of `recover_interrupted`. */
  function CompleteCancellations(runs: RunTable, now: int): RunTable {
    map id | id in runs ::
      if runs[id].status.Running? && runs[id].cancelRequested
      then runs[id].(status := Cancelled, completedAt := Some(now)) else runs[id]
  }

  /** The second statement, once the first has left only runs without a pending cancellation. */
  function RequeueRunning(runs: RunTable): RunTable {
    map id | id in runs ::
      if runs[id].status.Running? && !runs[id].cancelRequested
      then runs[id].(status := Queued, trigger := Recovered, startedAt := None,
                     recoveryCount := runs[id].recoveryCount + 1)
      else runs[id]
  }

  lemma RecoveryInTwoStatements(runs: RunTable, now: int)
    ensures RequeueRunning(CompleteCancellations(runs, now)) == RecoverInterrupted(runs, now)
    ensures |CancelPendingIds(runs)| + |RunningIds(CompleteCancellations(runs, now))| == |RunningIds(runs)|
  {
    RequeueAfterCompletion(runs, now);
    var pending, left := CancelPendingIds(runs), RunningIds(CompleteCancellations(runs, now));
    assert pending !! left;
    assert RunningIds(runs) == pending + left;
  }

  lemma RequeueAfterCompletion(runs: RunTable, now: int)
    ensures RequeueRunning(CompleteCancellations(runs, now)) == RecoverInterrupted(runs, now)
  {
    var first := CompleteCancellations(runs, now);
    var second := RequeueRunning(first);
    forall id | id in runs
      ensures second[id] == RecoverRun(runs[id], now)
    {
      assert first[id] == if runs[id].status.Running? && runs[id].cancelRequested
                          then runs[id].(status := Cancelled, completedAt := Some(now)) else runs[id];
    }
    assert second.Keys == runs.Keys;
  }

  /** The `assurance_runs` and `assurance_policy` tables. */
  class RunStore {
    var runs: RunTable
    var policy: Policy

    constructor (policy: Policy)
      ensures this.policy == policy && runs == map[]
    {
      this.policy := policy;
      runs := map[];
    }

    method Create(id: string, trigger: Trigger, depth: Depth, now: int)
      modifies this`runs
      ensures runs == CreateRun(old(runs), id, trigger, depth, policy, now)
    {
      runs := runs[id := Run(trigger, depth, Queued, policy.maxCalls, 0, false, 0, now, None, None,
                             policy.connection)];
    }

    method SetRunning(id: string, now: int) returns (marked: bool)
      modifies this`runs
      ensures runs == MarkRunning(old(runs), id, now)
      ensures marked <==> id in old(runs) && old(runs)[id].status.Queued?
    {
      marked := id in runs && runs[id].status.Queued?;
      if marked {
        runs := runs[id := runs[id].(status := Running, startedAt := Some(now), completedAt := None,
                                     cancelRequested := false)];
      }
    }

    method SetProgress(id: string, callsUsed: nat)
      modifies this`runs
      ensures runs == UpdateProgress(old(runs), id, callsUsed)
    {
      if id in runs && runs[id].status.Running? {
        runs := runs[id := runs[id].(callsUsed := callsUsed)];
      }
    }

    /** `complete_run` and `fail_run` write the same modelled columns. */
    method Conclude(id: string, status: RunStatus, callsUsed: nat, now: int)
      modifies this`runs
      ensures runs == CompleteRun(old(runs), id, status, callsUsed, now)
    {
      if id in runs {
        runs := runs[id := runs[id].(status := status, callsUsed := callsUsed, completedAt := Some(now))];
      }
    }

    method Requeue(id: string)
      modifies this`runs
      ensures runs == RequeueForRestart(old(runs), id)
    {
      if id in runs {
        runs := runs[id := runs[id].(status := Queued, trigger := Recovered, startedAt := None,
                                     recoveryCount := runs[id].recoveryCount + 1)];
      }
    }

    method CancelRequest(id: string, now: int)
      modifies this`runs
      ensures runs == RequestCancel(old(runs), id, now)
    {
      if id !in runs {
        return;
      }
      var current := runs[id];
      if current.status.Queued? {
        runs := runs[id := current.(status := Cancelled, cancelRequested := true, completedAt := Some(now))];
      } else if current.status.Running? {
        runs := runs[id := current.(cancelRequested := true)];
      }
    }

    /** Two statements over the whole table; neither undoes nor repeats the other's work. */
    method Recover(now: int) returns (touched: nat)
      modifies this`runs
      ensures runs == RecoverInterrupted(old(runs), now)
      ensures touched == |RunningIds(old(runs))|
    {
      RecoveryInTwoStatements(runs, now);
      var cancelled := |CancelPendingIds(runs)|;
      runs := CompleteCancellations(runs, now);
      var recovered := |RunningIds(runs)|;
      runs := RequeueRunning(runs);
      touched := cancelled + recovered;
    }

    method SetPolicy(v: PolicyUpdate, now: int)
      modifies this`policy
      ensures policy == RunMachine.UpdatePolicy(old(policy), v, now)
    {
      var reset := v.enabled && (!policy.enabled || v.interval != policy.interval);
      var next := policy.nextRunAt;
      if !v.enabled {
        next := None;
      } else if reset || next.None? {
        next := Some(now + v.interval * MINUTE);
      }
      policy := policy.(enabled := v.enabled, interval := v.interval, depth := v.depth, maxCalls := v.maxCalls,
                        maxRuns := v.maxRuns, nextRunAt := next, updatedAt := now);
    }

    method SetBinding(connection: string, expectedConnection: string, expectedUpdatedAt: int, now: int)
      returns (r: Result<Policy>)
      modifies this`policy
      ensures r.Ok? <==> old(policy).connection == expectedConnection && old(policy).updatedAt == expectedUpdatedAt
      ensures r.Err? ==> policy == old(policy)
      ensures r.Ok? ==>
                && r.value == policy && policy.connection == connection && policy.updatedAt == now
                && !policy.enabled && policy.nextRunAt.None?
                && policy.lastScheduledAt == old(policy).lastScheduledAt
                && policy.interval == old(policy).interval && policy.depth == old(policy).depth
                && policy.maxCalls == old(policy).maxCalls && policy.maxRuns == old(policy).maxRuns
    {
      if policy.connection != expectedConnection || policy.updatedAt != expectedUpdatedAt {
        return Err("The assurance policy or connection binding changed; refresh before rebinding");
      }
      policy := policy.(connection := connection, enabled := false, nextRunAt := None, updatedAt := now);
      return Ok(policy);
    }

    method Advance(now: int)
      modifies this`policy
      ensures policy == AdvanceSchedule(old(policy), now)
    {
      policy := policy.(lastScheduledAt := Some(now), nextRunAt := Some(now + policy.interval * MINUTE),
                        updatedAt := now);
    }
  }

  /** The hard call ceiling around one attempt's client. */
  class BudgetedSplunkClient {
    const limit: nat
    var callsUsed: nat
    var exceeded: bool

    constructor (limit: nat)
      ensures this.limit == limit && callsUsed == 0 && !exceeded
    {
      this.limit := limit;
      callsUsed := 0;
      exceeded := false;
    }

    /** Runs under the client's lock, so any number of concurrent callers take turns here. */
    method Call() returns (admitted: bool)
      modifies this
      ensures admitted <==> old(callsUsed) < limit
      ensures callsUsed == old(callsUsed) + if admitted then 1 else 0
      ensures exceeded <==> old(exceeded) || !admitted
      ensures old(callsUsed) <= limit ==> callsUsed <= limit
    {
      if callsUsed >= limit {
        exceeded := true;
        admitted := false;
      } else {
        callsUsed := callsUsed + 1;
        admitted := true;
      }
    }
  }

  /** The start of an attempt; with a refused binding it is blocked at once, which is two steps at one moment. */
  function Begun(m: Machine, id: string, connectionValid: bool, at: int): Machine {
    var started := Next(m, RunMachine.Start(id), at);
    if connectionValid then started else Next(started, Block, at)
  }

  lemma BegunIsSound(m: Machine, id: string, connectionValid: bool, at: int)
    requires Sound(m) && m.now <= at
    ensures Sound(Begun(m, id, connectionValid, at)) && Begun(m, id, connectionValid, at).runs.Keys == m.runs.Keys
  {
    NextKeepsSound(m, RunMachine.Start(id), at);
    NextKeepsSound(Next(m, RunMachine.Start(id), at), Block, at);
  }

  /** The call of an attempt, seen from the client and the account. */
  lemma CallSteps(m: Machine, at: int)
    requires Sound(m) && m.now <= at && m.attempt.Some?
    ensures m.attempt.value.runId in m.spent && m.up && Sound(Next(m, CallSplunk, at))
  {
    NextKeepsSound(m, CallSplunk, at);
  }

  class Service {
    const store: RunStore
    var client: BudgetedSplunkClient?
    var activeRunId: string
    var online: bool
    ghost var now: int
    ghost var spent: map<string, nat>
    ghost var ceiling: nat

    constructor (store: RunStore, now: int)
      requires store.runs == map[] && !store.policy.enabled
      requires store.policy.nextRunAt.None? && store.policy.lastScheduledAt.None?
      ensures this.store == store && Initial(State()) && State().now == now && Valid()
    {
      this.store := store;
      client := null;
      activeRunId := "";
      online := false;
      this.now := now;
      spent := map[];
      ceiling := store.policy.maxRuns;
      new;
      InitiallySound(State());
    }

    /** The invariant of the machine: everything `RunBehaviors` derives from it holds of this object. */
    ghost predicate Valid()
      reads this, store, client
    {
      Sound(State())
    }

    ghost function State(): Machine
      reads this, store, client
    {
      Machine(store.runs, store.policy,
              if client == null then None
              else Some(Attempt(activeRunId, client.limit, client.callsUsed, client.exceeded)),
              online, now, spent, ceiling)
    }

    method StartUp(at: int)
      requires Valid() && now <= at && !online && client == null
      modifies this, store
      ensures Valid() && State() == Next(old(State()), Restart, at)
      ensures client == null
    {
      NextKeepsSound(State(), Restart, at);
      RecoverAndOpen(at);
    }

    method RecoverAndOpen(at: int)
      requires !online && client == null
      modifies this`now, this`online, store`runs
      ensures State() == Next(old(State()), Restart, at)
    {
      now := at;
      var _ := store.Recover(at);
      online := true;
    }

    method EnqueueRequest(id: string, trigger: Trigger, depth: Option<Depth>, connectionValid: bool, at: int)
      returns (r: Result<Depth>)
      requires Valid() && now <= at && online
      modifies this`now, this`spent, store
      ensures Valid() && State() == Next(old(State()), Enqueue(id, trigger, depth, connectionValid), at)
      ensures r == EnqueueCheck(old(State()), id, depth, connectionValid, at)
    {
      NextKeepsSound(State(), Enqueue(id, trigger, depth, connectionValid), at);
      r := AdmitAndCreate(id, trigger, depth, connectionValid, at);
    }

    method AdmitAndCreate(id: string, trigger: Trigger, depth: Option<Depth>, connectionValid: bool, at: int)
      returns (r: Result<Depth>)
      requires online
      modifies this`now, this`spent, store
      ensures State() == Next(old(State()), Enqueue(id, trigger, depth, connectionValid), at)
      ensures r == EnqueueCheck(old(State()), id, depth, connectionValid, at)
    {
      r := Admit(id, depth, connectionValid, at);
      now := at;
      if r.Ok? {
        store.Create(id, trigger, r.value, at);
        spent := spent[id := 0];
      }
    }

    /** The refusals of `enqueue`, in order. */
    method Admit(id: string, depth: Option<Depth>, connectionValid: bool, at: int) returns (r: Result<Depth>)
      ensures r == EnqueueCheck(State(), id, depth, connectionValid, at)
    {
      var selected := if depth.Some? then depth.value else store.policy.depth;
      if !connectionValid {
        return Err("The connection binding is no longer valid");
      }
      if store.policy.maxCalls < CallEstimate(selected) {
        return Err("The configured budget is below the estimate");
      }
      if HasActive(store.runs) {
        return Err("A continuous assurance run is already queued or running");
      }
      if UsageToday(store.runs, at) >= store.policy.maxRuns {
        return Err("The daily assurance limit has been reached");
      }
      if id in store.runs {
        return Err("Run ids are unique");
      }
      return Ok(selected);
    }

    method CheckSchedule(id: string, connectionValid: bool, at: int)
      requires Valid() && now <= at && online
      modifies this`now, this`spent, store
      ensures Valid() && State() == Next(old(State()), ScheduleDue(id, connectionValid), at)
    {
      NextKeepsSound(State(), ScheduleDue(id, connectionValid), at);
      var policy := store.policy;
      if !policy.enabled || policy.nextRunAt.None? || HasActive(store.runs) || policy.nextRunAt.value > at {
        now := at;
        return;
      }
      if UsageToday(store.runs, at) < policy.maxRuns {
        var _ := EnqueueRequest(id, Scheduled, None, connectionValid, at);
      }
      now := at;
      store.Advance(at);
    }

    method PutPolicy(v: PolicyUpdate, at: int) returns (accepted: bool)
      requires Valid() && now <= at && online
      modifies this`now, this`ceiling, store
      ensures Valid() && State() == Next(old(State()), ChangePolicy(v), at)
      ensures accepted <==> v.maxCalls >= CallEstimate(v.depth)
    {
      NextKeepsSound(State(), ChangePolicy(v), at);
      now := at;
      accepted := v.maxCalls >= CallEstimate(v.depth);
      if accepted {
        store.SetPolicy(v, at);
        ceiling := if v.maxRuns > ceiling then v.maxRuns else ceiling;
      }
    }

    method RebindTarget(connection: string, expectedConnection: string, expectedUpdatedAt: int, at: int)
      requires Valid() && now <= at && online
      modifies this`now, store
      ensures Valid() && State() == Next(old(State()), Rebind(connection, expectedConnection, expectedUpdatedAt), at)
    {
      NextKeepsSound(State(), Rebind(connection, expectedConnection, expectedUpdatedAt), at);
      RebindUnlessActive(connection, expectedConnection, expectedUpdatedAt, at);
    }

    method RebindUnlessActive(connection: string, expectedConnection: string, expectedUpdatedAt: int, at: int)
      requires online
      modifies this`now, store`policy
      ensures State() == Next(old(State()), Rebind(connection, expectedConnection, expectedUpdatedAt), at)
    {
      now := at;
      if !HasActive(store.runs) {
        var _ := store.SetBinding(connection, expectedConnection, expectedUpdatedAt, at);
      }
    }

    /** The head of `_execute`: everything before its first suspension. */
    method BeginExecute(id: string, connectionValid: bool, at: int)
      requires Valid() && now <= at && online && client == null
      modifies this, store
      ensures Valid() && State() == Begun(old(State()), id, connectionValid, at)
      ensures client == null || fresh(client)
    {
      BegunIsSound(State(), id, connectionValid, at);
      MarkAndConnect(id, connectionValid, at);
    }

    method MarkAndConnect(id: string, connectionValid: bool, at: int)
      requires online && client == null
      modifies this, store
      ensures State() == Begun(old(State()), id, connectionValid, at)
      ensures client == null || fresh(client)
    {
      now := at;
      var running := store.SetRunning(id, at);
      if !running {
        return;
      }
      if !connectionValid {
        store.Conclude(id, ConnectionBlocked, 0, at);
        return;
      }
      activeRunId := id;
      client := new BudgetedSplunkClient(store.runs[id].callBudget);
    }

    /** The client factory or the binding check raises: the run stays running, and nothing executes it. */
    method BeginFails(id: string, at: int)
      requires Valid() && now <= at && online && client == null
      modifies this`now, store
      ensures Valid() && State() == Next(old(State()), Strand(id), at)
    {
      NextKeepsSound(State(), Strand(id), at);
      now := at;
      var _ := store.SetRunning(id, at);
    }

    method CallThroughBudget(at: int) returns (admitted: bool)
      requires Valid() && now <= at && online && client != null
      modifies this`now, this`spent, client
      ensures Valid() && State() == Next(old(State()), CallSplunk, at)
      ensures admitted <==> old(client.callsUsed) < client.limit
    {
      CallSteps(State(), at);
      admitted := CountCall(at);
    }

    method CountCall(at: int) returns (admitted: bool)
      requires online && client != null && activeRunId in spent
      modifies this`now, this`spent, client
      ensures State() == Next(old(State()), CallSplunk, at)
      ensures admitted <==> old(client.callsUsed) < client.limit
    {
      now := at;
      admitted := client.Call();
      spent := spent[activeRunId := spent[activeRunId] + if admitted then 1 else 0];
    }

    /** Raises the pending cancellation instead of reporting when there is one. */
    method Report(at: int) returns (interrupted: bool)
      requires Valid() && now <= at && online && client != null
      modifies this, store
      ensures Valid() && State() == Next(old(State()), Progress, at)
      ensures interrupted <==> old(activeRunId in store.runs && store.runs[activeRunId].cancelRequested)
    {
      NextKeepsSound(State(), Progress, at);
      interrupted := StoreOrRaise(at);
    }

    method StoreOrRaise(at: int) returns (interrupted: bool)
      requires online && client != null
      modifies this, store
      ensures State() == Next(old(State()), Progress, at)
      ensures interrupted <==> old(activeRunId in store.runs && store.runs[activeRunId].cancelRequested)
    {
      interrupted := activeRunId in store.runs && store.runs[activeRunId].cancelRequested;
      if interrupted {
        SettleCancelled(at);
      } else {
        now := at;
        store.SetProgress(activeRunId, client.callsUsed);
      }
    }

    /** Every regular end of an attempt: the row is concluded and the client is dropped. */
    method EndAttempt(status: RunStatus, used: nat, at: int)
      requires client != null
      modifies this, store
      ensures State() == Ended(old(State()).(now := at), status, used, at)
    {
      now := at;
      store.Conclude(activeRunId, status, used, at);
      client := null;
    }

    method PreflightBlocked(at: int)
      requires Valid() && now <= at && online && client != null && client.callsUsed == 0
      modifies this, store
      ensures Valid() && State() == Next(old(State()), Block, at)
    {
      NextKeepsSound(State(), Block, at);
      EndAttempt(ConnectionBlocked, 0, at);
    }

    method FinishRun(gaps: bool, at: int)
      requires Valid() && now <= at && online && client != null
      modifies this, store
      ensures Valid() && State() == Next(old(State()), Finish(gaps), at)
      ensures RunOutcomes.FinishedAs(old(State()), State(), gaps, at)
    {
      NextKeepsSound(State(), Finish(gaps), at);
      RunOutcomes.FinishEnds(State(), gaps, at);
      Conclude(gaps, at);
    }

    /** Blocked by the budget before partial before complete. */
    method Conclude(gaps: bool, at: int)
      requires Valid() && online && client != null
      modifies this, store
      ensures State() == Next(old(State()), Finish(gaps), at)
    {
      var status := Complete;
      if client.exceeded {
        status := BudgetBlocked;
      } else if gaps {
        status := Partial;
      }
      EndAttempt(status, client.callsUsed, at);
    }

    /** The run is concluded and may have been handed over when something raises: it ends as failed. */
    method FinishOverturned(gaps: bool, delivered: bool, at: int)
      requires Valid() && now <= at && online && client != null
      modifies this, store
      ensures Valid() && State() == Next(old(State()), Overturn(gaps, delivered), at)
    {
      NextKeepsSound(State(), Overturn(gaps, delivered), at);
      ConcludeTwice(gaps, at);
    }

    method ConcludeTwice(gaps: bool, at: int)
      requires client != null
      modifies this, store
      ensures State() == Overturned(old(State()).(now := at), gaps, at)
    {
      var status := if client.exceeded then BudgetBlocked else if gaps then Partial else Complete;
      store.Conclude(activeRunId, status, client.callsUsed, at);
      EndAttempt(Failed, client.callsUsed, at);
    }

    method OnError(at: int)
      requires Valid() && now <= at && online && client != null
      modifies this, store
      ensures Valid() && State() == Next(old(State()), Fail, at)
    {
      NextKeepsSound(State(), Fail, at);
      EndAttempt(Failed, client.callsUsed, at);
    }

    /** The `CancelledError` handler. */
    method OnCancelled(at: int)
      requires Valid() && now <= at && online && client != null
      modifies this, store
      ensures Valid() && State() == Next(old(State()), Interrupt, at)
      ensures client == null
    {
      NextKeepsSound(State(), Interrupt, at);
      SettleCancelled(at);
    }

    method SettleCancelled(at: int)
      requires online && client != null
      modifies this, store
      ensures State() == Interrupted(old(State()).(now := at), at)
      ensures client == null
    {
      now := at;
      if activeRunId in store.runs && store.runs[activeRunId].cancelRequested {
        store.Conclude(activeRunId, Cancelled, client.callsUsed, at);
      } else {
        store.Requeue(activeRunId);
      }
      client := null;
    }

    /** Records the request and, when the run is the active one, cancels its task. */
    method CancelRun(id: string, at: int)
      requires Valid() && now <= at && online
      modifies this, store
      ensures Valid()
      ensures var asked := Next(old(State()), RunMachine.Cancel(id), at);
              State() == if asked.attempt.Some? && asked.attempt.value.runId == id && id in asked.runs
                         then Next(asked, Interrupt, at) else asked
    {
      NextKeepsSound(State(), RunMachine.Cancel(id), at);
      now := at;
      store.CancelRequest(id, at);
      if client != null && activeRunId == id && id in store.runs {
        OnCancelled(at);
      }
    }

    /** A cooperative stop: the active task is cancelled before the process ends. */
    method Stop(at: int)
      requires Valid() && now <= at && online
      modifies this, store
      ensures Valid() && State() == Next(Next(old(State()), Interrupt, at), Crashed, at)
    {
      NextKeepsSound(State(), Interrupt, at);
      NextKeepsSound(Next(State(), Interrupt, at), Crashed, at);
      InterruptAndClose(at);
    }

    method InterruptAndClose(at: int)
      requires online
      modifies this, store
      ensures State() == Next(Next(old(State()), Interrupt, at), Crashed, at)
    {
      now := at;
      if client != null {
        SettleCancelled(at);
      }
      online := false;
    }
  }
}
