/**
 Durable assurance runs as a transition system. A step is the code between two suspension points of
 the event loop. The completion callback the application installs never suspends, so completing a
 run and calling it is one step; `RunLimits` shows what depends on that.

 The pure functions are the store's statements (`assurance_runs`, `assurance_policy`) and the
 service's decisions; `AssuranceService` in its own module executes them in place.
 */
module RunMachine {
  import opened Common

  const MINUTE := 60
  const DAY := 24 * 60 * MINUTE

  datatype RunStatus = Queued | Running | Complete | Partial | BudgetBlocked | ConnectionBlocked
                     | Cancelled | Failed

  datatype Trigger = Manual | Scheduled | Recovered

  datatype Run = Run(trigger: Trigger, depth: Depth, status: RunStatus, callBudget: nat, callsUsed: nat,
                     cancelRequested: bool, recoveryCount: nat, createdAt: int, startedAt: Option<int>,
                     completedAt: Option<int>, connection: string)

  type RunTable = map<string, Run>

  datatype Policy = Policy(enabled: bool, interval: nat, depth: Depth, maxCalls: nat, maxRuns: nat,
                           nextRunAt: Option<int>, lastScheduledAt: Option<int>, connection: string,
                           updatedAt: int)

  datatype PolicyUpdate = PolicyUpdate(enabled: bool, interval: nat, depth: Depth, maxCalls: nat, maxRuns: nat)

  predicate IsActive(r: Run) {
    r.status.Queued? || r.status.Running?
  }

  predicate Terminal(r: Run) {
    !IsActive(r)
  }

  function Day(t: int): int {
    t / DAY
  }

  /** The calls a discovery of this depth may need. */
  function CallEstimate(d: Depth): nat {
    match d
    case Quick => 4
    case Standard => 9
    case Deep => 12
  }

  // The store.

  function CreateRun(runs: RunTable, id: string, trigger: Trigger, depth: Depth, p: Policy, now: int): RunTable {
    runs[id := Run(trigger, depth, Queued, p.maxCalls, 0, false, 0, now, None, None, p.connection)]
  }

  predicate HasActive(runs: RunTable) {
    exists id :: id in runs && IsActive(runs[id])
  }

  function MarkRunning(runs: RunTable, id: string, now: int): RunTable {
    if id in runs && runs[id].status.Queued?
    then runs[id := runs[id].(status := Running, startedAt := Some(now), completedAt := None,
                              cancelRequested := false)]
    else runs
  }

  function UpdateProgress(runs: RunTable, id: string, callsUsed: nat): RunTable {
    if id in runs && runs[id].status.Running? then runs[id := runs[id].(callsUsed := callsUsed)] else runs
  }

  function CompleteRun(runs: RunTable, id: string, status: RunStatus, callsUsed: nat, now: int): RunTable {
    if id in runs
    then runs[id := runs[id].(status := status, callsUsed := callsUsed, completedAt := Some(now))]
    else runs
  }

  /** No guard on the status, as in the source. */
  function RequeueForRestart(runs: RunTable, id: string): RunTable {
    if id in runs
    then runs[id := runs[id].(status := Queued, trigger := Recovered, startedAt := None,
                              recoveryCount := runs[id].recoveryCount + 1)]
    else runs
  }

  function RequestCancel(runs: RunTable, id: string, now: int): RunTable {
    if id !in runs then runs
    else if runs[id].status.Queued?
    then runs[id := runs[id].(status := Cancelled, cancelRequested := true, completedAt := Some(now))]
    else if runs[id].status.Running? then runs[id := runs[id].(cancelRequested := true)]
    else runs
  }

  function RecoverRun(r: Run, now: int): Run {
    if !r.status.Running? then r
    else if r.cancelRequested then r.(status := Cancelled, completedAt := Some(now))
    else r.(status := Queued, trigger := Recovered, startedAt := None, recoveryCount := r.recoveryCount + 1)
  }

  function RecoverInterrupted(runs: RunTable, now: int): RunTable {
    map id | id in runs :: RecoverRun(runs[id], now)
  }

  /** What `usage_today` counts. */
  predicate Counts(r: Run) {
    (!r.status.Cancelled? && !r.status.Queued?) || r.callsUsed > 0
  }

  function RunsSince(runs: RunTable, start: int): set<string> {
    set id | id in runs && runs[id].createdAt >= start && Counts(runs[id])
  }

  function UsageToday(runs: RunTable, now: int): nat {
    |RunsSince(runs, Day(now) * DAY)|
  }

  function UpdatePolicy(p: Policy, v: PolicyUpdate, now: int): Policy {
    var reset := v.enabled && (!p.enabled || v.interval != p.interval);
    var next :=
      if !v.enabled then None
      else if reset || p.nextRunAt.None? then Some(now + v.interval * MINUTE)
      else p.nextRunAt;
    p.(enabled := v.enabled, interval := v.interval, depth := v.depth, maxCalls := v.maxCalls,
       maxRuns := v.maxRuns, nextRunAt := next, updatedAt := now)
  }

  function RebindPolicy(p: Policy, connection: string, expectedConnection: string, expectedUpdatedAt: int,
                        now: int): Result<Policy> {
    if p.connection == expectedConnection && p.updatedAt == expectedUpdatedAt
    then Ok(p.(connection := connection, enabled := false, nextRunAt := None, updatedAt := now))
    else Err("The assurance policy or connection binding changed; refresh before rebinding")
  }

  function AdvanceSchedule(p: Policy, now: int): Policy {
    p.(lastScheduledAt := Some(now), nextRunAt := Some(now + p.interval * MINUTE), updatedAt := now)
  }

  // The service.

  /** The fresh budgeted client of one execution attempt. */
  datatype Attempt = Attempt(runId: string, limit: nat, used: nat, exceeded: bool)

  /**
   `spent` and `ceiling` are history: the calls admitted for a run over all its attempts, which the
   stored `callsUsed` forgets, and the largest daily maximum that was ever in force.
   */
  datatype Machine = Machine(runs: RunTable, policy: Policy, attempt: Option<Attempt>, up: bool, now: int,
                             spent: map<string, nat>, ceiling: nat)

  datatype Action =
    | Enqueue(id: string, trigger: Trigger, depth: Option<Depth>, connectionValid: bool)
    | ScheduleDue(id: string, connectionValid: bool)
    | ChangePolicy(value: PolicyUpdate)
    | Rebind(connection: string, expectedConnection: string, expectedUpdatedAt: int)
    | Start(id: string)
    | Strand(id: string)
    | CallSplunk
    | Progress
    | Block
    | Finish(gaps: bool)
    | Overturn(gaps: bool, delivered: bool)
    | Crashed
    | Restart
    | Cancel(id: string)
    | Interrupt
    | Fail

  /** The steps of a running attempt; the others are those of the store, the schedule and the process. */
  predicate OfAttempt(action: Action) {
    action.CallSplunk? || action.Progress? || action.Block? || action.Finish? || action.Overturn?
    || action.Fail? || action.Interrupt?
  }

  /** The checks of `enqueue`, in its order. */
  function EnqueueCheck(m: Machine, id: string, depth: Option<Depth>, connectionValid: bool, now: int): Result<Depth> {
    var selected := if depth.Some? then depth.value else m.policy.depth;
    if !connectionValid then Err("The connection binding is no longer valid")
    else if m.policy.maxCalls < CallEstimate(selected) then Err("The configured budget is below the estimate")
    else if HasActive(m.runs) then Err("A continuous assurance run is already queued or running")
    else if UsageToday(m.runs, now) >= m.policy.maxRuns then Err("The daily assurance limit has been reached")
    else if id in m.runs then Err("Run ids are unique")
    else Ok(selected)
  }

  function EnqueueRun(m: Machine, id: string, trigger: Trigger, depth: Option<Depth>, connectionValid: bool,
                      now: int): Machine {
    match EnqueueCheck(m, id, depth, connectionValid, now)
    case Err(_) => m
    case Ok(d) => m.(runs := CreateRun(m.runs, id, trigger, d, m.policy, now), spent := m.spent[id := 0])
  }

  /** The schedule is due: what `_schedule_due` acts on. */
  predicate Due(m: Machine, now: int) {
    m.policy.enabled && m.policy.nextRunAt.Some? && !HasActive(m.runs) && m.policy.nextRunAt.value <= now
  }

  function RunSchedule(m: Machine, id: string, connectionValid: bool, now: int): Machine {
    if !Due(m, now) then m
    else
      var queued :=
        if UsageToday(m.runs, now) >= m.policy.maxRuns then m
        else EnqueueRun(m, id, Scheduled, None, connectionValid, now);
      queued.(policy := AdvanceSchedule(m.policy, now))
  }

  function PolicyChanged(m: Machine, v: PolicyUpdate, now: int): Machine {
    if v.maxCalls < CallEstimate(v.depth) then m
    else m.(policy := UpdatePolicy(m.policy, v, now), ceiling := if v.maxRuns > m.ceiling then v.maxRuns else m.ceiling)
  }

  /** A refused rebinding, or one while a run is active, changes nothing. */
  function Rebound(m: Machine, connection: string, expectedConnection: string, expectedUpdatedAt: int,
                   now: int): Machine {
    match RebindPolicy(m.policy, connection, expectedConnection, expectedUpdatedAt, now)
    case Err(_) => m
    case Ok(p) => if HasActive(m.runs) then m else m.(policy := p)
  }

  /** The worker picks a queued run; one cancelled meanwhile is left alone. */
  function Started(m: Machine, id: string, now: int): Machine {
    if m.attempt.Some? || id !in m.runs || !m.runs[id].status.Queued? then m
    else m.(runs := MarkRunning(m.runs, id, now), attempt := Some(Attempt(id, m.runs[id].callBudget, 0, false)))
  }

  /**
   The run is marked running, and then the binding check or the client factory raises: the handlers
   are not in place yet, so the row stays running without an attempt until a restart recovers it.
   */
  function Stranded(m: Machine, id: string, now: int): Machine {
    if m.attempt.Some? then m else m.(runs := MarkRunning(m.runs, id, now))
  }

  /** The locked part of `BudgetedSplunkClient.call`. */
  function Reserve(a: Attempt): Attempt {
    if a.used >= a.limit then a.(exceeded := true) else a.(used := a.used + 1)
  }

  function Called(m: Machine): Machine {
    if m.attempt.None? then m
    else
      var a := m.attempt.value;
      var b := Reserve(a);
      m.(attempt := Some(b),
         spent := if a.runId in m.spent then m.spent[a.runId := m.spent[a.runId] + (b.used - a.used)] else m.spent)
  }

  /** A cancellation arrives in the running task: the operator's, or that of a shutdown. */
  function Interrupted(m: Machine, now: int): Machine {
    if m.attempt.None? then m
    else
      var a := m.attempt.value;
      m.(attempt := None,
         runs := if a.runId in m.runs && m.runs[a.runId].cancelRequested
                 then CompleteRun(m.runs, a.runId, Cancelled, a.used, now)
                 else RequeueForRestart(m.runs, a.runId))
  }

  /** A progress report stores the calls so far, unless a cancellation is pending. */
  function Progressed(m: Machine, now: int): Machine {
    if m.attempt.None? then m
    else
      var a := m.attempt.value;
      if a.runId in m.runs && m.runs[a.runId].cancelRequested then Interrupted(m, now)
      else m.(runs := UpdateProgress(m.runs, a.runId, a.used))
  }

  function FinalStatus(a: Attempt, gaps: bool): RunStatus {
    if a.exceeded then BudgetBlocked else if gaps then Partial else Complete
  }

  function Ended(m: Machine, status: RunStatus, callsUsed: nat, now: int): Machine {
    if m.attempt.None? then m
    else m.(attempt := None, runs := CompleteRun(m.runs, m.attempt.value.runId, status, callsUsed, now))
  }

  /**
   The run is completed, and writing its notifications raises, before or after the callback has had
   the result: the handler then writes the same row again as failed, still in the same step.
   */
  function Overturned(m: Machine, gaps: bool, now: int): Machine
    requires m.attempt.Some?
  {
    var a := m.attempt.value;
    Ended(m.(runs := CompleteRun(m.runs, a.runId, FinalStatus(a, gaps), a.used, now)), Failed, a.used, now)
  }

  /** All that is left of the completion is the failure. */
  lemma OverturnedIsFailed(m: Machine, gaps: bool, now: int)
    requires m.attempt.Some?
    ensures Overturned(m, gaps, now) == Ended(m, Failed, m.attempt.value.used, now)
  {
    var a := m.attempt.value;
    var once := CompleteRun(m.runs, a.runId, FinalStatus(a, gaps), a.used, now);
    assert CompleteRun(once, a.runId, Failed, a.used, now) == CompleteRun(m.runs, a.runId, Failed, a.used, now);
  }

  function Next(m: Machine, action: Action, at: int): Machine {
    var n := m.(now := at);
    if !m.up && !action.Restart? then n
    else
      match action
      case Enqueue(id, trigger, depth, valid) => EnqueueRun(n, id, trigger, depth, valid, at)
      case ScheduleDue(id, valid) => RunSchedule(n, id, valid, at)
      case ChangePolicy(v) => PolicyChanged(n, v, at)
      case Rebind(c, e, u) => Rebound(n, c, e, u, at)
      case Start(id) => Started(n, id, at)
      case Strand(id) => Stranded(n, id, at)
      case CallSplunk => Called(n)
      case Progress => Progressed(n, at)
      case Block => if m.attempt.Some? && m.attempt.value.used == 0 then Ended(n, ConnectionBlocked, 0, at) else n
      case Finish(gaps) =>
        if m.attempt.Some? then Ended(n, FinalStatus(m.attempt.value, gaps), m.attempt.value.used, at) else n
      case Overturn(gaps, _) => if m.attempt.Some? then Overturned(n, gaps, at) else n
      case Fail => if m.attempt.Some? then Ended(n, Failed, m.attempt.value.used, at) else n
      case Cancel(id) => n.(runs := RequestCancel(n.runs, id, at))
      case Interrupt => Interrupted(n, at)
      case Crashed => n.(up := false, attempt := None)
      case Restart => if m.up then n else n.(up := true, runs := RecoverInterrupted(n.runs, at))
  }

  // Invariants.

  ghost predicate SingleActive(runs: RunTable) {
    forall a, b :: a in runs && b in runs && IsActive(runs[a]) && IsActive(runs[b]) ==> a == b
  }

  /** The worker and the table agree on what is running. */
  ghost predicate WorkerSound(m: Machine) {
    && SingleActive(m.runs)
    && (m.attempt.Some? ==>
          && m.up && m.attempt.value.runId in m.runs
          && m.runs[m.attempt.value.runId].status.Running?
          && m.attempt.value.limit == m.runs[m.attempt.value.runId].callBudget
          && m.attempt.value.used <= m.attempt.value.limit)
    && (forall id :: id in m.runs && m.runs[id].status.Queued? ==> !m.runs[id].cancelRequested)
  }

  /** Calls admitted so far for a run against its budget and the attempts it has used up. */
  ghost predicate SpendSound(r: Run, spent: nat, current: Option<nat>) {
    && CallEstimate(r.depth) <= r.callBudget
    && r.callsUsed <= r.callBudget
    && (if r.status.Queued? then spent <= r.callBudget * r.recoveryCount
        else if current.Some? then spent <= r.callBudget * r.recoveryCount + current.value
        else spent <= r.callBudget * (r.recoveryCount + 1))
  }

  function CurrentUse(m: Machine, id: string): Option<nat> {
    if m.attempt.Some? && m.attempt.value.runId == id then Some(m.attempt.value.used) else None
  }

  ghost predicate CallsSound(m: Machine) {
    && m.spent.Keys == m.runs.Keys
    && forall id :: id in m.runs ==> SpendSound(m.runs[id], m.spent[id], CurrentUse(m, id))
  }

  ghost predicate ScheduleSound(m: Machine) {
    var p := m.policy;
    && (p.enabled <==> p.nextRunAt.Some?)
    && (p.lastScheduledAt.Some? ==> p.lastScheduledAt.value <= m.now)
    && (p.enabled && p.lastScheduledAt.Some? ==>
          p.nextRunAt.value >= p.lastScheduledAt.value + p.interval * MINUTE)
  }

  /** A run that counts against its day or may still come to. */
  predicate Occupies(r: Run) {
    !(r.status.Cancelled? && r.callsUsed == 0)
  }

  function OccupiedOn(runs: RunTable, day: int): set<string> {
    set id | id in runs && Day(runs[id].createdAt) == day && Occupies(runs[id])
  }

  ghost predicate CeilingSound(m: Machine) {
    && m.policy.maxRuns <= m.ceiling
    && (forall id :: id in m.runs ==> m.runs[id].createdAt <= m.now)
    && forall day :: |OccupiedOn(m.runs, day)| <= m.ceiling
  }

  ghost predicate Initial(m: Machine) {
    && m.runs == map[] && m.spent == map[] && m.attempt.None? && !m.up
    && !m.policy.enabled && m.policy.nextRunAt.None? && m.policy.lastScheduledAt.None?
    && m.ceiling == m.policy.maxRuns
  }

  ghost predicate Sound(m: Machine) {
    WorkerSound(m) && CallsSound(m) && ScheduleSound(m) && CeilingSound(m)
  }

  lemma InitiallySound(m: Machine)
    requires Initial(m)
    ensures Sound(m)
  {
    forall day
      ensures |OccupiedOn(m.runs, day)| <= m.ceiling
    {
      assert OccupiedOn(m.runs, day) == {};
    }
  }

  lemma AllowanceStep(budget: nat, recoveries: nat)
    ensures budget * (recoveries + 1) == budget * recoveries + budget
    ensures budget * recoveries >= 0
  {
  }

  // One lemma for each kind of step: it keeps the worker, the table and the call account in step.

  ghost predicate RunsSound(m: Machine) {
    WorkerSound(m) && CallsSound(m)
  }

  lemma EnqueueKeeps(m: Machine, id: string, trigger: Trigger, depth: Option<Depth>, valid: bool, now: int)
    requires RunsSound(m)
    ensures RunsSound(EnqueueRun(m, id, trigger, depth, valid, now))
  {
    var n := EnqueueRun(m, id, trigger, depth, valid, now);
    if EnqueueCheck(m, id, depth, valid, now).Ok? {
      assert forall k :: k in m.runs ==> Terminal(m.runs[k]) && n.runs[k] == m.runs[k];
      forall k | k in n.runs
        ensures k in n.spent && SpendSound(n.runs[k], n.spent[k], CurrentUse(n, k))
      {
        if k != id {
          assert SpendSound(m.runs[k], m.spent[k], CurrentUse(m, k));
        }
      }
    }
  }

  lemma StartKeeps(m: Machine, id: string, now: int)
    requires RunsSound(m) && m.up
    ensures RunsSound(Started(m, id, now))
  {
    var n := Started(m, id, now);
    forall k | k in n.runs
      ensures SpendSound(n.runs[k], n.spent[k], CurrentUse(n, k))
    {
      assert SpendSound(m.runs[k], m.spent[k], CurrentUse(m, k));
    }
  }

  lemma StrandKeeps(m: Machine, id: string, now: int)
    requires RunsSound(m)
    ensures RunsSound(Stranded(m, id, now))
  {
    var n := Stranded(m, id, now);
    forall k | k in n.runs
      ensures SpendSound(n.runs[k], n.spent[k], CurrentUse(n, k))
    {
      AllowanceStep(m.runs[k].callBudget, m.runs[k].recoveryCount);
      assert SpendSound(m.runs[k], m.spent[k], CurrentUse(m, k));
    }
  }

  lemma CallKeeps(m: Machine)
    requires RunsSound(m)
    ensures RunsSound(Called(m))
  {
    var n := Called(m);
    forall k | k in n.runs
      ensures SpendSound(n.runs[k], n.spent[k], CurrentUse(n, k))
    {
      assert SpendSound(m.runs[k], m.spent[k], CurrentUse(m, k));
    }
  }

  lemma EndKeeps(m: Machine, status: RunStatus, used: nat, now: int)
    requires RunsSound(m) && !status.Queued? && !status.Running?
    requires m.attempt.Some? ==> used <= m.attempt.value.used
    ensures RunsSound(Ended(m, status, used, now))
  {
    var n := Ended(m, status, used, now);
    forall k | k in n.runs
      ensures SpendSound(n.runs[k], n.spent[k], CurrentUse(n, k))
    {
      AllowanceStep(m.runs[k].callBudget, m.runs[k].recoveryCount);
      assert SpendSound(m.runs[k], m.spent[k], CurrentUse(m, k));
    }
  }

  lemma InterruptKeeps(m: Machine, now: int)
    requires RunsSound(m)
    ensures RunsSound(Interrupted(m, now))
  {
    var n := Interrupted(m, now);
    forall k | k in n.runs
      ensures SpendSound(n.runs[k], n.spent[k], CurrentUse(n, k))
    {
      AllowanceStep(m.runs[k].callBudget, m.runs[k].recoveryCount);
      assert SpendSound(m.runs[k], m.spent[k], CurrentUse(m, k));
    }
  }

  lemma ProgressKeeps(m: Machine, now: int)
    requires RunsSound(m)
    ensures RunsSound(Progressed(m, now))
  {
    if m.attempt.Some? {
      if m.runs[m.attempt.value.runId].cancelRequested {
        InterruptKeeps(m, now);
      } else {
        var n := Progressed(m, now);
        forall k | k in n.runs
          ensures SpendSound(n.runs[k], n.spent[k], CurrentUse(n, k))
        {
          assert SpendSound(m.runs[k], m.spent[k], CurrentUse(m, k));
        }
      }
    }
  }

  lemma CancelKeeps(m: Machine, id: string, now: int)
    requires RunsSound(m)
    ensures RunsSound(m.(runs := RequestCancel(m.runs, id, now)))
  {
    var n := m.(runs := RequestCancel(m.runs, id, now));
    forall k | k in n.runs
      ensures SpendSound(n.runs[k], n.spent[k], CurrentUse(n, k))
    {
      AllowanceStep(m.runs[k].callBudget, m.runs[k].recoveryCount);
      assert SpendSound(m.runs[k], m.spent[k], CurrentUse(m, k));
    }
  }

  lemma CrashKeeps(m: Machine)
    requires RunsSound(m)
    ensures RunsSound(m.(up := false, attempt := None))
  {
    var n := m.(up := false, attempt := None);
    forall k | k in n.runs
      ensures SpendSound(n.runs[k], n.spent[k], CurrentUse(n, k))
    {
      AllowanceStep(m.runs[k].callBudget, m.runs[k].recoveryCount);
      assert SpendSound(m.runs[k], m.spent[k], CurrentUse(m, k));
    }
  }

  lemma RestartKeeps(m: Machine, now: int)
    requires RunsSound(m) && !m.up
    ensures RunsSound(m.(up := true, runs := RecoverInterrupted(m.runs, now)))
  {
    var n := m.(up := true, runs := RecoverInterrupted(m.runs, now));
    forall k | k in n.runs
      ensures SpendSound(n.runs[k], n.spent[k], CurrentUse(n, k))
    {
      AllowanceStep(m.runs[k].callBudget, m.runs[k].recoveryCount);
      assert SpendSound(m.runs[k], m.spent[k], CurrentUse(m, k));
    }
    assert n.spent.Keys == n.runs.Keys;
  }

  lemma RunsSoundFrame(m: Machine, n: Machine)
    requires RunsSound(m) && n.runs == m.runs && n.attempt == m.attempt && n.up == m.up && n.spent == m.spent
    ensures RunsSound(n)
  {
    forall k | k in n.runs
      ensures SpendSound(n.runs[k], n.spent[k], CurrentUse(n, k))
    {
      assert SpendSound(m.runs[k], m.spent[k], CurrentUse(m, k));
    }
  }

  lemma NextKeepsRunsSound(m: Machine, action: Action, at: int)
    requires RunsSound(m)
    ensures RunsSound(Next(m, action, at))
  {
    var n := m.(now := at);
    RunsSoundFrame(m, n);
    match action {
      case Enqueue(id, trigger, depth, valid) =>
        EnqueueKeeps(n, id, trigger, depth, valid, at);
      case ScheduleDue(id, valid) => ScheduleKeeps(n, id, valid, at);
      case ChangePolicy(v) =>
        RunsSoundFrame(n, PolicyChanged(n, v, at));
      case Rebind(c, e, u) =>
        RunsSoundFrame(n, Rebound(n, c, e, u, at));
      case _ =>
        WorkKeepsRunsSound(m, action, at);
    }
  }

  lemma ScheduleKeeps(n: Machine, id: string, valid: bool, now: int)
    requires RunsSound(n)
    ensures RunsSound(RunSchedule(n, id, valid, now))
  {
    EnqueueKeeps(n, id, Scheduled, None, valid, now);
    RunsSoundFrame(n, n.(policy := AdvanceSchedule(n.policy, now)));
    var queued := EnqueueRun(n, id, Scheduled, None, valid, now);
    RunsSoundFrame(queued, queued.(policy := AdvanceSchedule(n.policy, now)));
  }

  lemma WorkKeepsRunsSound(m: Machine, action: Action, at: int)
    requires RunsSound(m)
    requires !action.Enqueue? && !action.ScheduleDue? && !action.ChangePolicy? && !action.Rebind?
    ensures RunsSound(Next(m, action, at))
  {
    var n := m.(now := at);
    RunsSoundFrame(m, n);
    match action {
      case Start(id) =>
        if m.up {
          StartKeeps(n, id, at);
        }
      case Strand(id) => StrandKeeps(n, id, at);
      case CallSplunk => CallKeeps(n);
      case Progress => ProgressKeeps(n, at);
      case Block => EndKeeps(n, ConnectionBlocked, 0, at);
      case Finish(gaps) =>
        if m.attempt.Some? {
          EndKeeps(n, FinalStatus(m.attempt.value, gaps), m.attempt.value.used, at);
        }
      case Overturn(gaps, _) =>
        if m.attempt.Some? {
          OverturnedIsFailed(n, gaps, at);
          EndKeeps(n, Failed, m.attempt.value.used, at);
        }
      case Fail =>
        if m.attempt.Some? {
          EndKeeps(n, Failed, m.attempt.value.used, at);
        }
      case Cancel(id) => CancelKeeps(n, id, at);
      case Interrupt => InterruptKeeps(n, at);
      case Crashed => CrashKeeps(n);
      case Restart =>
        if !m.up {
          RestartKeeps(n, at);
        }
    }
  }

  lemma NextKeepsScheduleSound(m: Machine, action: Action, at: int)
    requires ScheduleSound(m) && m.now <= at
    ensures ScheduleSound(Next(m, action, at))
  {
  }

  /** A step that creates no run and revives none leaves every day at most as occupied. */
  lemma OccupationShrinks(before: RunTable, after: RunTable, day: int)
    requires forall id :: id in after ==> id in before && after[id].createdAt == before[id].createdAt
                                          && (Occupies(after[id]) ==> Occupies(before[id]))
    ensures |OccupiedOn(after, day)| <= |OccupiedOn(before, day)|
  {
    SubsetSize(OccupiedOn(after, day), OccupiedOn(before, day));
  }

  /** With nothing active, what `usage_today` counts is everything that occupies the day. */
  lemma NewRunOccupies(runs: RunTable, id: string, r: Run, day: int)
    requires !HasActive(runs) && id !in runs
    ensures |OccupiedOn(runs[id := r], day)|
         <= if day == Day(r.createdAt) then UsageToday(runs, r.createdAt) + 1 else |OccupiedOn(runs, day)|
  {
    var before, after := OccupiedOn(runs, day), OccupiedOn(runs[id := r], day);
    if day == Day(r.createdAt) {
      var counted := RunsSince(runs, day * DAY);
      forall k | k in before
        ensures k in counted
      {
        assert Terminal(runs[k]);
      }
      SubsetSize(after, counted + {id});
    } else {
      SubsetSize(after, before);
    }
  }

  lemma EnqueueKeepsCeiling(m: Machine, id: string, trigger: Trigger, depth: Option<Depth>, valid: bool, now: int)
    requires CeilingSound(m) && m.now == now
    ensures CeilingSound(EnqueueRun(m, id, trigger, depth, valid, now))
  {
    var n := EnqueueRun(m, id, trigger, depth, valid, now);
    if EnqueueCheck(m, id, depth, valid, now).Ok? {
      forall day
        ensures |OccupiedOn(n.runs, day)| <= m.ceiling
      {
        NewRunOccupies(m.runs, id, n.runs[id], day);
      }
    }
  }

  lemma OtherStepsKeepCeiling(m: Machine, n: Machine)
    requires CeilingSound(m) && m.now <= n.now && m.ceiling <= n.ceiling && n.policy.maxRuns <= n.ceiling
    requires forall id :: id in n.runs ==> id in m.runs && n.runs[id].createdAt == m.runs[id].createdAt
                                           && (Occupies(n.runs[id]) ==> Occupies(m.runs[id]))
    ensures CeilingSound(n)
  {
    forall day
      ensures |OccupiedOn(n.runs, day)| <= n.ceiling
    {
      OccupationShrinks(m.runs, n.runs, day);
    }
  }

  lemma StepOccupies(m: Machine, action: Action, at: int, id: string)
    requires WorkerSound(m) && !action.Enqueue? && !action.ScheduleDue? && id in Next(m, action, at).runs
    ensures var r := Next(m, action, at).runs[id];
            id in m.runs && r.createdAt == m.runs[id].createdAt && (Occupies(r) ==> Occupies(m.runs[id]))
  {
  }

  lemma NextKeepsCeilingSound(m: Machine, action: Action, at: int)
    requires WorkerSound(m) && CeilingSound(m) && m.now <= at
    ensures CeilingSound(Next(m, action, at))
  {
    var n := m.(now := at);
    OtherStepsKeepCeiling(m, n);
    if action.Enqueue? {
      EnqueueKeepsCeiling(n, action.id, action.trigger, action.depth, action.connectionValid, at);
    } else if action.ScheduleDue? {
      EnqueueKeepsCeiling(n, action.id, Scheduled, None, action.connectionValid, at);
      var queued := EnqueueRun(n, action.id, Scheduled, None, action.connectionValid, at);
      OtherStepsKeepCeiling(queued, queued.(policy := AdvanceSchedule(n.policy, at)));
      OtherStepsKeepCeiling(n, n.(policy := AdvanceSchedule(n.policy, at)));
    } else {
      var after := Next(m, action, at);
      forall id | id in after.runs
        ensures id in m.runs && after.runs[id].createdAt == m.runs[id].createdAt
        ensures Occupies(after.runs[id]) ==> Occupies(m.runs[id])
      {
        StepOccupies(m, action, at, id);
      }
      CeilingStaysAbove(m, action, at);
      OtherStepsKeepCeiling(m, after);
    }
  }

  lemma CeilingStaysAbove(m: Machine, action: Action, at: int)
    requires m.policy.maxRuns <= m.ceiling
    ensures var n := Next(m, action, at);
            n.now == at && m.ceiling <= n.ceiling && n.policy.maxRuns <= n.ceiling
  {
  }

  lemma NextKeepsSound(m: Machine, action: Action, at: int)
    requires Sound(m) && m.now <= at
    ensures Sound(Next(m, action, at))
  {
    NextKeepsRunsSound(m, action, at);
    NextKeepsScheduleSound(m, action, at);
    NextKeepsCeilingSound(m, action, at);
  }
}
