/**
 Running rows that nothing executes: exactly when there is one, what it blocks, and that otherwise
 every running row has its attempt while the process is up.
 */
module RunStranding {
  import opened Common
  import opened RunMachine
  import opened RunBehaviors
  import opened RunLimits

  /** The run is marked running and nothing executes it. */
  predicate IsStranded(m: Machine, id: string) {
    m.up && m.attempt.None? && id in m.runs && m.runs[id].status.Running?
  }

  /** A run nothing executes keeps every other one out. */
  lemma StrandedRefusesAll(m: Machine, id: string)
    requires IsStranded(m, id)
    ensures HasActive(m.runs)
    ensures forall other, depth, valid, now :: EnqueueCheck(m, other, depth, valid, now).Err?
  {
    assert IsActive(m.runs[id]);
  }

  /** The step that strands a run: it takes a queued one, and its attempt never comes to be. */
  predicate Strands(m: Machine, action: Action, id: string) {
    m.up && m.attempt.None? && action == Strand(id) && id in m.runs && m.runs[id].status.Queued?
  }

  lemma AttemptStrandsNothing(m: Machine, action: Action, at: int, id: string)
    requires WorkerSound(m) && OfAttempt(action)
    ensures IsStranded(Next(m, action, at), id) <==> IsStranded(m, id)
  {
  }

  lemma TableStrandsExactly(m: Machine, action: Action, at: int, id: string)
    requires WorkerSound(m) && !OfAttempt(action) && !action.Enqueue? && !action.ScheduleDue?
    ensures IsStranded(Next(m, action, at), id) <==> Strands(m, action, id) || (IsStranded(m, id) && !action.Crashed?)
  {
  }

  lemma CreatingStrandsNothing(m: Machine, action: Action, at: int, id: string)
    requires action.Enqueue? || action.ScheduleDue?
    ensures IsStranded(Next(m, action, at), id) <==> IsStranded(m, id)
  {
    if IsStranded(m, id) {
      StrandedRefusesAll(m.(now := at), id);
    }
  }

  /** For every step: a run is stranded after it exactly if the step strands it, or it was and no crash came. */
  lemma StrandedExactly(m: Machine, action: Action, at: int, id: string)
    requires WorkerSound(m)
    ensures IsStranded(Next(m, action, at), id) <==> Strands(m, action, id) || (IsStranded(m, id) && !action.Crashed?)
  {
    if OfAttempt(action) {
      AttemptStrandsNothing(m, action, at, id);
    } else if action.Enqueue? || action.ScheduleDue? {
      CreatingStrandsNothing(m, action, at, id);
    } else {
      TableStrandsExactly(m, action, at, id);
    }
  }

  /** Step i strands the run, and the process does not crash from then on up to state j. */
  ghost predicate StrandedSince(states: seq<Machine>, steps: seq<Step>, i: nat, j: nat, id: string)
    requires j <= |steps| && j < |states|
  {
    && i < j && Strands(states[i], steps[i].action, id)
    && forall k :: i < k < j ==> !steps[k].action.Crashed?
  }

  ghost predicate StrandedBefore(states: seq<Machine>, steps: seq<Step>, j: nat, id: string)
    requires j <= |steps| && j < |states|
  {
    exists i: nat :: StrandedSince(states, steps, i, j, id)
  }

  lemma StrandedOneMore(states: seq<Machine>, steps: seq<Step>, j: nat, id: string)
    requires j < |steps| && j + 1 < |states|
    ensures StrandedBefore(states, steps, j + 1, id)
       <==> Strands(states[j], steps[j].action, id)
            || (StrandedBefore(states, steps, j, id) && !steps[j].action.Crashed?)
  {
    if StrandedBefore(states, steps, j + 1, id) {
      var i: nat :| StrandedSince(states, steps, i, j + 1, id);
      if i < j {
        assert StrandedSince(states, steps, i, j, id);
      }
    }
    if Strands(states[j], steps[j].action, id) {
      assert StrandedSince(states, steps, j, j + 1, id);
    }
    if StrandedBefore(states, steps, j, id) && !steps[j].action.Crashed? {
      var i: nat :| StrandedSince(states, steps, i, j, id);
      assert StrandedSince(states, steps, i, j + 1, id);
    }
  }

  lemma StepStrandsExactly(states: seq<Machine>, steps: seq<Step>, k: nat, id: string)
    requires Behavior(states, steps) && k < |steps|
    ensures IsStranded(states[k + 1], id)
       <==> Strands(states[k], steps[k].action, id) || (IsStranded(states[k], id) && !steps[k].action.Crashed?)
  {
    EveryStateIsSound(states, steps, k);
    StrandedExactly(states[k], steps[k].action, steps[k].at, id);
  }

  /**
   Along every behaviour, a run is stranded if and only if some earlier step stranded it and the
   process has not crashed since.
   */
  lemma {:induction false} StrandedExactlySince(states: seq<Machine>, steps: seq<Step>, j: nat, id: string)
    requires Behavior(states, steps) && j < |states|
    ensures IsStranded(states[j], id) <==> StrandedBefore(states, steps, j, id)
  {
    if j > 0 {
      StrandedExactlySince(states, steps, j - 1, id);
      StepStrandsExactly(states, steps, j - 1, id);
      StrandedOneMore(states, steps, j - 1, id);
    } else {
      assert states[0].runs == map[];
    }
  }

  /** The run's attempt is in progress. */
  predicate IsExecuted(m: Machine, id: string) {
    m.attempt.Some? && m.attempt.value.runId == id
  }

  lemma ExecutedUnlessStranded(m: Machine, id: string)
    requires WorkerSound(m) && m.up && id in m.runs && m.runs[id].status.Running?
    ensures IsExecuted(m, id) <==> !IsStranded(m, id)
  {
    if m.attempt.Some? {
      assert IsActive(m.runs[m.attempt.value.runId]) && IsActive(m.runs[id]);
    }
  }

  /**
   While the process is up, a running row has its attempt if and only if no step has stranded it since
   the last crash; so always, where the binding check and the client factory never raise.
   */
  lemma RunningIsExecutedExactly(states: seq<Machine>, steps: seq<Step>, j: nat, id: string)
    requires Behavior(states, steps) && j < |states|
    requires states[j].up && id in states[j].runs && states[j].runs[id].status.Running?
    ensures IsExecuted(states[j], id) <==> !StrandedBefore(states, steps, j, id)
    ensures (forall i :: 0 <= i < j ==> !steps[i].action.Strand?) ==> IsExecuted(states[j], id)
  {
    EveryStateIsSound(states, steps, j);
    StrandedExactlySince(states, steps, j, id);
    ExecutedUnlessStranded(states[j], id);
  }

  lemma StrandedKeepsTable(m: Machine, action: Action, at: int, id: string)
    requires SingleActive(m.runs) && IsStranded(m, id) && !action.Crashed?
    ensures Next(m, action, at).runs.Keys == m.runs.Keys
  {
    StrandedRefusesAll(m.(now := at), id);
  }

  lemma StrandedStepAlong(states: seq<Machine>, steps: seq<Step>, k: nat, id: string)
    requires Behavior(states, steps) && k < |steps| && IsStranded(states[k], id) && !steps[k].action.Crashed?
    ensures IsStranded(states[k + 1], id) && states[k + 1].runs.Keys == states[k].runs.Keys
  {
    EveryStateIsSound(states, steps, k);
    StrandedKeepsTable(states[k], steps[k].action, steps[k].at, id);
    StepStrandsExactly(states, steps, k, id);
  }

  /**
   A run stranded by a failing client factory or binding check stays running until the process ends,
   and until then no run at all is admitted: neither a manual one nor a scheduled one.
   */
  lemma {:induction false} StrandedRunBlocksUntilRestart(states: seq<Machine>, steps: seq<Step>, i: nat, j: nat,
                                                         id: string)
    requires Behavior(states, steps) && i <= j < |states| && IsStranded(states[i], id)
    requires forall k :: i <= k < j ==> !steps[k].action.Crashed?
    ensures IsStranded(states[j], id) && states[j].runs.Keys == states[i].runs.Keys
    ensures forall other, depth, valid, now :: EnqueueCheck(states[j], other, depth, valid, now).Err?
  {
    if i < j {
      StrandedRunBlocksUntilRestart(states, steps, i, j - 1, id);
      StrandedStepAlong(states, steps, j - 1, id);
    }
    StrandedRefusesAll(states[j], id);
  }

  /** It is reachable: the first run is enqueued, and its client factory raises. */
  lemma AStrandedRun()
    ensures exists states: seq<Machine>, steps: seq<Step> ::
              Behavior(states, steps) && |steps| == 3 && IsStranded(states[3], "r")
  {
    var states, steps := FirstRunIsQueued();
    var stranded := OneRun(RUNNING, None, true, 0);
    Extend(states, steps, Step(Strand("r"), 0), stranded);
    states, steps := states + [stranded], steps + [Step(Strand("r"), 0)];
    assert states[|steps|] == stranded;
  }
}
