/**
 Runs delivered to correlation more than once: exactly when the store notices, what the counters then
 say, and why the engine never delivers a run twice.
 */
module Redelivery {
  import opened Common
  import opened Sorting
  import opened Signals
  import opened SignalHistory
  import opened RunBehaviors
  import Engine = RunMachine

  /** A delivered run leaves a signal it sees alone if and only if it was the last to write its row. */
  lemma IgnoredExactlyWhenLast(rows: SignalTable, o: Observation, f: string)
    requires Sees(o, f)
    ensures Lookup(Correlated(rows, o), f) == Lookup(rows, f) <==> f in rows && rows[f].lastRun == o.runId
    ensures f in Correlated(rows, o)
    ensures f in rows ==>
              Correlated(rows, o)[f].occurrences
              == rows[f].occurrences + if rows[f].lastRun == o.runId then 0 else 1
  {
    CorrelationIsPointwise(rows, o, f);
  }

  // From here on, run ids may repeat in a history.

  /** The ids of the runs that saw the signal. */
  function RunIds(h: History, f: string): set<string> {
    set o | o in h && Sees(o, f) :: o.runId
  }

  lemma RunIdsGrow(h: History, o: Observation, f: string)
    ensures RunIds(h + [o], f) == RunIds(h, f) + if Sees(o, f) then {o.runId} else {}
  {
    forall id
      ensures id in RunIds(h + [o], f) <==> id in RunIds(h, f) || (Sees(o, f) && id == o.runId)
    {
      if id in RunIds(h, f) {
        var p :| p in h && Sees(p, f) && p.runId == id;
        assert p in h + [o];
      }
      if Sees(o, f) && id == o.runId {
        assert o in h + [o];
      }
    }
  }

  /** Some run sees the signal again after another run has seen it. */
  ghost predicate ResurfacesAt(h: History, f: string, i: nat, j: nat, k: nat) {
    && i < j < k < |h| && Sees(h[i], f) && Sees(h[j], f) && Sees(h[k], f)
    && h[i].runId == h[k].runId != h[j].runId
  }

  ghost predicate Resurfaces(h: History, f: string) {
    exists i: nat, j: nat, k: nat :: ResurfacesAt(h, f, i, j, k)
  }

  /** The row names the last run that saw the signal. */
  ghost predicate NamesLast(row: SignalRow, h: History, f: string, k: nat) {
    LastSeen(h, f, |h|, k) && row.lastRun == h[k].runId
  }

  /** With repeats, a row still exists exactly for the signals seen, and names the last run that saw it. */
  lemma {:induction false} LastRunIsLastSighting(h: History, f: string)
    ensures f in Table(h) <==> exists k :: 0 <= k < |h| && Sees(h[k], f)
    ensures f in Table(h) ==> exists k: nat :: NamesLast(Table(h)[f], h, f, k)
    decreases |h|
  {
    if h != [] {
      var p, o := h[..|h| - 1], h[|h| - 1];
      assert h == p + [o];
      LastRunIsLastSighting(p, f);
      CorrelationIsPointwise(Table(p), o, f);
      if Sees(o, f) {
        assert Sees(h[|p|], f);
        assert NamesLast(Table(h)[f], h, f, |p|);
      } else if f in Table(p) {
        var k: nat :| NamesLast(Table(p)[f], p, f, k);
        LastSeenPrefix(p, o, f, |p|, k);
        assert h[k] == p[k];
        assert NamesLast(Table(h)[f], h, f, k);
      } else {
        assert forall k :: 0 <= k < |p| ==> h[k] == p[k];
      }
    }
  }

  lemma ResurfacedStays(h: History, o: Observation, f: string)
    ensures Resurfaces(h, f) ==> Resurfaces(h + [o], f)
  {
    if Resurfaces(h, f) {
      var i: nat, j: nat, k: nat :| ResurfacesAt(h, f, i, j, k);
      assert ResurfacesAt(h + [o], f, i, j, k);
    }
  }

  /** One more run makes a signal resurface exactly if its id saw it before, and it is not the last. */
  lemma ResurfacesGrows(h: History, o: Observation, f: string, l: nat)
    requires LastSeen(h, f, |h|, l)
    ensures Resurfaces(h + [o], f)
       <==> Resurfaces(h, f) || (Sees(o, f) && o.runId != h[l].runId && o.runId in RunIds(h, f))
  {
    var h' := h + [o];
    assert forall m :: 0 <= m < |h| ==> h'[m] == h[m];
    assert h'[|h|] == o;
    ResurfacedStays(h, o, f);
    if Sees(o, f) && o.runId != h[l].runId && o.runId in RunIds(h, f) {
      var p :| p in h && Sees(p, f) && p.runId == o.runId;
      var i: nat :| i < |h| && h[i] == p;
      assert ResurfacesAt(h', f, i, l, |h|);
    }
    if Resurfaces(h', f) {
      var i: nat, j: nat, k: nat :| ResurfacesAt(h', f, i, j, k);
      if k < |h| {
        assert ResurfacesAt(h, f, i, j, k);
      } else {
        assert h[i] in h && h[i].runId == o.runId;
        if o.runId == h[l].runId {
          assert ResurfacesAt(h, f, i, j, l);
        }
      }
    }
  }

  lemma NothingSeen(h: History, f: string)
    requires forall k :: 0 <= k < |h| ==> !Sees(h[k], f)
    ensures RunIds(h, f) == {} && !Resurfaces(h, f)
  {
  }

  lemma FirstSightingCounts(h: History, o: Observation, f: string)
    requires (forall k :: 0 <= k < |h| ==> !Sees(h[k], f)) && Sees(o, f)
    ensures RunIds(h + [o], f) == {o.runId} && !Resurfaces(h + [o], f)
  {
    NothingSeen(h, f);
    RunIdsGrow(h, o, f);
    assert forall m :: 0 <= m < |h| ==> (h + [o])[m] == h[m];
  }

  lemma OccurrencesStep(row: SignalRow, h: History, o: Observation, f: string, l: nat)
    requires NamesLast(row, h, f, l)
    requires row.occurrences >= |RunIds(h, f)| && (row.occurrences == |RunIds(h, f)| <==> !Resurfaces(h, f))
    ensures var n := row.occurrences + if Sees(o, f) && row.lastRun != o.runId then 1 else 0;
            n >= |RunIds(h + [o], f)| && (n == |RunIds(h + [o], f)| <==> !Resurfaces(h + [o], f))
  {
    assert h[l] in h && h[l].runId in RunIds(h, f);
    RunIdsGrow(h, o, f);
    ResurfacesGrows(h, o, f, l);
    if !Sees(o, f) || o.runId in RunIds(h, f) {
      assert RunIds(h + [o], f) == RunIds(h, f);
    }
  }

  /**
   In any history, repeats included, a signal has at least as many occurrences as runs that saw it,
   and exactly as many if and only if no run saw it again after another had.
   */
  lemma {:induction false} OccurrencesCountRuns(h: History, f: string)
    requires f in Table(h)
    ensures Table(h)[f].occurrences >= |RunIds(h, f)|
    ensures Table(h)[f].occurrences == |RunIds(h, f)| <==> !Resurfaces(h, f)
    decreases |h|
  {
    var p, o := h[..|h| - 1], h[|h| - 1];
    assert h == p + [o];
    LastRunIsLastSighting(p, f);
    CorrelationIsPointwise(Table(p), o, f);
    if f in Table(p) {
      OccurrencesCountRuns(p, f);
      var l: nat :| NamesLast(Table(p)[f], p, f, l);
      OccurrencesStep(Table(p)[f], p, o, f, l);
    } else {
      FirstSightingCounts(p, o, f);
    }
  }

  // The engine.

  /** The run whose result this step hands to the completion callback, if any. */
  function Completes(m: Engine.Machine, action: Engine.Action): Option<string> {
    if m.up && m.attempt.Some? && (action.Finish? || (action.Overturn? && action.delivered))
    then Some(m.attempt.value.runId) else None
  }

  /** The runs delivered by the first n steps, in order. */
  function Deliveries(states: seq<Engine.Machine>, steps: seq<Step>, n: nat): seq<string>
    requires n <= |steps| && |states| == |steps| + 1
  {
    if n == 0 then []
    else
      var run := Completes(states[n - 1], steps[n - 1].action);
      Deliveries(states, steps, n - 1) + if run.Some? then [run.value] else []
  }

  /** Along every behaviour each run is delivered at most once: a delivered run is over. */
  lemma {:induction false} EngineDeliversOnce(states: seq<Engine.Machine>, steps: seq<Step>, n: nat)
    requires Behavior(states, steps) && n <= |steps|
    ensures Distinct(Deliveries(states, steps, n))
    ensures forall id :: id in Deliveries(states, steps, n) ==>
              id in states[n].runs && Engine.Terminal(states[n].runs[id])
  {
    if n > 0 {
      EngineDeliversOnce(states, steps, n - 1);
      EveryStateIsSound(states, steps, n - 1);
      var m, step := states[n - 1], steps[n - 1];
      var before := Deliveries(states, steps, n - 1);
      forall id | id in before
        ensures id in states[n].runs && Engine.Terminal(states[n].runs[id])
      {
        TerminalStepKeeps(m, step.action, step.at, id);
      }
      if Completes(m, step.action).Some? {
        CompletedIsOver(m, step.action, step.at);
        assert Completes(m, step.action).value !in before;
      }
    }
  }

  lemma CompletedIsOver(m: Engine.Machine, action: Engine.Action, at: int)
    requires Engine.WorkerSound(m) && Completes(m, action).Some?
    ensures var id := Completes(m, action).value;
            && id in m.runs && !Engine.Terminal(m.runs[id])
            && id in Engine.Next(m, action, at).runs && Engine.Terminal(Engine.Next(m, action, at).runs[id])
  {
  }

  /** So the history the engine feeds to correlation has distinct runs, and every sighting counts once. */
  lemma EngineHistoryIsCountedOnce(states: seq<Engine.Machine>, steps: seq<Step>, h: History, f: string)
    requires Behavior(states, steps)
    requires |h| == |Deliveries(states, steps, |steps|)|
    requires forall k :: 0 <= k < |h| ==> h[k].runId == Deliveries(states, steps, |steps|)[k]
    ensures DistinctRuns(h)
    ensures f in Table(h) ==> Table(h)[f].occurrences == |RunIds(h, f)| && Reflects(Table(h)[f], h, f)
  {
    EngineDeliversOnce(states, steps, |steps|);
    assert forall i, j :: 0 <= i < j < |h| ==>
      Deliveries(states, steps, |steps|)[i] != Deliveries(states, steps, |steps|)[j];
    CorrelationRefinesHistory(h, f);
    if f in Table(h) {
      OccurrencesCountRuns(h, f);
      assert !Resurfaces(h, f);
    }
  }
}
