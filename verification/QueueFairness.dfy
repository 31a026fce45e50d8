/** Claims select records in id order: a waiting record is overtaken only by the records ahead of it. */
module QueueFairness {
  import opened Wrappers
  import opened Records
  import opened WorkerPool
  import opened Queue
  import opened QueueSafety
  import opened QueueTheorems

  /** The record is in the queue and no claim transaction has it. */
  predicate Waits(s: State, id: int) {
    id in Candidates(s.rows, Locked(s.pool))
  }

  /** The records a claim would prefer to this one. */
  function Ahead(s: State, id: int): set<int> {
    set other | other in Candidates(s.rows, Locked(s.pool)) && other < id
  }

  /** Nothing in this step puts a record back into the queue. */
  predicate ReturnsNothing(step: Step) {
    !step.Retry? && !step.Restart? && (step.Commit? ==> step.outcome != RolledBack)
  }

  predicate AllReturnNothing(steps: seq<Step>) {
    forall i :: 0 <= i < |steps| ==> ReturnsNothing(steps[i])
  }

  /** Successful claim selections in a run. */
  function Selections(steps: seq<Step>): nat {
    if steps == [] then 0 else (if steps[0].Select? && steps[0].dbOk then 1 else 0) + Selections(steps[1..])
  }

  /** No overtaking: a claim never picks a record above one that waits. */
  lemma ClaimTakesNoHigherId(s: State, step: Step, waiting: int)
    requires Enabled(s, step) && step.Select? && step.dbOk && Waits(s, waiting)
    ensures var pc := Apply(s, step).pool.workers[step.w];
            pc.Tick? && pc.job.Selected? && Waits(s, pc.job.id) && pc.job.id <= waiting
    ensures !Waits(Apply(s, step), Apply(s, step).pool.workers[step.w].job.id)
  {
    var candidates := Candidates(s.rows, Locked(s.pool));
    assert IsLeast(Lowest(candidates), candidates);
    var t := Apply(s, step);
    assert t.pool.workers[step.w] == Tick(Selected(Lowest(candidates)));
    assert Lowest(candidates) in Locked(t.pool);
  }

  /** The worker whose open claim has locked the record. */
  lemma Locker(s: State, id: int) returns (w: nat)
    requires Inv(s) && id in Locked(s.pool)
    ensures w < |s.pool.workers| && s.pool.workers[w] == Tick(Selected(id))
    ensures id in s.rows && s.rows[id].status == Waiting && id in s.issued
  {
    w :| w < |s.pool.workers| && s.pool.workers[w].Tick? && s.pool.workers[w].job == Selected(id);
    assert AtJob(s, w) && JobSound(s, s.pool.workers[w].job);
  }

  /** The holder's next step commits, after which the record runs. */
  lemma LockerCommits(s: State, step: Step, w: nat, id: int)
    requires Inv(s) && Enabled(s, step) && ReturnsNothing(step) && step.Worker() == Some(w)
    requires w < |s.pool.workers| && s.pool.workers[w] == Tick(Selected(id)) && id in s.rows
    ensures id in Apply(s, step).rows && Apply(s, step).rows[id].status == Running
  {
    assert step.Commit?;
  }

  /** The record is in the queue, locked or not. */
  predicate Queued(s: State, id: int) {
    id in s.rows && s.rows[id].status == Waiting
  }

  /** A lock stays until its holder commits, after which the record runs. */
  lemma LocksPersist(s: State, step: Step, id: int)
    requires Inv(s) && Enabled(s, step) && ReturnsNothing(step) && id in Locked(s.pool)
    ensures var t := Apply(s, step);
            id in Locked(t.pool) || (id in t.rows && t.rows[id].status == Running)
  {
    var w := Locker(s, id);
    if step.Worker() == Some(w) {
      LockerCommits(s, step, w, id);
    } else {
      if step.Worker().Some? {
        WorkerStepFollowsEdge(s, step);
      } else {
        RequestKeepsWorkers(s, step);
      }
      assert Apply(s, step).pool.workers[w] == Tick(Selected(id));
      assert Apply(s, step).pool.workers[w].job.id in Locked(Apply(s, step).pool);
    }
  }

  lemma WorkerQueuesNothing(s: State, step: Step, id: int)
    requires Inv(s) && Enabled(s, step) && ReturnsNothing(step) && step.Worker().Some?
    requires Queued(Apply(s, step), id)
    ensures Queued(s, id)
  {
    var w := step.Worker().value;
    assert AtJob(s, w) ==> JobSound(s, s.pool.workers[w].job);
  }

  /** A request that edits a row, other than a retry, keeps its status. */
  lemma EditQueuesNothing(s: State, step: Step, id: int)
    requires Enabled(s, step) && EditsOneRow(step) && !step.Retry? && Queued(Apply(s, step), id)
    ensures Queued(s, id)
  {
    if step.FavoriteWrite? {
      FavoriteWriteEffect(s, step);
    }
  }

  lemma OtherRequestQueuesNothing(s: State, step: Step, id: int)
    requires Enabled(s, step) && ReturnsNothing(step) && step.Worker().None? && !EditsOneRow(step)
    requires Queued(Apply(s, step), id) && id in s.issued
    ensures Queued(s, id)
  {
    if step.DeleteRow? {
      DeleteRowEffect(s, step);
    }
  }

  lemma RequestQueuesNothing(s: State, step: Step, id: int)
    requires Enabled(s, step) && ReturnsNothing(step) && step.Worker().None? && id in s.issued
    requires Queued(Apply(s, step), id)
    ensures Queued(s, id)
  {
    if EditsOneRow(step) {
      EditQueuesNothing(s, step, id);
    } else {
      OtherRequestQueuesNothing(s, step, id);
    }
  }

  /** Nothing but a creation, a retry, a restart or a rollback puts a record into the queue. */
  lemma StaysQueued(s: State, step: Step, id: int)
    requires Inv(s) && Enabled(s, step) && ReturnsNothing(step) && id in s.issued && Queued(Apply(s, step), id)
    ensures Queued(s, id)
  {
    if step.Worker().Some? {
      WorkerQueuesNothing(s, step, id);
    } else {
      RequestQueuesNothing(s, step, id);
    }
  }

  /** In such a step no known record starts to wait. */
  lemma NobodyStartsWaiting(s: State, step: Step, id: int)
    requires Inv(s) && Enabled(s, step) && ReturnsNothing(step) && id in s.issued
    ensures Waits(Apply(s, step), id) ==> Waits(s, id)
  {
    if Waits(Apply(s, step), id) {
      StaysQueued(s, step, id);
      if id in Locked(s.pool) {
        LocksPersist(s, step, id);
      }
    }
  }

  lemma {:induction false} SubsetSmaller(a: set<int>, b: set<int>)
    requires a <= b
    ensures |a| <= |b|
  {
    assert b == a + (b - a);
  }

  /** What is ahead of a known record was issued before it. */
  lemma OlderIsIssued(s: State, step: Step, id: int, other: int)
    requires Inv(s) && Enabled(s, step) && id in s.issued && other < id && other in Apply(s, step).rows
    ensures other in s.issued
  {
    StepKeepsInv(s, step);
    if step.Create? {
      CreateIssues(s, step);
    } else if step.Worker().Some? {
      WorkerKeepsIssued(s, step);
    } else {
      RequestKeepsIssued(s, step);
    }
  }

  /** What is ahead of a waiting record was ahead of it before, and a selection takes one of them. */
  lemma AheadWasAhead(s: State, step: Step, id: int)
    requires Inv(s) && Enabled(s, step) && ReturnsNothing(step) && id in s.issued
    ensures Ahead(Apply(s, step), id) <= Ahead(s, id)
  {
    forall other | other in Ahead(Apply(s, step), id)
      ensures other in Ahead(s, id)
    {
      OlderIsIssued(s, step, id, other);
      NobodyStartsWaiting(s, step, other);
    }
  }

  lemma SelectionTakesOneAhead(s: State, step: Step, id: int)
    requires Inv(s) && Enabled(s, step) && ReturnsNothing(step) && id in s.issued && step.Select? && step.dbOk
    requires Waits(s, id) && Waits(Apply(s, step), id)
    ensures |Ahead(Apply(s, step), id)| + 1 <= |Ahead(s, id)|
  {
    ClaimTakesNoHigherId(s, step, id);
    AheadWasAhead(s, step, id);
    var picked := Apply(s, step).pool.workers[step.w].job.id;
    SubsetSmaller(Ahead(Apply(s, step), id), Ahead(s, id) - {picked});
  }

  lemma QueueAheadShrinks(s: State, step: Step, id: int)
    requires Inv(s) && Enabled(s, step) && ReturnsNothing(step) && id in s.issued
    requires Waits(Apply(s, step), id)
    ensures Waits(s, id) && id in Apply(s, step).issued
    ensures Selections([step]) + |Ahead(Apply(s, step), id)| <= |Ahead(s, id)|
  {
    NobodyStartsWaiting(s, step, id);
    IssuedStays(s, step, id);
    assert [step][1..] == [];
    if step.Select? && step.dbOk {
      SelectionTakesOneAhead(s, step, id);
    } else {
      AheadWasAhead(s, step, id);
      SubsetSmaller(Ahead(Apply(s, step), id), Ahead(s, id));
    }
  }

  /** A record with k unlocked waiting records below it is picked (or deleted) by the (k+1)-th
      successful selection at the latest, in any run without retry, restart or rollback. */
  lemma {:induction false} PickedInTurn(s: State, steps: seq<Step>, id: int)
    requires Inv(s) && ValidRun(s, steps) && AllReturnNothing(steps) && id in s.issued
    ensures Waits(After(s, steps), id) ==>
              Waits(s, id) && Selections(steps) + |Ahead(After(s, steps), id)| <= |Ahead(s, id)|
    decreases |steps|
  {
    if steps != [] {
      var t := Apply(s, steps[0]);
      StepKeepsInv(s, steps[0]);
      IssuedStays(s, steps[0], id);
      PickedInTurn(t, steps[1..], id);
      if Waits(After(s, steps), id) {
        QueueAheadShrinks(s, steps[0], id);
        assert [steps[0]][1..] == [];
      }
    }
  }

  /** Claim transactions that are open. */
  function ClaimOpen(pc: Pc): int {
    if pc.Tick? && pc.job.Selected? then 1 else 0
  }

  lemma {:induction false} SpawnedHaveNoClaim(count: nat)
    ensures Sum(Spawned(count), ClaimOpen) == 0
  {
    if count > 0 {
      assert Spawned(count)[1..] == Spawned(count - 1);
      SpawnedHaveNoClaim(count - 1);
    }
  }

  /** Only a successful selection opens a claim, and a commit closes one. */
  lemma ClaimOpens(s: State, step: Step)
    requires Enabled(s, step) && step.Worker().Some?
    ensures var w := step.Worker().value;
            && w < |s.pool.workers| && w < |Apply(s, step).pool.workers|
            && ClaimOpen(Apply(s, step).pool.workers[w]) + (if step.Commit? then 1 else 0)
               <= ClaimOpen(s.pool.workers[w]) + (if step.Select? && step.dbOk then 1 else 0)
  {
  }

  lemma CommitUsesSelection(s: State, step: Step)
    requires Enabled(s, step) && !step.Restart?
    ensures Commits([step]) + Sum(Apply(s, step).pool.workers, ClaimOpen)
            <= Selections([step]) + Sum(s.pool.workers, ClaimOpen)
  {
    assert [step][1..] == [];
    if step.Worker().Some? {
      WorkerStepFollowsEdge(s, step);
      ClaimOpens(s, step);
      var w := step.Worker().value;
      SumUpdate(s.pool.workers, w, Apply(s, step).pool.workers[w], ClaimOpen);
    } else {
      RequestKeepsWorkers(s, step);
      if step.Resize? {
        var goal := Clamp(step.target);
        var missing := if goal > s.pool.current then goal - s.pool.current else 0;
        SumAppend(s.pool.workers, Spawned(missing), ClaimOpen);
        SpawnedHaveNoClaim(missing);
      }
    }
  }

  /** Every committed claim was selected earlier: in the run, or before it by a transaction
      that was open when the run started. */
  lemma {:induction false} CommitsFollowSelections(s: State, steps: seq<Step>)
    requires ValidRun(s, steps) && NoRestart(steps)
    ensures Commits(steps) + Sum(After(s, steps).pool.workers, ClaimOpen)
            <= Selections(steps) + Sum(s.pool.workers, ClaimOpen)
    decreases |steps|
  {
    if steps != [] {
      CommitUsesSelection(s, steps[0]);
      assert [steps[0]][1..] == [];
      CommitsFollowSelections(Apply(s, steps[0]), steps[1..]);
    }
  }

  lemma NothingRestarts(steps: seq<Step>)
    requires AllReturnNothing(steps)
    ensures NoRestart(steps)
  {
    forall i | 0 <= i < |steps|
      ensures !steps[i].Restart?
    {
      assert ReturnsNothing(steps[i]);
    }
  }

  /** In terms of committed claims: with k records ahead and c claims open at the start, a record
      is no longer waiting once k + c + 1 claims have been committed, unless its own claim is open
      at that moment. */
  lemma PickedByCommits(s: State, steps: seq<Step>, id: int)
    requires Inv(s) && ValidRun(s, steps) && AllReturnNothing(steps) && Waits(s, id)
    requires Commits(steps) > |Ahead(s, id)| + Sum(s.pool.workers, ClaimOpen)
    ensures Queued(After(s, steps), id) <==> id in Locked(After(s, steps).pool)
  {
    NothingRestarts(steps);
    CommitsFollowSelections(s, steps);
    SumNonNegative(After(s, steps).pool.workers, ClaimOpen);
    PickedInTurn(s, steps, id);
    RunKeepsInv(s, steps);
    if id in Locked(After(s, steps).pool) {
      var w := Locker(After(s, steps), id);
    }
  }

  // ---- runs that return nothing ----

  /** A run that returns nothing to the queue and leaves the pool's size alone. */
  ghost predicate PlainRun(s: State, steps: seq<Step>) {
    ValidRun(s, steps) && AllReturnNothing(steps) && NoResize(steps)
  }

  lemma PlainRunCons(s: State, step: Step, rest: seq<Step>)
    requires Enabled(s, step) && ReturnsNothing(step) && !step.Resize? && PlainRun(Apply(s, step), rest)
    ensures PlainRun(s, [step] + rest) && After(s, [step] + rest) == After(Apply(s, step), rest)
    ensures Commits([step] + rest) == Commits([step]) + Commits(rest)
  {
    assert ([step] + rest)[1..] == rest && [step][1..] == [];
  }
}
