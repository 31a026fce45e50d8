/** When claims commit in turn: a condition on the pool under which a waiting record is never late,
    however requests, failures and workers interleave. */
module QueueOrder {
  import opened Wrappers
  import opened Records
  import opened WorkerPool
  import opened Queue
  import opened QueueSafety
  import opened QueueTheorems
  import opened QueueFairness

  // ---- the condition ----

  function AtBegin(pc: Pc): int {
    if pc == Tick(Begin) then 1 else 0
  }

  /** Past the comparison of `current` with `desired`, and before the selection. */
  function PastCheck(pc: Pc): int {
    if pc == Tick(Begin) || pc == CheckStop then 1 else 0
  }

  /** Workers that will select without looking at `desired` again. Once the stop channel is closed
      those that have not polled it yet no longer will. */
  function Ready(p: Pool): int {
    Sum(p.workers, if p.closed then AtBegin else PastCheck)
  }

  /** At most one worker is about to select, and no second one can follow it: the pool is stopped,
      wants at most one worker, or has at most one that stays. */
  predicate OneSelector(p: Pool) {
    Ready(p) <= 1 && (p.closed || p.desired <= 1 || Sum(p.workers, Staying) <= 1)
  }

  /** A pool with at most one worker meets it. */
  lemma OneWorkerSelects(p: Pool)
    requires Sum(p.workers, Staying) <= 1
    ensures OneSelector(p)
  {
    SumMonotone(p.workers, AtBegin, Staying, 1);
    SumMonotone(p.workers, PastCheck, Staying, 1);
  }

  // ---- the condition lasts ----

  lemma {:induction false} SumTwo(workers: seq<Pc>, v: nat, w: nat, weight: Pc -> int)
    requires v < w < |workers| && forall pc :: weight(pc) >= 0
    ensures weight(workers[v]) + weight(workers[w]) <= Sum(workers, weight)
  {
    if v == 0 {
      SumNonNegative(workers[1..], weight);
      assert workers[w] == workers[1..][w - 1];
    } else {
      SumTwo(workers[1..], v - 1, w - 1, weight);
    }
  }

  lemma {:induction false} SumPointwise(workers: seq<Pc>, low: Pc -> int, high: Pc -> int)
    requires forall pc :: low(pc) <= high(pc)
    ensures Sum(workers, low) <= Sum(workers, high)
  {
    if workers != [] {
      SumPointwise(workers[1..], low, high);
    }
  }

  lemma ReadyNonNegative(p: Pool)
    ensures 0 <= Ready(p)
  {
    SumNonNegative(p.workers, AtBegin);
    SumNonNegative(p.workers, PastCheck);
  }

  /** A worker that passes the check of a pool with at most one selector is the only one left. */
  lemma PassesAlone(p: Pool, w: nat)
    requires Counted(p) && w < |p.workers| && p.workers[w] == CheckExcess && p.current <= p.desired
    requires p.desired <= 1 || Sum(p.workers, Staying) <= 1
    ensures Sum(p.workers, PastCheck) <= 0
    ensures forall v :: 0 <= v < |p.workers| && v != w ==> Staying(p.workers[v]) == 0
  {
    var rest := p.workers[w := Done];
    SumUpdate(p.workers, w, Done, PastCheck);
    SumUpdate(p.workers, w, Done, Live);
    SumUpdate(p.workers, w, Done, Staying);
    SumPointwise(rest, PastCheck, Staying);
    SumPointwise(rest, Staying, Live);
    SumNonNegative(rest, Staying);
    assert forall v :: 0 <= v < |p.workers| && v != w ==> rest[v] == p.workers[v];
  }

  lemma MoveKeepsOneSelector(p: Pool, w: nat, pc: Pc)
    requires Counted(p) && w < |p.workers| && Edge(p, p.workers[w], pc) && OneSelector(p)
    ensures OneSelector(Moved(p, w, pc))
  {
    SumUpdate(p.workers, w, pc, AtBegin);
    SumUpdate(p.workers, w, pc, PastCheck);
    SumUpdate(p.workers, w, pc, Staying);
    if !p.closed && pc == CheckStop {
      PassesAlone(p, w);
    }
  }

  /** While one worker has a claim open no other becomes ready. */
  lemma MoveMakesNobodyReady(p: Pool, v: nat, w: nat, pc: Pc)
    requires Counted(p) && v < |p.workers| && w < |p.workers| && v != w && Edge(p, p.workers[w], pc)
    requires OneSelector(p) && Ready(p) == 0 && Staying(p.workers[v]) == 1
    ensures Ready(Moved(p, w, pc)) == 0
  {
    SumUpdate(p.workers, w, pc, AtBegin);
    SumUpdate(p.workers, w, pc, PastCheck);
    SumNonNegative(p.workers, AtBegin);
    SumNonNegative(p.workers, PastCheck);
    if !p.closed && pc == CheckStop {
      PassesAlone(p, w);
    }
  }

  lemma StopKeepsOneSelector(p: Pool)
    requires OneSelector(p)
    ensures OneSelector(Stopped(p)) && Ready(Stopped(p)) <= Ready(p)
  {
    SumPointwise(p.workers, AtBegin, PastCheck);
  }

  lemma StepKeepsOneSelector(s: State, step: Step)
    requires Inv(s) && Enabled(s, step) && !step.Resize? && !step.Restart? && OneSelector(s.pool)
    ensures OneSelector(Apply(s, step).pool)
  {
    if step.Worker().Some? {
      WorkerStepFollowsEdge(s, step);
      MoveKeepsOneSelector(s.pool, step.Worker().value, Apply(s, step).pool.workers[step.Worker().value]);
    } else {
      RequestKeepsWorkers(s, step);
      StopKeepsOneSelector(s.pool);
    }
  }

  // ---- the selector of a record keeps everybody else from selecting ----

  /** While the record's claim is open nobody is about to select. */
  predicate Orderly(s: State, id: int) {
    OneSelector(s.pool) && (id in Locked(s.pool) ==> Ready(s.pool) == 0)
  }

  /** While a record's claim stays open nobody becomes ready to select. */
  lemma StaysBusy(s: State, step: Step, id: int)
    requires Inv(s) && Enabled(s, step) && ReturnsNothing(step) && !step.Resize?
    requires OneSelector(s.pool) && Ready(s.pool) == 0
    requires id in Locked(s.pool) && Queued(Apply(s, step), id)
    ensures Ready(Apply(s, step).pool) == 0
  {
    var v := Locker(s, id);
    if step.Worker().Some? {
      WorkerStepFollowsEdge(s, step);
      var w := step.Worker().value;
      if w == v {
        LockerCommits(s, step, v, id);
        assert false;
      } else {
        MoveMakesNobodyReady(s.pool, v, w, Apply(s, step).pool.workers[w]);
      }
    } else {
      RequestKeepsWorkers(s, step);
      StopKeepsOneSelector(s.pool);
      ReadyNonNegative(Apply(s, step).pool);
    }
  }

  /** Whoever selects was the one ready worker. */
  lemma SelectorWasReady(s: State, step: Step)
    requires Enabled(s, step) && step.Select?
    ensures Ready(s.pool) >= 1
    ensures Ready(Apply(s, step).pool) == Ready(s.pool) - 1
  {
    WorkerStepFollowsEdge(s, step);
    var w := step.w;
    SumNonNegative(s.pool.workers, AtBegin);
    SumNonNegative(s.pool.workers, PastCheck);
    SumUpdate(s.pool.workers, w, Apply(s, step).pool.workers[w], AtBegin);
    SumUpdate(s.pool.workers, w, Apply(s, step).pool.workers[w], PastCheck);
  }

  /** The locked rows are those whose claim some worker has open. */
  lemma LockedIffSelected(p: Pool, id: int)
    ensures id in Locked(p) <==> exists w: nat :: w < |p.workers| && p.workers[w] == Tick(Selected(id))
  {
    if w: nat :| w < |p.workers| && p.workers[w] == Tick(Selected(id)) {
      assert p.workers[w].job.id in Locked(p);
    }
  }

  /** Only a selection locks a record. */
  lemma OnlySelectLocks(s: State, step: Step, id: int)
    requires Enabled(s, step) && !step.Restart? && id in Locked(Apply(s, step).pool) && id !in Locked(s.pool)
    ensures step.Select? && step.dbOk
  {
    LockedIffSelected(s.pool, id);
    LockedIffSelected(Apply(s, step).pool, id);
    if step.Worker().Some? {
      WorkerStepFollowsEdge(s, step);
    } else {
      RequestKeepsWorkers(s, step);
    }
  }

  lemma StepKeepsOrderly(s: State, step: Step, id: int)
    requires Inv(s) && Enabled(s, step) && ReturnsNothing(step) && !step.Resize?
    requires Orderly(s, id) && Queued(Apply(s, step), id)
    ensures Orderly(Apply(s, step), id)
  {
    StepKeepsOneSelector(s, step);
    if id in Locked(s.pool) {
      StaysBusy(s, step, id);
    } else if id in Locked(Apply(s, step).pool) {
      OnlySelectLocks(s, step, id);
      SelectorWasReady(s, step);
      ReadyNonNegative(Apply(s, step).pool);
    }
  }

  // ---- selections until the record is taken ----

  /** Selections that may still come before the record has left the queue. */
  function Due(s: State, id: int): int {
    if id in Locked(s.pool) then 0 else |Ahead(s, id)| + 1
  }

  lemma StepUsesDue(s: State, step: Step, id: int)
    requires Inv(s) && Enabled(s, step) && ReturnsNothing(step) && Orderly(s, id)
    requires id in s.issued && Queued(Apply(s, step), id)
    ensures Selections([step]) + Due(Apply(s, step), id) <= Due(s, id)
  {
    assert [step][1..] == [];
    if id in Locked(s.pool) {
      LocksPersist(s, step, id);
      if step.Select? {
        SelectorWasReady(s, step);
      }
    } else if Waits(Apply(s, step), id) {
      QueueAheadShrinks(s, step, id);
    }
  }

  /** A record that is in the queue at the end of such a run was there at the start. */
  lemma {:induction false} QueuedThroughout(s: State, steps: seq<Step>, id: int)
    requires Inv(s) && ValidRun(s, steps) && AllReturnNothing(steps) && id in s.issued && Queued(After(s, steps), id)
    ensures Queued(s, id)
    decreases |steps|
  {
    if steps != [] {
      assert ReturnsNothing(steps[0]);
      StepKeepsInv(s, steps[0]);
      IssuedStays(s, steps[0], id);
      QueuedThroughout(Apply(s, steps[0]), steps[1..], id);
      StaysQueued(s, steps[0], id);
    }
  }

  lemma {:induction false} SelectionsWithinDue(s: State, steps: seq<Step>, id: int)
    requires Inv(s) && PlainRun(s, steps) && Orderly(s, id) && id in s.issued && Queued(After(s, steps), id)
    ensures Queued(s, id) && Selections(steps) + Due(After(s, steps), id) <= Due(s, id)
    decreases |steps|
  {
    if steps != [] {
      var step, t := steps[0], Apply(s, steps[0]);
      assert ReturnsNothing(step) && !step.Resize?;
      StepKeepsInv(s, step);
      IssuedStays(s, step, id);
      QueuedThroughout(t, steps[1..], id);
      StaysQueued(s, step, id);
      StepKeepsOrderly(s, step, id);
      SelectionsWithinDue(t, steps[1..], id);
      StepUsesDue(s, step, id);
      assert [step][1..] == [];
    }
  }

  lemma OpenClaimCounts(p: Pool, id: int)
    requires id in Locked(p)
    ensures Sum(p.workers, ClaimOpen) >= 1
  {
    var w: nat :| w < |p.workers| && p.workers[w].Tick? && p.workers[w].job == Selected(id);
    SumNonNegative(p.workers, ClaimOpen);
  }

  /** Under the condition no record is late: one with k waiting below it is claimed, or deleted, by
      the (k + 1)-th committed claim, counting those open at the start. */
  lemma ClaimedInTurn(s: State, steps: seq<Step>, id: int)
    requires Inv(s) && PlainRun(s, steps) && Waits(s, id) && OneSelector(s.pool)
    requires Commits(steps) > |Ahead(s, id)| + Sum(s.pool.workers, ClaimOpen)
    ensures !Queued(After(s, steps), id)
  {
    if Queued(After(s, steps), id) {
      PickedByCommits(s, steps, id);
      SelectionsWithinDue(s, steps, id);
      NothingRestarts(steps);
      CommitsFollowSelections(s, steps);
      OpenClaimCounts(After(s, steps).pool, id);
    }
  }
}
