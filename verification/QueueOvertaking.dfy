/** When claims do not commit in turn: outside that condition a run in which a record is late. */
module QueueOvertaking {
  import opened Wrappers
  import opened Records
  import opened WorkerPool
  import opened Queue
  import opened QueueSafety
  import opened QueueTheorems
  import opened QueueFairness
  import opened QueueOrder

  // ---- two workers about to select ----

  lemma {:induction false} SumOfNone(workers: seq<Pc>, weight: Pc -> int)
    requires forall w :: 0 <= w < |workers| ==> weight(workers[w]) == 0
    ensures Sum(workers, weight) == 0
  {
    if workers != [] {
      assert forall w :: 0 <= w < |workers[1..]| ==> workers[1..][w] == workers[w + 1];
      SumOfNone(workers[1..], weight);
    }
  }

  /** The only open claim is this worker's. */
  lemma OnlyClaim(workers: seq<Pc>, v: nat)
    requires v < |workers| && ClaimOpen(workers[v]) == 1
    requires forall w :: 0 <= w < |workers| && w != v ==> ClaimOpen(workers[w]) == 0
    ensures Sum(workers, ClaimOpen) == 1
  {
    SumUpdate(workers, v, IdleWait, ClaimOpen);
    SumOfNone(workers[v := IdleWait], ClaimOpen);
  }

  /** An open claim can be committed, which changes that record's row and that worker only. */
  lemma CommitOne(s: State, w: nat) returns (step: Step)
    requires Inv(s) && w < |s.pool.workers| && ClaimOpen(s.pool.workers[w]) == 1
    ensures Enabled(s, step) && step == Step.Commit(w, Committed, s.clock) && ReturnsNothing(step)
    ensures var t, id := Apply(s, step), s.pool.workers[w].job.id;
            && t.pool.workers == s.pool.workers[w := Tick(Claimed(id))]
            && id in s.rows && t.rows == s.rows[id := s.rows[id].Claim(s.clock)]
            && t.clock == s.clock
    ensures Sum(Apply(s, step).pool.workers, ClaimOpen) == Sum(s.pool.workers, ClaimOpen) - 1
    ensures Commits([step]) == 1
  {
    assert AtJob(s, w) && JobSound(s, s.pool.workers[w].job);
    step := Step.Commit(w, Committed, s.clock);
    assert [step][1..] == [];
    SumUpdate(s.pool.workers, w, Tick(Claimed(s.pool.workers[w].job.id)), ClaimOpen);
  }

  /** Every open claim but this worker's can be committed; rows that run keep running. */
  lemma {:induction false} CommitOthers(s: State, v: nat) returns (steps: seq<Step>)
    requires Inv(s) && v < |s.pool.workers| && ClaimOpen(s.pool.workers[v]) == 1
    ensures PlainRun(s, steps) && Commits(steps) == Sum(s.pool.workers, ClaimOpen) - 1
    ensures v < |After(s, steps).pool.workers| && After(s, steps).pool.workers[v] == s.pool.workers[v]
    ensures forall id :: id in s.rows && s.rows[id].status == Running ==>
              id in After(s, steps).rows && After(s, steps).rows[id].status == Running
    decreases Sum(s.pool.workers, ClaimOpen)
  {
    SumNonNegative(s.pool.workers, ClaimOpen);
    if w: nat :| w < |s.pool.workers| && w != v && ClaimOpen(s.pool.workers[w]) == 1 {
      var step := CommitOne(s, w);
      var t := Apply(s, step);
      StepKeepsInv(s, step);
      SumNonNegative(t.pool.workers, ClaimOpen);
      var rest := CommitOthers(t, v);
      PlainRunCons(s, step, rest);
      steps := [step] + rest;
    } else {
      OnlyClaim(s.pool.workers, v);
      steps := [];
    }
  }

  lemma LockedByMove(p: Pool, w: nat, id: int, other: int)
    requires w < |p.workers| && p.workers[w] == Tick(Begin)
    ensures other in Locked(Moved(p, w, Tick(Selected(id)))) <==> other in Locked(p) || other == id
  {
    var q := Moved(p, w, Tick(Selected(id)));
    assert q.workers[w] == Tick(Selected(id));
    if other in Locked(p) {
      var v: nat :| v < |p.workers| && p.workers[v].Tick? && p.workers[v].job == Selected(other);
      assert q.workers[v] == p.workers[v];
    }
  }

  /** A worker at the start of its tick picks the lowest candidate. */
  lemma SelectLowest(s: State, w: nat) returns (id: int)
    requires w < |s.pool.workers| && s.pool.workers[w] == Tick(Begin) && Candidates(s.rows, Locked(s.pool)) != {}
    ensures IsLeast(id, Candidates(s.rows, Locked(s.pool)))
    ensures var t := Apply(s, Select(w, true));
            && Enabled(s, Select(w, true)) && t.rows == s.rows
            && t.pool.workers == s.pool.workers[w := Tick(Selected(id))]
            && Candidates(t.rows, Locked(t.pool)) == Candidates(s.rows, Locked(s.pool)) - {id}
            && Sum(t.pool.workers, ClaimOpen) == Sum(s.pool.workers, ClaimOpen) + 1
    ensures Commits([Select(w, true)]) == 0
  {
    id := Lowest(Candidates(s.rows, Locked(s.pool)));
    var t := Apply(s, Select(w, true));
    assert [Select(w, true)][1..] == [];
    assert t.pool.workers[w] == Tick(Selected(id));
    SumUpdate(s.pool.workers, w, Tick(Selected(id)), ClaimOpen);
    assert Locked(t.pool) == Locked(s.pool) + {id} by {
      forall other
        ensures other in Locked(t.pool) <==> other in Locked(s.pool) || other == id
      {
        LockedByMove(s.pool, w, id, other);
      }
    }
  }

  /** The second worker's claim is committed, then everybody else's but the first worker's. */
  lemma CommitSecond(s: State, v: nat, w: nat) returns (steps: seq<Step>)
    requires Inv(s) && v < |s.pool.workers| && w < |s.pool.workers| && v != w
    requires ClaimOpen(s.pool.workers[v]) == 1 && ClaimOpen(s.pool.workers[w]) == 1
    ensures PlainRun(s, steps) && Commits(steps) == Sum(s.pool.workers, ClaimOpen) - 1
    ensures v < |After(s, steps).pool.workers| && After(s, steps).pool.workers[v] == s.pool.workers[v]
    ensures var other := s.pool.workers[w].job.id;
            other in After(s, steps).rows && After(s, steps).rows[other].status == Running
  {
    var step := CommitOne(s, w);
    var t := Apply(s, step);
    StepKeepsInv(s, step);
    var rest := CommitOthers(t, v);
    PlainRunCons(s, step, rest);
    steps := [step] + rest;
  }

  /** The second worker selects the next record and overtakes. */
  lemma SecondOvertakes(s: State, v: nat, w: nat) returns (other: int, steps: seq<Step>)
    requires Inv(s) && v < |s.pool.workers| && w < |s.pool.workers| && v != w
    requires ClaimOpen(s.pool.workers[v]) == 1 && s.pool.workers[w] == Tick(Begin)
    requires Candidates(s.rows, Locked(s.pool)) != {}
    ensures Waits(s, other)
    ensures PlainRun(s, steps) && Commits(steps) == Sum(s.pool.workers, ClaimOpen)
    ensures v < |After(s, steps).pool.workers| && After(s, steps).pool.workers[v] == s.pool.workers[v]
    ensures other in After(s, steps).rows && After(s, steps).rows[other].status == Running
  {
    other := SelectLowest(s, w);
    var step := Select(w, true);
    StepKeepsInv(s, step);
    var rest := CommitSecond(Apply(s, step), v, w);
    PlainRunCons(s, step, rest);
    steps := [step] + rest;
  }

  /** A record in an open claim at the end of a run is still in the queue. */
  lemma StillLocked(s: State, steps: seq<Step>, v: nat, id: int)
    requires Inv(s) && ValidRun(s, steps)
    requires v < |After(s, steps).pool.workers| && After(s, steps).pool.workers[v] == Tick(Selected(id))
    ensures id in Locked(After(s, steps).pool) && Queued(After(s, steps), id)
  {
    RunKeepsInv(s, steps);
    var last := After(s, steps);
    assert last.pool.workers[v].job.id in Locked(last.pool);
    var locker := Locker(last, id);
  }

  /** From every state in which two workers are about to select and two records wait, some run lets
      the higher record overtake: more claims are committed than the bound above allows for, and the
      lowest waiting record still waits, in its open claim. So with two workers the order of commits
      need not be the order of ids. */
  lemma TwoWorkersMayOvertake(s: State, v: nat, w: nat, a: int, b: int)
    returns (id: int, other: int, steps: seq<Step>)
    requires Inv(s) && v < |s.pool.workers| && w < |s.pool.workers| && v != w
    requires s.pool.workers[v] == Tick(Begin) && s.pool.workers[w] == Tick(Begin)
    requires Waits(s, a) && Waits(s, b) && a != b
    ensures Waits(s, id) && Waits(s, other) && id < other && Ahead(s, id) == {}
    ensures PlainRun(s, steps) && Commits(steps) > |Ahead(s, id)| + Sum(s.pool.workers, ClaimOpen)
    ensures Queued(After(s, steps), id) && id in Locked(After(s, steps).pool)
    ensures other in After(s, steps).rows && After(s, steps).rows[other].status == Running
  {
    id := SelectLowest(s, v);
    var step := Select(v, true);
    var t := Apply(s, step);
    StepKeepsInv(s, step);
    assert (if a == id then b else a) in Candidates(t.rows, Locked(t.pool));
    var rest: seq<Step>;
    other, rest := SecondOvertakes(t, v, w);
    PlainRunCons(s, step, rest);
    steps := [step] + rest;
    StillLocked(t, rest, v, id);
  }

  // ---- driving workers without touching the queue ----

  /** What a worker can do next without selecting a record: at the start of a tick its selection
      fails, everything else goes well. */
  function Advance(s: State, u: nat): Step
    requires u < |s.pool.workers| && s.pool.workers[u] != Done
  {
    if s.pool.workers[u] == Tick(Begin) then Select(u, false) else NextStep(s, u)
  }

  /** The same records wait, and each committed claim was open before. */
  ghost predicate SameQueue(s: State, t: State, commits: nat) {
    && Candidates(t.rows, Locked(t.pool)) == Candidates(s.rows, Locked(s.pool))
    && commits + Sum(t.pool.workers, ClaimOpen) == Sum(s.pool.workers, ClaimOpen)
  }

  /** Nobody but u moved, and the pool is wanted and open as before. */
  predicate OnlyMoved(p: Pool, q: Pool, u: nat) {
    && q.desired == p.desired && q.closed == p.closed && |q.workers| == |p.workers|
    && forall w :: 0 <= w < |p.workers| && w != u ==> q.workers[w] == p.workers[w]
  }

  lemma AdvanceEnabled(s: State, u: nat)
    requires Inv(s) && u < |s.pool.workers| && s.pool.workers[u] != Done
    ensures var step := Advance(s, u);
            Enabled(s, step) && step.Worker() == Some(u) && ReturnsNothing(step) && !step.Resize?
  {
    if s.pool.workers[u] != Tick(Begin) {
      NextStepEnabled(s, u);
    }
  }

  /** A commit takes its record out of the queue and no other. */
  lemma CommitTakesOne(s: State, u: nat, id: int)
    requires Inv(s) && u < |s.pool.workers| && ClaimOpen(s.pool.workers[u]) == 1
    ensures var step := Step.Commit(u, Committed, s.clock);
            && Enabled(s, step)
            && (Queued(Apply(s, step), id) <==> Queued(s, id) && id != s.pool.workers[u].job.id)
  {
    var step := CommitOne(s, u);
  }

  /** The final writes concern records that run. */
  lemma FinalWriteKeepsQueue(s: State, step: Step, id: int)
    requires Inv(s) && Enabled(s, step) && (step.StoreGenerated? || step.MarkFailed?)
    ensures Queued(Apply(s, step), id) <==> Queued(s, id)
  {
    assert AtJob(s, step.w) && JobSound(s, s.pool.workers[step.w].job);
  }

  lemma PutKeepsRows(s: State, step: Step)
    requires Enabled(s, step) && step.PutImage?
    ensures Apply(s, step).rows == s.rows
  {
  }

  /** What the record in hand becomes: only a commit takes it out of the queue. */
  lemma AdvanceKeepsOthers(s: State, u: nat, id: int)
    requires Inv(s) && u < |s.pool.workers| && s.pool.workers[u] != Done && Enabled(s, Advance(s, u))
    ensures var t := Apply(s, Advance(s, u));
            Queued(t, id) <==> Queued(s, id) && s.pool.workers[u] != Tick(Selected(id))
  {
    var step := Advance(s, u);
    if OnlyMoves(step) {
      MovingEffect(s, step);
    } else if step.Commit? {
      CommitTakesOne(s, u, id);
    } else if step.PutImage? {
      PutKeepsRows(s, step);
    } else {
      FinalWriteKeepsQueue(s, step, id);
    }
  }

  lemma AdvanceMoves(s: State, u: nat)
    requires Inv(s) && u < |s.pool.workers| && s.pool.workers[u] != Done && Enabled(s, Advance(s, u))
    ensures var t := Apply(s, Advance(s, u));
            && u < |t.pool.workers| && Edge(s.pool, s.pool.workers[u], t.pool.workers[u])
            && t.pool == Moved(s.pool, u, t.pool.workers[u]) && OnlyMoved(s.pool, t.pool, u)
  {
    WorkerStepFollowsEdge(s, Advance(s, u));
  }

  lemma FailedSelectIdles(s: State, u: nat)
    requires Enabled(s, Select(u, false))
    ensures u < |Apply(s, Select(u, false)).pool.workers| && Apply(s, Select(u, false)).pool.workers[u] == IdleWait
  {
  }

  lemma IdleWakes(s: State, u: nat)
    requires Enabled(s, Idle(u, false))
    ensures u < |Apply(s, Idle(u, false)).pool.workers| && Apply(s, Idle(u, false)).pool.workers[u] == CheckExcess
  {
  }

  /** An idle worker goes back to the top, a selecting one goes idle, and no claim is opened. */
  lemma AdvanceOpensNoClaim(s: State, u: nat)
    requires Inv(s) && u < |s.pool.workers| && s.pool.workers[u] != Done && Enabled(s, Advance(s, u))
    requires u < |Apply(s, Advance(s, u)).pool.workers|
    ensures var pc := Apply(s, Advance(s, u)).pool.workers[u];
            && ClaimOpen(pc) == 0
            && (s.pool.workers[u].IdleWait? ==> pc == CheckExcess)
            && (s.pool.workers[u] == Tick(Begin) ==> pc == IdleWait)
  {
    if s.pool.workers[u] == Tick(Begin) {
      FailedSelectIdles(s, u);
    } else if s.pool.workers[u].IdleWait? {
      IdleWakes(s, u);
    } else {
      AdvanceMoves(s, u);
    }
  }

  lemma AdvanceCommits(s: State, u: nat)
    requires u < |s.pool.workers| && s.pool.workers[u] != Done
    ensures Commits([Advance(s, u)]) == ClaimOpen(s.pool.workers[u])
  {
    assert [Advance(s, u)][1..] == [];
  }

  lemma AdvanceKeepsQueue(s: State, u: nat)
    requires Inv(s) && u < |s.pool.workers| && s.pool.workers[u] != Done && Enabled(s, Advance(s, u))
    ensures SameQueue(s, Apply(s, Advance(s, u)), Commits([Advance(s, u)]))
  {
    var t := Apply(s, Advance(s, u));
    AdvanceMoves(s, u);
    AdvanceOpensNoClaim(s, u);
    AdvanceCommits(s, u);
    SumUpdate(s.pool.workers, u, t.pool.workers[u], ClaimOpen);
    forall id
      ensures id in Candidates(t.rows, Locked(t.pool)) <==> id in Candidates(s.rows, Locked(s.pool))
    {
      AdvanceKeepsOthers(s, u, id);
      LockedIffSelected(s.pool, id);
      LockedIffSelected(t.pool, id);
    }
  }

  /** A run that drives workers only. */
  ghost predicate Drives(s: State, steps: seq<Step>, t: State) {
    && PlainRun(s, steps) && After(s, steps) == t && Inv(t)
    && SameQueue(s, t, Commits(steps))
    && t.pool.desired == s.pool.desired && t.pool.closed == s.pool.closed
  }

  lemma DrivesNowhere(s: State)
    requires Inv(s)
    ensures Drives(s, [], s)
  {
  }

  lemma DrivesOn(s: State, u: nat, rest: seq<Step>, t: State)
    requires Inv(s) && u < |s.pool.workers| && s.pool.workers[u] != Done && Enabled(s, Advance(s, u))
    requires Drives(Apply(s, Advance(s, u)), rest, t)
    ensures Drives(s, [Advance(s, u)] + rest, t)
  {
    AdvanceEnabled(s, u);
    AdvanceMoves(s, u);
    AdvanceKeepsQueue(s, u);
    PlainRunCons(s, Advance(s, u), rest);
  }

  lemma {:induction false} RunAppend(s: State, first: seq<Step>, rest: seq<Step>)
    requires ValidRun(s, first) && ValidRun(After(s, first), rest)
    ensures ValidRun(s, first + rest) && After(s, first + rest) == After(After(s, first), rest)
    decreases |first|
  {
    if first == [] {
      assert first + rest == rest;
    } else {
      assert (first + rest)[1..] == first[1..] + rest;
      RunAppend(Apply(s, first[0]), first[1..], rest);
    }
  }

  lemma {:induction false} CommitsAppend(first: seq<Step>, rest: seq<Step>)
    ensures Commits(first + rest) == Commits(first) + Commits(rest)
  {
    if first == [] {
      assert first + rest == rest;
    } else {
      assert (first + rest)[1..] == first[1..] + rest;
      CommitsAppend(first[1..], rest);
    }
  }

  lemma PlainRunAppend(s: State, first: seq<Step>, rest: seq<Step>)
    requires PlainRun(s, first) && PlainRun(After(s, first), rest)
    ensures PlainRun(s, first + rest) && After(s, first + rest) == After(After(s, first), rest)
    ensures Commits(first + rest) == Commits(first) + Commits(rest)
  {
    RunAppend(s, first, rest);
    CommitsAppend(first, rest);
  }

  lemma DrivesThen(s: State, first: seq<Step>, t: State, rest: seq<Step>, u: State)
    requires Drives(s, first, t) && Drives(t, rest, u)
    ensures Drives(s, first + rest, u)
  {
    PlainRunAppend(s, first, rest);
  }

  /** Steps to the top of the loop in an open pool. */
  function ToTop(pc: Pc): nat {
    match pc
    case CheckExcess => 0
    case IdleWait => 1
    case Tick(Begin) => 2
    case CheckStop => 3
    case Tick(Storing(_, _, _)) => 1
    case Tick(Failing(_, _, _)) => 1
    case Tick(Working(_, _)) => 2
    case Tick(Claimed(_)) => 3
    case Tick(Selected(_)) => 4
    case _ => 0
  }

  /** A worker that stays can be driven to the top of its loop. */
  lemma {:induction false} DriveToTop(s: State, u: nat) returns (steps: seq<Step>, t: State)
    requires Inv(s) && !s.pool.closed && u < |s.pool.workers| && Staying(s.pool.workers[u]) == 1
    ensures Drives(s, steps, t) && OnlyMoved(s.pool, t.pool, u) && t.pool.current == s.pool.current
    ensures t.pool.workers[u] == CheckExcess
    decreases ToTop(s.pool.workers[u])
  {
    if s.pool.workers[u] == CheckExcess {
      DrivesNowhere(s);
      steps, t := [], s;
    } else {
      var step := Advance(s, u);
      AdvanceEnabled(s, u);
      AdvanceMoves(s, u);
      AdvanceOpensNoClaim(s, u);
      StepKeepsInv(s, step);
      steps, t := DriveToTop(Apply(s, step), u);
      DrivesOn(s, u, steps, t);
      steps := [step] + steps;
    }
  }

  /** One step of a driven worker. */
  lemma DriveOne(s: State, u: nat) returns (steps: seq<Step>, t: State)
    requires Inv(s) && u < |s.pool.workers| && s.pool.workers[u] != Done
    ensures Drives(s, steps, t) && OnlyMoved(s.pool, t.pool, u)
    ensures t.pool == Moved(s.pool, u, t.pool.workers[u]) && Edge(s.pool, s.pool.workers[u], t.pool.workers[u])
  {
    var step := Advance(s, u);
    AdvanceEnabled(s, u);
    AdvanceMoves(s, u);
    StepKeepsInv(s, step);
    t := Apply(s, step);
    DrivesNowhere(t);
    DrivesOn(s, u, [], t);
    steps := [step] + [];
  }

  /** In a pool that is open and not too big a worker that stays can be brought to its selection. */
  lemma DriveToBegin(s: State, u: nat) returns (steps: seq<Step>, t: State)
    requires Inv(s) && !s.pool.closed && s.pool.current <= s.pool.desired
    requires u < |s.pool.workers| && Staying(s.pool.workers[u]) == 1
    ensures Drives(s, steps, t) && OnlyMoved(s.pool, t.pool, u) && t.pool.current == s.pool.current
    ensures t.pool.workers[u] == Tick(Begin)
  {
    var first, x := DriveToTop(s, u);
    var second, y := DriveOne(x, u);
    DrivesThen(s, first, x, second, y);
    var third, z := DriveOne(y, u);
    DrivesThen(s, first + second, y, third, z);
    steps, t := first + second + third, z;
  }

  /** A worker that stays leaves a pool that is open and too big, and is no longer counted. */
  lemma DriveOut(s: State, u: nat) returns (steps: seq<Step>, t: State)
    requires Inv(s) && !s.pool.closed && s.pool.current > s.pool.desired
    requires u < |s.pool.workers| && Live(s.pool.workers[u]) == 1
    ensures Drives(s, steps, t) && OnlyMoved(s.pool, t.pool, u) && t.pool.current == s.pool.current - 1
  {
    if s.pool.workers[u] == Leaving {
      steps, t := DriveOne(s, u);
    } else {
      var first, x := DriveToTop(s, u);
      var second, y := DriveOne(x, u);
      DrivesThen(s, first, x, second, y);
      var third, z := DriveOne(y, u);
      DrivesThen(s, first + second, y, third, z);
      steps, t := first + second + third, z;
    }
  }

  /** Among more than two counted workers there is a third one. */
  lemma ThirdWorker(workers: seq<Pc>, v: nat, w: nat) returns (u: nat)
    requires v < |workers| && w < |workers| && v != w && Sum(workers, Live) > 2
    ensures u < |workers| && u != v && u != w && Live(workers[u]) == 1
  {
    u := 0;
    if third: nat :| third < |workers| && third != v && third != w && Live(workers[third]) == 1 {
      u := third;
    } else {
      SumUpdate(workers, v, Done, Live);
      SumUpdate(workers[v := Done], w, Done, Live);
      SumOfNone(workers[v := Done][w := Done], Live);
      assert false;
    }
  }

  /** An open pool that wants two workers can be brought down to what it wants, keeping these two. */
  lemma {:induction false} DriveDown(s: State, v: nat, w: nat) returns (steps: seq<Step>, t: State)
    requires Inv(s) && !s.pool.closed && s.pool.desired >= 2
    requires v < |s.pool.workers| && w < |s.pool.workers| && v != w
    ensures Drives(s, steps, t) && t.pool.current <= t.pool.desired && |t.pool.workers| == |s.pool.workers|
    ensures t.pool.workers[v] == s.pool.workers[v] && t.pool.workers[w] == s.pool.workers[w]
    decreases s.pool.current - s.pool.desired
  {
    if s.pool.current <= s.pool.desired {
      DrivesNowhere(s);
      steps, t := [], s;
    } else {
      var u := ThirdWorker(s.pool.workers, v, w);
      var first, x := DriveOut(s, u);
      var rest: seq<Step>;
      rest, t := DriveDown(x, v, w);
      DrivesThen(s, first, x, rest, t);
      steps := first + rest;
    }
  }

  // ---- two selectors ----

  lemma {:induction false} OneCounted(workers: seq<Pc>, weight: Pc -> int) returns (w: nat)
    requires Sum(workers, weight) >= 1 && forall pc :: weight(pc) <= 1
    ensures w < |workers| && weight(workers[w]) == 1
  {
    if weight(workers[0]) == 1 {
      w := 0;
    } else {
      w := OneCounted(workers[1..], weight);
      w := w + 1;
    }
  }

  /** A sum of at least two counts two workers. */
  lemma {:induction false} TwoCounted(workers: seq<Pc>, weight: Pc -> int) returns (v: nat, w: nat)
    requires Sum(workers, weight) >= 2 && forall pc :: weight(pc) <= 1
    ensures v < w < |workers| && weight(workers[v]) == 1 && weight(workers[w]) == 1
  {
    if weight(workers[0]) == 1 && Sum(workers[1..], weight) < 2 {
      v := 0;
      w := OneCounted(workers[1..], weight);
      w := w + 1;
    } else {
      v, w := TwoCounted(workers[1..], weight);
      v, w := v + 1, w + 1;
    }
  }

  /** A worker that is ready to select can be brought to its selection. */
  lemma DriveReady(s: State, u: nat) returns (steps: seq<Step>, t: State)
    requires Inv(s) && u < |s.pool.workers|
    requires s.pool.workers[u] == Tick(Begin) || (!s.pool.closed && s.pool.workers[u] == CheckStop)
    ensures Drives(s, steps, t) && OnlyMoved(s.pool, t.pool, u) && t.pool.workers[u] == Tick(Begin)
  {
    if s.pool.workers[u] == Tick(Begin) {
      DrivesNowhere(s);
      steps, t := [], s;
    } else {
      steps, t := DriveOne(s, u);
    }
  }

  lemma TwoReady(s: State) returns (steps: seq<Step>, t: State, v: nat, w: nat)
    requires Inv(s) && Ready(s.pool) >= 2
    ensures Drives(s, steps, t) && v < |t.pool.workers| && w < |t.pool.workers| && v != w
    ensures t.pool.workers[v] == Tick(Begin) && t.pool.workers[w] == Tick(Begin)
  {
    v, w := TwoCounted(s.pool.workers, if s.pool.closed then AtBegin else PastCheck);
    var first, x := DriveReady(s, v);
    var rest, y := DriveReady(x, w);
    DrivesThen(s, first, x, rest, y);
    steps, t := first + rest, y;
  }

  lemma TwoStay(s: State) returns (steps: seq<Step>, t: State, v: nat, w: nat)
    requires Inv(s) && !s.pool.closed && s.pool.desired >= 2 && Sum(s.pool.workers, Staying) >= 2
    ensures Drives(s, steps, t) && v < |t.pool.workers| && w < |t.pool.workers| && v != w
    ensures t.pool.workers[v] == Tick(Begin) && t.pool.workers[w] == Tick(Begin)
  {
    v, w := TwoCounted(s.pool.workers, Staying);
    var first, x := DriveDown(s, v, w);
    var second, y := DriveToBegin(x, v);
    DrivesThen(s, first, x, second, y);
    var third, z := DriveToBegin(y, w);
    DrivesThen(s, first + second, y, third, z);
    steps, t := first + second + third, z;
  }

  // ---- the exact condition ----

  /** This record is not late in this run. */
  ghost predicate InTurn(s: State, id: int, steps: seq<Step>) {
    Waits(s, id) && PlainRun(s, steps) && Commits(steps) > |Ahead(s, id)| + Sum(s.pool.workers, ClaimOpen) ==>
      !Queued(After(s, steps), id)
  }

  /** Outside the condition, with two records waiting, some run leaves the lowest one waiting too long. */
  lemma MayBeLate(s: State, a: int, b: int) returns (id: int, steps: seq<Step>)
    requires Inv(s) && !OneSelector(s.pool) && Waits(s, a) && Waits(s, b) && a != b
    ensures !InTurn(s, id, steps)
  {
    var first: seq<Step>, t: State, v: nat, w: nat;
    if Ready(s.pool) >= 2 {
      first, t, v, w := TwoReady(s);
    } else {
      first, t, v, w := TwoStay(s);
    }
    var other: int, rest: seq<Step>;
    id, other, rest := TwoWorkersMayOvertake(t, v, w, a, b);
    PlainRunAppend(s, first, rest);
    assert Ahead(t, id) == Ahead(s, id);
    steps := first + rest;
  }

  /** In every reachable state with at least two records waiting: no run, without retry, restart,
      rollback or resize, leaves any record waiting longer than its turn, if and only if at most one
      worker can be about to select. */
  lemma InTurnIff(s: State, a: int, b: int)
    requires Reachable(s) && Waits(s, a) && Waits(s, b) && a != b
    ensures (forall id, steps :: InTurn(s, id, steps)) <==> OneSelector(s.pool)
  {
    ReachableInv(s);
    if OneSelector(s.pool) {
      forall id, steps
        ensures InTurn(s, id, steps)
      {
        if Waits(s, id) && PlainRun(s, steps) && Commits(steps) > |Ahead(s, id)| + Sum(s.pool.workers, ClaimOpen) {
          ClaimedInTurn(s, steps, id);
        }
      }
    } else {
      var id, steps := MayBeLate(s, a, b);
    }
  }
}
