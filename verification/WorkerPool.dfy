/** The worker pool: the shared counters, the control flow of a worker goroutine, and
    what follows from them for sizing and shutdown. */
module WorkerPool {
  import opened Wrappers

  const MAX_WORKERS := 16

  /** How far a worker has got inside one tick. */
  datatype Job =
    | Begin                                          // about to select a waiting record
    | Selected(id: int)                              // claim transaction open, row locked
    | Claimed(id: int)                               // claim committed, about to re-read the row
    | Working(id: int, key: string)                  // generating; the key the re-read row gives its picture
    | Failing(id: int, message: string, detail: string)  // about to write the failure
    | Storing(id: int, path: string, image: Bytes)   // blob written, about to write the success
  {
    /** The record this job has in its hands, if any. */
    predicate Holds(record: int) {
      !Begin? && id == record
    }
  }

  /** Where a worker goroutine is in its loop. */
  datatype Pc =
    | CheckExcess     // about to compare current with desired
    | CheckStop       // about to poll the stop channel
    | Tick(job: Job)
    | IdleWait        // waiting for wake, stop or the backoff timer
    | Leaving         // returned from the loop, counter not yet decremented
    | Decremented     // counter decremented, wait group not yet released
    | Done

  datatype Pool = Pool(desired: int, current: int, waitCount: int, closed: bool, workers: seq<Pc>)

  const EMPTY := Pool(0, 0, 0, false, [])

  // ---- counting workers ----

  function Sum(workers: seq<Pc>, weight: Pc -> int): int {
    if workers == [] then 0 else weight(workers[0]) + Sum(workers[1..], weight)
  }

  lemma {:induction false} SumUpdate(workers: seq<Pc>, w: nat, pc: Pc, weight: Pc -> int)
    requires w < |workers|
    ensures Sum(workers[w := pc], weight) == Sum(workers, weight) - weight(workers[w]) + weight(pc)
  {
    if w == 0 {
      assert workers[w := pc][1..] == workers[1..];
    } else {
      assert workers[w := pc][1..] == workers[1..][w - 1 := pc];
      SumUpdate(workers[1..], w - 1, pc, weight);
    }
  }

  lemma {:induction false} SumAppend(left: seq<Pc>, right: seq<Pc>, weight: Pc -> int)
    ensures Sum(left + right, weight) == Sum(left, weight) + Sum(right, weight)
  {
    if left == [] {
      assert left + right == right;
    } else {
      assert (left + right)[1..] == left[1..] + right;
      SumAppend(left[1..], right, weight);
    }
  }

  lemma {:induction false} SumMonotone(workers: seq<Pc>, low: Pc -> int, high: Pc -> int, factor: nat)
    requires forall pc :: low(pc) <= factor * high(pc)
    ensures Sum(workers, low) <= factor * Sum(workers, high)
  {
    if workers != [] {
      SumMonotone(workers[1..], low, high, factor);
    }
  }

  lemma {:induction false} SumNonNegative(workers: seq<Pc>, weight: Pc -> int)
    requires forall pc :: weight(pc) >= 0
    ensures Sum(workers, weight) >= 0
    ensures forall w :: 0 <= w < |workers| ==> weight(workers[w]) <= Sum(workers, weight)
  {
    if workers != [] {
      SumNonNegative(workers[1..], weight);
      assert forall w :: 0 < w < |workers| ==> workers[w] == workers[1..][w - 1];
    }
  }

  /** Has not yet decremented `current`. */
  function Live(pc: Pc): int {
    if pc.Decremented? || pc.Done? then 0 else 1
  }

  /** Has not yet released the wait group. */
  function Open(pc: Pc): int {
    if pc.Done? then 0 else 1
  }

  /** Holds a record. */
  function Holding(pc: Pc): int {
    if pc.Tick? && !pc.job.Begin? then 1 else 0
  }

  /** May still commit a claim in the tick it is in. */
  function BeforeCommit(pc: Pc): int {
    if pc.Tick? && (pc.job.Begin? || pc.job.Selected?) then 1 else 0
  }

  /** Steps a worker has left at most once the stop channel is closed. */
  function Rank(pc: Pc): int {
    match pc
    case Done => 0
    case Decremented => 1
    case Leaving => 2
    case CheckStop => 3
    case CheckExcess => 4
    case IdleWait => 5
    case Tick(Storing(_, _, _)) => 6
    case Tick(Failing(_, _, _)) => 6
    case Tick(Working(_, _)) => 7
    case Tick(Claimed(_)) => 8
    case Tick(Selected(_)) => 9
    case Tick(Begin) => 10
  }

  // ---- the counters agree with the workers ----

  ghost predicate Counted(p: Pool) {
    && p.current == Sum(p.workers, Live)
    && p.waitCount == Sum(p.workers, Open)
    && p.current <= MAX_WORKERS
    && 0 <= p.desired <= MAX_WORKERS
  }

  /** Held records, live workers, open workers and the cap are ordered. */
  lemma CountsOrdered(p: Pool)
    requires Counted(p)
    ensures 0 <= Sum(p.workers, Holding) <= p.current <= p.waitCount && p.current <= MAX_WORKERS
  {
    SumNonNegative(p.workers, Holding);
    SumMonotone(p.workers, Holding, Live, 1);
    SumMonotone(p.workers, Live, Open, 1);
  }

  // ---- transitions ----

  function Clamp(target: int): int {
    if target < 0 then 0 else if target > MAX_WORKERS then MAX_WORKERS else target
  }

  function Spawned(count: nat): (workers: seq<Pc>)
    ensures |workers| == count
    ensures forall i :: 0 <= i < count ==> workers[i] == CheckExcess
  {
    seq(count, i => CheckExcess)
  }

  function Resized(p: Pool, target: int): Pool {
    var goal := Clamp(target);
    var missing := if goal > p.current then goal - p.current else 0;
    p.(desired := goal, current := p.current + missing, waitCount := p.waitCount + missing,
       workers := p.workers + Spawned(missing))
  }

  function Stopped(p: Pool): Pool {
    p.(closed := true)
  }

  /** Worker w moves to pc; the deferred functions adjust the counters as it unwinds. */
  function Moved(p: Pool, w: nat, pc: Pc): Pool
    requires w < |p.workers|
  {
    p.(workers := p.workers[w := pc],
       current := if pc.Decremented? then p.current - 1 else p.current,
       waitCount := if pc.Done? then p.waitCount - 1 else p.waitCount)
  }

  /** The edges of the control flow of `run` and `tickOnce`. */
  predicate Edge(p: Pool, from: Pc, to: Pc) {
    match from
    case CheckExcess => to == if p.current > p.desired then Leaving else CheckStop
    case CheckStop => to == if p.closed then Leaving else Tick(Begin)
    case IdleWait => to == CheckExcess || (p.closed && to == Leaving)
    case Leaving => to == Decremented
    case Decremented => to == Done
    case Done => false
    case Tick(Begin) => to == IdleWait || (to.Tick? && to.job.Selected?)
    case Tick(Selected(id)) => to == IdleWait || to == Tick(Claimed(id))
    case Tick(Claimed(id)) => to == IdleWait || (to.Tick? && to.job.Working? && to.job.id == id)
    case Tick(Working(id, _)) =>
      to.Tick? && (to.job.Failing? || to.job.Storing?) && to.job.id == id
    case Tick(Failing(_, _, _)) => to == CheckExcess
    case Tick(Storing(_, _, _)) => to == CheckExcess
  }

  lemma SpawnedCounts(count: nat)
    ensures Sum(Spawned(count), Live) == count && Sum(Spawned(count), Open) == count
    ensures Sum(Spawned(count), BeforeCommit) == 0
  {
    if count > 0 {
      assert Spawned(count)[1..] == Spawned(count - 1);
      SpawnedCounts(count - 1);
    }
  }

  lemma ResizeKeepsCounts(p: Pool, target: int)
    requires Counted(p)
    ensures Counted(Resized(p, target))
  {
    var goal := Clamp(target);
    var missing := if goal > p.current then goal - p.current else 0;
    SpawnedCounts(missing);
    SumAppend(p.workers, Spawned(missing), Live);
    SumAppend(p.workers, Spawned(missing), Open);
  }

  lemma MoveKeepsCounts(p: Pool, w: nat, pc: Pc)
    requires Counted(p) && w < |p.workers| && Edge(p, p.workers[w], pc)
    ensures Counted(Moved(p, w, pc))
  {
    SumUpdate(p.workers, w, pc, Live);
    SumUpdate(p.workers, w, pc, Open);
  }

  /** With the stop channel closed every worker step uses up rank. */
  lemma MoveUsesRank(p: Pool, w: nat, pc: Pc)
    requires p.closed && w < |p.workers| && Edge(p, p.workers[w], pc)
    ensures Sum(Moved(p, w, pc).workers, Rank) < Sum(p.workers, Rank)
  {
    SumUpdate(p.workers, w, pc, Rank);
  }

  /** With the stop channel closed no step opens a new tick. */
  lemma MoveOpensNoTick(p: Pool, w: nat, pc: Pc)
    requires p.closed && w < |p.workers| && Edge(p, p.workers[w], pc)
    ensures BeforeCommit(pc) <= BeforeCommit(p.workers[w])
    ensures Sum(Moved(p, w, pc).workers, BeforeCommit)
            == Sum(p.workers, BeforeCommit) - BeforeCommit(p.workers[w]) + BeforeCommit(pc)
  {
    SumUpdate(p.workers, w, pc, BeforeCommit);
  }

  /** The wait group is at zero exactly when every worker is done. */
  lemma {:induction false} AllDoneIffNoneOpen(workers: seq<Pc>)
    ensures Sum(workers, Open) == 0 <==> forall w :: 0 <= w < |workers| ==> workers[w] == Done
  {
    SumNonNegative(workers, Open);
    if workers != [] {
      SumNonNegative(workers[1..], Open);
      AllDoneIffNoneOpen(workers[1..]);
      assert forall w :: 0 < w < |workers| ==> workers[w] == workers[1..][w - 1];
    }
  }

  // ---- shrinking ----

  /** In the loop and not on its way out. */
  function Staying(pc: Pc): int {
    if pc.Leaving? || pc.Decremented? || pc.Done? then 0 else 1
  }

  /** The worker compares `desired` with `current`, which still counts workers on their way out.
      So a check takes the pool below the wanted size exactly when it finds too many counted
      although just enough stay. */
  lemma CheckOvershootsIff(p: Pool, w: nat)
    requires w < |p.workers| && p.workers[w] == CheckExcess && Sum(p.workers, Staying) >= p.desired
    ensures var after := Moved(p, w, if p.current > p.desired then Leaving else CheckStop);
            Sum(after.workers, Staying) < p.desired
            <==> p.current > p.desired && Sum(p.workers, Staying) == p.desired
  {
    SumUpdate(p.workers, w, if p.current > p.desired then Leaving else CheckStop, Staying);
  }

  /** Shrinking two workers to one can leave none: both look before either has decremented. */
  lemma ShrinkMayEmptyPool()
    ensures var p := Resized(Resized(EMPTY, 2), 1);
            && p.workers == [CheckExcess, CheckExcess] && p.desired == 1
            && Edge(p, p.workers[0], Leaving)
            && var q := Moved(p, 0, Leaving);
               && Edge(q, q.workers[1], Leaving)
               && var r := Moved(q, 1, Leaving);
                  var last := Moved(Moved(r, 0, Decremented), 1, Decremented);
                  last.current == 0 && last.desired == 1 && last.workers == [Decremented, Decremented]
  {
    assert Resized(EMPTY, 2).workers == [CheckExcess, CheckExcess];
  }

  // ---- the pool object ----

  /** The shared state of the pool. Each method is one critical section (or one atomic
      goroutine step); a worker is named by its index in `workers`. */
  class PoolState {
    var desired: int
    var current: int
    var waitCount: int
    var closed: bool
    var workers: seq<Pc>

    ghost function View(): Pool
      reads this
    {
      Pool(desired, current, waitCount, closed, workers)
    }

    ghost predicate Valid()
      reads this
    {
      Counted(View())
    }

    constructor ()
      ensures Valid() && View() == EMPTY
    {
      desired, current, waitCount, closed, workers := 0, 0, 0, false, [];
    }

    method Resize(target: int)
      requires Valid()
      modifies this
      ensures Valid() && View() == Resized(old(View()), target)
      ensures desired == if target < 0 then 0 else if target > 16 then 16 else target
      ensures current == (if old(current) >= desired then old(current) else desired)
      ensures waitCount - old(waitCount) == current - old(current) == |workers| - |old(workers)|
      ensures old(workers) <= workers && closed == old(closed)
    {
      var goal := if target < 0 then 0 else target;
      if goal > 16 {
        goal := 16;
      }
      ResizeKeepsCounts(View(), target);
      desired := goal;
      var delta := goal - current;
      if delta > 0 {
        for i := 0 to delta
          invariant desired == goal && closed == old(closed)
          invariant current == old(current) + i && waitCount == old(waitCount) + i
          invariant workers == old(workers) + Spawned(i)
        {
          current := current + 1;
          waitCount := waitCount + 1;
          workers := workers + [CheckExcess];
          assert Spawned(i) + [CheckExcess] == Spawned(i + 1);
        }
      }
      assert old(workers) + Spawned(0) == old(workers);
    }

    /** Closes the stop channel; a second call finds it closed and returns at once. */
    method Stop() returns (first: bool)
      requires Valid()
      modifies this
      ensures Valid() && View() == Stopped(old(View()))
      ensures first <==> !old(closed)
    {
      if closed {
        return false;
      }
      closed := true;
      return true;
    }

    /** The top of the loop: leave if there are too many workers. The decision is taken under
        the lock, the decrement later, in its own critical section. */
    method Check(w: nat)
      requires Valid() && w < |workers| && workers[w] == CheckExcess
      modifies this
      ensures Valid() && View() == Moved(old(View()), w, if old(current) > old(desired) then Leaving else CheckStop)
    {
      MoveKeepsCounts(View(), w, if current > desired then Leaving else CheckStop);
      var excess := current > desired;
      workers := workers[w := if excess then Leaving else CheckStop];
    }

    /** The non-blocking poll of the stop channel. */
    method Poll(w: nat)
      requires Valid() && w < |workers| && workers[w] == CheckStop
      modifies this
      ensures Valid() && View() == Moved(old(View()), w, if old(closed) then Leaving else Tick(Begin))
    {
      MoveKeepsCounts(View(), w, if closed then Leaving else Tick(Begin));
      workers := workers[w := if closed then Leaving else Tick(Begin)];
    }

    /** The blocking select of an idle worker. */
    method Idle(w: nat, sawStop: bool)
      requires Valid() && w < |workers| && workers[w] == IdleWait && (sawStop ==> closed)
      modifies this
      ensures Valid() && View() == Moved(old(View()), w, if sawStop then Leaving else CheckExcess)
    {
      MoveKeepsCounts(View(), w, if sawStop then Leaving else CheckExcess);
      workers := workers[w := if sawStop then Leaving else CheckExcess];
    }

    /** The deferred decrement, in its own critical section. */
    method Leave(w: nat)
      requires Valid() && w < |workers| && workers[w] == Leaving
      modifies this
      ensures Valid() && View() == Moved(old(View()), w, Decremented)
      ensures current == old(current) - 1 && 0 <= current
    {
      MoveKeepsCounts(View(), w, Decremented);
      current := current - 1;
      workers := workers[w := Decremented];
      CountsOrdered(View());
    }

    /** The deferred release of the wait group, last of all. */
    method Release(w: nat)
      requires Valid() && w < |workers| && workers[w] == Decremented
      modifies this
      ensures Valid() && View() == Moved(old(View()), w, Done)
      ensures waitCount == old(waitCount) - 1 && 0 <= waitCount
    {
      MoveKeepsCounts(View(), w, Done);
      waitCount := waitCount - 1;
      workers := workers[w := Done];
      CountsOrdered(View());
    }
  }
}
