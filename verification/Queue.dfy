/** The generation queue as one interleaved system: request handlers, worker goroutines,
    database statements that may fail, the blob store, and process restarts. Every step is
    one atomic action; anything can happen between two steps. */
module Queue {
  import opened Wrappers
  import opened Records
  import opened WorkerPool
  import Paths

  /** What an id was handed out for, as far as nothing ever changes it, and the key of its picture;
      kept after the row is gone. */
  datatype Identity = Identity(userId: int, uuid: string, format: string, key: string)

  /** A delete request in flight. */
  datatype Deletion =
    | Found(id: int, path: Option<string>, purge: bool)  // row read, not yet deleted
    | Gone(blob: string)                                 // row deleted, blob about to be

  /** A favourite update in flight: the row has been read, the flag not yet written. */
  datatype FavoriteUpdate = FavoriteUpdate(id: int, actor: int, flag: bool, own: bool)

  /** The tables, the blob store, what is in flight, and the pool. `issued` and `pictures` are
      history: what each id was handed out for, and the picture each record was last completed with. */
  datatype State = State(
    rows: Table,
    favorites: Favorites,
    issued: map<int, Identity>,
    blobs: map<string, Bytes>,
    pictures: map<int, Bytes>,
    updates: map<int, FavoriteUpdate>,
    deletions: map<int, Deletion>,
    pool: Pool,
    clock: int)

  const INITIAL := State(map[], {}, map[], map[], map[], map[], map[], EMPTY, 0)

  datatype Step =
    // requests
    | Create(id: int, userId: int, uuid: string, projectId: Option<int>, prompt: string, format: string)
    | Retry(id: int, actor: int)
    | Publish(id: int, actor: int, public: bool, promptShown: bool, now: int)
    | FavoriteRead(op: int, id: int, actor: int, flag: bool)
    | FavoriteWrite(op: int, dbOk: bool)
    | MoveToProject(id: int, actor: int, projectId: Option<int>)
    | DeleteRead(op: int, id: int, actor: int, purge: bool)
    | DeleteRow(op: int, dbOk: bool)
    | DeleteBlob(op: int, blobOk: bool)
    // pool control
    | Resize(target: int)
    | Stop
    // a worker's loop
    | Check(w: nat)
    | Poll(w: nat)
    | Idle(w: nat, sawStop: bool)
    | Leave(w: nat)
    | Release(w: nat)
    // a worker's tick
    | Select(w: nat, dbOk: bool)
    | Commit(w: nat, outcome: Records.Commit, now: int)
    | Reread(w: nat, dbOk: bool)
    | GiveUp(w: nat, message: string, detail: string, stray: Option<Bytes>)
    | PutImage(w: nat, image: Bytes)
    | StoreGenerated(w: nat, dbOk: bool, now: int)
    | MarkFailed(w: nat, dbOk: bool, now: int)
    // the process dies and boots again; the boot sweep may fail
    | Restart(sweepOk: bool)
  {
    /** The worker whose step this is. */
    function Worker(): Option<nat> {
      match this
      case Check(w) => Some(w)
      case Poll(w) => Some(w)
      case Idle(w, _) => Some(w)
      case Leave(w) => Some(w)
      case Release(w) => Some(w)
      case Select(w, _) => Some(w)
      case Commit(w, _, _) => Some(w)
      case Reread(w, _) => Some(w)
      case GiveUp(w, _, _, _) => Some(w)
      case PutImage(w, _) => Some(w)
      case StoreGenerated(w, _, _) => Some(w)
      case MarkFailed(w, _, _) => Some(w)
      case _ => None
    }

    /** The clock reading the step takes, if it takes one. */
    function Now(clock: int): int {
      match this
      case Publish(_, _, _, _, now) => now
      case Commit(_, _, now) => now
      case StoreGenerated(_, _, now) => now
      case MarkFailed(_, _, now) => now
      case _ => clock
    }
  }

  // ---- what the workers hold ----

  predicate HoldsRecord(p: Pool, w: nat, id: int) {
    w < |p.workers| && p.workers[w].Tick? && p.workers[w].job.Holds(id)
  }

  /** Rows locked by an open claim transaction. */
  function Locked(p: Pool): set<int> {
    set w | 0 <= w < |p.workers| && p.workers[w].Tick? && p.workers[w].job.Selected? :: p.workers[w].job.id
  }

  predicate AtJob(s: State, w: nat) {
    w < |s.pool.workers| && s.pool.workers[w].Tick?
  }

  // ---- steps ----

  ghost predicate Fresh(s: State, id: int, uuid: string) {
    && (forall other :: other in s.issued ==> other < id && s.issued[other].uuid != uuid)
    && Paths.IsUuid(uuid)
  }

  ghost predicate Enabled(s: State, step: Step) {
    && s.clock <= step.Now(s.clock)
    && match step
       case Create(id, userId, uuid, _, _, _) => userId > 0 && Fresh(s, id, uuid)
       case Retry(_, _) => true
       case Publish(_, _, _, _, _) => true
       case FavoriteRead(op, id, actor, _) => op !in s.updates && actor > 0 && FavoriteTarget(s.rows, id, actor).Ok?
       case FavoriteWrite(op, _) => op in s.updates && (s.updates[op].own ==> s.updates[op].id !in Locked(s.pool))
       case MoveToProject(id, _, _) => id !in Locked(s.pool)
       case DeleteRead(op, id, actor, _) =>
         op !in s.deletions && id in s.rows && (actor > 0 ==> s.rows[id].userId == actor)
       case DeleteRow(op, _) =>
         op in s.deletions && s.deletions[op].Found? && s.deletions[op].id !in Locked(s.pool)
       case DeleteBlob(op, _) => op in s.deletions && s.deletions[op].Gone?
       case Resize(_) => true
       case Stop => true
       case Check(w) => w < |s.pool.workers| && s.pool.workers[w] == CheckExcess
       case Poll(w) => w < |s.pool.workers| && s.pool.workers[w] == CheckStop
       case Idle(w, sawStop) => w < |s.pool.workers| && s.pool.workers[w] == IdleWait && (sawStop ==> s.pool.closed)
       case Leave(w) => w < |s.pool.workers| && s.pool.workers[w] == Leaving
       case Release(w) => w < |s.pool.workers| && s.pool.workers[w] == Decremented
       case Select(w, _) => AtJob(s, w) && s.pool.workers[w].job.Begin?
       case Commit(w, _, _) => AtJob(s, w) && s.pool.workers[w].job.Selected? && s.pool.workers[w].job.id in s.rows
       case Reread(w, _) => AtJob(s, w) && s.pool.workers[w].job.Claimed?
       case GiveUp(w, _, _, _) => AtJob(s, w) && s.pool.workers[w].job.Working?
       case PutImage(w, _) => AtJob(s, w) && s.pool.workers[w].job.Working?
       case StoreGenerated(w, _, _) => AtJob(s, w) && s.pool.workers[w].job.Storing?
       case MarkFailed(w, _, _) => AtJob(s, w) && s.pool.workers[w].job.Failing?
       case Restart(_) => true
  }

  /** `ClaimWaiting`'s SELECT: the lowest waiting row nobody has locked. */
  ghost function AfterSelect(s: State, dbOk: bool): Pc {
    var candidates := Candidates(s.rows, Locked(s.pool));
    if !dbOk || candidates == {} then IdleWait else Tick(Selected(Lowest(candidates)))
  }

  /** The re-read of the claimed row: a row deleted meanwhile makes the tick idle. */
  function AfterReread(s: State, id: int, dbOk: bool): Pc {
    if dbOk && id in s.rows then Tick(Working(id, s.rows[id].Key())) else IdleWait
  }

  function WithoutRow(s: State, id: int): State {
    s.(rows := s.rows - {id}, favorites := WithoutRecord(s.favorites, id))
  }

  ghost function ApplyRequest(s: State, step: Step): State
    requires Enabled(s, step) && step.Worker().None?
  {
    var t := s.(clock := step.Now(s.clock));
    match step
    case Create(id, userId, uuid, projectId, prompt, format) =>
      t.(rows := s.rows[id := NewRow(userId, uuid, projectId, prompt, format)],
         issued := s.issued[id :=
           Identity(userId, uuid, format, Paths.ImageKey(userId, uuid, Paths.ExtensionOf(format)))])
    case Retry(id, actor) =>
      if id in s.rows && s.rows[id].Retryable(actor) then t.(rows := s.rows[id := s.rows[id].Retry()]) else t
    case Publish(id, actor, public, promptShown, now) =>
      if id in s.rows && s.rows[id].Publishable(actor)
      then t.(rows := s.rows[id := s.rows[id].Publish(public, promptShown, now)]) else t
    case FavoriteRead(op, id, actor, flag) =>
      t.(updates := s.updates[op := FavoriteUpdate(id, actor, flag, FavoriteTarget(s.rows, id, actor).value)])
    case FavoriteWrite(op, dbOk) =>
      var u := s.updates[op];
      var written := WriteFavorite(s.rows, s.favorites, u.id, u.actor, u.flag, u.own);
      if dbOk && written.Ok? then t.(rows := written.value.0, favorites := written.value.1, updates := s.updates - {op})
      else t.(updates := s.updates - {op})
    case MoveToProject(id, actor, projectId) =>
      if id in s.rows && s.rows[id].userId == actor
      then t.(rows := s.rows[id := s.rows[id].(projectId := projectId)]) else t
    case DeleteRead(op, id, _, purge) =>
      t.(deletions := s.deletions[op := Found(id, s.rows[id].imagePath, purge)])
    case DeleteRow(op, dbOk) =>
      var d := s.deletions[op];
      if !dbOk then t.(deletions := s.deletions - {op})
      else
        WithoutRow(t, d.id).(deletions :=
          if d.purge && d.path.Some? && d.path.value != "" then s.deletions[op := Gone(d.path.value)]
          else s.deletions - {op})
    case DeleteBlob(op, blobOk) =>
      t.(blobs := if blobOk then s.blobs - {s.deletions[op].blob} else s.blobs, deletions := s.deletions - {op})
    case Resize(target) => t.(pool := Resized(s.pool, target))
    case Stop => t.(pool := Stopped(s.pool))
    case Restart(sweepOk) =>
      t.(rows := if sweepOk then map id | id in s.rows :: s.rows[id].Sweep() else s.rows,
         updates := map[], deletions := map[], pool := EMPTY)
  }

  ghost function ApplyWorker(s: State, step: Step): State
    requires Enabled(s, step) && step.Worker().Some?
  {
    var t := s.(clock := step.Now(s.clock));
    match step
    case Check(w) =>
      t.(pool := Moved(s.pool, w, if s.pool.current > s.pool.desired then Leaving else CheckStop))
    case Poll(w) => t.(pool := Moved(s.pool, w, if s.pool.closed then Leaving else Tick(Begin)))
    case Idle(w, sawStop) => t.(pool := Moved(s.pool, w, if sawStop then Leaving else CheckExcess))
    case Leave(w) => t.(pool := Moved(s.pool, w, Decremented))
    case Release(w) => t.(pool := Moved(s.pool, w, Done))
    case Select(w, dbOk) => t.(pool := Moved(s.pool, w, AfterSelect(s, dbOk)))
    case Commit(w, outcome, now) =>
      var id := s.pool.workers[w].job.id;
      t.(rows := if outcome == RolledBack then s.rows else s.rows[id := s.rows[id].Claim(now)],
         pool := Moved(s.pool, w, if outcome == Committed then Tick(Claimed(id)) else IdleWait))
    case Reread(w, dbOk) => t.(pool := Moved(s.pool, w, AfterReread(s, s.pool.workers[w].job.id, dbOk)))
    case GiveUp(w, message, detail, stray) =>
      var job := s.pool.workers[w].job;
      t.(blobs := if stray.Some? then s.blobs[job.key := stray.value] else s.blobs,
         pool := Moved(s.pool, w, Tick(Failing(job.id, message, detail))))
    case PutImage(w, image) =>
      var job := s.pool.workers[w].job;
      t.(blobs := s.blobs[job.key := image],
         pool := Moved(s.pool, w, Tick(Storing(job.id, job.key, image))))
    case StoreGenerated(w, dbOk, now) =>
      var job := s.pool.workers[w].job;
      var stored := dbOk && job.id in s.rows;
      t.(rows := if stored then s.rows[job.id := s.rows[job.id].Store(job.path, now)] else s.rows,
         pictures := if stored then s.pictures[job.id := job.image] else s.pictures,
         pool := Moved(s.pool, w, CheckExcess))
    case MarkFailed(w, dbOk, now) =>
      var job := s.pool.workers[w].job;
      t.(rows := if dbOk && job.id in s.rows
                 then s.rows[job.id := s.rows[job.id].Fail(job.message, job.detail, now)] else s.rows,
         pool := Moved(s.pool, w, CheckExcess))
  }

  ghost function Apply(s: State, step: Step): State
    requires Enabled(s, step)
  {
    if step.Worker().Some? then ApplyWorker(s, step) else ApplyRequest(s, step)
  }

  // ---- runs ----

  ghost predicate ValidRun(s: State, steps: seq<Step>)
    decreases |steps|
  {
    steps == [] || (Enabled(s, steps[0]) && ValidRun(Apply(s, steps[0]), steps[1..]))
  }

  ghost function After(s: State, steps: seq<Step>): State
    requires ValidRun(s, steps)
    decreases |steps|
  {
    if steps == [] then s else After(Apply(s, steps[0]), steps[1..])
  }

  /** A request leaves the workers where they are; only a resize adds some and only Stop closes. */
  lemma RequestKeepsWorkers(s: State, step: Step)
    requires Enabled(s, step) && step.Worker().None?
    ensures Apply(s, step).pool == (match step
                                    case Resize(target) => Resized(s.pool, target)
                                    case Stop => Stopped(s.pool)
                                    case Restart(_) => EMPTY
                                    case _ => s.pool)
  {
  }

  /** Requests and restarts leave the history of pictures alone. */
  lemma RequestKeepsPictures(s: State, step: Step)
    requires Enabled(s, step) && step.Worker().None?
    ensures Apply(s, step).pictures == s.pictures
  {
  }

  lemma RequestKeepsIssued(s: State, step: Step)
    requires Enabled(s, step) && step.Worker().None? && !step.Create?
    ensures Apply(s, step).issued == s.issued
  {
  }

  lemma WorkerKeepsIssued(s: State, step: Step)
    requires Enabled(s, step) && step.Worker().Some?
    ensures Apply(s, step).issued == s.issued
  {
  }

  lemma CreateIssues(s: State, step: Step)
    requires Enabled(s, step) && step.Create?
    ensures step.id in Apply(s, step).issued
    ensures step.id !in s.issued && Apply(s, step).issued == s.issued[step.id := Apply(s, step).issued[step.id]]
  {
  }

  lemma IssuedStays(s: State, step: Step, id: int)
    requires Enabled(s, step) && id in s.issued
    ensures id in Apply(s, step).issued && Apply(s, step).issued[id] == s.issued[id]
  {
    if step.Worker().Some? {
      WorkerKeepsIssued(s, step);
    } else if step.Create? {
      CreateIssues(s, step);
    } else {
      RequestKeepsIssued(s, step);
    }
  }

  /** Every worker step follows an edge of the worker's control flow and touches no other
      worker; every other step leaves the existing workers where they are or replaces them all. */
  lemma WorkerStepFollowsEdge(s: State, step: Step)
    requires Enabled(s, step) && step.Worker().Some?
    ensures var w := step.Worker().value;
            && w < |s.pool.workers|
            && w < |Apply(s, step).pool.workers|
            && Edge(s.pool, s.pool.workers[w], Apply(s, step).pool.workers[w])
            && Apply(s, step).pool == Moved(s.pool, w, Apply(s, step).pool.workers[w])
  {
    var w := step.Worker().value;
    assert Apply(s, step).pool.workers == s.pool.workers[w := Apply(s, step).pool.workers[w]];
  }
}
