/** The global invariant of the queue and what it guarantees on every run. */
module QueueSafety {
  import opened Wrappers
  import opened Records
  import opened WorkerPool
  import opened Queue
  import Paths

  // ---- the parts of the invariant ----

  /** The key is the one computed from the rest. */
  predicate KeyComputed(it: Identity) {
    Paths.IsUuid(it.uuid) && it.key == Paths.ImageKey(it.userId, it.uuid, Paths.ExtensionOf(it.format))
  }

  predicate KeysComputed(issued: map<int, Identity>) {
    forall id {:trigger KeyComputed(issued[id])} :: id in issued ==> KeyComputed(issued[id])
  }

  predicate UuidsUnique(issued: map<int, Identity>) {
    forall id, other :: id in issued && other in issued && issued[id].uuid == issued[other].uuid ==> id == other
  }

  /** Different records have different keys. */
  lemma KeysDiffer(issued: map<int, Identity>, a: int, b: int)
    requires UuidsUnique(issued) && KeysComputed(issued)
    requires a in issued && b in issued && issued[a].key == issued[b].key
    ensures a == b && issued[a].key != ""
  {
    var x, y := issued[a], issued[b];
    assert KeyComputed(x) && KeyComputed(y);
    var e, e' := Paths.ExtensionOf(x.format), Paths.ExtensionOf(y.format);
    Paths.ImageKeyInjective(x.userId, x.uuid, e, y.userId, y.uuid, e');
    Paths.ImageKeyParts(x.userId, x.uuid, e);
  }

  predicate SameIdentity(row: Row, it: Identity) {
    row.userId == it.userId && row.uuid == it.uuid && row.format == it.format
  }

  predicate Identified(rows: Table, issued: map<int, Identity>) {
    forall id :: id in rows ==> id in issued && SameIdentity(rows[id], issued[id])
  }

  predicate ShapedUntil(row: Row, clock: int) {
    Shape(row) && (row.startedAt.Some? ==> row.startedAt.value <= clock)
  }

  predicate RowsShaped(rows: Table, clock: int) {
    forall id :: id in rows ==> ShapedUntil(rows[id], clock)
  }

  /** A held record is running or deleted; while the claim is still open it is waiting and present. */
  ghost predicate JobSound(s: State, job: Job) {
    job.Begin? ||
    (&& job.id in s.issued
     && (if job.Selected? then job.id in s.rows && s.rows[job.id].status == Waiting
         else job.id in s.rows ==> s.rows[job.id].status == Running)
     && (job.Working? ==> job.key == s.issued[job.id].key)
     && (job.Storing? ==>
           && job.path == s.issued[job.id].key
           && (job.id in s.rows ==> job.path in s.blobs && s.blobs[job.path] == job.image)))
  }

  ghost predicate JobsSound(s: State) {
    forall w: nat :: AtJob(s, w) ==> JobSound(s, s.pool.workers[w].job)
  }

  /** No two workers hold the same record. */
  ghost predicate Exclusive(p: Pool) {
    forall w: nat, other: nat, id :: HoldsRecord(p, w, id) && HoldsRecord(p, other, id) ==> w == other
  }

  /** Every image path in the table is the record's own key, and names the picture the record was
      completed with. */
  predicate ImagesPresent(s: State) {
    forall id :: id in s.rows && s.rows[id].imagePath.Some? ==>
      && id in s.issued && id in s.pictures
      && s.rows[id].imagePath.value == s.issued[id].key
      && s.rows[id].imagePath.value in s.blobs
      && s.blobs[s.rows[id].imagePath.value] == s.pictures[id]
  }

  ghost predicate KeyIssued(issued: map<int, Identity>, path: string) {
    exists id :: id in issued && path == issued[id].key
  }

  /** Every blob was stored for some record, which may be gone. */
  ghost predicate BlobsOwned(s: State) {
    forall path {:trigger KeyIssued(s.issued, path)} :: path in s.blobs ==> KeyIssued(s.issued, path)
  }

  ghost predicate DeadPath(s: State, path: string) {
    exists id :: id in s.issued && id !in s.rows && path == s.issued[id].key
  }

  ghost predicate DeletionSound(s: State, d: Deletion) {
    match d
    case Found(id, path, _) => id in s.issued && (path.Some? ==> path.value == s.issued[id].key)
    case Gone(blob) => DeadPath(s, blob)
  }

  ghost predicate DeletionsSound(s: State) {
    forall op :: op in s.deletions ==> DeletionSound(s, s.deletions[op])
  }

  /** An update in flight knows whether the row is the user's own. */
  predicate UpdatesSound(s: State) {
    forall op :: op in s.updates ==>
      var u := s.updates[op];
      u.actor > 0 && u.id in s.issued && (u.own <==> s.issued[u.id].userId == u.actor)
  }

  ghost predicate Inv(s: State) {
    && Identified(s.rows, s.issued)
    && KeysComputed(s.issued)
    && UuidsUnique(s.issued)
    && RowsShaped(s.rows, s.clock)
    && FavoritesValid(s.rows, s.favorites)
    && JobsSound(s)
    && Exclusive(s.pool)
    && ImagesPresent(s)
    && BlobsOwned(s)
    && UpdatesSound(s)
    && DeletionsSound(s)
    && Counted(s.pool)
  }

  lemma InitialInv()
    ensures Inv(INITIAL)
  {
  }

  // ---- each step keeps it ----

  /** New idle workers do not disturb exclusion. */
  lemma SameWorkersExclusive(p: Pool, q: Pool)
    requires Exclusive(p) && |p.workers| <= |q.workers|
    requires forall w :: 0 <= w < |p.workers| ==> q.workers[w] == p.workers[w]
    requires forall w :: |p.workers| <= w < |q.workers| ==> q.workers[w] == CheckExcess
    ensures Exclusive(q)
  {
    assert forall w: nat, id :: HoldsRecord(q, w, id) ==> HoldsRecord(p, w, id);
  }

  /** Handing out another id leaves keys, blobs and deletions in flight as they were. */
  lemma IssuingKeepsBlobs(s: State, t: State, id: int)
    requires BlobsOwned(s) && DeletionsSound(s) && t.blobs == s.blobs && t.deletions == s.deletions
    requires id !in s.issued && id in t.issued && t.issued == s.issued[id := t.issued[id]]
    requires t.rows.Keys <= s.rows.Keys + {id}
    ensures BlobsOwned(t) && DeletionsSound(t)
  {
    forall path | path in t.blobs
      ensures KeyIssued(t.issued, path)
    {
      assert KeyIssued(s.issued, path);
      var owner :| owner in s.issued && path == s.issued[owner].key;
      assert owner in t.issued && path == t.issued[owner].key;
    }
    forall op | op in t.deletions
      ensures DeletionSound(t, t.deletions[op])
    {
      assert DeletionSound(s, s.deletions[op]);
      if s.deletions[op].Gone? {
        var dead :| dead in s.issued && dead !in s.rows && s.deletions[op].blob == s.issued[dead].key;
        assert dead in t.issued && dead !in t.rows && s.deletions[op].blob == t.issued[dead].key;
      }
    }
  }

  lemma IssuingKeepsKeys(s: State, t: State, id: int)
    requires KeysComputed(s.issued) && id in t.issued && t.issued == s.issued[id := t.issued[id]]
    requires KeyComputed(t.issued[id])
    ensures KeysComputed(t.issued)
  {
    forall other | other in t.issued
      ensures KeyComputed(t.issued[other])
    {
      assert other != id ==> KeyComputed(s.issued[other]);
    }
  }

  lemma CreateKeepsInv(s: State, step: Step)
    requires Inv(s) && Enabled(s, step) && step.Create?
    ensures Inv(Apply(s, step))
  {
    var t := Apply(s, step);
    assert step.id !in s.issued && step.id !in s.rows;
    assert Shape(t.rows[step.id]);
    assert KeyComputed(t.issued[step.id]);
    IssuingKeepsKeys(s, t, step.id);
    IssuingKeepsBlobs(s, t, step.id);
    forall w: nat | AtJob(t, w)
      ensures JobSound(t, t.pool.workers[w].job)
    {
      assert AtJob(s, w) && JobSound(s, s.pool.workers[w].job);
    }
  }

  /** Everything but the workers' jobs. */
  ghost predicate TablesSound(s: State) {
    && Identified(s.rows, s.issued)
    && RowsShaped(s.rows, s.clock)
    && FavoritesValid(s.rows, s.favorites)
    && ImagesPresent(s)
    && BlobsOwned(s)
    && UpdatesSound(s)
    && DeletionsSound(s)
  }

  /** Deletions in flight stay sound while no row comes back. */
  lemma DeletionsKeepSound(s: State, t: State)
    requires DeletionsSound(s) && t.deletions == s.deletions && t.issued == s.issued && t.rows.Keys <= s.rows.Keys
    ensures DeletionsSound(t)
  {
    forall op | op in t.deletions
      ensures DeletionSound(t, t.deletions[op])
    {
      assert DeletionSound(s, s.deletions[op]);
    }
  }

  /** Rewriting one row keeps the tables sound if the row keeps its identity, gets a proper shape
      and names an image of its own that is present. */
  lemma RowEditKeepsTables(s: State, t: State, id: int)
    requires TablesSound(s) && id in s.rows && id in t.rows
    requires t.rows == s.rows[id := t.rows[id]]
    requires t.issued == s.issued && t.blobs == s.blobs && t.favorites == s.favorites
    requires t.updates == s.updates && t.deletions == s.deletions
    requires t.pictures == s.pictures || (id in t.pictures && t.pictures == s.pictures[id := t.pictures[id]])
    requires s.clock <= t.clock && ShapedUntil(t.rows[id], t.clock)
    requires t.rows[id].userId == s.rows[id].userId && t.rows[id].uuid == s.rows[id].uuid
    requires t.rows[id].format == s.rows[id].format
    requires t.rows[id].imagePath.Some? ==>
               && id in s.issued && t.rows[id].imagePath.value == s.issued[id].key
               && t.rows[id].imagePath.value in s.blobs && id in t.pictures
               && s.blobs[t.rows[id].imagePath.value] == t.pictures[id]
    ensures TablesSound(t)
  {
    DeletionsKeepSound(s, t);
  }

  ghost predicate Held(p: Pool, id: int) {
    exists w: nat :: HoldsRecord(p, w, id)
  }

  /** Jobs stay sound while no row comes back, no held row changes its status, and no blob a
      worker is about to record disappears. */
  lemma JobsKeepSound(s: State, t: State)
    requires JobsSound(s) && t.pool.workers == s.pool.workers && t.issued == s.issued
    requires forall id :: id in t.rows ==> id in s.rows && (t.rows[id].status == s.rows[id].status || !Held(s.pool, id))
    requires forall id :: id in Locked(s.pool) && id in s.rows ==> id in t.rows
    requires forall id :: id in t.rows && id in s.issued && s.issued[id].key in s.blobs ==>
               s.issued[id].key in t.blobs && t.blobs[s.issued[id].key] == s.blobs[s.issued[id].key]
    ensures JobsSound(t)
  {
    forall w: nat | AtJob(t, w)
      ensures JobSound(t, t.pool.workers[w].job)
    {
      var job := s.pool.workers[w].job;
      assert AtJob(s, w) && JobSound(s, job);
      assert !job.Begin? ==> HoldsRecord(s.pool, w, job.id);
    }
  }

  /** A record in a worker's hands is neither failed nor completed. */
  lemma HeldIsUnfinished(s: State, id: int)
    requires JobsSound(s) && id in s.rows && (s.rows[id].status == Failed || s.rows[id].status == Completed)
    ensures !Held(s.pool, id)
  {
    forall w: nat
      ensures !HoldsRecord(s.pool, w, id)
    {
      assert AtJob(s, w) ==> JobSound(s, s.pool.workers[w].job);
    }
  }

  /** Only the one row changes, if the statement finds it. */
  lemma PublishEffect(s: State, step: Step)
    requires Enabled(s, step) && step.Publish?
    ensures var t, found := Apply(s, step), step.id in s.rows && s.rows[step.id].Publishable(step.actor);
            && t == s.(rows := t.rows, clock := step.now) && s.clock <= step.now
            && t.rows == (if found then
                            s.rows[step.id := s.rows[step.id].Publish(step.public, step.promptShown, step.now)]
                          else s.rows)
  {
  }

  lemma RetryKeepsInv(s: State, step: Step)
    requires Inv(s) && Enabled(s, step) && step.Retry?
    ensures Inv(Apply(s, step))
  {
    var t := Apply(s, step);
    if step.id in s.rows && s.rows[step.id].Retryable(step.actor) {
      assert ShapedUntil(s.rows[step.id], s.clock);
      HeldIsUnfinished(s, step.id);
      RowEditKeepsTables(s, t, step.id);
    } else {
      DeletionsKeepSound(s, t);
    }
    JobsKeepSound(s, t);
  }

  lemma PublishKeepsTables(s: State, step: Step)
    requires Inv(s) && Enabled(s, step) && step.Publish?
    ensures TablesSound(Apply(s, step))
  {
    PublishEffect(s, step);
    var t := Apply(s, step);
    if step.id in s.rows && s.rows[step.id].Publishable(step.actor) {
      assert ShapedUntil(s.rows[step.id], s.clock);
      RowEditKeepsTables(s, t, step.id);
    } else {
      DeletionsKeepSound(s, t);
    }
  }

  lemma PublishKeepsInv(s: State, step: Step)
    requires Inv(s) && Enabled(s, step) && step.Publish?
    ensures Inv(Apply(s, step))
  {
    PublishEffect(s, step);
    PublishKeepsTables(s, step);
    if step.id in s.rows && s.rows[step.id].Publishable(step.actor) {
      HeldIsUnfinished(s, step.id);
    }
    JobsKeepSound(s, Apply(s, step));
  }

  lemma FavoriteReadKeepsInv(s: State, step: Step)
    requires Inv(s) && Enabled(s, step) && step.FavoriteRead?
    ensures Inv(Apply(s, step))
  {
    JobsKeepSound(s, Apply(s, step));
    DeletionsKeepSound(s, Apply(s, step));
  }

  /** A flag in the user's own row leaves everything about that row that matters here. */
  lemma FlagKeepsRows(s: State, u: FavoriteUpdate)
    requires Identified(s.rows, s.issued) && RowsShaped(s.rows, s.clock) && ImagesPresent(s)
    requires WriteFavorite(s.rows, s.favorites, u.id, u.actor, u.flag, u.own).Ok?
    ensures var t := s.(rows := WriteFavorite(s.rows, s.favorites, u.id, u.actor, u.flag, u.own).value.0);
            && Identified(t.rows, t.issued) && RowsShaped(t.rows, t.clock) && ImagesPresent(t)
            && t.rows.Keys == s.rows.Keys && (forall id :: id in t.rows ==> t.rows[id].status == s.rows[id].status)
  {
    if u.id in s.rows {
      assert ShapedUntil(s.rows[u.id], s.clock);
    }
  }

  /** Only the row's flag and the relation change, and only if the statement goes through. */
  lemma FavoriteWriteEffect(s: State, step: Step)
    requires Enabled(s, step) && step.FavoriteWrite?
    ensures var t, u := Apply(s, step), s.updates[step.op];
            var written := WriteFavorite(s.rows, s.favorites, u.id, u.actor, u.flag, u.own);
            && t == s.(rows := t.rows, favorites := t.favorites, updates := s.updates - {step.op})
            && (t.rows, t.favorites) == (if step.dbOk && written.Ok? then written.value else (s.rows, s.favorites))
  {
  }

  lemma FavoriteWriteKeepsTables(s: State, step: Step)
    requires Inv(s) && Enabled(s, step) && step.FavoriteWrite?
    ensures var t := Apply(s, step);
            && Identified(t.rows, t.issued) && RowsShaped(t.rows, t.clock) && ImagesPresent(t)
            && FavoritesValid(t.rows, t.favorites)
            && t.rows.Keys == s.rows.Keys && (forall id :: id in t.rows ==> t.rows[id].status == s.rows[id].status)
  {
    FavoriteWriteEffect(s, step);
    var u := s.updates[step.op];
    assert OwnershipKnown(s.rows, u.id, u.actor, u.own);
    WriteFavoriteKeepsValid(s.rows, s.favorites, u.id, u.actor, u.flag, u.own);
    if WriteFavorite(s.rows, s.favorites, u.id, u.actor, u.flag, u.own).Ok? {
      FlagKeepsRows(s, u);
    }
  }

  lemma FavoriteWriteKeepsInv(s: State, step: Step)
    requires Inv(s) && Enabled(s, step) && step.FavoriteWrite?
    ensures Inv(Apply(s, step))
  {
    FavoriteWriteEffect(s, step);
    FavoriteWriteKeepsTables(s, step);
    JobsKeepSound(s, Apply(s, step));
    DeletionsKeepSound(s, Apply(s, step));
  }

  lemma MoveToProjectKeepsInv(s: State, step: Step)
    requires Inv(s) && Enabled(s, step) && step.MoveToProject?
    ensures Inv(Apply(s, step))
  {
    var t := Apply(s, step);
    if step.id in s.rows && s.rows[step.id].userId == step.actor {
      assert ShapedUntil(s.rows[step.id], s.clock);
      RowEditKeepsTables(s, t, step.id);
    }
    JobsKeepSound(s, t);
  }

  lemma DeleteReadKeepsInv(s: State, step: Step)
    requires Inv(s) && Enabled(s, step) && step.DeleteRead?
    ensures Inv(Apply(s, step))
  {
  }

  lemma DeleteRowKeepsDeletions(s: State, step: Step)
    requires Inv(s) && Enabled(s, step) && step.DeleteRow?
    ensures DeletionsSound(Apply(s, step))
  {
    assert DeletionSound(s, s.deletions[step.op]);
    forall op | op in Apply(s, step).deletions
      ensures DeletionSound(Apply(s, step), Apply(s, step).deletions[op])
    {
      assert DeletionSound(s, s.deletions[op]);
    }
  }

  /** At most the row goes, with the favourites that name it. */
  lemma DeleteRowEffect(s: State, step: Step)
    requires Enabled(s, step) && step.DeleteRow?
    ensures var t, id := Apply(s, step), s.deletions[step.op].id;
            && t == s.(rows := t.rows, favorites := t.favorites, deletions := t.deletions)
            && t.rows == (if step.dbOk then s.rows - {id} else s.rows)
            && t.favorites == (if step.dbOk then WithoutRecord(s.favorites, id) else s.favorites)
            && id !in Locked(s.pool)
  {
  }

  lemma DeleteRowKeepsInv(s: State, step: Step)
    requires Inv(s) && Enabled(s, step) && step.DeleteRow?
    ensures Inv(Apply(s, step))
  {
    DeleteRowEffect(s, step);
    DeleteRowKeepsDeletions(s, step);
    JobsKeepSound(s, Apply(s, step));
  }

  lemma DeleteBlobKeepsInv(s: State, step: Step)
    requires Inv(s) && Enabled(s, step) && step.DeleteBlob?
    ensures Inv(Apply(s, step))
  {
    var t := Apply(s, step);
    var blob := s.deletions[step.op].blob;
    assert DeletionSound(s, s.deletions[step.op]);
    var dead :| dead in s.issued && dead !in s.rows && blob == s.issued[dead].key;
    forall id | id in s.issued && blob == s.issued[id].key
      ensures id !in s.rows
    {
      KeysDiffer(s.issued, id, dead);
    }
    JobsKeepSound(s, t);
    forall op | op in t.deletions
      ensures DeletionSound(t, t.deletions[op])
    {
      assert DeletionSound(s, s.deletions[op]);
    }
  }

  lemma StopKeepsInv(s: State, step: Step)
    requires Inv(s) && Enabled(s, step) && step.Stop?
    ensures Inv(Apply(s, step))
  {
    SameWorkersExclusive(s.pool, Apply(s, step).pool);
  }

  lemma RestartKeepsInv(s: State, step: Step)
    requires Inv(s) && Enabled(s, step) && step.Restart?
    ensures Inv(Apply(s, step))
  {
    var t := Apply(s, step);
    forall f | f in t.favorites
      ensures f.1 in t.rows && t.rows[f.1].userId != f.0
    {
      assert f in s.favorites;
      assert f.1 in s.rows && s.rows[f.1].userId != f.0;
      assert t.rows[f.1] == if step.sweepOk then s.rows[f.1].Sweep() else s.rows[f.1];
    }
  }

  lemma ResizeKeepsInv(s: State, step: Step)
    requires Inv(s) && Enabled(s, step) && step.Resize?
    ensures Inv(Apply(s, step))
  {
    ResizeKeepsCounts(s.pool, step.target);
    var before, after := s.pool.workers, Apply(s, step).pool.workers;
    assert forall w: nat :: w < |before| ==> after[w] == before[w];
    assert forall w: nat :: |before| <= w < |after| ==> after[w] == CheckExcess;
    SameWorkersExclusive(s.pool, Apply(s, step).pool);
  }

  /** Exclusion survives a move that takes no record, keeps the one it has, or takes one
      nobody holds. */
  lemma MoveKeepsExclusive(p: Pool, w: nat, pc: Pc)
    requires Exclusive(p) && w < |p.workers|
    requires pc.Tick? && !pc.job.Begin? ==>
               forall other: nat :: HoldsRecord(p, other, pc.job.id) ==> other == w
    ensures Exclusive(Moved(p, w, pc))
  {
    var q := Moved(p, w, pc);
    forall v: nat, other: nat, id | HoldsRecord(q, v, id) && HoldsRecord(q, other, id)
      ensures v == other
    {
      assert v != w ==> HoldsRecord(p, v, id);
      assert other != w ==> HoldsRecord(p, other, id);
    }
  }

  /** A record a claim may pick is in nobody's hands. */
  lemma CandidateIsFree(s: State, id: int, w: nat)
    requires JobsSound(s) && id in Candidates(s.rows, Locked(s.pool))
    ensures !HoldsRecord(s.pool, w, id)
  {
    assert AtJob(s, w) ==> JobSound(s, s.pool.workers[w].job);
  }

  lemma WorkerKeepsPool(s: State, step: Step)
    requires Inv(s) && Enabled(s, step) && step.Worker().Some?
    ensures Counted(Apply(s, step).pool) && Exclusive(Apply(s, step).pool)
  {
    var w := step.Worker().value;
    WorkerStepFollowsEdge(s, step);
    var pc := Apply(s, step).pool.workers[w];
    MoveKeepsCounts(s.pool, w, pc);
    if step.Select? && pc.Tick? {
      forall other: nat
        ensures !HoldsRecord(s.pool, other, pc.job.id)
      {
        CandidateIsFree(s, pc.job.id, other);
      }
    } else if pc.Tick? && !pc.job.Begin? {
      assert HoldsRecord(s.pool, w, pc.job.id);
    }
    MoveKeepsExclusive(s.pool, w, pc);
  }

  /** The key of the record this worker holds. */
  predicate OwnKey(s: State, w: nat, path: string) {
    && AtJob(s, w) && !s.pool.workers[w].job.Begin? && s.pool.workers[w].job.id in s.issued
    && path == s.issued[s.pool.workers[w].job.id].key
  }

  /** No blob goes, and only one at the key of this worker's record gets another content. */
  predicate OwnBlobsOnly(s: State, t: State, w: nat) {
    forall path :: path in s.blobs ==> path in t.blobs && (t.blobs[path] == s.blobs[path] || OwnKey(s, w, path))
  }

  /** The other workers' jobs do not notice a step that changes only the row this worker holds
      and only the blob of that record. */
  lemma OthersStaySound(s: State, t: State, w: nat, pc: Pc)
    requires JobsSound(s) && Exclusive(s.pool) && KeysComputed(s.issued) && UuidsUnique(s.issued)
    requires w < |s.pool.workers|
    requires t.pool.workers == s.pool.workers[w := pc] && t.issued == s.issued && OwnBlobsOnly(s, t, w)
    requires t.rows.Keys == s.rows.Keys
    requires forall id :: id in s.rows && t.rows[id] != s.rows[id] ==> HoldsRecord(s.pool, w, id)
    requires pc.Tick? ==> JobSound(t, pc.job)
    ensures JobsSound(t)
  {
    forall v: nat | AtJob(t, v)
      ensures JobSound(t, t.pool.workers[v].job)
    {
      if v != w {
        var job := s.pool.workers[v].job;
        assert AtJob(s, v) && JobSound(s, job);
        assert !job.Begin? ==> HoldsRecord(s.pool, v, job.id);
        if job.Storing? && OwnKey(s, w, job.path) {
          assert HoldsRecord(s.pool, w, s.pool.workers[w].job.id);
          KeysDiffer(s.issued, job.id, s.pool.workers[w].job.id);
          assert false;
        }
      }
    }
  }

  /** Steps of a worker that read the tables at most. */
  predicate OnlyMoves(step: Step) {
    step.Check? || step.Poll? || step.Idle? || step.Leave? || step.Release? || step.Select? || step.Reread?
  }

  lemma MovingEffect(s: State, step: Step)
    requires Enabled(s, step) && OnlyMoves(step)
    ensures Apply(s, step) == s.(pool := Apply(s, step).pool)
  {
  }

  lemma MovingKeepsJob(s: State, step: Step)
    requires Inv(s) && Enabled(s, step) && OnlyMoves(step)
    ensures var w, t := step.Worker().value, Apply(s, step);
            w < |t.pool.workers| && (AtJob(t, w) ==> JobSound(t, t.pool.workers[w].job))
  {
    var w := step.Worker().value;
    assert AtJob(s, w) ==> JobSound(s, s.pool.workers[w].job);
    if step.Reread? {
      assert KeyComputed(s.issued[s.pool.workers[w].job.id]);
    }
  }

  lemma MovingKeepsInv(s: State, step: Step)
    requires Inv(s) && Enabled(s, step) && OnlyMoves(step)
    ensures Inv(Apply(s, step))
  {
    WorkerKeepsPool(s, step);
    WorkerStepFollowsEdge(s, step);
    MovingEffect(s, step);
    MovingKeepsJob(s, step);
    var w, t := step.Worker().value, Apply(s, step);
    DeletionsKeepSound(s, t);
    OthersStaySound(s, t, w, t.pool.workers[w]);
  }

  lemma CommitKeepsInv(s: State, step: Step)
    requires Inv(s) && Enabled(s, step) && step.Commit?
    ensures Inv(Apply(s, step))
  {
    WorkerKeepsPool(s, step);
    WorkerStepFollowsEdge(s, step);
    var w, t := step.w, Apply(s, step);
    var job := s.pool.workers[w].job;
    assert AtJob(s, w) && JobSound(s, job);
    assert ShapedUntil(s.rows[job.id], s.clock);
    RowEditKeepsTables(s, t, job.id);
    OthersStaySound(s, t, w, t.pool.workers[w]);
  }

  /** Writing the blob of an unfinished record disturbs no image that is recorded. */
  lemma BlobWriteKeepsImages(s: State, t: State, id: int, image: Bytes)
    requires KeysComputed(s.issued) && UuidsUnique(s.issued) && RowsShaped(s.rows, s.clock)
    requires ImagesPresent(s) && BlobsOwned(s)
    requires id in s.issued && (id in s.rows ==> s.rows[id].status == Running)
    requires t.rows == s.rows && t.issued == s.issued && t.pictures == s.pictures
    requires t.blobs == s.blobs[s.issued[id].key := image]
    ensures ImagesPresent(t) && BlobsOwned(t)
  {
    forall other | other in s.rows && s.rows[other].imagePath.Some?
      ensures s.issued[other].key != s.issued[id].key
    {
      assert ShapedUntil(s.rows[other], s.clock);
      if s.issued[other].key == s.issued[id].key {
        KeysDiffer(s.issued, other, id);
      }
    }
  }

  lemma BlobWriteKeepsTables(s: State, step: Step)
    requires Inv(s) && Enabled(s, step) && (step.GiveUp? || step.PutImage?)
    ensures TablesSound(Apply(s, step)) && OwnBlobsOnly(s, Apply(s, step), step.w)
  {
    var w, t := step.w, Apply(s, step);
    var job := s.pool.workers[w].job;
    assert AtJob(s, w) && JobSound(s, job);
    if t.blobs != s.blobs {
      BlobWriteKeepsImages(s, t, job.id, t.blobs[job.key]);
    }
    DeletionsKeepSound(s, t);
  }

  lemma BlobWriteKeepsInv(s: State, step: Step)
    requires Inv(s) && Enabled(s, step) && (step.GiveUp? || step.PutImage?)
    ensures Inv(Apply(s, step))
  {
    WorkerKeepsPool(s, step);
    WorkerStepFollowsEdge(s, step);
    BlobWriteKeepsTables(s, step);
    var w, t := step.w, Apply(s, step);
    assert AtJob(s, w) && JobSound(s, s.pool.workers[w].job);
    OthersStaySound(s, t, w, t.pool.workers[w]);
  }

  lemma FinalWriteKeepsTables(s: State, step: Step)
    requires Inv(s) && Enabled(s, step) && (step.StoreGenerated? || step.MarkFailed?)
    ensures TablesSound(Apply(s, step))
  {
    var w, t := step.w, Apply(s, step);
    var job := s.pool.workers[w].job;
    assert AtJob(s, w) && JobSound(s, job);
    if job.id in s.rows {
      assert ShapedUntil(s.rows[job.id], s.clock);
      KeysDiffer(s.issued, job.id, job.id);
      RowEditKeepsTables(s, t, job.id);
    } else {
      DeletionsKeepSound(s, t);
    }
  }

  lemma FinalWriteKeepsInv(s: State, step: Step)
    requires Inv(s) && Enabled(s, step) && (step.StoreGenerated? || step.MarkFailed?)
    ensures Inv(Apply(s, step))
  {
    WorkerKeepsPool(s, step);
    FinalWriteKeepsTables(s, step);
    var w, t := step.w, Apply(s, step);
    assert AtJob(s, w) && JobSound(s, s.pool.workers[w].job);
    OthersStaySound(s, t, w, CheckExcess);
  }

  lemma RequestKeepsInv(s: State, step: Step)
    requires Inv(s) && Enabled(s, step) && step.Worker().None?
    ensures Inv(Apply(s, step))
  {
    match step
    case Create(_, _, _, _, _, _) => CreateKeepsInv(s, step);
    case Retry(_, _) => RetryKeepsInv(s, step);
    case Publish(_, _, _, _, _) => PublishKeepsInv(s, step);
    case FavoriteRead(_, _, _, _) => FavoriteReadKeepsInv(s, step);
    case FavoriteWrite(_, _) => FavoriteWriteKeepsInv(s, step);
    case MoveToProject(_, _, _) => MoveToProjectKeepsInv(s, step);
    case DeleteRead(_, _, _, _) => DeleteReadKeepsInv(s, step);
    case DeleteRow(_, _) => DeleteRowKeepsInv(s, step);
    case DeleteBlob(_, _) => DeleteBlobKeepsInv(s, step);
    case Stop => StopKeepsInv(s, step);
    case Restart(_) => RestartKeepsInv(s, step);
    case Resize(_) => ResizeKeepsInv(s, step);
  }

  lemma WorkerKeepsInv(s: State, step: Step)
    requires Inv(s) && Enabled(s, step) && step.Worker().Some?
    ensures Inv(Apply(s, step))
  {
    if OnlyMoves(step) {
      MovingKeepsInv(s, step);
    } else if step.Commit? {
      CommitKeepsInv(s, step);
    } else if step.GiveUp? || step.PutImage? {
      BlobWriteKeepsInv(s, step);
    } else {
      FinalWriteKeepsInv(s, step);
    }
  }

  lemma StepKeepsInv(s: State, step: Step)
    requires Inv(s) && Enabled(s, step)
    ensures Inv(Apply(s, step))
  {
    if step.Worker().Some? {
      WorkerKeepsInv(s, step);
    } else {
      RequestKeepsInv(s, step);
    }
  }
}
