/** What holds on every run of the queue: ownership, final states, images, visibility,
    pool size and shutdown. */
module QueueTheorems {
  import opened Wrappers
  import opened Records
  import opened WorkerPool
  import opened Queue
  import opened QueueSafety
  import Paths

  lemma {:induction false} RunKeepsInv(s: State, steps: seq<Step>)
    requires Inv(s) && ValidRun(s, steps)
    ensures Inv(After(s, steps))
    decreases |steps|
  {
    if steps != [] {
      StepKeepsInv(s, steps[0]);
      RunKeepsInv(Apply(s, steps[0]), steps[1..]);
    }
  }

  ghost predicate Reachable(s: State) {
    exists steps :: ValidRun(INITIAL, steps) && After(INITIAL, steps) == s
  }

  lemma ReachableInv(s: State)
    requires Reachable(s)
    ensures Inv(s)
  {
    var steps :| ValidRun(INITIAL, steps) && After(INITIAL, steps) == s;
    InitialInv();
    RunKeepsInv(INITIAL, steps);
  }

  // ---- ownership ----

  /** In every reachable state each record is held by at most one worker, and a held record
      is deleted, running, or (while its claim is still open) waiting. */
  lemma RecordOwnership(s: State, w: nat, other: nat, id: int)
    requires Reachable(s) && HoldsRecord(s.pool, w, id)
    ensures HoldsRecord(s.pool, other, id) ==> other == w
    ensures s.pool.workers[w].job.Selected? ==> id in s.rows && s.rows[id].status == Waiting
    ensures !s.pool.workers[w].job.Selected? ==> id !in s.rows || s.rows[id].status == Running
  {
    ReachableInv(s);
    assert AtJob(s, w) && JobSound(s, s.pool.workers[w].job);
  }

  /** The final writes name a row by id alone, yet they only ever change running rows, and
      they change no other row. */
  lemma FinalWritesChangeRunningRows(s: State, step: Step, id: int)
    requires Reachable(s) && Enabled(s, step) && (step.StoreGenerated? || step.MarkFailed?)
    requires id in s.rows
    ensures id in Apply(s, step).rows
    ensures Apply(s, step).rows[id] != s.rows[id] ==>
              && s.rows[id].status == Running
              && HoldsRecord(s.pool, step.w, id)
              && Apply(s, step).rows[id].status == (if step.StoreGenerated? then Completed else Failed)
  {
    ReachableInv(s);
    assert AtJob(s, step.w) && JobSound(s, s.pool.workers[step.w].job);
  }

  /** The part of a completed row that nothing changes any more. */
  predicate SameResult(a: Row, b: Row) {
    && a.status == b.status && a.imagePath == b.imagePath && a.error == b.error
    && a.startedAt == b.startedAt && a.completedAt == b.completedAt
    && a.userId == b.userId && a.uuid == b.uuid && a.prompt == b.prompt && a.format == b.format
  }

  /** A worker's step adds and removes no row, and a row it changes was waiting or running. */
  lemma WorkerChangesUnfinishedRow(s: State, step: Step, id: int)
    requires Inv(s) && Enabled(s, step) && step.Worker().Some?
    ensures Apply(s, step).rows.Keys == s.rows.Keys && Apply(s, step).issued == s.issued
    ensures id in s.rows && Apply(s, step).rows[id] != s.rows[id] ==>
              s.rows[id].status == Waiting || s.rows[id].status == Running
  {
    WorkerKeepsIssued(s, step);
    var w := step.Worker().value;
    assert AtJob(s, w) ==> JobSound(s, s.pool.workers[w].job);
  }

  /** A worker's step leaves the recorded picture of a completed row. */
  lemma WorkerKeepsPicture(s: State, step: Step, id: int)
    requires Inv(s) && Enabled(s, step) && step.Worker().Some?
    requires id in s.rows && s.rows[id].status == Completed && id in s.pictures
    ensures id in Apply(s, step).pictures && Apply(s, step).pictures[id] == s.pictures[id]
  {
    var w := step.Worker().value;
    assert AtJob(s, w) ==> JobSound(s, s.pool.workers[w].job);
  }

  predicate EditsOneRow(step: Step) {
    step.Retry? || step.Publish? || step.FavoriteWrite? || step.MoveToProject?
  }

  lemma EditKeepsCompleted(s: State, step: Step, id: int)
    requires Enabled(s, step) && EditsOneRow(step)
    ensures Apply(s, step).rows.Keys == s.rows.Keys
    ensures id in s.rows && s.rows[id].status == Completed ==> SameResult(Apply(s, step).rows[id], s.rows[id])
  {
    if step.FavoriteWrite? {
      FavoriteWriteEffect(s, step);
      var u := s.updates[step.op];
      assert WriteFavorite(s.rows, s.favorites, u.id, u.actor, u.flag, u.own).Ok? ==>
          WriteFavorite(s.rows, s.favorites, u.id, u.actor, u.flag, u.own).value.0.Keys == s.rows.Keys;
    } else {
      assert Apply(s, step).rows == s.rows
             || (step.id in s.rows && Apply(s, step).rows == s.rows[step.id := Apply(s, step).rows[step.id]]);
    }
  }

  lemma TableKeepsCompleted(s: State, step: Step, id: int)
    requires Inv(s) && Enabled(s, step) && (step.Create? || step.Restart? || step.DeleteRow?)
    ensures id in s.issued && id !in s.rows ==> id !in Apply(s, step).rows
    ensures id in s.rows && s.rows[id].status == Completed && id in Apply(s, step).rows ==>
              Apply(s, step).rows[id] == s.rows[id]
  {
    assert step.Create? ==> step.id !in s.issued;
    if step.DeleteRow? {
      DeleteRowEffect(s, step);
    }
  }

  /** A request or a restart keeps a completed row or deletes it, and never brings an id back. */
  lemma RequestKeepsCompleted(s: State, step: Step, id: int)
    requires Inv(s) && Enabled(s, step) && step.Worker().None?
    ensures id in s.issued && id !in s.rows ==> id !in Apply(s, step).rows
    ensures id in s.rows && s.rows[id].status == Completed && id in Apply(s, step).rows ==>
              SameResult(Apply(s, step).rows[id], s.rows[id])
  {
    if EditsOneRow(step) {
      EditKeepsCompleted(s, step, id);
    } else if step.Create? || step.Restart? || step.DeleteRow? {
      TableKeepsCompleted(s, step, id);
    }
  }

  lemma CompletedSurvivesStep(s: State, step: Step, id: int)
    requires Inv(s) && Enabled(s, step)
    requires id in s.rows && s.rows[id].status == Completed
    ensures id in Apply(s, step).rows ==> SameResult(Apply(s, step).rows[id], s.rows[id])
    ensures id in s.issued && id in Apply(s, step).issued
    ensures id in s.pictures && id in Apply(s, step).pictures && Apply(s, step).pictures[id] == s.pictures[id]
  {
    assert ShapedUntil(s.rows[id], s.clock);
    if step.Worker().Some? {
      WorkerChangesUnfinishedRow(s, step, id);
      WorkerKeepsPicture(s, step, id);
    } else {
      RequestKeepsPictures(s, step);
      IssuedStays(s, step, id);
      RequestKeepsCompleted(s, step, id);
    }
  }

  lemma DeletedStaysDeleted(s: State, step: Step, id: int)
    requires Inv(s) && Enabled(s, step) && id in s.issued && id !in s.rows
    ensures id in Apply(s, step).issued && id !in Apply(s, step).rows
  {
    if step.Worker().Some? {
      WorkerChangesUnfinishedRow(s, step, id);
    } else {
      RequestKeepsPictures(s, step);
      IssuedStays(s, step, id);
      RequestKeepsCompleted(s, step, id);
    }
  }

  lemma {:induction false} DeletedForGood(s: State, steps: seq<Step>, id: int)
    requires Inv(s) && ValidRun(s, steps) && id in s.issued && id !in s.rows
    ensures id !in After(s, steps).rows
    decreases |steps|
  {
    if steps != [] {
      StepKeepsInv(s, steps[0]);
      DeletedStaysDeleted(s, steps[0], id);
      DeletedForGood(Apply(s, steps[0]), steps[1..], id);
    }
  }

  /** The blob a completed row names has the same content in both states. */
  predicate SamePicture(s: State, t: State, id: int)
    requires id in s.rows
  {
    && s.rows[id].HasImage()
    && var path := s.rows[id].imagePath.value;
       path in s.blobs && path in t.blobs && t.blobs[path] == s.blobs[path]
  }

  lemma HasPicture(s: State, id: int)
    requires Inv(s) && id in s.rows && s.rows[id].status == Completed
    ensures s.rows[id].HasImage() && s.rows[id].imagePath.value in s.blobs && id in s.pictures
    ensures s.blobs[s.rows[id].imagePath.value] == s.pictures[id]
  {
    assert ShapedUntil(s.rows[id], s.clock);
  }

  /** Completed is left by deletion only: over any further run the row is either gone for good
      or still completed with the same image, times and owner, and the stored picture is the same. */
  lemma {:induction false} CompletedIsFinal(s: State, steps: seq<Step>, id: int)
    requires Inv(s) && ValidRun(s, steps)
    requires id in s.rows && s.rows[id].status == Completed
    ensures id in After(s, steps).rows ==>
              && SameResult(After(s, steps).rows[id], s.rows[id])
              && SamePicture(s, After(s, steps), id)
    decreases |steps|
  {
    HasPicture(s, id);
    if steps != [] {
      var t := Apply(s, steps[0]);
      StepKeepsInv(s, steps[0]);
      CompletedSurvivesStep(s, steps[0], id);
      if id in t.rows {
        HasPicture(t, id);
        CompletedIsFinal(t, steps[1..], id);
      } else {
        DeletedForGood(t, steps[1..], id);
      }
    }
  }

  // ---- images ----

  /** In every reachable state a completed record's image path is the storage key of that very
      record, and the blob is there, with the picture the record was completed with. */
  lemma NoDanglingImage(s: State, id: int)
    requires Reachable(s) && id in s.rows && s.rows[id].status == Completed
    ensures s.rows[id].HasImage() && s.rows[id].imagePath == Some(s.rows[id].Key())
    ensures s.rows[id].Key() in s.blobs && id in s.pictures && s.blobs[s.rows[id].Key()] == s.pictures[id]
  {
    ReachableInv(s);
    HasPicture(s, id);
    assert KeyComputed(s.issued[id]);
  }

  /** When a worker records success, the blob under the record's key is the picture of its own
      tick, whatever other workers and requests did since it was written. */
  lemma CompletesWithOwnPicture(s: State, w: nat, now: int)
    requires Reachable(s) && Enabled(s, StoreGenerated(w, true, now))
    ensures var job, t := s.pool.workers[w].job, Apply(s, StoreGenerated(w, true, now));
            job.id in s.rows ==>
              && job.id in t.rows && t.rows[job.id].status == Completed
              && t.rows[job.id].imagePath == Some(t.rows[job.id].Key())
              && t.rows[job.id].Key() in t.blobs && t.blobs[t.rows[job.id].Key()] == job.image
              && job.id in t.pictures && t.pictures[job.id] == job.image
  {
    ReachableInv(s);
    assert AtJob(s, w) && JobSound(s, s.pool.workers[w].job);
    assert KeyComputed(s.issued[s.pool.workers[w].job.id]);
  }

  /** No two records share an image. */
  lemma ImagesNotShared(s: State, a: int, b: int)
    requires Reachable(s) && a in s.rows && b in s.rows
    requires s.rows[a].imagePath.Some? && s.rows[a].imagePath == s.rows[b].imagePath
    ensures a == b
  {
    ReachableInv(s);
    KeysDiffer(s.issued, a, b);
  }

  /** The three steps of a delete request. */
  function DeleteSteps(op: int, id: int, actor: int): seq<Step> {
    [DeleteRead(op, id, actor, true), DeleteRow(op, true), DeleteBlob(op, true)]
  }

  lemma DeleteReadEffect(s: State, op: int, id: int, actor: int)
    requires Enabled(s, DeleteRead(op, id, actor, true))
    ensures id in s.rows && op !in s.deletions
    ensures Apply(s, DeleteRead(op, id, actor, true))
            == s.(deletions := s.deletions[op := Found(id, s.rows[id].imagePath, true)])
  {
  }

  lemma DeleteRowOfImage(s: State, op: int, id: int, path: string)
    requires op in s.deletions && s.deletions[op] == Found(id, Some(path), true) && path != "" && id !in Locked(s.pool)
    ensures Enabled(s, DeleteRow(op, true))
    ensures Apply(s, DeleteRow(op, true))
            == s.(rows := s.rows - {id}, favorites := WithoutRecord(s.favorites, id),
                  deletions := s.deletions[op := Gone(path)])
  {
  }

  lemma DeleteBlobEffect(s: State, op: int, path: string)
    requires op in s.deletions && s.deletions[op] == Gone(path)
    ensures Enabled(s, DeleteBlob(op, true))
    ensures Apply(s, DeleteBlob(op, true)) == s.(blobs := s.blobs - {path}, deletions := s.deletions - {op})
  {
  }

  lemma ThreeStepRun(s: State, a: Step, b: Step, c: Step)
    requires Enabled(s, a) && Enabled(Apply(s, a), b) && Enabled(Apply(Apply(s, a), b), c)
    ensures ValidRun(s, [a, b, c]) && After(s, [a, b, c]) == Apply(Apply(Apply(s, a), b), c)
  {
    var t := Apply(s, a);
    var u := Apply(t, b);
    assert [a, b, c][1..] == [b, c] && [b, c][1..] == [c] && [c][1..] == [];
    var v := Apply(u, c);
    assert ValidRun(v, []) && After(v, []) == v;
    assert ValidRun(u, [c]) && After(u, [c]) == v;
    assert ValidRun(t, [b, c]) && After(t, [b, c]) == v;
  }

  lemma CompletedNotLocked(s: State, id: int)
    requires Reachable(s) && id in s.rows && s.rows[id].status == Completed
    ensures id !in Locked(s.pool)
  {
    ReachableInv(s);
    HeldIsUnfinished(s, id);
    assert forall w: nat :: AtJob(s, w) && s.pool.workers[w].job.Selected? && s.pool.workers[w].job.id == id ==>
                              HoldsRecord(s.pool, w, id);
  }

  /** A delete request that nothing interrupts removes the row and its blob, and touches nothing else. */
  lemma CleanDelete(s: State, op: int, id: int, actor: int)
    requires Reachable(s) && id in s.rows && s.rows[id].status == Completed
    requires Enabled(s, DeleteRead(op, id, actor, true))
    ensures var steps := DeleteSteps(op, id, actor);
            && ValidRun(s, steps)
            && After(s, steps) == s.(rows := s.rows - {id}, favorites := WithoutRecord(s.favorites, id),
                                     blobs := s.blobs - {s.rows[id].Key()})
  {
    NoDanglingImage(s, id);
    CompletedNotLocked(s, id);
    var path := s.rows[id].imagePath.value;
    DeleteReadEffect(s, op, id, actor);
    var t := Apply(s, DeleteRead(op, id, actor, true));
    DeleteRowOfImage(t, op, id, path);
    var u := Apply(t, DeleteRow(op, true));
    DeleteBlobEffect(u, op, path);
    assert u.deletions - {op} == s.deletions;
    ThreeStepRun(s, DeleteRead(op, id, actor, true), DeleteRow(op, true), DeleteBlob(op, true));
  }

  /** A record's blob can only be at its own key, whatever the format. */
  lemma NoOtherBlob(s: State, id: int, extension: string)
    requires Inv(s) && id in s.issued && Paths.IsExtension(extension)
    requires Paths.ImageKey(s.issued[id].userId, s.issued[id].uuid, extension) in s.blobs
    ensures Paths.ImageKey(s.issued[id].userId, s.issued[id].uuid, extension) == s.issued[id].key
  {
    var it := s.issued[id];
    var path := Paths.ImageKey(it.userId, it.uuid, extension);
    assert KeyIssued(s.issued, path);
    var owner :| owner in s.issued && path == s.issued[owner].key;
    var other := s.issued[owner];
    assert KeyComputed(it) && KeyComputed(other);
    Paths.ImageKeyInjective(it.userId, it.uuid, extension, other.userId, other.uuid, Paths.ExtensionOf(other.format));
    assert owner == id;
  }

  lemma GeneratorAddsOwnBlob(s: State, step: Step)
    requires Enabled(s, step) && (step.GiveUp? || step.PutImage?)
    ensures Apply(s, step).blobs.Keys <= s.blobs.Keys + {s.pool.workers[step.w].job.key}
  {
  }

  lemma OthersAddNoBlob(s: State, step: Step)
    requires Enabled(s, step) && step.Worker().Some? && !step.GiveUp? && !step.PutImage?
    ensures Apply(s, step).blobs == s.blobs
  {
  }

  lemma RequestAddsNoBlob(s: State, step: Step)
    requires Enabled(s, step) && step.Worker().None?
    ensures Apply(s, step).blobs.Keys <= s.blobs.Keys
  {
  }

  lemma NoBlobForGone(s: State, step: Step, id: int)
    requires Inv(s) && Enabled(s, step) && id in s.issued && !Held(s.pool, id) && s.issued[id].key !in s.blobs
    ensures s.issued[id].key !in Apply(s, step).blobs
  {
    if step.GiveUp? || step.PutImage? {
      var job := s.pool.workers[step.w].job;
      assert AtJob(s, step.w) && JobSound(s, job) && HoldsRecord(s.pool, step.w, job.id);
      GeneratorAddsOwnBlob(s, step);
      if job.key == s.issued[id].key {
        KeysDiffer(s.issued, job.id, id);
      }
    } else if step.Worker().Some? {
      OthersAddNoBlob(s, step);
    } else {
      RequestAddsNoBlob(s, step);
    }
  }

  lemma SelectionIsPresent(s: State, step: Step)
    requires Enabled(s, step) && step.Select?
    ensures var pc := Apply(s, step).pool.workers[step.w];
            pc.Tick? ==> pc.job.Selected? && pc.job.id in s.rows
  {
  }

  lemma GoneStaysUnheld(s: State, step: Step, id: int)
    requires Enabled(s, step) && id !in s.rows && !Held(s.pool, id)
    ensures !Held(Apply(s, step).pool, id)
  {
    var t := Apply(s, step);
    if step.Worker().Some? {
      WorkerStepFollowsEdge(s, step);
      var w := step.Worker().value;
      var pc := t.pool.workers[w];
      if step.Select? {
        SelectionIsPresent(s, step);
      }
      assert !HoldsRecord(s.pool, w, id);
      forall v: nat
        ensures !HoldsRecord(t.pool, v, id)
      {
        assert !HoldsRecord(s.pool, v, id);
      }
    } else {
      RequestKeepsWorkers(s, step);
      forall v: nat
        ensures !HoldsRecord(t.pool, v, id)
      {
        assert !HoldsRecord(s.pool, v, id);
      }
    }
  }

  /** While a deleted record is in nobody's hands no blob appears at its key. */
  lemma GoneStaysClean(s: State, step: Step, id: int)
    requires Inv(s) && Enabled(s, step) && id in s.issued && id !in s.rows && !Held(s.pool, id)
    requires s.issued[id].key !in s.blobs
    ensures id in Apply(s, step).issued && Apply(s, step).issued[id] == s.issued[id]
    ensures id !in Apply(s, step).rows && !Held(Apply(s, step).pool, id)
    ensures s.issued[id].key !in Apply(s, step).blobs
  {
    DeletedStaysDeleted(s, step, id);
    GoneStaysUnheld(s, step, id);
    IssuedStays(s, step, id);
    NoBlobForGone(s, step, id);
  }

  lemma {:induction false} GoneForGood(s: State, steps: seq<Step>, id: int)
    requires Inv(s) && ValidRun(s, steps) && id in s.issued && id !in s.rows && !Held(s.pool, id)
    requires s.issued[id].key !in s.blobs
    ensures Inv(After(s, steps)) && id in After(s, steps).issued && After(s, steps).issued[id] == s.issued[id]
    ensures s.issued[id].key !in After(s, steps).blobs
    decreases |steps|
  {
    if steps != [] {
      StepKeepsInv(s, steps[0]);
      GoneStaysClean(s, steps[0], id);
      GoneForGood(Apply(s, steps[0]), steps[1..], id);
    }
  }

  /** After a delete request that nothing interrupts no blob of the record is left, in any format,
      and none ever appears again, whatever happens later. */
  lemma CleanDeleteLeavesNoOrphan(s: State, op: int, id: int, actor: int, later: seq<Step>, extension: string)
    requires Reachable(s) && id in s.rows && s.rows[id].status == Completed && Paths.IsExtension(extension)
    requires Enabled(s, DeleteRead(op, id, actor, true))
    ensures ValidRun(s, DeleteSteps(op, id, actor))
    ensures var t := After(s, DeleteSteps(op, id, actor));
            ValidRun(t, later) ==>
              Paths.ImageKey(s.rows[id].userId, s.rows[id].uuid, extension) !in After(t, later).blobs
  {
    ReachableInv(s);
    CleanDelete(s, op, id, actor);
    RunKeepsInv(s, DeleteSteps(op, id, actor));
    HeldIsUnfinished(s, id);
    assert KeyComputed(s.issued[id]);
    var t := After(s, DeleteSteps(op, id, actor));
    if ValidRun(t, later) {
      GoneForGood(t, later, id);
      var u := After(t, later);
      if Paths.ImageKey(s.rows[id].userId, s.rows[id].uuid, extension) in u.blobs {
        NoOtherBlob(u, id, extension);
      }
    }
  }

  // ---- shape and visibility ----

  /** In every reachable state the columns of each row agree with its status. */
  lemma ReachableRowsShaped(s: State)
    requires Reachable(s)
    ensures AllShaped(s.rows)
  {
    ReachableInv(s);
    assert forall id :: id in s.rows ==> ShapedUntil(s.rows[id], s.clock);
  }

  /** The image endpoint, which does not look at the status, serves a non-owner exactly the
      rows of the gallery, and each such row has its blob. */
  lemma NonOwnerSeesGallery(s: State, id: int, viewer: int)
    requires Reachable(s) && (id in s.rows ==> s.rows[id].userId != viewer)
    ensures ImageVisible(s.rows, id, viewer) <==> id in Gallery(s.rows)
    ensures id in Gallery(s.rows) ==> s.rows[id].HasImage() && s.rows[id].imagePath.value in s.blobs
  {
    ReachableRowsShaped(s);
    VisibleIffListed(s.rows, id, viewer);
    if id in Gallery(s.rows) {
      NoDanglingImage(s, id);
    }
  }

  /** In every reachable state a favourite update that goes through is seen, in the listing, by the
      user who made it and by no other signed-in user, whatever happened to the row since it was read. */
  lemma ReachableFavorites(s: State, op: int, viewer: int, other: int)
    requires Reachable(s) && Enabled(s, FavoriteWrite(op, true))
    requires viewer > 0 && viewer != s.updates[op].actor && other in s.rows
    ensures var t, u := Apply(s, FavoriteWrite(op, true)), s.updates[op];
            && other in t.rows
            && ShownFavorite(t.rows[other], other, t.favorites, viewer)
               == ShownFavorite(s.rows[other], other, s.favorites, viewer)
            && (u.id in s.rows ==> u.id in t.rows && ShownFavorite(t.rows[u.id], u.id, t.favorites, u.actor) == u.flag)
  {
    ReachableInv(s);
    FavoriteWriteEffect(s, FavoriteWrite(op, true));
    var u := s.updates[op];
    assert OwnershipKnown(s.rows, u.id, u.actor, u.own);
    if WriteFavorite(s.rows, s.favorites, u.id, u.actor, u.flag, u.own).Ok? {
      FavoriteReadYourWrite(s.rows, s.favorites, u.id, u.actor, u.flag, u.own);
      FavoriteIsolated(s.rows, s.favorites, u.id, u.actor, u.flag, u.own, viewer, other);
    }
  }

  // ---- into the queue and out of it ----

  lemma LockedArePresent(s: State)
    requires Inv(s)
    ensures forall id :: id in Locked(s.pool) ==> id in s.rows && s.rows[id].status == Waiting
  {
    forall id | id in Locked(s.pool)
      ensures id in s.rows && s.rows[id].status == Waiting
    {
      var w: nat :| w < |s.pool.workers| && s.pool.workers[w].Tick? && s.pool.workers[w].job == Selected(id);
      assert AtJob(s, w) && JobSound(s, s.pool.workers[w].job);
    }
  }

  /** A created record waits, with what was asked for, and no other row changes. */
  lemma CreateQueues(s: State, step: Step)
    requires Inv(s) && Enabled(s, step) && step.Create?
    ensures var t := Apply(s, step);
            && step.id !in s.rows && t.rows.Keys == s.rows.Keys + {step.id}
            && (forall other :: other in s.rows ==> t.rows[other] == s.rows[other])
            && step.id in Candidates(t.rows, Locked(t.pool))
            && t.rows[step.id].userId == step.userId && t.rows[step.id].uuid == step.uuid
            && t.rows[step.id].prompt == step.prompt && t.rows[step.id].format == step.format
            && t.rows[step.id].projectId == step.projectId
  {
    assert step.id !in s.issued;
    RequestKeepsWorkers(s, step);
    LockedArePresent(s);
  }

  /** A retry puts exactly the owner's failed row back, unstarted and without result or error. */
  lemma RetryQueues(s: State, id: int, actor: int)
    requires Inv(s) && Enabled(s, Retry(id, actor))
    ensures var t := Apply(s, Retry(id, actor));
            if id in s.rows && s.rows[id].userId == actor && s.rows[id].status == Failed then
              && t.rows.Keys == s.rows.Keys
              && (forall other :: other in s.rows && other != id ==> t.rows[other] == s.rows[other])
              && id in Candidates(t.rows, Locked(t.pool))
              && SameRequest(t.rows[id], s.rows[id]) && t.rows[id].imagePath == None && NoErrors(t.rows[id])
              && t.rows[id].startedAt == None && t.rows[id].completedAt == None
            else t.rows == s.rows
  {
    RequestKeepsWorkers(s, Retry(id, actor));
    LockedArePresent(s);
  }

  /** A publication or withdrawal takes effect exactly on the owner's completed row, and the gallery
      gains or loses just that row. */
  lemma PublishShows(s: State, step: Step)
    requires Inv(s) && Enabled(s, step) && step.Publish?
    ensures var t, id := Apply(s, step), step.id;
            if id in s.rows && s.rows[id].userId == step.actor && s.rows[id].status == Completed then
              && id in t.rows && t.rows[id].isPublic == step.public
              && t.rows[id].promptPublic == (!step.public || step.promptShown)
              && t.rows[id].publishedAt == (if step.public then Some(step.now) else None)
              && SameRequest(t.rows[id], s.rows[id]) && SameProgress(t.rows[id], s.rows[id])
              && t.rows == s.rows[id := t.rows[id]]
              && Gallery(t.rows) == (if step.public then Gallery(s.rows) + {id} else Gallery(s.rows) - {id})
            else t.rows == s.rows
  {
    PublishEffect(s, step);
    assert step.id in s.rows ==> ShapedUntil(s.rows[step.id], s.clock);
  }

  /** Moving a record to a project sets that column of the owner's row and nothing else. */
  lemma MoveSetsProject(s: State, step: Step)
    requires Enabled(s, step) && step.MoveToProject?
    ensures var t, id := Apply(s, step), step.id;
            if id in s.rows && s.rows[id].userId == step.actor then
              && id in t.rows && t.rows[id].projectId == step.projectId
              && t.rows[id].(projectId := s.rows[id].projectId) == s.rows[id]
              && t.rows == s.rows[id := t.rows[id]]
            else t.rows == s.rows
  {
  }

  /** A committed claim starts the locked row; a rolled-back one leaves it waiting. */
  lemma CommitStarts(s: State, step: Step)
    requires Inv(s) && Enabled(s, step) && step.Commit?
    ensures var t, id := Apply(s, step), s.pool.workers[step.w].job.id;
            if step.outcome == RolledBack then t.rows == s.rows
            else
              && id in s.rows && t.rows.Keys == s.rows.Keys
              && (forall other :: other in s.rows && other != id ==> t.rows[other] == s.rows[other])
              && t.rows[id].status == Running && t.rows[id].startedAt == Some(step.now)
              && SameRequest(t.rows[id], s.rows[id])
  {
  }

  /** A failure that reaches the database is recorded with the worker's message, if the row is there. */
  lemma FailureRecorded(s: State, step: Step)
    requires Inv(s) && Enabled(s, step) && step.MarkFailed?
    ensures var t, job := Apply(s, step), s.pool.workers[step.w].job;
            if step.dbOk && job.id in s.rows then
              && t.rows.Keys == s.rows.Keys
              && (forall other :: other in s.rows && other != job.id ==> t.rows[other] == s.rows[other])
              && t.rows[job.id].status == Failed && t.rows[job.id].error == Some(job.message)
              && t.rows[job.id].completedAt == Some(step.now) && SameRequest(t.rows[job.id], s.rows[job.id])
            else t.rows == s.rows
  {
  }

  /** A restart whose sweep succeeds leaves exactly the records waiting that were waiting or running,
      the latter unstarted; every other row stays. A restart whose sweep fails changes no row. */
  lemma RestartRequeues(s: State, sweepOk: bool, id: int)
    requires Inv(s) && Enabled(s, Restart(sweepOk))
    ensures var t := Apply(s, Restart(sweepOk));
            && t.rows.Keys == s.rows.Keys && t.favorites == s.favorites && t.blobs == s.blobs
            && t.issued == s.issued && t.pictures == s.pictures
            && (!sweepOk ==> t.rows == s.rows)
            && (sweepOk ==>
                  && (id in Candidates(t.rows, Locked(t.pool)) <==>
                        id in s.rows && (s.rows[id].status == Waiting || s.rows[id].status == Running))
                  && (id in s.rows && s.rows[id].status == Running ==>
                        && t.rows[id].startedAt == None && t.rows[id].completedAt == s.rows[id].completedAt
                        && t.rows[id].imagePath == s.rows[id].imagePath && t.rows[id].error == s.rows[id].error
                        && t.rows[id].upstreamError == s.rows[id].upstreamError
                        && SameRequest(t.rows[id], s.rows[id]) && SameVisibility(t.rows[id], s.rows[id]))
                  && (id in s.rows && s.rows[id].status != Running ==> t.rows[id] == s.rows[id]))
  {
  }

  // ---- the pool ----

  /** In every reachable state: records in hand <= current <= wait group, and current <= 16. */
  lemma PoolWithinLimits(s: State)
    requires Reachable(s)
    ensures s.pool.current == Sum(s.pool.workers, Live) && s.pool.waitCount == Sum(s.pool.workers, Open)
    ensures 0 <= Sum(s.pool.workers, Holding) <= s.pool.current <= s.pool.waitCount
    ensures s.pool.current <= MAX_WORKERS
  {
    ReachableInv(s);
    CountsOrdered(s.pool);
  }

  // ---- after Stop ----

  predicate NoRestart(steps: seq<Step>) {
    forall i :: 0 <= i < |steps| ==> !steps[i].Restart?
  }

  /** Claims committed by worker w in these steps. */
  function CommitsBy(steps: seq<Step>, w: nat): nat {
    if steps == [] then 0
    else (if steps[0].Commit? && steps[0].w == w && steps[0].outcome != RolledBack then 1 else 0)
         + CommitsBy(steps[1..], w)
  }

  function Commits(steps: seq<Step>): nat {
    if steps == [] then 0
    else (if steps[0].Commit? && steps[0].outcome != RolledBack then 1 else 0) + Commits(steps[1..])
  }

  /** What worker w may still commit: nothing if it does not exist yet. */
  function Allowance(p: Pool, w: nat): int {
    if w < |p.workers| then BeforeCommit(p.workers[w]) else 0
  }

  /** A request may add workers, but none that is inside a tick. */
  lemma RequestAllowance(s: State, step: Step, w: nat)
    requires Enabled(s, step) && step.Worker().None? && !step.Restart?
    ensures s.pool.closed ==> Apply(s, step).pool.closed
    ensures Allowance(Apply(s, step).pool, w) == Allowance(s.pool, w)
    ensures Sum(Apply(s, step).pool.workers, BeforeCommit) == Sum(s.pool.workers, BeforeCommit)
  {
    RequestKeepsWorkers(s, step);
    if step.Resize? {
      var goal := Clamp(step.target);
      var missing := if goal > s.pool.current then goal - s.pool.current else 0;
      SpawnedCounts(missing);
      SumAppend(s.pool.workers, Spawned(missing), BeforeCommit);
    }
  }

  /** Once closed, a step never raises an allowance, and a committed claim uses one up. */
  lemma ClosedStepAllowance(s: State, step: Step, w: nat)
    requires Inv(s) && s.pool.closed && Enabled(s, step) && !step.Restart?
    ensures Apply(s, step).pool.closed
    ensures CommitsBy([step], w) + Allowance(Apply(s, step).pool, w) <= Allowance(s.pool, w)
    ensures Commits([step]) + Sum(Apply(s, step).pool.workers, BeforeCommit) <= Sum(s.pool.workers, BeforeCommit)
  {
    assert [step][1..] == [];
    if step.Worker().Some? {
      WorkerStepFollowsEdge(s, step);
      var v := step.Worker().value;
      MoveOpensNoTick(s.pool, v, Apply(s, step).pool.workers[v]);
    } else {
      RequestAllowance(s, step, w);
    }
  }

  /** After Stop a worker commits at most one more claim, and only if it was already inside a
      tick; a worker started later commits none. */
  lemma {:induction false} AfterStopPerWorker(s: State, steps: seq<Step>, w: nat)
    requires Inv(s) && s.pool.closed && ValidRun(s, steps) && NoRestart(steps)
    ensures CommitsBy(steps, w) <= Allowance(s.pool, w) <= 1
    decreases |steps|
  {
    if steps == [] {
    } else {
      StepKeepsInv(s, steps[0]);
      ClosedStepAllowance(s, steps[0], w);
      assert [steps[0]][1..] == [];
      AfterStopPerWorker(Apply(s, steps[0]), steps[1..], w);
      assert Allowance(s.pool, w) <= 1;
    }
  }

  lemma {:induction false} CommitsWithinAllowance(s: State, steps: seq<Step>)
    requires Inv(s) && s.pool.closed && ValidRun(s, steps) && NoRestart(steps)
    ensures Commits(steps) <= Sum(s.pool.workers, BeforeCommit)
    decreases |steps|
  {
    if steps == [] {
      SumNonNegative(s.pool.workers, BeforeCommit);
    } else {
      StepKeepsInv(s, steps[0]);
      ClosedStepAllowance(s, steps[0], 0);
      assert [steps[0]][1..] == [];
      CommitsWithinAllowance(Apply(s, steps[0]), steps[1..]);
    }
  }

  /** After Stop at most sixteen further claims are committed, whatever is resized later. */
  lemma AfterStopAtMostSixteen(s: State, steps: seq<Step>)
    requires Reachable(s) && s.pool.closed && ValidRun(s, steps) && NoRestart(steps)
    ensures Commits(steps) <= s.pool.current <= MAX_WORKERS
  {
    ReachableInv(s);
    CommitsWithinAllowance(s, steps);
    SumMonotone(s.pool.workers, BeforeCommit, Live, 1);
  }

  /** Worker steps in a run. */
  function WorkerSteps(steps: seq<Step>): nat {
    if steps == [] then 0 else (if steps[0].Worker().Some? then 1 else 0) + WorkerSteps(steps[1..])
  }

  predicate NoResize(steps: seq<Step>) {
    forall i :: 0 <= i < |steps| ==> !steps[i].Resize?
  }

  lemma {:induction false} ShutdownUsesRank(s: State, steps: seq<Step>)
    requires s.pool.closed && ValidRun(s, steps) && NoRestart(steps) && NoResize(steps)
    ensures WorkerSteps(steps) + Sum(After(s, steps).pool.workers, Rank) <= Sum(s.pool.workers, Rank)
    decreases |steps|
  {
    if steps != [] {
      var t := Apply(s, steps[0]);
      if steps[0].Worker().Some? {
        WorkerStepFollowsEdge(s, steps[0]);
        var w := steps[0].Worker().value;
        MoveUsesRank(s.pool, w, t.pool.workers[w]);
      } else {
        RequestKeepsWorkers(s, steps[0]);
      }
      ShutdownUsesRank(t, steps[1..]);
    }
  }

  lemma RankWithinOpen(workers: seq<Pc>)
    ensures 0 <= Sum(workers, Rank) <= 10 * Sum(workers, Open)
  {
    SumMonotone(workers, Rank, Open, 10);
    SumNonNegative(workers, Rank);
  }

  /** Shutdown is bounded: after Stop, without a resize, the workers take at most ten steps per
      open worker in total, however requests are interleaved. */
  lemma ShutdownBounded(s: State, steps: seq<Step>)
    requires Reachable(s) && s.pool.closed && ValidRun(s, steps) && NoRestart(steps) && NoResize(steps)
    ensures WorkerSteps(steps) <= 10 * s.pool.waitCount
  {
    ReachableInv(s);
    ShutdownUsesRank(s, steps);
    RankWithinOpen(s.pool.workers);
    RankWithinOpen(After(s, steps).pool.workers);
  }

  /** A step the given worker can take now. */
  function NextStep(s: State, w: nat): Step
    requires w < |s.pool.workers| && s.pool.workers[w] != Done
  {
    match s.pool.workers[w]
    case CheckExcess => Check(w)
    case CheckStop => Poll(w)
    case IdleWait => Idle(w, false)
    case Leaving => Leave(w)
    case Decremented => Release(w)
    case Tick(job) =>
      (match job
       case Begin => Select(w, true)
       case Selected(_) => Commit(w, Committed, s.clock)
       case Claimed(_) => Reread(w, true)
       case Working(_, _) => PutImage(w, [])
       case Failing(_, _, _) => MarkFailed(w, true, s.clock)
       case Storing(_, _, _) => StoreGenerated(w, true, s.clock))
  }

  lemma NextStepEnabled(s: State, w: nat)
    requires Inv(s) && w < |s.pool.workers| && s.pool.workers[w] != Done
    ensures Enabled(s, NextStep(s, w)) && NextStep(s, w).Worker() == Some(w)
  {
    assert AtJob(s, w) ==> JobSound(s, s.pool.workers[w].job);
  }

  lemma StepNeedsWorker(s: State, step: Step)
    requires Enabled(s, step) && step.Worker().Some?
    ensures step.Worker().value < |s.pool.workers| && s.pool.workers[step.Worker().value] != Done
  {
    WorkerStepFollowsEdge(s, step);
  }

  /** Shutdown makes progress: while the wait group is above zero some worker can step, and no
      worker ever blocks another; when no worker can step the wait group is at zero. */
  lemma ShutdownProgress(s: State)
    requires Reachable(s)
    ensures forall w: nat :: w < |s.pool.workers| && s.pool.workers[w] != Done ==>
              Enabled(s, NextStep(s, w)) && NextStep(s, w).Worker() == Some(w)
    ensures (s.pool.waitCount == 0) <==> (forall step :: Enabled(s, step) ==> step.Worker().None?)
  {
    ReachableInv(s);
    AllDoneIffNoneOpen(s.pool.workers);
    forall w: nat | w < |s.pool.workers| && s.pool.workers[w] != Done
      ensures Enabled(s, NextStep(s, w)) && NextStep(s, w).Worker() == Some(w)
    {
      NextStepEnabled(s, w);
    }
    forall step | Enabled(s, step) && step.Worker().Some?
      ensures s.pool.waitCount != 0
    {
      StepNeedsWorker(s, step);
    }
  }
}
