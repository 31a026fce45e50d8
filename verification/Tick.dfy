/** One tick of a worker, run without interference: claim, generate, store. */
module Tick {
  import opened Wrappers
  import opened Records
  import Paths

  /** What the upstream call comes back with. */
  datatype Generation =
    | Failure(message: string, detail: string)
    | Picture(image: Bytes)

  /** What goes right around the tick: whether the configuration is complete, how the claim
      commits, the error of writing the blob, whether the final statement reaches the database. */
  datatype Conditions = Conditions(configured: bool, commit: Commit, putError: Option<string>, writeOk: bool)

  const NOT_CONFIGURED := "管理员未配置上游接口"
  const NO_IMAGE := "生成失败，请稍后重试"
  const NOT_STORED := "存储失败: "

  /** The blob store: content by relative path. */
  class BlobStore {
    var blobs: map<string, Bytes>

    constructor ()
      ensures blobs == map[]
    {
      blobs := map[];
    }

    method Put(bucket: string, userKey: string, fileKey: string, data: Bytes, failure: Option<string>)
      returns (r: Result<string, string>)
      modifies this
      ensures r == if failure.None? then Ok(Paths.PutKey(bucket, userKey, fileKey)) else Err(failure.value)
      ensures blobs == if failure.None? then old(blobs)[Paths.PutKey(bucket, userKey, fileKey) := data] else old(blobs)
    {
      if failure.Some? {
        return Err(failure.value);
      }
      var path := Paths.PutKey(bucket, userKey, fileKey);
      blobs := blobs[path := data];
      return Ok(path);
    }
  }

  /** The row a tick leaves behind for the record it claimed. */
  function Finished(row: Row, c: Conditions, g: Generation, started: int, ended: int): Row {
    var running := row.Claim(started);
    if !c.writeOk then running
    else if !c.configured then running.Fail(NOT_CONFIGURED, "", ended)
    else if g.Failure? then running.Fail(g.message, g.detail, ended)
    else if g.image == [] then running.Fail(NO_IMAGE, "", ended)
    else if c.putError.Some? then running.Fail(NOT_STORED + c.putError.value, "", ended)
    else running.Store(row.Key(), ended)
  }

  /** The picture is generated and written to the store. */
  predicate Saves(c: Conditions, g: Generation) {
    c.configured && g.Picture? && g.image != [] && c.putError.None?
  }

  /** The error texts by cause, and the upstream's own words if it was the upstream that failed. */
  predicate Explained(row: Row, c: Conditions, g: Generation) {
    && (!c.configured ==> row.error == Some("管理员未配置上游接口") && row.upstreamError == None)
    && (c.configured && g.Failure? ==>
          row.error == Some(g.message) && row.upstreamError == if g.detail == "" then None else Some(g.detail))
    && (c.configured && g.Picture? && g.image == [] ==>
          row.error == Some("生成失败，请稍后重试") && row.upstreamError == None)
    && (c.configured && g.Picture? && g.image != [] && c.putError.Some? ==>
          row.error == Some("存储失败: " + c.putError.value) && row.upstreamError == None)
  }

  /** `tickOnce`. A tick that claims nothing, or is not sure of its claim, reports itself idle;
      otherwise it handles the lowest waiting record, which ends completed with its image in the
      store, or failed, or (if the last statement is lost) still running. No other row and no
      other blob is touched. */
  method TickOnce(
    repo: Repository, store: BlobStore, locked: set<int>, c: Conditions, g: Generation, started: int, ended: int)
    returns (processed: bool)
    requires repo.Valid() && started <= ended
    requires forall id :: id in repo.rows ==> Paths.IsUuid(repo.rows[id].uuid)
    modifies repo, store
    ensures repo.Valid()
    ensures var rows := old(repo.rows);
            var candidates := Candidates(rows, locked);
            && (processed <==> candidates != {} && c.commit == Committed)
            && (candidates == {} ==> repo.rows == rows)
            && (candidates != {} ==>
                  var id := Lowest(candidates);
                  && id in rows
                  && repo.rows == match c.commit
                                  case RolledBack => rows
                                  case Unknown => rows[id := rows[id].Claim(started)]
                                  case Committed => rows[id := Finished(rows[id], c, g, started, ended)])
    ensures var candidates := Candidates(old(repo.rows), locked);
            store.blobs == if processed && candidates != {} && Saves(c, g) then
                             old(store.blobs)[old(repo.rows)[Lowest(candidates)].Key() := g.image]
                           else old(store.blobs)
    // what this means for the claimed row
    ensures var rows, candidates := old(repo.rows), Candidates(old(repo.rows), locked);
            candidates != {} && c.commit != RolledBack ==>
              var id := Lowest(candidates);
              && id in rows && id in repo.rows && repo.rows == rows[id := repo.rows[id]]
              && repo.rows[id].startedAt == Some(started)
              && SameRequest(repo.rows[id], rows[id]) && SameVisibility(repo.rows[id], rows[id])
              && (c.commit == Unknown ==> repo.rows[id].status == Running)
    ensures processed ==>
              var id := Lowest(Candidates(old(repo.rows), locked));
              && id in repo.rows
              && var row := repo.rows[id];
                 && (row.status == Completed <==> c.writeOk && Saves(c, g))
                 && (row.status == Failed <==> c.writeOk && !Saves(c, g))
                 && (row.status == Running <==> !c.writeOk)
                 && (row.status == Completed ==>
                       && row.imagePath == Some(
                            "images" + "/" + ("user-" + Paths.FormatInt(row.userId)) + "/"
                            + (row.uuid + "." + (if row.format == "jpeg" then "jpg"
                                                 else if row.format == "webp" then "webp" else "png")))
                       && row.imagePath.value in store.blobs
                       && store.blobs[row.imagePath.value] == g.image)
                 && (row.status == Failed ==> Explained(row, c, g) && row.imagePath == None)
                 && row.completedAt == if row.status == Running then None else Some(ended)
  {
    ghost var rows := repo.rows;
    var claimed := repo.ClaimWaiting(locked, started, c.commit);
    if claimed.Err? {
      return false;
    }
    var (id, row) := claimed.value;
    assert row == rows[id].Claim(started);
    if !c.configured {
      if c.writeOk {
        repo.MarkFailedWithUpstreamError(id, NOT_CONFIGURED, "", ended);
      }
      return true;
    }
    if g.Failure? {
      if c.writeOk {
        repo.MarkFailedWithUpstreamError(id, g.message, g.detail, ended);
      }
      return true;
    }
    if g.image == [] {
      if c.writeOk {
        repo.MarkFailedWithUpstreamError(id, NO_IMAGE, "", ended);
      }
      return true;
    }
    var extension := Paths.ExtensionOf(row.format);
    var path := store.Put("images", Paths.UserKey(row.userId), Paths.FileKey(row.uuid, extension), g.image, c.putError);
    if path.Err? {
      if c.writeOk {
        repo.MarkFailedWithUpstreamError(id, NOT_STORED + path.error, "", ended);
      }
      return true;
    }
    Paths.ImageKeyParts(row.userId, row.uuid, extension);
    Paths.ImageKeyText(row.userId, row.uuid, row.format);
    if c.writeOk {
      var stored := repo.StoreGenerated(id, path.value, ended);
    }
    return true;
  }

  /** A tick in which everything works completes the record, and its image can be fetched. */
  lemma CleanTickCompletes(row: Row, c: Conditions, g: Generation, started: int, ended: int)
    requires Shape(row) && row.status == Waiting && started <= ended
    requires Saves(c, g) && c.writeOk && Paths.IsUuid(row.uuid)
    ensures var after := Finished(row, c, g, started, ended);
            && Shape(after) && after.status == Completed && after.HasImage()
            && after.imagePath == Some(row.Key())
  {
    Paths.ImageKeyParts(row.userId, row.uuid, Paths.ExtensionOf(row.format));
  }
}
