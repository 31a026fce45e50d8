/** The records table and its repository: the life cycle of a generation task,
    community visibility and favourites. */
module Records {
  import opened Wrappers
  import Paths

  datatype Status = Waiting | Running | Completed | Failed

  /** The columns of `records` that the repository writes; `format` is the output format among the
      image parameters. Times are clock readings. */
  datatype Row = Row(
    userId: int,
    uuid: string,
    projectId: Option<int>,
    prompt: string,
    format: string,
    status: Status,
    favorite: bool,
    isPublic: bool,
    promptPublic: bool,
    imagePath: Option<string>,
    error: Option<string>,
    upstreamError: Option<string>,
    startedAt: Option<int>,
    completedAt: Option<int>,
    publishedAt: Option<int>)
  {
    /** `image_path IS NOT NULL AND image_path <> ''` */
    predicate HasImage() {
      imagePath.Some? && imagePath.value != ""
    }

    /** Where this record's picture is stored: the extension follows from the requested format. */
    function Key(): string {
      Paths.ImageKey(userId, uuid, Paths.ExtensionOf(format))
    }

    // What each UPDATE statement sets.

    function Claim(now: int): Row {
      this.(status := Running, startedAt := Some(now))
    }

    function Store(path: string, now: int): Row {
      this.(status := Completed, imagePath := Some(path), completedAt := Some(now), error := None,
            upstreamError := None)
    }

    function Fail(message: string, detail: string, now: int): Row {
      this.(status := Failed, error := Some(message), completedAt := Some(now),
            upstreamError := if detail != "" then Some(detail) else None)
    }

    function Retry(): Row {
      this.(status := Waiting, error := None, upstreamError := None, startedAt := None, completedAt := None,
            imagePath := None)
    }

    function Sweep(): Row {
      if status == Running then this.(status := Waiting, startedAt := None) else this
    }

    function Publish(public: bool, promptShown: bool, now: int): Row {
      if public then this.(isPublic := true, promptPublic := promptShown, publishedAt := Some(now))
      else this.(isPublic := false, promptPublic := true, publishedAt := None)
    }

    predicate Publishable(actor: int) {
      userId == actor && status == Completed && HasImage()
    }

    predicate Retryable(actor: int) {
      userId == actor && status == Failed
    }

    /** A row another user may collect. */
    predicate Collectable() {
      isPublic && status == Completed && HasImage()
    }
  }

  type Table = map<int, Row>
  type Favorites = set<(int, int)>  // (user, record)

  /** A new row: what the handler writes and what the column defaults add. */
  function NewRow(userId: int, uuid: string, projectId: Option<int>, prompt: string, format: string): Row {
    Row(userId, uuid, projectId, prompt, format, Waiting, false, false, true, None, None, None, None, None, None)
  }

  /** The columns no part of the generation life cycle writes. */
  predicate SameRequest(a: Row, b: Row) {
    && a.userId == b.userId && a.uuid == b.uuid && a.projectId == b.projectId && a.prompt == b.prompt
    && a.format == b.format && a.favorite == b.favorite
  }

  /** The columns a publication writes. */
  predicate SameVisibility(a: Row, b: Row) {
    a.isPublic == b.isPublic && a.promptPublic == b.promptPublic && a.publishedAt == b.publishedAt
  }

  /** The columns a worker writes. */
  predicate SameProgress(a: Row, b: Row) {
    && a.status == b.status && a.imagePath == b.imagePath && a.error == b.error && a.upstreamError == b.upstreamError
    && a.startedAt == b.startedAt && a.completedAt == b.completedAt
  }

  // ---- the shape of a row ----

  predicate TimedRun(row: Row) {
    row.startedAt.Some? && row.completedAt.Some? && row.startedAt.value <= row.completedAt.value
  }

  predicate NoErrors(row: Row) {
    row.error.None? && row.upstreamError.None?
  }

  /** The columns agree with the status. */
  predicate Shape(row: Row) {
    && (match row.status
        case Waiting => row.imagePath.None? && NoErrors(row) && row.startedAt.None? && row.completedAt.None?
        case Running => row.imagePath.None? && NoErrors(row) && row.startedAt.Some? && row.completedAt.None?
        case Completed => row.HasImage() && NoErrors(row) && TimedRun(row)
        case Failed => row.imagePath.None? && row.error.Some? && TimedRun(row))
    && (row.isPublic ==> row.status == Completed)
    && (row.isPublic <==> row.publishedAt.Some?)
    && (!row.isPublic ==> row.promptPublic)
  }

  // ---- claiming ----

  /** Rows the claiming SELECT ... FOR UPDATE SKIP LOCKED may pick. */
  function Candidates(rows: Table, locked: set<int>): set<int> {
    set id | id in rows && rows[id].status == Waiting && id !in locked
  }

  ghost predicate IsLeast(id: int, ids: set<int>) {
    id in ids && forall other :: other in ids ==> id <= other
  }

  lemma {:induction false} LeastExists(ids: set<int>)
    requires ids != {}
    ensures exists id :: IsLeast(id, ids)
    decreases |ids|
  {
    assert (forall id :: id !in ids) ==> ids == {};
    var any :| any in ids;
    var rest := ids - {any};
    assert ids == rest + {any};
    if rest == {} {
      assert IsLeast(any, ids);
    } else {
      LeastExists(rest);
      var least :| IsLeast(least, rest);
      assert IsLeast(if any < least then any else least, ids);
    }
  }

  /** The row the claim picks: the lowest id among the candidates. */
  ghost function Lowest(ids: set<int>): (id: int)
    requires ids != {}
    ensures IsLeast(id, ids)
  {
    LeastExists(ids);
    var id :| IsLeast(id, ids);
    id
  }

  datatype Commit = Committed | RolledBack | Unknown  // Unknown: committed, but the client saw an error

  datatype RepoError = NotFound | Database | EmptyPath

  // ---- favourites ----

  /** The read of `UpdateFavorite`: may this user mark the row, and is it the user's own? */
  function FavoriteTarget(rows: Table, id: int, actor: int): Result<bool, RepoError> {
    if id !in rows then Err(NotFound)
    else if rows[id].userId == actor then Ok(true)
    else if rows[id].Collectable() then Ok(false)
    else Err(NotFound)
  }

  /** A user may mark a row that is the user's own, or a published completed one with an image. */
  lemma FavoriteAllowedIff(rows: Table, id: int, actor: int)
    ensures FavoriteTarget(rows, id, actor).Ok? <==>
              id in rows && (rows[id].userId == actor
                             || (rows[id].isPublic && rows[id].status == Completed
                                 && rows[id].imagePath.Some? && rows[id].imagePath.value != ""))
    ensures FavoriteTarget(rows, id, actor).Ok? ==>
              (FavoriteTarget(rows, id, actor).value <==> rows[id].userId == actor)
    ensures FavoriteTarget(rows, id, actor).Err? ==> FavoriteTarget(rows, id, actor).error == NotFound
  {
  }

  /** The write of `UpdateFavorite`: the owner's flag is a column, everybody else's a relation whose
      foreign key refuses a row that is gone. It does not look at the publication again. */
  function WriteFavorite(rows: Table, favorites: Favorites, id: int, actor: int, flag: bool, own: bool)
    : Result<(Table, Favorites), RepoError>
  {
    if own then
      if id in rows && rows[id].userId == actor then Ok((rows[id := rows[id].(favorite := flag)], favorites))
      else Err(NotFound)
    else if !flag then Ok((rows, favorites - {(actor, id)}))
    else if id in rows then Ok((rows, favorites + {(actor, id)}))
    else Err(Database)
  }

  /** Favourites name existing rows, and never a row of the collector's own. */
  predicate FavoritesValid(rows: Table, favorites: Favorites) {
    forall f :: f in favorites ==> f.1 in rows && rows[f.1].userId != f.0
  }

  /** Whether the row is the user's own has not changed since it was read. */
  predicate OwnershipKnown(rows: Table, id: int, actor: int, own: bool) {
    id in rows ==> (own <==> rows[id].userId == actor)
  }

  lemma WriteFavoriteKeepsValid(rows: Table, favorites: Favorites, id: int, actor: int, flag: bool, own: bool)
    requires FavoritesValid(rows, favorites) && OwnershipKnown(rows, id, actor, own)
    ensures var r := WriteFavorite(rows, favorites, id, actor, flag, own);
            r.Ok? ==> FavoritesValid(r.value.0, r.value.1)
  {
  }

  /** The favourite flag a listed row carries for a viewer. A viewer id of zero or less
      gets the raw column. */
  function ShownFavorite(row: Row, id: int, favorites: Favorites, viewer: int): bool {
    if viewer <= 0 then row.favorite
    else if row.userId == viewer then row.favorite || (viewer, id) in favorites
    else (viewer, id) in favorites
  }

  /** After a successful update the listing shows the new flag to the user who set it, whatever
      happened to the row since it was read. */
  lemma FavoriteReadYourWrite(rows: Table, favorites: Favorites, id: int, actor: int, flag: bool, own: bool)
    requires FavoritesValid(rows, favorites) && OwnershipKnown(rows, id, actor, own) && actor > 0
    requires WriteFavorite(rows, favorites, id, actor, flag, own).Ok?
    ensures var (rows', favorites') := WriteFavorite(rows, favorites, id, actor, flag, own).value;
            id in rows ==> id in rows' && ShownFavorite(rows'[id], id, favorites', actor) == flag
  {
    assert id in rows && (actor, id) in favorites ==> rows[id].userId != actor;
  }

  /** Nobody else sees a change, with one exception: an anonymous viewer sees the owner's
      own column, so sees the owner change it. */
  lemma FavoriteIsolated(
    rows: Table, favorites: Favorites, id: int, actor: int, flag: bool, own: bool, viewer: int, other: int)
    requires WriteFavorite(rows, favorites, id, actor, flag, own).Ok?
    requires viewer != actor && other in rows
    ensures var (rows', favorites') := WriteFavorite(rows, favorites, id, actor, flag, own).value;
            && other in rows'
            && (ShownFavorite(rows'[other], other, favorites', viewer)
                == ShownFavorite(rows[other], other, favorites, viewer)
                <==> !(viewer <= 0 && own && other == id && rows[id].favorite != flag))
  {
    var (rows', favorites') := WriteFavorite(rows, favorites, id, actor, flag, own).value;
    assert (viewer, other) in favorites' <==> (viewer, other) in favorites;
  }

  // ---- what others do between two statements of one call ----

  /** A change another request or a worker makes to a row; each is guarded as its statement is. */
  datatype Change =
    | RowDeleted
    | PublishedAs(public: bool, promptShown: bool, at: int)
    | FlagSet(flag: bool)
    | ProjectSet(projectId: Option<int>)
    | PickedUp(at: int)
    | PathStored(path: string, at: int)
    | GivenUp(message: string, detail: string, at: int)
    | RetriedAgain

  /** A worker's final statement comes while the row runs, and not before it was picked up. */
  predicate Finishes(row: Row, at: int) {
    row.status == Running && row.startedAt.Some? && row.startedAt.value <= at
  }

  function Changed(row: Row, ch: Change): Row
    requires !ch.RowDeleted?
  {
    match ch
    case PublishedAs(public, promptShown, at) =>
      if row.Publishable(row.userId) then row.Publish(public, promptShown, at) else row
    case FlagSet(flag) => row.(favorite := flag)
    case ProjectSet(projectId) => row.(projectId := projectId)
    case PickedUp(at) => if row.status == Waiting then row.Claim(at) else row
    case PathStored(path, at) => if path != "" && Finishes(row, at) then row.Store(path, at) else row
    case GivenUp(message, detail, at) => if Finishes(row, at) then row.Fail(message, detail, at) else row
    case RetriedAgain => if row.Retryable(row.userId) then row.Retry() else row
  }

  /** The row after what others do to it, or None once it is gone. */
  function Meanwhile(row: Row, changes: seq<Change>): Option<Row>
    decreases |changes|
  {
    if changes == [] then Some(row)
    else if changes[0].RowDeleted? then None
    else Meanwhile(Changed(row, changes[0]), changes[1..])
  }

  lemma {:induction false} MeanwhileKeepsShape(row: Row, changes: seq<Change>)
    requires Shape(row)
    ensures var after := Meanwhile(row, changes);
            after.Some? ==> Shape(after.value) && after.value.userId == row.userId
    decreases |changes|
  {
    if changes != [] && !changes[0].RowDeleted? {
      MeanwhileKeepsShape(Changed(row, changes[0]), changes[1..]);
    }
  }

  /** The table after what others do to this row. */
  function Disturbed(rows: Table, id: int, changes: seq<Change>): Table {
    if id !in rows then rows
    else
      match Meanwhile(rows[id], changes)
      case None => rows - {id}
      case Some(row) => rows[id := row]
  }

  /** The favourites that a deletion of this row leaves. */
  function WithoutRecord(favorites: Favorites, id: int): Favorites {
    set f | f in favorites && f.1 != id
  }

  /** A deletion takes the favourites that name the row with it. */
  function Cascaded(rows: Table, favorites: Favorites, id: int, changes: seq<Change>): Favorites {
    if id in rows && Meanwhile(rows[id], changes).None? then WithoutRecord(favorites, id) else favorites
  }

  predicate AllShaped(rows: Table) {
    forall id :: id in rows ==> Shape(rows[id])
  }

  /** None of this hurts the tables. */
  lemma DisturbedStaysValid(rows: Table, favorites: Favorites, id: int, changes: seq<Change>)
    requires AllShaped(rows) && FavoritesValid(rows, favorites)
    ensures AllShaped(Disturbed(rows, id, changes)) && Disturbed(rows, id, changes).Keys <= rows.Keys
    ensures FavoritesValid(Disturbed(rows, id, changes), Cascaded(rows, favorites, id, changes))
    ensures forall other :: other in Disturbed(rows, id, changes) ==>
              Disturbed(rows, id, changes)[other].userId == rows[other].userId
  {
    if id in rows {
      assert Shape(rows[id]);
      MeanwhileKeepsShape(rows[id], changes);
    }
  }

  // ---- visibility ----

  /** `FindVisibleImageByID` finds this row for this caller. It does not look at the status. */
  predicate ImageVisible(rows: Table, id: int, viewer: int) {
    && id in rows
    && rows[id].HasImage()
    && (rows[id].isPublic || (viewer > 0 && rows[id].userId == viewer))
  }

  /** The rows of the community gallery when no search text is given. */
  function Gallery(rows: Table): set<int> {
    set id | id in rows && rows[id].isPublic && rows[id].status == Completed && rows[id].HasImage()
  }

  /** A caller who does not own the row can fetch its image exactly when the gallery lists it. */
  lemma VisibleIffListed(rows: Table, id: int, viewer: int)
    requires AllShaped(rows)
    requires id in rows ==> rows[id].userId != viewer
    ensures ImageVisible(rows, id, viewer) <==> id in Gallery(rows)
  {
    if id in rows {
      assert Shape(rows[id]);
    }
  }

  /** The owner can fetch the image of exactly the completed rows. */
  lemma OwnerSeesCompleted(rows: Table, id: int)
    requires AllShaped(rows) && id in rows && rows[id].userId > 0
    ensures ImageVisible(rows, id, rows[id].userId) <==> rows[id].status == Completed
  {
    assert Shape(rows[id]);
  }

  // ---- the repository ----

  /** A row as a listing carries it. */
  datatype Listed = Listed(id: int, row: Row)

  class Repository {
    var rows: Table
    var favorites: Favorites
    var used: set<int>  // ids the sequence has handed out

    ghost predicate Valid()
      reads this
    {
      && rows.Keys <= used
      && AllShaped(rows)
      && FavoritesValid(rows, favorites)
    }

    constructor ()
      ensures Valid() && rows == map[] && favorites == {} && used == {}
    {
      rows, favorites, used := map[], {}, {};
    }

    method Create(id: int, userId: int, uuid: string, projectId: Option<int>, prompt: string, format: string)
      requires Valid() && id !in used
      modifies this
      ensures Valid() && favorites == old(favorites) && used == old(used) + {id}
      ensures id in rows && rows == old(rows)[id := rows[id]]
      ensures rows[id].userId == userId && rows[id].uuid == uuid && rows[id].projectId == projectId
      ensures rows[id].prompt == prompt && rows[id].format == format && !rows[id].favorite
      ensures rows[id].status == Waiting && rows[id].imagePath == None && NoErrors(rows[id])
      ensures rows[id].startedAt == None && rows[id].completedAt == None
      ensures !rows[id].isPublic && rows[id].promptPublic && rows[id].publishedAt == None
    {
      rows := rows[id := NewRow(userId, uuid, projectId, prompt, format)];
      used := used + {id};
    }

    /** `FindByID`; a user id of zero or less means an unscoped (admin) read. */
    method FindByID(id: int, userId: int) returns (r: Result<Row, RepoError>)
      ensures r.Ok? <==> id in rows && (userId > 0 ==> rows[id].userId == userId)
      ensures r.Ok? ==> r.value == rows[id]
      ensures r.Err? ==> r.error == NotFound
    {
      if id !in rows || (userId > 0 && rows[id].userId != userId) {
        return Err(NotFound);
      }
      return Ok(rows[id]);
    }

    /** Claims the lowest waiting row that no open transaction holds. */
    method ClaimWaiting(locked: set<int>, now: int, commit: Commit) returns (r: Result<(int, Row), RepoError>)
      requires Valid()
      modifies this
      ensures Valid() && favorites == old(favorites) && used == old(used)
      ensures var candidates := Candidates(old(rows), locked);
              if candidates == {} then
                r == Err(NotFound) && rows == old(rows)
              else
                var id := Lowest(candidates);
                && rows == (if commit == RolledBack then old(rows) else old(rows)[id := old(rows)[id].Claim(now)])
                && (commit != RolledBack ==>
                      && rows[id].status == Running && rows[id].startedAt == Some(now)
                      && SameRequest(rows[id], old(rows)[id]) && SameVisibility(rows[id], old(rows)[id]))
                && (r.Ok? <==> commit == Committed)
                && (r.Ok? ==> r.value == (id, rows[id]))
                && (r.Err? ==> r.error == Database)
    {
      var candidates := Candidates(rows, locked);
      if candidates == {} {
        return Err(NotFound);
      }
      LeastExists(candidates);
      var id :| id in candidates && forall other :: other in candidates ==> id <= other;
      assert IsLeast(id, candidates) && IsLeast(Lowest(candidates), candidates);
      if commit == RolledBack {
        return Err(Database);
      }
      assert Shape(rows[id]);
      rows := rows[id := rows[id].Claim(now)];
      if commit == Unknown {
        return Err(Database);
      }
      return Ok((id, rows[id]));
    }

    /** The row is gone or running since no later than `now`. */
    predicate Finishable(id: int, now: int)
      reads this
    {
      id in rows ==> rows[id].status == Running && rows[id].startedAt.Some? && rows[id].startedAt.value <= now
    }

    /** Writes the success outcome. The statement is guarded by the id alone, so the table stays
        valid only if the row is running or gone. */
    method StoreGenerated(id: int, path: string, now: int) returns (r: Result<(), RepoError>)
      modifies this
      ensures old(Valid() && Finishable(id, now)) ==> Valid()
      ensures favorites == old(favorites) && used == old(used)
      ensures r == if path == "" then Err(EmptyPath) else Ok(())
      ensures rows == if r.Ok? && id in old(rows) then old(rows)[id := old(rows)[id].Store(path, now)] else old(rows)
      ensures r.Ok? && id in old(rows) ==>
                && rows[id].status == Completed && rows[id].imagePath == Some(path) && rows[id].completedAt == Some(now)
                && NoErrors(rows[id]) && rows[id].startedAt == old(rows)[id].startedAt
                && SameRequest(rows[id], old(rows)[id]) && SameVisibility(rows[id], old(rows)[id])
    {
      if path == "" {
        return Err(EmptyPath);
      }
      if id in rows {
        assert old(Valid() && Finishable(id, now)) ==> Shape(rows[id]);
        rows := rows[id := rows[id].Store(path, now)];
      }
      return Ok(());
    }

    /** Writes the failure outcome, guarded in the same way. */
    method MarkFailedWithUpstreamError(id: int, message: string, detail: string, now: int)
      modifies this
      ensures old(Valid() && Finishable(id, now)) ==> Valid()
      ensures favorites == old(favorites) && used == old(used)
      ensures rows == if id in old(rows) then old(rows)[id := old(rows)[id].Fail(message, detail, now)] else old(rows)
      ensures id in old(rows) ==>
                && rows[id].status == Failed && rows[id].error == Some(message) && rows[id].completedAt == Some(now)
                && (detail != "" ==> rows[id].upstreamError == Some(detail))
                && (detail == "" ==> rows[id].upstreamError == None)
                && rows[id].startedAt == old(rows)[id].startedAt && rows[id].imagePath == old(rows)[id].imagePath
                && SameRequest(rows[id], old(rows)[id]) && SameVisibility(rows[id], old(rows)[id])
    {
      if id in rows {
        assert old(Valid() && Finishable(id, now)) ==> Shape(rows[id]);
        rows := rows[id := rows[id].Fail(message, detail, now)];
      }
    }

    /** Resets a failed row, then reads it back; others may have got at it in between. */
    method RetryFailed(id: int, userId: int, others: seq<Change>) returns (r: Result<Row, RepoError>)
      requires Valid()
      modifies this
      ensures Valid() && used == old(used)
      ensures var reset := id in old(rows) && old(rows)[id].Retryable(userId);
              if !reset then
                r == Err(NotFound) && rows == old(rows) && favorites == old(favorites)
              else
                var after := Meanwhile(old(rows)[id].Retry(), others);
                && rows == (if after.Some? then old(rows)[id := after.value] else old(rows) - {id})
                && favorites == (if after.Some? then old(favorites) else WithoutRecord(old(favorites), id))
                && r == (if after.Some? then Ok(after.value) else Err(NotFound))
      ensures r.Ok? && others == [] ==>
                && SameProgress(r.value, NewRow(0, "", None, "", "")) && SameRequest(r.value, old(rows)[id])
                && SameVisibility(r.value, old(rows)[id])
    {
      if id !in rows || !rows[id].Retryable(userId) {
        return Err(NotFound);
      }
      assert Shape(rows[id]);
      rows := rows[id := rows[id].Retry()];
      DisturbedStaysValid(rows, favorites, id, others);
      MeanwhileKeepsShape(rows[id], others);
      rows, favorites := Disturbed(rows, id, others), Cascaded(rows, favorites, id, others);
      r := FindByID(id, userId);
    }

    method UpdatePublic(id: int, userId: int, public: bool, promptShown: bool, now: int)
      returns (r: Result<(), RepoError>)
      requires Valid()
      modifies this
      ensures Valid() && favorites == old(favorites) && used == old(used)
      ensures r.Ok? <==> id in old(rows) && old(rows)[id].Publishable(userId)
      ensures r.Ok? ==> rows == old(rows)[id := old(rows)[id].Publish(public, promptShown, now)]
      ensures r.Ok? ==>
                && rows[id].isPublic == public && rows[id].promptPublic == (!public || promptShown)
                && rows[id].publishedAt == (if public then Some(now) else None)
                && SameRequest(rows[id], old(rows)[id]) && SameProgress(rows[id], old(rows)[id])
                && Gallery(rows) == (if public then Gallery(old(rows)) + {id} else Gallery(old(rows)) - {id})
      ensures r.Err? ==> rows == old(rows) && r.error == NotFound
    {
      if id !in rows || !rows[id].Publishable(userId) {
        return Err(NotFound);
      }
      assert Shape(rows[id]);
      rows := rows[id := rows[id].Publish(public, promptShown, now)];
      return Ok(());
    }

    /** `UpdateFavorite`: reads the row, then writes; others may have got at it in between. */
    method SetFavorite(id: int, userId: int, flag: bool, others: seq<Change>) returns (r: Result<(), RepoError>)
      requires Valid()
      modifies this
      ensures Valid() && used == old(used)
      ensures others == [] && r.Ok? ==>
                && id in old(rows) && rows.Keys == old(rows).Keys
                && (forall other :: other in rows && other != id ==> rows[other] == old(rows)[other])
                && (if old(rows)[id].userId == userId then
                      && rows[id].favorite == flag && rows[id].(favorite := old(rows)[id].favorite) == old(rows)[id]
                      && favorites == old(favorites)
                    else
                      && rows == old(rows)
                      && forall f :: f in favorites <==> if f == (userId, id) then flag else f in old(favorites))
      ensures others == [] && r.Err? ==> rows == old(rows) && favorites == old(favorites) && r.error == NotFound
      ensures var target := FavoriteTarget(old(rows), id, userId);
              if target.Err? then
                r == Err(target.error) && rows == old(rows) && favorites == old(favorites)
              else
                var rows' := Disturbed(old(rows), id, others);
                var favorites' := Cascaded(old(rows), old(favorites), id, others);
                var written := WriteFavorite(rows', favorites', id, userId, flag, target.value);
                && r == (if written.Ok? then Ok(()) else Err(written.error))
                && (rows, favorites) == (if written.Ok? then written.value else (rows', favorites'))
    {
      if id !in rows {
        return Err(NotFound);
      }
      var row := rows[id];
      if row.userId != userId
         && (!row.isPublic || row.status != Completed || row.imagePath.None? || row.imagePath.value == "") {
        return Err(NotFound);
      }
      DisturbedStaysValid(rows, favorites, id, others);
      rows, favorites := Disturbed(rows, id, others), Cascaded(rows, favorites, id, others);
      WriteFavoriteKeepsValid(rows, favorites, id, userId, flag, row.userId == userId);
      if row.userId == userId {
        if id !in rows || rows[id].userId != userId {
          return Err(NotFound);
        }
        assert Shape(rows[id]);
        rows := rows[id := rows[id].(favorite := flag)];
        return Ok(());
      }
      if flag && id !in rows {
        return Err(Database);
      }
      favorites := if flag then favorites + {(userId, id)} else favorites - {(userId, id)};
      return Ok(());
    }

    /** Boot: running rows go back to the queue. */
    method SweepRunningToWaiting() returns (count: nat)
      requires Valid()
      modifies this
      ensures Valid() && favorites == old(favorites) && used == old(used)
      ensures rows == map id | id in old(rows) :: old(rows)[id].Sweep()
      ensures count == |set id | id in old(rows) && old(rows)[id].status == Running|
      ensures forall id :: id in rows ==> rows[id].status != Running
      ensures forall id :: id in old(rows) ==>
                id in rows &&
                if old(rows)[id].status == Running then
                  && rows[id].status == Waiting && rows[id].startedAt == None
                  && rows[id].imagePath == old(rows)[id].imagePath && rows[id].completedAt == old(rows)[id].completedAt
                  && rows[id].error == old(rows)[id].error && rows[id].upstreamError == old(rows)[id].upstreamError
                  && SameRequest(rows[id], old(rows)[id]) && SameVisibility(rows[id], old(rows)[id])
                else rows[id] == old(rows)[id]
    {
      count := |set id | id in rows && rows[id].status == Running|;
      assert forall id :: id in rows ==> Shape(rows[id]);
      rows := map id | id in rows :: rows[id].Sweep();
    }

    /** Deletes a row and, by cascade, the favourites that name it. */
    method Delete(id: int, userId: int) returns (r: Result<Row, RepoError>)
      requires Valid()
      modifies this
      ensures Valid() && used == old(used)
      ensures r.Ok? <==> id in old(rows) && (userId > 0 ==> old(rows)[id].userId == userId)
      ensures r.Ok? ==> r.value == old(rows)[id] && rows == old(rows) - {id}
      ensures r.Ok? ==> favorites == WithoutRecord(old(favorites), id)
      ensures r.Err? ==> rows == old(rows) && favorites == old(favorites)
    {
      var found := FindByID(id, userId);
      if found.Err? {
        return Err(found.error);
      }
      rows := rows - {id};
      favorites := WithoutRecord(favorites, id);
      return found;
    }

    /** Overwrites the favourite flag of every listed row with what this viewer should see. */
    method ApplyFavoriteFlags(userId: int, out: array<Listed>)
      requires userId > 0
      modifies out
      ensures forall i :: 0 <= i < out.Length ==>
                out[i] == old(out[i]).(row := old(out[i]).row.(favorite :=
                  ShownFavorite(old(out[i]).row, old(out[i]).id, favorites, userId)))
    {
      var ids := {};
      for i := 0 to out.Length
        invariant ids == set k | 0 <= k < i :: out[k].id
      {
        ids := ids + {out[i].id};
      }
      var collected := set f | f in favorites && f.0 == userId && f.1 in ids :: f.1;
      assert forall i :: 0 <= i < out.Length ==> out[i].id in ids;
      assert forall id :: id in ids ==> (id in collected <==> (userId, id) in favorites);
      for i := 0 to out.Length
        invariant forall k :: i <= k < out.Length ==> out[k] == old(out[k])
        invariant forall k :: 0 <= k < i ==>
                    out[k] == old(out[k]).(row := old(out[k]).row.(favorite :=
                      ShownFavorite(old(out[k]).row, old(out[k]).id, favorites, userId)))
      {
        var favorited := out[i].id in collected;
        if out[i].row.userId == userId {
          out[i] := out[i].(row := out[i].row.(favorite := out[i].row.favorite || favorited));
        } else {
          out[i] := out[i].(row := out[i].row.(favorite := favorited));
        }
      }
    }
  }
}
