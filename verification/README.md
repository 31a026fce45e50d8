# shadraw: verified model of the backend core

A Dafny model of the parts of the shadraw backend whose correctness depends on more than one
function: the generation queue and its workers, the request limiter, prompt search, refresh-token
rotation, image extraction from the upstream stream, the configuration cache, the blob migration
and paging.

`dafny verify dfyconfig.toml` checks the whole project.

## What is modelled

| file | part of the system |
|---|---|
| `Queue.dfy` | the generation queue as one interleaved system: requests, worker goroutines, statements that fail, the blob store, restarts. One step is one atomic action |
| `QueueSafety.dfy` | the global invariant and its preservation by each of the 24 kinds of step |
| `QueueTheorems.dfy` | whole-run results: ownership, final states, images, visibility, pool size, shutdown |
| `QueueFairness.dfy` | the order in which claims select, and what follows for commits |
| `QueueOrder.dfy`, `QueueOvertaking.dfy` | exactly when claims commit in turn |
| `WorkerPool.dfy` | the pool's counters, the control flow of a worker, and the pool object |
| `Records.dfy` | rows, the repository object, favourites, visibility |
| `Tick.dfy` | one worker tick run without interference, on the repository and the blob store |
| `Paths.dfy` | path splitting, joining and cleaning; image keys |
| `RateLimit.dfy` | the fixed-window limiter with lazy eviction |
| `LikePattern.dfy`, `Text.dfy` | the ILIKE pattern of a query, PostgreSQL's LIKE, string trimming and splitting |
| `Paging.dfy` | listing, page clamping and the reported page counts |
| `Auth.dfy` | accounts, refresh tokens and token lineages |
| `Upstream.dfy` | the event-stream loop and the search for image data |
| `ConfigStore.dfy` | the configuration row and its in-memory copy |
| `Migrate.dfy` | the walk of `cmd/migrate-blobs` |

Objects whose methods change fields in the program are classes here (`PoolState`, `Repository`,
`BlobStore`, `Limiter`, `Service`, `Store`, `Migration`). Each method is tied to a transition
function of the old state, and the results about all runs are lemmas about these functions.

## Assumptions

- One server process; the boot sweep runs before the pool starts. Row ids grow and are never
  reused, row uuids are unique (the unique index), and the clock does not go back.
- Each SQL statement is one atomic step. `FOR UPDATE SKIP LOCKED` is a set of locked rows that
  claims skip and that other writers of the row wait for.
- Upstream calls, S3, the file system and the database may fail wherever a step has a flag for it;
  a claim may also commit while its caller sees an error.
- bcrypt, SHA-256, JSON, base64 and the cipher are parameters. Only the cipher has laws: opening
  undoes sealing, and a sealed key is not empty.
- The case fold of ILIKE works character by character, leaves `\`, `%` and `_` alone and creates
  none of them. The fold of the e-mail column is any function.
- The output format among a record's image parameters never changes, and with it the extension of
  its picture.

## Where the code differs from what its comments or documents say

- The limiter is described as `limit` requests per `window`. This holds of every closed interval as
  long as the window if and only if the limit is exactly one, or the window is zero and the limit
  positive, or the window is negative and the limit not (`RateLimit.AdvertisedRateIff`): a limit
  below one still admits a request, and a larger one can be exceeded around the end of a window. The
  exact maximum is `2 * max(limit, 1) - 1` for a positive window, `max(limit, 1)` for a window of
  zero, and none for a negative one (`RateLimit.IntervalBound`, `RateLimit.BoundIsReached`).
- `internal/auth/refresh_repo.go:44` says the lookup returns non-revoked, non-expired rows. It
  returns any row with the digest; the service does the checks.

## Properties that hold under a condition

- Claims select records in id order. While two records wait, every run without retry, restart,
  rollback or resize claims each record in its turn if and only if at most one worker can be about to
  select: at most one is past its check, and the pool is stopped, wants at most one worker, or has at
  most one that stays (`QueueOvertaking.InTurnIff`). A record that is late is exactly one whose own
  claim is open (`QueueFairness.PickedByCommits`).
- The page count reported with a listing is computed from the size the client sent, the page itself
  from the clamped size. The pages make up the whole list if and only if the size is at most 100 or
  there are at most 20 rows (`Paging.PagesCoverIff`).
- Shrinking the pool may leave fewer workers than wanted, because the comparison and the decrement
  are separate critical sections (`WorkerPool.CheckOvershootsIff`, `WorkerPool.ShrinkMayEmptyPool`).
- A viewer id of zero would see the owner's own favourite flag (`Records.FavoriteIsolated`); the
  handler does not let one through.
- A change of concurrency does not refresh who wrote last in the cached configuration
  (`ConfigStore.LastWriterCached`).
- A verify-only run confirms an uploaded file exactly when its reported size is its content's
  (`Migrate.VerifyAfterUpload`); the two may differ for a symbolic link.

## Model

| member | source | states |
|---|---|---|
| QueueSafety.StepKeepsInv | internal/worker/pool.go:115-205 | every step of the interleaved system, failing or not, keeps the global invariant: exclusive holders, held records running or deleted, row shapes, images present, deletions in flight harmless, counters exact |
| QueueSafety.InitialInv | internal/worker/pool.go:45-55 | the invariant holds of the empty system |
| QueueTheorems.RecordOwnership | internal/record/repo.go:325-357 | in every reachable state a record is held by at most one worker, and a held record is deleted or running (waiting only while its claim is open) |
| QueueTheorems.FinalWritesChangeRunningRows | internal/record/repo.go:360-398 | the final writes, guarded by the id alone, only ever turn a running row their own worker holds into completed or failed |
| QueueTheorems.CompletedIsFinal | internal/record/repo.go:288-374 | over every further run a completed row is gone for good or still completed with the same image, times and owner, and the stored picture has the same content |
| QueueTheorems.DeletedForGood | internal/record/repo.go:309-318 | a deleted record never comes back, whatever its former worker still writes |
| QueueTheorems.NoDanglingImage | internal/worker/pool.go:193-204 | a completed row's path is the storage key of that record and the blob is present, with the picture the record was completed with, under any interleaving with deletes, retries and restarts |
| QueueTheorems.CompletesWithOwnPicture | internal/worker/pool.go:193-204 | when a worker records success, the blob under the record's key is the picture of that worker's own tick |
| QueueTheorems.ImagesNotShared | internal/worker/pool.go:193-195 | no two records name the same image |
| QueueTheorems.CleanDeleteLeavesNoOrphan | internal/record/handler.go:259-281 | after an uninterrupted delete of a completed record no blob of that record is left in any format, and none appears in any later run |
| QueueTheorems.CleanDelete | internal/record/handler.go:259-281 | such a delete removes the row, the favourites that name it and its blob, and changes nothing else |
| QueueTheorems.ReachableRowsShaped | internal/record/repo.go:249-409 | in every reachable state the columns agree with the status; public implies completed and published; not public implies the prompt flag is reset |
| QueueTheorems.NonOwnerSeesGallery | internal/record/repo.go:74-91 | the image endpoint, which ignores the status, serves a non-owner exactly the rows of the unfiltered gallery, each with its blob |
| QueueTheorems.ReachableFavorites | internal/record/repo.go:176-246 | in every reachable state a favourite update that was read earlier and goes through now is seen by its author and by no other signed-in viewer, whatever happened to the row in between |
| QueueTheorems.RestartRequeues | internal/record/repo.go:401-409 | after a restart with a successful sweep a record can be claimed if and only if it was waiting or running before; a failed sweep changes no row |
| QueueTheorems.CreateQueues | internal/record/repo.go:50-54 | a created record waits with what was asked for; no other row changes |
| QueueTheorems.RetryQueues | internal/record/repo.go:288-306 | exactly the owner's failed row goes back into the queue, unstarted and without result |
| QueueTheorems.PublishShows | internal/record/repo.go:249-270 | a publication or withdrawal takes effect exactly on the owner's completed row; the gallery gains or loses just that row |
| QueueTheorems.MoveSetsProject | internal/record/repo.go:273-284 | moving a record sets the project of exactly the owner's row and nothing else |
| QueueTheorems.CommitStarts | internal/record/repo.go:325-357 | a committed claim starts exactly the locked row; a rolled-back one changes no row |
| QueueTheorems.FailureRecorded | internal/record/repo.go:383-398 | a failure that reaches the database is recorded on the worker's row with its message |
| QueueTheorems.PoolWithinLimits | internal/worker/pool.go:64-83 | in every reachable state records in hand <= current <= wait group, and current <= 16; both counters count the right workers |
| QueueTheorems.AfterStopPerWorker | internal/worker/pool.go:94-135 | after Stop a worker commits at most one more claim, only if it was inside a tick; later workers commit none |
| QueueTheorems.AfterStopAtMostSixteen | internal/worker/pool.go:94-135 | after Stop at most sixteen more claims commit in total, whatever is resized |
| QueueTheorems.ShutdownBounded | internal/worker/pool.go:115-154 | after Stop, without resize, workers take at most ten steps per open worker |
| QueueTheorems.ShutdownProgress | internal/worker/pool.go:94-154 | every worker that is not done can always step; the wait group is at zero exactly when no worker step is left |
| QueueFairness.ClaimTakesNoHigherId | internal/record/repo.go:328-334 | a claim never picks an id above a waiting, unlocked one, and what it picks is locked |
| QueueFairness.PickedInTurn | internal/record/repo.go:325-348 | without retry, restart or rollback a record with k waiting below it is picked or deleted by the (k+1)-th selection |
| QueueFairness.PickedByCommits | internal/record/repo.go:325-348 | with k records ahead and c claims open, after k + c + 1 committed claims a record is still waiting if and only if its own claim is open at that moment |
| QueueOrder.ClaimedInTurn | internal/worker/pool.go:115-154 | under the condition above a record with k ahead is claimed or deleted by the (k+1)-th committed claim, plus those open at the start, in every run without retry, restart, rollback or resize |
| QueueOrder.OneWorkerSelects | internal/worker/pool.go:115-154 | a pool with at most one worker that stays meets that condition |
| QueueOrder.StepKeepsOneSelector | internal/worker/pool.go:123-153 | no step but a resize or restart lets a second worker become ready to select |
| QueueOvertaking.TwoWorkersMayOvertake | internal/record/repo.go:325-357 | from every state with two workers about to select and two waiting records some run commits more than the bound allows for while the lowest record still waits and a higher one runs |
| QueueOvertaking.DriveDown | internal/worker/pool.go:115-129 | an open pool that wants two workers can be brought down to what it wants without touching the queue, keeping any two |
| QueueOvertaking.InTurnIff | internal/worker/pool.go:115-154 | in every reachable state with two records waiting, no run leaves a record waiting beyond its turn if and only if that condition holds of the pool |
| WorkerPool.CountsOrdered | internal/worker/pool.go:64-83 | from exact counters: held <= current <= wait group <= open workers, current <= 16 |
| WorkerPool.MoveUsesRank | internal/worker/pool.go:123-153 | once the stop channel is closed every step along the control flow lowers a measure |
| WorkerPool.MoveKeepsCounts | internal/worker/pool.go:116-121 | every step of a worker keeps both counters equal to the workers they count |
| WorkerPool.CheckOvershootsIff | internal/worker/pool.go:117-129 | a check takes the pool below the wanted size exactly when just enough workers stay but more are still counted |
| WorkerPool.ShrinkMayEmptyPool | internal/worker/pool.go:117-129 | shrinking two workers to one can leave none |
| WorkerPool.PoolState.Resize | internal/worker/pool.go:64-83 | clamps to 0..16, spawns exactly the missing workers, keeps the counters exact |
| WorkerPool.PoolState.Stop | internal/worker/pool.go:94-102 | closes once; a second call changes nothing and says so |
| WorkerPool.PoolState.Check | internal/worker/pool.go:124-129 | leaves exactly when current exceeds desired, without touching the counters |
| WorkerPool.PoolState.Poll | internal/worker/pool.go:131-137 | leaves exactly when the stop channel is closed, otherwise enters a tick |
| WorkerPool.PoolState.Idle | internal/worker/pool.go:147-152 | an idle worker goes back to the check or, if stopped, leaves |
| WorkerPool.PoolState.Leave | internal/worker/pool.go:117-121 | the deferred decrement; current stays natural |
| WorkerPool.PoolState.Release | internal/worker/pool.go:116 | the deferred release; the wait group stays natural |
| Tick.TickOnce | internal/worker/pool.go:158-205 | without interference a committed claim ends Completed exactly if picture, storage and last write succeed, with the picture under the written-out key; Failed exactly if the last write succeeds and something else does not, with the text of each cause; otherwise Running. Nothing else is touched |
| Tick.CleanTickCompletes | internal/worker/pool.go:193-204 | a tick in which everything works leaves a well-shaped completed row naming its own key |
| Records.Repository.Create | internal/record/repo.go:50-54 | inserts a waiting row with the given owner, prompt, project and format and the column defaults |
| Records.Repository.FindByID | internal/record/repo.go:57-70 | finds exactly the row, scoped to the user unless the id is not positive |
| Records.Repository.ClaimWaiting | internal/record/repo.go:325-357 | claims the lowest unlocked waiting row; rolled back nothing changes; the caller learns of the claim only if the commit is acknowledged |
| Records.Repository.StoreGenerated | internal/record/repo.go:360-374 | rejects an empty path, otherwise writes the success columns of that row only; the table stays valid if the row was running or gone |
| Records.Repository.MarkFailedWithUpstreamError | internal/record/repo.go:383-398 | writes the failure columns of that row only, under the same proviso |
| Records.Repository.RetryFailed | internal/record/repo.go:288-306 | resets exactly the owner's failed row to an unstarted waiting one; reads it back, finding what any sequence of changes by others in between left |
| Records.Repository.UpdatePublic | internal/record/repo.go:249-270 | succeeds exactly for the owner's completed row with an image; keeps shape |
| Records.Repository.SetFavorite | internal/record/repo.go:204-246 | owner's flag, or relation for a public completed image, or not found; the write is what any sequence of changes by others since the read leaves possible |
| Records.Repository.SweepRunningToWaiting | internal/record/repo.go:401-409 | every running row waits again, unstarted and otherwise as it was; every other row is unchanged; counts the swept ones |
| Records.Repository.Delete | internal/record/repo.go:309-318 | deletes exactly that row and, by cascade, its favourites |
| Records.Repository.ApplyFavoriteFlags | internal/record/repo.go:176-201 | every listed row's flag becomes what this viewer should see, nothing else changes |
| Records.LeastExists | internal/record/repo.go:328-334 | a non-empty candidate set has a lowest id to claim |
| Records.FavoriteReadYourWrite | internal/record/repo.go:192-246 | after a successful write the listing shows the new flag to its author, whatever happened since the read |
| Records.FavoriteIsolated | internal/record/repo.go:192-246 | another viewer sees a change if and only if it is an anonymous one looking at the row whose owner changed its flag |
| Records.FavoriteAllowedIff | internal/record/repo.go:204-228 | who may mark a row: its owner, or anybody if it is published, completed and has an image |
| Records.VisibleIffListed | internal/record/repo.go:133-138 | for well-shaped tables, visible to a non-owner exactly when listed |
| Records.OwnerSeesCompleted | internal/record/repo.go:74-91 | the owner can fetch the image of exactly the completed rows |
| Paths.ImageKeyInjective | internal/worker/pool.go:193-195 | image keys determine user, uuid and extension |
| Paths.ImageKeyParts | internal/blob/blob.go:45-47 | an image key is images/user-(id)/(uuid).(ext) and splits into these parts |
| Paths.SplitJoin | cmd/migrate-blobs/main.go:248 | splitting undoes joining |
| Paths.JoinSplit | cmd/migrate-blobs/main.go:248 | joining undoes splitting |
| Paths.CleanTailFirst | internal/blob/s3.go:59-61 | cleaning a tail before appending it changes nothing |
| Paths.CleanedForm | internal/blob/s3.go:59-61 | cleaning keeps no empty and no dot component, and dot-dot only in front |
| Paths.UpCancels | internal/blob/s3.go:59-61 | a component followed by dot-dot goes without a trace |
| Paths.DecimalReadBack | internal/worker/pool.go:193 | a formatted number reads back as the number |
| Paths.ImageKeyText | internal/worker/pool.go:193-195 | the key written out, with the extension of each output format |
| RateLimit.EvictionInvisible | internal/httpx/ratelimit.go:60-87 | on every trace the limiter with eviction answers like one that never evicts |
| RateLimit.KeysIsolated | internal/httpx/ratelimit.go:60-75 | a key's answers are those it would get alone |
| RateLimit.DeniedIff | internal/httpx/ratelimit.go:60-75 | a request is denied if and only if it comes no later than the end of the key's latest window and max(limit, 1) requests were admitted since that window opened; openings are defined from the request times alone |
| RateLimit.DenialsLeaveNoTrace | internal/httpx/ratelimit.go:70-72 | deleting any denied requests from a trace changes no other answer |
| RateLimit.WithinBudget | internal/httpx/ratelimit.go:64-74 | from any state of a key's window, what an interval can still admit |
| RateLimit.IntervalBound | internal/httpx/ratelimit.go:60-75 | a closed interval of window length admits at most 2 * max(limit, 1) - 1 requests of a key; max(limit, 1) if the window is zero, none if it is negative |
| RateLimit.BoundIsReached | internal/httpx/ratelimit.go:60-75 | for every setting and key a legal trace of requests attains that bound |
| RateLimit.AdvertisedRateIff | internal/httpx/ratelimit.go:60-75 | every interval of every legal trace admits at most limit requests of a key if and only if the limit is one, or the window is zero and the limit positive, or the window is negative and the limit not |
| RateLimit.TableStaysClean | internal/httpx/ratelimit.go:65-87 | after an insert fewer than 1024 entries remain or all are unexpired; unexpired ones are never removed |
| RateLimit.Limiter.Allow | internal/httpx/ratelimit.go:60-75 | answer and table are those of the transition function that DeniedIff and the interval bounds are about |
| RateLimit.Limiter.Gc | internal/httpx/ratelimit.go:78-87 | removes exactly the expired entries, and only at the threshold |
| LikePattern.PatternIsSubstringSearch | internal/record/repo.go:170-174 | the pattern of any query is well formed and matches exactly the texts that contain the trimmed query literally |
| LikePattern.SearchIsCaseFoldedSubstring | internal/record/repo.go:99-101 | the same for ILIKE, up to case |
| LikePattern.EscapedMatchesPrefix | internal/record/repo.go:172-173 | an escaped text followed by % matches exactly its extensions |
| Text.TrimSpaceKeepsCore | internal/record/repo.go:171 | trimming removes white space at the ends and nothing else |
| Paging.SearchClause | internal/record/repo.go:99-101 | present or absent, the search clause means literal substring search |
| Paging.FilterClauses | internal/record/repo.go:94-109 | every listed row is the asking user's and meets each given status, project and favourite filter |
| Paging.FilterExcludesOnly | internal/record/repo.go:94-109 | a row that meets every given filter is listed |
| Paging.DescendingLists | internal/record/repo.go:122 | the order lists each matching row once, highest id first |
| Paging.PagesCoverIff | internal/record/handler.go:423-437 | the pages that List returns for the announced page numbers make up the filtered list if and only if the size is at most 100 or at most 20 rows match |
| Paging.PageSizes | internal/record/repo.go:114-125 | of the pages List returns all but the last are full, the last is not empty, later ones are |
| Paging.OutOfRangeDefaults | internal/record/repo.go:114-119 | pages below one and sizes out of range are served with the defaults, and every served row is the user's |
| Paging.GallerySearchFinds | internal/record/repo.go:133-142 | a gallery search finds exactly the published rows with a public prompt containing the trimmed text |
| Paging.PrivatePromptsInvisible | internal/record/dto.go:98-107 | two tables that differ only in prompts that are not public, projects and upstream errors get the same answer, as shown, to every gallery search |
| Auth.RunKeepsInv | internal/auth/service.go:68-206 | digests and e-mail addresses (up to case) stay unique, every token has a user and a lineage |
| Auth.RefreshSucceedsIff | internal/auth/service.go:115-142 | exactly when a refresh succeeds |
| Auth.FailedRefresh | internal/auth/service.go:115-142 | a failed refresh issues nothing, and revokes at most the presented token: exactly when that token was redeemable and the new one could not be stored |
| Auth.RefreshRefused | internal/auth/service.go:115-142 | when exactly the answer is unknown, revoked, expired or disabled |
| Auth.SignInSucceedsIff | internal/auth/service.go:68-112 | exactly when a login or a registration succeeds, with addresses compared regardless of case |
| Auth.SignInRefused | internal/auth/service.go:68-112 | when exactly the answer is address taken, account disabled or invalid credentials |
| Auth.SignInIssues | internal/auth/service.go:217-248 | a successful sign-in issues exactly one live token of the user, stored by digest for seven days |
| Auth.RegisterStores | internal/auth/service.go:68-91 | exactly when a registration stores an account, and which: the given address, the bcrypt hash, no flag set |
| Auth.RegisteredLogsIn | internal/auth/service.go:68-112 | over every run, who registered can log in with that password until the hash is rewritten or the account disabled |
| Auth.StoredPasswordLogsIn | internal/auth/service.go:94-112 | over every run, a password the stored hash accepts is accepted until the hash is rewritten or the account disabled |
| Auth.BootstrapEffect | internal/app/bootstrap.go:18-56 | the boot makes the account with the address administrator and changes nothing else of it, or creates it with the temporary password |
| Auth.BootstrappedLogsIn | internal/app/bootstrap.go:18-56 | over every run, the administrator it created can log in with the temporary password until the hash is rewritten or the account disabled |
| Auth.RefreshRotates | internal/auth/service.go:115-142 | a refresh trades one live token for one new one of the same lineage, keeps the user's count and everybody else's tokens |
| Auth.SingleUse | internal/auth/service.go:115-142 | over every sequence of calls a token is exchanged successfully at most once |
| Auth.RevocationPermanent | internal/auth/refresh_repo.go:60-71 | a revoked token stays revoked, and rows keep user and digest |
| Auth.LogoutRevokes | internal/auth/service.go:145-155 | a successful logout leaves the presented token revoked and every other one as it was |
| Auth.LogoutSucceedsIff | internal/auth/service.go:145-155 | exactly when a logout succeeds; one that fails changes nothing |
| Auth.LineageBeginsAtSignIn | internal/auth/service.go:217-248 | every token descends from a successful login or registration of its own user |
| Auth.RekeyRevokesAll | internal/auth/service.go:164-206 | a successful password change or reset leaves the user no live token and nobody else fewer |
| Auth.RekeyRefused | internal/auth/service.go:164-206 | when exactly the answer is user not found or invalid credentials |
| Auth.LiveLineagesAreLater | internal/auth/service.go:164-206 | after such a change every live token's lineage began later |
| Auth.HashSince | internal/auth/service.go:164-206 | after such a change the stored hash is the one last written for that user, by it or by a later change or reset, even one that failed to revoke; the writing call and the absence of later writes are named |
| Auth.RefreshAfterRekey | internal/auth/service.go:115-206 | a refresh that succeeds after such a change uses a lineage begun by a login between the two; the login was verified against the hash stored at the time, which that change or a later one had written |
| Auth.Service.IssueTokens | internal/auth/service.go:225-248 | stores the digest with a seven-day expiry, or fails without a trace |
| Auth.Service.Register | internal/auth/service.go:68-91 | state and result are those of the register transition; outright, the table gains exactly the new account with the hash of the password, or nothing |
| Auth.Service.Login | internal/auth/service.go:94-112 | the same for login |
| Auth.Service.Refresh | internal/auth/service.go:115-142 | the same for refresh, checks in the program's order |
| Auth.Service.Logout | internal/auth/service.go:145-155 | the same for logout; an unknown token succeeds |
| Auth.Service.ChangePassword | internal/auth/service.go:164-183 | the same; a failing revocation leaves the new hash and the old tokens |
| Auth.Service.ResetPasswordByAdmin | internal/auth/service.go:187-206 | the same for the administrative reset |
| Auth.Service.EnsureAdmin | internal/app/bootstrap.go:18-56 | the same for the boot administrator, promoted or created with a temporary password |
| Upstream.FindResultBase64 | internal/upstream/openai.go:391-412 | for every visiting order: a non-empty answer is a qualifying result field at some depth, an empty one means there is none |
| Upstream.CallResponses | internal/upstream/openai.go:306-356 | terminates; the first line with a result decides, otherwise the kind of failure follows from the events seen |
| Upstream.BadRequestIff | internal/upstream/openai.go:353-356 | bad request exactly if no line is data with a result, some line names a text event and none an image event; lines described as text with any white space |
| Upstream.DecidedIffSomeResult | internal/upstream/openai.go:331-347 | image or bad image data exactly when some handled line is data with a result |
| Upstream.ImageComesFromFirstResult | internal/upstream/openai.go:340-345 | an image is decoded from a result in the text that the first such line carries |
| Upstream.BadDataComesFromFirstResult | internal/upstream/openai.go:340-345 | bad image data is reported only if a result of the first such line cannot be decoded |
| Upstream.UndecidedIff | internal/upstream/openai.go:309-356 | exactly when the outcome is a network error, and when it is no image |
| Upstream.DataLine | internal/upstream/openai.go:331-341 | a data line decides exactly if the JSON decoder makes something with a result of its very text, whatever white space surrounds it |
| Upstream.NamedEventLine | internal/upstream/openai.go:322-330 | an event line is of a kind exactly if its name begins so, and decides nothing |
| Upstream.OtherLine | internal/upstream/openai.go:315-350 | any other line changes nothing |
| Upstream.ResultCounts | internal/upstream/openai.go:391-412 | a result field counts exactly with the PNG signature or more than a thousand bytes |
| Upstream.FinalNewlineIrrelevant | internal/upstream/openai.go:309-320 | a final newline makes no difference |
| ConfigStore.BootCoherent | internal/admin/store.go:58-91 | a successful boot leaves copy, key and pool size in agreement with the row; when it succeeds |
| ConfigStore.CallKeepsCoherent | internal/admin/store.go:137-229 | every load or update keeps that agreement, and a failing one changes nothing |
| ConfigStore.AlwaysCoherent | internal/admin/store.go:58-229 | the agreement holds after any sequence of calls |
| ConfigStore.ReloadInvisible | internal/admin/store.go:93-126 | a fresh load changes nothing a reader sees |
| ConfigStore.RestartInvisible | internal/admin/store.go:58-91 | from a coherent store a restart whose database answers succeeds and changes nothing a reader sees |
| ConfigStore.KeyReadBack | internal/admin/store.go:137-175 | a key that was set is read back, also after a restart |
| ConfigStore.AbsentKeyKept | internal/admin/store.go:137-175 | an update without a key keeps key and cipher and changes just base URL and models; an empty key clears both |
| ConfigStore.UpdateSucceedsIff | internal/admin/store.go:137-229 | an update fails exactly if the database does or the key cannot be sealed |
| ConfigStore.FirstBoot | internal/admin/store.go:58-91 | the first boot on an empty table shows the defaults and starts four workers |
| ConfigStore.SettingReadBack | internal/admin/store.go:178-229 | a title or concurrency that was set is read back, trimmed or clamped, with nothing else changed |
| ConfigStore.PoolTakesStoredSize | internal/admin/store.go:195-199 | a coherent store's stored concurrency is within what the pool takes over unchanged |
| ConfigStore.LastWriterCached | internal/admin/store.go:178-201 | the cached last writer is right except after a concurrency change by somebody else |
| ConfigStore.Store.Load | internal/admin/store.go:58-91 | seeds a missing row, defaults a blank title, decrypts, then replaces the copy |
| ConfigStore.Store.UpdateUpstream | internal/admin/store.go:137-175 | absent key unchanged, empty key cleared; row first, copy after |
| ConfigStore.Store.UpdateWorkerConcurrency | internal/admin/store.go:178-201 | clamps to 1..16, writes row and copy, resizes |
| ConfigStore.Store.UpdateSiteConfig | internal/admin/store.go:211-229 | trims, defaults, writes row and copy |
| Migrate.UploadKeyIsCleaned | cmd/migrate-blobs/main.go:247-257 | whatever the key, an accepted one is uploaded under its cleaned form |
| Migrate.UploadKeyIsRelativePath | cmd/migrate-blobs/main.go:181-193 | a file below images is accepted exactly inside a user directory and keeps its relative path |
| Migrate.EverythingIsCounted | cmd/migrate-blobs/main.go:162-240 | in every mode, with any faults, files, hidden and unreadable directories are each counted exactly once; scanned, skipped and bytes do not depend on mode or faults |
| Migrate.OutcomesAreCounted | cmd/migrate-blobs/main.go:203-239 | in every mode, with any faults, uploaded, verified and failed each count exactly the events with that outcome |
| Migrate.TreePaths | cmd/migrate-blobs/main.go:162-187 | no two files of a walk have the same path |
| Migrate.WalkVisitsFiles | cmd/migrate-blobs/main.go:162-180 | the walk visits exactly the files of the tree that no hidden directory contains |
| Migrate.UploadStoresExactly | cmd/migrate-blobs/main.go:226-239 | for every directory tree the store then holds every readable, sendable file of the tree under its path with its content and is otherwise unchanged |
| Migrate.VerifyAfterUpload | cmd/migrate-blobs/main.go:209-224 | for every directory tree a verify-only run then confirms every upload whose reported size is its content's, and agrees on all other counters |
| Migrate.DryRunPredicts | cmd/migrate-blobs/main.go:203-207 | a dry run stores nothing and reports the very counters of an upload without faults |
| Migrate.Migration.Walk | cmd/migrate-blobs/main.go:162-240 | the recursive walk handles exactly the events of the tree, in order |
| Migrate.Migration.VisitFile | cmd/migrate-blobs/main.go:175-239 | one file is handled as the transition function says |

## Left out

- HTTP handlers, JSON binding, CORS, logging, response envelopes, DTOs and error texts: no state to reason about.
- Auth.SingleUse: holds for calls that do not overlap; lookup and revocation are not one transaction in the program, so two overlapping refreshes of one token may both succeed.
- JWT access tokens and what they carry.
- Paging.PageSizes: page numbers so large that the offset exceeds 64 bits are not modelled.
- The gallery's order by publication time and its paging; project rows; the admin listings and statistics.
- The `Retry-After` value of the limiter, which reads the clock a second time.
- Users are not deleted by the program, so cascades from users are not modelled.
- Text.TrimSpaceKeepsCore: strings are valid Unicode; bytes that are not UTF-8 are not modelled.
- The images API path of the upstream client, URL normalisation and error classification: single-branch code.
- Wake-ups of idle workers are not tied to new work: an idle worker may wake at any time.
