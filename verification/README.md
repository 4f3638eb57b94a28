# Trekk backend: verified model of its stateful protocols

A trekking marketplace backend keeps its state in MongoDB collections and a
Redis store. Under the request handlers lie a few small protocols whose
guarantees hold over whole histories rather than in one branch. This project
models those protocols in Dafny and proves what they keep, what they promise
over every run, and, where a promise fails, exactly when it holds.

`dafny verify dfyconfig.toml` checks everything.

| file | what it models |
|---|---|
| `Throttle.dfy`, `ThrottleOverlap.dfy`, `Redis.dfy` | the distributed rate limiter, its recovery when calls overlap, and the key-value commands under it |
| `Auth.dfy`, `AuthOverlap.dfy`, `Duration.dfy` | refresh-token rotation with reuse detection in whole calls and in overlapping ones, and the durations that configure it |
| `Bookings.dfy`, `TrekSeats.dfy` | booking and cancelling seats, and the status that the seat count derives |
| `TrekCache.dfy`, `TrekQuery.dfy` | the cached Discover list and the query that it stands in for |
| `Follows.dfy`, `Likes.dfy` | unique edges with denormalised counters |
| `JoinRequests.dfy` | join requests and the conversation that an accepted one opens |
| `Messaging.dfy` | paging back through a thread that may be growing |
| `Reviews.dfy`, `ReviewOverlap.dfy` | the published rating of a target, and what overlapping reviews leave of it |
| `Seed.dfy` | the demo seeder's random follow graph and its counters |
| `Common.dfy` | options, results, counting arguments, separators |

## How it is modelled

Concurrency is a step relation. A state holds the collections, a clock where
time matters, and the calls in flight; an event runs one database command of
one call, lets time pass, or lets another call begin. A run is any sequence of
events, so a call may be overtaken anywhere, delayed for ever, or die half way.
Theorems about such runs quantify over every sequence of events.

Beside the step relation each service is a class whose methods update the
collections in place, as the source's methods do. Their contracts state the
whole new state and the invariant that holds between calls that do not overlap.
Sometimes a datatype carries history that the source does not store, so that a
theorem can speak of it: `capacity` and `commits` in `Bookings`, `past` and
what a cached list remembers of its fill in `TrekCache`, `byOthers` in `Likes`,
the issue log of `Auth.Spec`, `started` in `ThrottleOverlap`, `read` in
`ReviewOverlap`, and the mark on a removed trek in `JoinRequests`.

## What is taken for granted

- One MongoDB or Redis command is atomic, a transaction happens wholly or not
  at all, a unique index refuses a second insert, and saving a document writes
  only the paths that changed.
- A Redis key is gone once its remaining time reaches 0; PTTL answers -2 for a
  missing key and -1 for one without expiry. A scan may cut and repeat its
  batches but hands out every key that is there throughout.
- Fresh tokens, token families and document ids are new, and token hashes and
  filter hashes do not collide. Ids are numbers, except where their text
  matters: as object ids of 24 hexadecimal digits in `JoinRequests`, and through
  any injective, colon-free rendering in `Seed`.
- The rate limiter's `ttl` is in seconds and its caller's to choose.
  `scripts/smoke-redis.ts:29` passes seconds; `src/app.module.ts:47` passes a
  value already multiplied by 1000, which is one more possible `ttl`.
- A password hash verifies one password only.
- Creation times order messages as they were created, and text search matches a
  trek when it shares a term with the search.
- Means and roundings are over the reals. Clocks count whole milliseconds and do
  not run backwards.

## Where the code differs from what is said of it

- `src/database/schemas/trek.schema.ts:84` says that a trek closes when
  `seatsLeft` hits 0. The second stage of the decrement subtracts again from the
  already lowered count (`src/treks/treks.service.ts:106-110`), so a trek closes
  with one seat still to sell. `TrekSeats.DocumentedExactly` says when the
  comment holds.
- `cancel` looks at the status before its transaction opens
  (`src/bookings/bookings.service.ts:72-76`). Two overlapping cancels of one
  booking put back two seats. `Bookings.SeatConservation` counts this,
  `Bookings.BalanceExactly` says when the seats balance, and
  `Bookings.NoOverbooking` that they do when such cancels do not overlap.
- Pages are counted from the newest message. If more than two pages of messages
  arrive between two fetches, a gap may open above what was fetched before:
  `Messaging.BlockExactly` says when the fetched pages stay one block, namely
  while every next page still reaches it (`Reaches`).
- A refresh reads, saves and inserts in three commands, and a logout reads and
  updates in two, without looking again (`src/auth/auth.service.ts:180-211`).
  Two overlapping refreshes can leave two good tokens in a family, and a logout
  that a refresh overlaps can be undone. `AuthOverlap.OverlapExactly` gives the
  exact condition: every save finds its document still unrevoked, and no
  revocation falls between the save and the insert of a refresh of its family.
- A fill of the list cache that straddles a write and its invalidation can store
  a stale list. `TrekCache.StaleExactly` says that a list is stale with no
  invalidation under way exactly when it was stale as it was stored; it lives no
  longer than `TrekCache.BoundedStaleness` allows.
- A review updates its trek without an invalidation, and the time stamp
  `updatedAt` with it (`src/database/schemas/trek.schema.ts:23`). Cached lists
  agree with the query in every field but `rating`, `reviewCount` and
  `updatedAt`, the review fields.
- Two overlapping reviews of one target can store their aggregates in the wrong
  order, and nothing corrects it before the next review.
  `ReviewOverlap.ShownExactly` says when what is shown is current.
- A call that dies between INCR and PEXPIRE can leave a window without an end
  (`ThrottleOverlap.DeadOpenerStalls`). The limiter recovers by itself exactly
  when it holds no full window without an expiry
  (`ThrottleOverlap.RecoversExactly`), and the next call that is counted to its
  end repairs one that it does hold.
- `pickN` stops when its result has caught up with the shrinking pool, so it
  never takes more than half of it, rounded up (`Seed.ShortPick`).

## Model

| member | source | states |
|---|---|---|
| Throttle.StepKeepsInv | src/redis/throttler-storage.redis.ts:34-54 | Every single command of any of the interleaved calls, and every passing of time, keeps the invariant: counts climb by one within a key's life and restart at 1, and two openings of a window are at least a window length apart. |
| Throttle.WindowBound | src/redis/throttler-storage.redis.ts:34-61 | In every interleaving, with calls that die midway and late PEXPIREs, any half-open interval of one window length holds at most 2 * limit - 1 calls whose INCR was within the limit; and an answered call is unblocked exactly when its own INCR was. |
| Throttle.WindowBoundReached | src/redis/throttler-storage.redis.ts:44-51 | The bound is met with equality for every positive limit and window: a run and an interval are constructed. |
| Throttle.FinishIsARun | src/redis/throttler-storage.redis.ts:24-62 | A call taken to its end without interference, with any delays before its commands, is one schedule of the interleaved system, so the sequential and the concurrent theorems are about the same calls. |
| Throttle.AnswerReportsKeys | src/redis/throttler-storage.redis.ts:34-61 | An answer tells what the keys hold: a call is answered by the block exactly when that is on, with limit + 1 hits and what is left of it, and touches nothing; otherwise it counts on from a live window or starts one at 1, is blocked exactly when that count is over the limit, reports its window to the second it rounds up to, and sets a block exactly as long as reported, and only if refused. |
| Throttle.WindowsLastTheirTtl | src/redis/throttler-storage.redis.ts:44-49 | A hit that opens a window, or finds one without an expiry, sets it to end ttl * 1000 ms after the PEXPIRE; a hit on a window with an expiry leaves that alone. |
| Throttle.HitKeyIsNoBlockKey | src/redis/throttler-storage.redis.ts:31-32 | No hit counter shares its key with a block, whatever names and clients are. |
| Throttle.KeysTellClientsApart | src/redis/throttler-storage.redis.ts:31-32 | Under one throttler, two clients share neither hit counter nor block. |
| Throttle.KeysIdentify | src/redis/throttler-storage.redis.ts:31-32 | For colon-free throttler names, the keys are shared exactly by the same client of the same throttler. |
| Throttle.RedisThrottlerStorage.Increment | src/redis/throttler-storage.redis.ts:24-62 | The method, issuing commands on the store one by one, leaves the two keys, the clock and the answer of one uninterrupted call of the step relation, and every other key alone; so no other client of the throttler, and no client of another one with a colon-free name, sees a change. |
| Throttle.RedisThrottlerStorage.IncrementKeys | src/redis/throttler-storage.redis.ts:34-61 | The same for any two distinct keys. |
| Throttle.RedisThrottlerStorage.CountKey | src/redis/throttler-storage.redis.ts:44-49 | Count, read the remaining time, and repair a missing expiry: the count, the reported time and the new slot of the hit key, other keys untouched. |
| Throttle.ServeKeepsBounded | src/redis/throttler-storage.redis.ts:34-54 | Between calls that take at most d ms each, the hit key ends within window + d of its window's opening and the block key within window + block + 2d; hits never extend either. |
| Throttle.RefusedIsRecent | src/redis/throttler-storage.redis.ts:34-61 | A refused call is never the one that opens a window, and arrives less than window + block + 2d after the opening of the window it belongs to. |
| Throttle.RecoveryBound | src/redis/throttler-storage.redis.ts:34-61 | Bounded recovery: every unbroken run of refused calls, in any history of non-overlapping calls, lies within window + block (+ 2d) of one opening that precedes the run. |
| ThrottleOverlap.TockKeepsBound | src/redis/throttler-storage.redis.ts:34-54 | Every command of any of the interleaved calls, none older than d ms, keeps it that a live window ends within window + 2d of its opening, or is still in the hands of the call that opened it, and a block within window + block + 3d. |
| ThrottleOverlap.OverlapRecovery | src/redis/throttler-storage.redis.ts:34-61 | Bounded recovery in every interleaving of calls that take at most d ms: whoever is refused had begun no later than window + block + 3d after the opening of a window. |
| ThrottleOverlap.DeadOpenerStalls | src/redis/throttler-storage.redis.ts:44-49 | A stalled window is reachable: after a call that opens a window and dies before its PEXPIRE, with a limit of 1, a call is refused however late it comes. |
| ThrottleOverlap.RecoversExactly | src/redis/throttler-storage.redis.ts:34-54 | After every run, with calls that have died anywhere, calls are let through again from some time on without further help if and only if the hit key is not a full window without an expiry. |
| ThrottleOverlap.CountedCallRepairs | src/redis/throttler-storage.redis.ts:44-49 | A call that is counted to its end, though it be refused, leaves no such window. |
| Redis.RedisService.Get | src/redis/redis.service.ts:183-191 | A live entry's value; None for a missing and for an expired one. |
| Redis.RedisService.Set | src/redis/redis.service.ts:36-42 | Overwrites one key; a time to live of zero means none. |
| Redis.RedisService.Del | src/redis/redis.service.ts:198-201 | Removes exactly the keys listed. |
| Redis.RedisService.KeysByPrefix | src/redis/redis.service.ts:113-125 | The cursor loop ends and collects every batch once, in order. |
| Redis.RedisService.DelByPrefix | src/redis/redis.service.ts:204-209 | Deletes exactly the keys under the prefix, however the scan cuts and repeats its batches. |
| Redis.CounterBackend.IncrKey | src/redis/redis.service.ts:127-129 | Counts a live key up and keeps its expiry, or starts it at 1 without one; other keys untouched. |
| Redis.CounterBackend.PttlKey | src/redis/redis.service.ts:131-133 | Time left, -1 without expiry, -2 when missing or gone. |
| Redis.CounterBackend.PexpireKey | src/redis/redis.service.ts:135-137 | Sets the expiry of a live key; nothing on a missing one; other keys untouched. |
| Redis.CounterBackend.PsetOne | src/redis/redis.service.ts:139-141 | The key holds 1 with the given time to live; other keys untouched. |
| Auth.RefreshRefines | src/auth/auth.service.ts:178-205 | A refresh on the flat collection answers as the abstract sessions say and stays in step with them: one chain per family, only the tip of a living chain is good, a replay kills the chain. |
| Auth.ApplyRefines | src/auth/auth.service.ts:43-252 | Every call (signup, login, refresh, logout), sweep, clock tick and account removal on the flat collection refines its abstract counterpart. |
| Auth.RunRefines | src/auth/auth.service.ts:178-252 | Hence every history does. |
| Auth.DeadIffKilled | src/auth/auth.service.ts:186-211 | A session is dead exactly when some logout or replay with a then stored token of its family is in the history. |
| Auth.RefreshSucceedsExactly | src/auth/auth.service.ts:178-205 | After any history of non-overlapping calls a refresh succeeds if and only if its token is unswept, the last issued in its family, the family has seen no logout or replay with a stored token, the token has not expired, and its user exists. |
| Auth.RejectedForever | src/auth/auth.service.ts:180-199 | A token that was issued and is refused once is refused after every later history: no sweep, login or passage of time makes it good. |
| Auth.OneLiveTokenPerFamily | src/auth/auth.service.ts:201-204 | In every reachable collection a family belongs to one user and has at most one unrevoked token. |
| Auth.RevocationIsLocal | src/auth/auth.service.ts:186-211 | A logout, and a replay alike, revokes the whole family, adds and removes no document, and leaves other families as they were. |
| Auth.RevokedForever | src/auth/auth.service.ts:186-211 | Once a logout or replay has revoked a family, no later history puts an unrevoked token into it. |
| Auth.RotationIsLocal | src/auth/auth.service.ts:201-243 | A successful refresh revokes the presented token, stores one fresh token for the same family and user, and changes no other document. |
| Auth.SessionsAreFresh | src/auth/auth.service.ts:43-82 | After every history, a login with good credentials and a signup hand out a token that did not exist, of a family that did not exist, for the right user, and change no other; a refused login changes nothing. |
| Auth.HandedOutWorks | src/auth/auth.service.ts:178-252 | As long as it has not expired, a refresh with a token so handed out succeeds and gives the same user the next one. |
| Auth.HistoryIsExpiryOrdered | src/auth/auth.service.ts:233-243 | With a constant lifetime, tokens expire in the order in which they were issued. |
| Auth.SweepTakesPrefix | src/database/schemas/refresh-token.schema.ts:30-32 | A full TTL sweep takes exactly the tokens that have expired, and so a prefix of each chain: if an older token survives, so does every younger one, unchanged. |
| Auth.AuthService.Signup | src/auth/auth.service.ts:43-66 | A taken email, compared in lower case, is refused and nothing changes; otherwise the reply is a token that did not exist, stored unrevoked with its full lifetime for a new user in a new family, with the account for that email and password. |
| Auth.AuthService.Login | src/auth/auth.service.ts:68-83 | Succeeds exactly for an account of that email with that password: the reply is a token that did not exist, stored unrevoked with its full lifetime for that user in a new family, and no other token changes. One answer for all refusals, and nothing changes. |
| Auth.AuthService.RefreshToken | src/auth/auth.service.ts:178-205 | Unknown, revoked, expired, account gone, each exactly when due and in this order, a replay revoking the family and nothing else; otherwise the presented token is revoked and the reply is a token that did not exist, for the same user and family. |
| Auth.AuthService.Logout | src/auth/auth.service.ts:207-212 | Revokes exactly the token's family; an unknown token is no error and changes nothing. |
| Auth.AuthService.CreateTokenPair | src/auth/auth.service.ts:222-252 | A fresh unrevoked token in the given or a new family, and the user's marker of it. |
| AuthOverlap.WholeRefreshIsARun | src/auth/auth.service.ts:178-205 | A refresh, good, refused or replayed, whose commands nothing interrupts is the refresh of the atomic model, so both models are about the same calls. |
| AuthOverlap.WholeLogoutIsARun | src/auth/auth.service.ts:207-212 | The same for a logout. |
| AuthOverlap.GuardedStepKeeps | src/auth/auth.service.ts:187-211 | One command that meets the guard keeps every family in order: at most one token that is good or about to be stored, none where there was none, none after a revocation. |
| AuthOverlap.UnguardedStepBreaks | src/auth/auth.service.ts:187-211 | One command that does not meet it breaks the order of a family at once. |
| AuthOverlap.OverlapExactly | src/auth/auth.service.ts:178-243 | For every interleaving of reads, user checks, saves, inserts, revocations, sweeps and removals: each family has at most one good token and none again once revoked or spent, if and only if every save finds its document unrevoked and no revocation falls between a save and its insert. |
| AuthOverlap.WritesTogetherExactly | src/auth/auth.service.ts:201-243 | If each save is followed at once by its insert, this holds if and only if every save finds its document unrevoked. |
| AuthOverlap.GuardedFamilies | src/auth/auth.service.ts:178-243 | In a guarded run the collection has at most one unrevoked token per family and none in a family that was ever revoked. |
| AuthOverlap.StoredExactly | src/auth/auth.service.ts:178-243 | The guard holds throughout if and only if no moment of the run, once the inserts then under way are let through, shows two unrevoked tokens in a family or one in a family that was given up. |
| AuthOverlap.OverlapForksFamily | src/auth/auth.service.ts:180-243 | From every reachable state with a good token there is a run of two refreshes, both reading before either writes, that ends with two unrevoked tokens in its family. |
| AuthOverlap.OverlapUndoesLogout | src/auth/auth.service.ts:180-243 | And a run in which a whole logout, between a refresh's reads and its save or between its save and its insert, revokes the family and the refresh then puts a good token into it. |
| AuthOverlap.OneUserPerFamily | src/auth/auth.service.ts:196-243 | Whatever overlaps, a family belongs to one user. |
| Duration.ParseExactly | src/auth/utils/token.util.ts:13-28 | A string is accepted with value v if and only if it is digits and a unit, with or without white space around and between, and v is that number of that unit in milliseconds. |
| Duration.ParsePrinted | src/auth/utils/token.util.ts:13-28 | Any number printed with any unit and padding reads back as that many of the unit, so "ms" is never read as minutes. |
| Duration.AsciiSpaces | src/auth/utils/token.util.ts:14 | Of the ASCII characters, white space is the blank, the tab, the line feed, the vertical tab, the form feed and the carriage return. |
| Duration.UnitInMilliseconds | src/auth/utils/token.util.ts:20-27 | A printed number with ms, s, m, h or d reads as that many times 1, 1000, 60000, 3600000 or 86400000. |
| Duration.WrittenLifetimes | src/auth/utils/token.util.ts:12-28 | "15m" is 900000 and "30d" is 2592000000. |
| TrekSeats.StatusDerivation | src/treks/treks.service.ts:97-129 | Over every run of decrements and increments from a fresh trek: never below zero, full means closed, closed means at most one seat left, and closed exactly when the last effective operation was a decrement leaving at most one. |
| TrekSeats.DocumentedExactly | src/database/schemas/trek.schema.ts:83-86 | The documented "closed if and only if no seat is left" holds after a run exactly when it did not end in a decrement that left one seat. |
| TrekSeats.DocumentedAfterDecrement | src/treks/treks.service.ts:101-110 | One booking keeps the documented status exactly when there were not two seats. |
| TrekSeats.ClosesOneSeatEarly | src/treks/treks.service.ts:106-110 | A trek with two seats is closed by its first booking. |
| Bookings.SeatConservation | src/bookings/bookings.service.ts:25-90 | In every interleaving of bookings, cancel checks, cancel commits, edits and removals: no negative seats; seats left are the seats opened less bookings plus committed cancels; seats left and confirmed bookings together exceed the seats opened by exactly the cancels that committed on an already cancelled booking. |
| Bookings.BookingsAreAccountedFor | src/bookings/bookings.service.ts:25-90 | In every interleaving each booking belongs to a user who asked for it, on the trek and under the code asked for; no two share a code; a booking has a cancellation time exactly when it is cancelled, and then its own user had asked for that. |
| Bookings.BalanceExactly | src/bookings/bookings.service.ts:72-83 | In every interleaving, seats left plus confirmed bookings is the number of seats opened if and only if no cancel committed on a booking that was cancelled already. |
| Bookings.NoOverlapIsDisjoint | src/bookings/bookings.service.ts:71-83 | If no cancel passes its check while another of the same booking is under way, every pending cancel is of a confirmed booking and none ever commits twice. |
| Bookings.NoOverbooking | src/bookings/bookings.service.ts:25-90 | Then seats left plus confirmed bookings is always the number of seats opened. |
| Bookings.OverlappingCancelsReturnTwoSeats | src/bookings/bookings.service.ts:71-83 | A concrete run of two overlapping cancels ends with more seats than the trek was opened with. |
| Bookings.BookingsService.DecrementSeats | src/treks/treks.service.ts:97-118 | With a seat left, one less, the same total, and closed if at most one remains; otherwise fails and changes nothing. |
| Bookings.BookingsService.IncrementSeats | src/treks/treks.service.ts:120-129 | One seat more on an existing trek, which is open again; nothing else changes. |
| Bookings.BookingsService.Create | src/bookings/bookings.service.ts:25-55 | No seat and a taken code are refused exactly when due, with nothing changed though the insert fails after the decrement; otherwise this user's confirmed booking of this trek under this code is added, and a seat taken. |
| Bookings.BookingsService.FindById | src/bookings/bookings.service.ts:61-68 | Missing, somebody else's, or the booking. |
| Bookings.BookingsService.Cancel | src/bookings/bookings.service.ts:70-90 | Missing and somebody else's are refused; a second cancel changes nothing; otherwise this booking is cancelled at the given time and its trek has a seat more. It is the check and the commit of the step relation. |
| TrekQuery.QueryMeaning | src/treks/treks.service.ts:28-42 | The answer is sorted by start date and holds stored treks only, none more often than stored, each of which meets every filter given: organizer type, difficulty, eco rating, a price absent or within the budget, a seat left, a search term. A trek that meets them all is missing only from a full answer of 200, and then starts no earlier than all of it. |
| TrekQuery.ReviewFieldsDoNotMatter | src/treks/treks.service.ts:28-42 | Collections that differ in rating, review count and time stamp only give the same treks in the same order. |
| TrekCache.BoundedStaleness | src/treks/treks.service.ts:23-45 | In every interleaving, each findAll answer is the query's answer on a state the collection had less than 60 s plus the filling reader's query-to-set delay before. |
| TrekCache.StaleExactly | src/treks/treks.service.ts:23-94 | In every run, whenever no invalidation is under way, a cached list is what the query would say now, up to the review fields, if and only if it was so at the moment it was stored. |
| TrekCache.ExactWhenQuiet | src/treks/treks.service.ts:23-94 | Hence, if no write falls between a query and its fill, every cached list is exact whenever no invalidation is under way. |
| TrekCache.StraddlingFillStaysStale | src/treks/treks.service.ts:42-43 | A run whose fill straddles a write stores a list that is stale already, and leaves it with no invalidation outstanding. |
| TrekCache.TreksService.FindAll | src/treks/treks.service.ts:23-45 | Between calls that do not overlap, the answer equals the uncached query's, in the same order and in every field but rating, review count and updatedAt: sorted, at most 200 rows, each meeting every filter given, with no trek missing that meets them unless there are 200. A miss is stored for 60 seconds; a hit changes nothing. |
| TrekCache.TreksService.InvalidateListCache | src/treks/treks.service.ts:135-137 | No cached list of any filter survives. |
| TrekCache.TreksService.Create | src/treks/treks.service.ts:53-77 | The three refusals exactly when due, or a new trek with the given fields, all its seats left and its organizer's count raised, and no cached list left. |
| TrekCache.TreksService.Update | src/treks/treks.service.ts:79-87 | Missing, or not the owner; or each field the patch gives has its value, price and eco rating cleared by a null, and everything else is as before, the owner, the seats left and the ratings in particular; the time stamp moves if anything else did. No cached list is left. |
| TrekCache.TreksService.Remove | src/treks/treks.service.ts:89-94 | Missing, not the owner, or exactly this trek goes; the cache stays coherent. |
| TrekCache.TreksService.CommitSeats | src/bookings/bookings.service.ts:51-53 | A booking without a seat changes nothing and invalidates nothing; a committed booking or cancel takes or puts back one seat of this trek, derives its status, and clears every cached list; the cache stays coherent. |
| TrekCache.TreksService.ApplyReviewAggregate | src/treks/treks.service.ts:131-133 | The one write without an invalidation changes the rating pair and the time stamp only, and keeps the cache coherent up to these. |
| Follows.CounterLedger | src/follows/follows.service.ts:29-57 | Over every interleaving of follows and unfollows, with calls that die midway: no self edge, no duplicate edge, and each counter is its edge count less the additions and plus the subtractions still owed, hence exact if and only if these balance. |
| Follows.FollowersAreEdgesInto | src/follows/follows.service.ts:44-47 | What the followers counter is measured against is the number of edges into the user. |
| Follows.FollowingAreEdgesOutOf | src/follows/follows.service.ts:44-47 | And the following counter, the number of edges out of the user. |
| Follows.UnfollowUndoesFollow | src/follows/follows.service.ts:29-57 | An unfollow takes back a first follow completely; a repeated follow and an unfollow of nobody do nothing. |
| Follows.FollowsService.IsFollowing | src/follows/follows.service.ts:24-27 | True exactly when the edge is stored. |
| Follows.FollowsService.Follow | src/follows/follows.service.ts:29-48 | Fails only on oneself; otherwise the edge is stored, no other edge changes, and all counters are exact. |
| Follows.FollowsService.Unfollow | src/follows/follows.service.ts:50-57 | The edge is gone, no other edge changes, and all counters are exact. |
| Likes.LikeLedger | src/posts/posts.service.ts:51-73 | However likes and unlikes are repeated, raced or cut short: nobody likes twice; likeCount is the likes less those uncounted plus those not yet counted back; the notifications fired, all to the author, are the likes ever created by others less those still to be notified. |
| Likes.LikesOnIsCount | src/posts/posts.service.ts:56-62 | What the like count is measured against is the number of likes on the post. |
| Likes.PostsService.LikePost | src/posts/posts.service.ts:51-67 | Unknown post, silent repeat, or a new like, an exact count, and a notification unless it is the author's own. |
| Likes.PostsService.UnlikePost | src/posts/posts.service.ts:69-73 | Exactly this like goes, and counts stay exact. |
| JoinRequests.KeyIdentifiesPair | src/join-requests/join-requests.service.ts:108 | The sorted, joined key of two ids equals that of two others if and only if they are the same two people in either order. |
| JoinRequests.OneConversationPerPair | src/join-requests/join-requests.service.ts:107-117 | In every interleaving of accepts, no two conversations are between the same two people and none is with oneself. |
| JoinRequests.OneRequestPerTrek | src/join-requests/join-requests.service.ts:18-50 | In every interleaving there is one request per person and trek, on peer treks only, and never by the organizer. |
| JoinRequests.AcceptedCanTalk | src/join-requests/join-requests.service.ts:57-73 | In every interleaving, an accepted request's organizer and requester have their conversation, unless an accept that has saved its answer is still on its way to it. |
| JoinRequests.ToldOnlyWhenOpen | src/join-requests/join-requests.service.ts:63-70 | In every interleaving the organizer is told of a request and the requester of the answer, nobody else; and whoever has been told of an acceptance has the conversation, from then on. |
| JoinRequests.WholeAcceptIsARun | src/join-requests/join-requests.service.ts:57-73 | From every state an accept that nothing interrupts sets the status, opens the conversation if there is none and tells the requester, if the caller organizes the trek and that is there, and otherwise leaves everything as it was. |
| JoinRequests.WholeDeclineIsARun | src/join-requests/join-requests.service.ts:75-89 | Likewise a decline. |
| JoinRequests.JoinRequestsService.Create | src/join-requests/join-requests.service.ts:18-50 | A missing or removed trek, a vendor trek, one's own trek and a repeated request are refused, in this order and only then; otherwise a pending request and a notification to the organizer. |
| JoinRequests.JoinRequestsService.FindAndAuthorize | src/join-requests/join-requests.service.ts:91-105 | Missing request, missing trek, not the organizer, or the request. |
| JoinRequests.JoinRequestsService.FindOrCreateConversation | src/join-requests/join-requests.service.ts:107-117 | A conversation of the two, made exactly when they had none. |
| JoinRequests.JoinRequestsService.AcceptRequest | src/join-requests/join-requests.service.ts:57-73 | Only this request becomes accepted, the conversation is there, at most one is added, and the requester is told. |
| JoinRequests.JoinRequestsService.DeclineRequest | src/join-requests/join-requests.service.ts:75-89 | Only this request becomes declined, and the requester is told. |
| Messaging.PageIsStretch | src/messaging/messaging.service.ts:46-52 | Sort newest first, skip, limit and reverse is a stretch of the thread in chronological order, at stated positions. |
| Messaging.PagesPartitionThread | src/messaging/messaging.service.ts:44-53 | Pages n to 1 laid end to end are the tail of the thread, without loss or repeat, and the whole of it exactly when n pages are long enough. |
| Messaging.FetchIsStretch | src/messaging/messaging.service.ts:44-68 | A page fetched while the thread was shorter is what the finished thread has at those positions. |
| Messaging.NothingSkipped | src/messaging/messaging.service.ts:44-68 | However many messages arrive between fetches, nothing between the oldest message fetched and the newest of the first page is skipped. |
| Messaging.BlockExactly | src/messaging/messaging.service.ts:44-68 | The fetched pages are one unbroken block after every fetch if and only if each next page still reaches it. |
| Messaging.BlockWhenFewArrive | src/messaging/messaging.service.ts:44-68 | So they are whenever at most two pages of messages arrive between fetches. |
| Messaging.TooManyArriveLeavesGap | src/messaging/messaging.service.ts:44-68 | One message more than that, and one message between seen ones is missed. |
| Messaging.MessagingService.AssertParticipant | src/messaging/messaging.service.ts:70-78 | Missing, not a participant, or the conversation. |
| Messaging.MessagingService.GetConversation | src/messaging/messaging.service.ts:44-53 | For a participant and a page from 1 on, the messages of the thread before its 50 * (page - 1) newest, 50 at most, in chronological order; a lower page is refused. |
| Messaging.MessagingService.SendMessage | src/messaging/messaging.service.ts:55-68 | Appends to this thread and touches no other. |
| Reviews.ToTenthExactly | src/reviews/reviews.service.ts:51 | Rounding to a tenth is the one multiple of a tenth in a half-open interval of a tenth around the value. |
| Reviews.PublishedIsClose | src/reviews/reviews.service.ts:46-53 | The published rating is the multiple of a tenth nearest to the exact mean, the upper of two, and between 1 and 5. |
| Reviews.PublishedIgnoresOrder | src/reviews/reviews.service.ts:46-53 | It depends on the ratings as a multiset only. |
| Reviews.PublishedFollowsMean | src/reviews/reviews.service.ts:46-53 | It never falls when a rating at or above the mean arrives and never rises for one at or below. |
| Reviews.AggregateCounts | src/reviews/reviews.service.ts:46-53 | The stored count is the number of reviews of the target. |
| Reviews.AggregateIsClose | src/reviews/reviews.service.ts:46-53 | What a target shows is zero without reviews, and otherwise the multiple of a tenth, on the scale, nearest to the sum of its own ratings over their number. |
| Reviews.AggregateIgnoresOrder | src/reviews/reviews.service.ts:46-53 | Two histories with the same reviews publish the same aggregates. |
| Reviews.OthersKeepTheirAggregate | src/reviews/reviews.service.ts:47 | A review changes the aggregate of its own target only. |
| Reviews.ReviewsService.Create | src/reviews/reviews.service.ts:22-40 | Off the scale is refused; otherwise the review is stored, every trek and vendor shows what its reviews amount to, and nobody else's figures move. |
| ReviewOverlap.ShownExactly | src/reviews/reviews.service.ts:22-54 | In every interleaving of inserts, aggregations and stores, a target shows the aggregate that the last store to it had read, which is current if and only if no review of it was inserted after that reading. |
| ReviewOverlap.OvertakenStoreStays | src/reviews/reviews.service.ts:31-37 | A run of two reviews whose stores come in the wrong order ends stale with no call under way. |
| Seed.ShortPick | scripts/seed-demo-sahyadri.ts:46 | A pick of n from a pool of at least n falls short exactly when 2n exceeds the pool by more than one. |
| Seed.PickN | scripts/seed-demo-sahyadri.ts:43-51 | Whatever the dice say, it ends with exactly min(n, half the pool rounded up) elements, a sub-multiset of the pool without the excluded one, and distinct ones of a distinct list. |
| Seed.EqualShares | scripts/seed-demo-sahyadri.ts:53-55 | The floor of a scaled draw from the unit interval is between both bounds, and each integer there has the same share of the interval. |
| Seed.EdgeKeyIdentifies | scripts/seed-demo-sahyadri.ts:463 | Two edges share a key only if they are the same edge. |
| Seed.EdgeBuilder.AddEdge | scripts/seed-demo-sahyadri.ts:461-467 | Adds the edge unless it is a self edge or known, and keeps the keys seen in step with the edges. |
| Seed.AddedAllCounts | scripts/seed-demo-sahyadri.ts:471-473 | A follower's new edges are all added, and change nobody else's following. |
| Seed.GenerateFollows | scripts/seed-demo-sahyadri.ts:469-479 | Unique edges between the given people only; no pick is lost, so every user follows exactly as many vendors and peers together as the draws in 2 to 4 and in 1 to 3 say, and every vendor as many as a draw in 0 to 2, half of what there is at most. |
| Seed.CountEdges | scripts/seed-demo-sahyadri.ts:483-488 | The counting loop's maps are the edge counts of everybody. |
| Seed.StoreCounts | scripts/seed-demo-sahyadri.ts:489-500 | The seeded people's counters become their edge counts, nobody else's change. |
| Seed.SeedFollows | scripts/seed-demo-sahyadri.ts:458-500 | Seeding people whom no edge touches into an exact follow graph leaves the whole graph exact: the follow service's own invariant, for old and new users. |

## Left out

- Controllers, guards, validation classes, decorators, configuration and error
  formatting: single-branch plumbing. Only the facts they fix are used, such as
  `totalSeats >= 1` and ratings from 1 to 5.
- JWTs, Google and Apple sign-in, presigned uploads and socket delivery: foreign
  calls. Sign-in through a provider ends in the same new session.
- JSON encoding in the cache backends: cached values are abstract.
- Profile edits, KYC submission, vendor and notification listings: easy members
  only.
- The seed script's literal data and its other collections.
- IEEE rounding of means, and of durations with more than 15 digits.
- Auth.AuthService.Signup: stores no name, roles or vendor profile, and two signups
  racing on one email are not modelled.
- Auth.RefreshSucceedsExactly: is about calls that do not overlap; AuthOverlap says
  what overlapping ones keep and when. There the user's marker of its latest
  family, which nothing reads, is written together with the token.
- Reviews.ReviewsService.Create: is about reviews that do not overlap;
  ReviewOverlap.ShownExactly is about those that do.
- TrekCache.TreksService.Update: a null for a required field, which the save
  refuses, is not part of the patch.
- Redis.RedisService.KeysByPrefix: models the cursor loop; the stream of the
  other backend yields the same batches.
- TrekQuery.QueryMeaning: does not say how treks with the same start date are
  ordered, which the database leaves open; the model takes one fixed order.
- Seed.StoreCounts: keeps counters in a map instead of one update per document.
- Likes.PostsService.LikePost: a notification counts as fired when it is
  recorded; a failing notification service is not part of this model.
