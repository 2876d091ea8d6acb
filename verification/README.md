# Verification model of the auction backend

This project models the parts of the auction backend whose correctness depends on order,
failure or time, and proves what they promise over every run. `dafny verify dfyconfig.toml`
checks all of it.

**Bids.** A bid is published to a partitioned log under its auction's key; one worker per
partition decides it, stores a row, updates a Redis cache, publishes two events and commits
its offset. `CriticalPath` is this as a step system in which anything can fail or crash
between any two effects and messages are replayed. `BidSafety`, `BidEffects` and
`OffsetAccounting` hold the invariants; `BidRuns` states them for every run. `BidOrder` is
about order in fail-stop runs, in which a failed message is never passed over.
`SequentialBids` is the reference, one reader deciding a log message by message;
`BidSettling` is the same rule over the messages of all partitions, and what one partition or
one auction sees of it (`BidProjection` has the parts of a table). `BidRefinement` proves that
fail-stop runs cannot be told from that. For runs that pass messages over, `BidLoss` says
exactly which bids are lost, `BidLeader` who leads an auction and exactly when that is the
log's winner, and `BidEvents` which rows get their cache write and their events;
`BidCounterexamples` has a run for each. `AuctionWorker` is the process itself, method by
method; each method's contract says which steps it took, so the run theorems hold of it.
`Binary64` is the arithmetic the cache script's comparison uses.

**Rooms.** `RoomTasks` is the WebSocket room manager as cooperative tasks, one step per
stretch between two awaits; `RoomSafety` has its invariants and `RoomRuns` the results about
every interleaving; `RoomMembers` says who is in a room and `RoomBroadcasts` what a broadcast
sends and whom it takes out. `RoomManager` is the class, with its two maps updated in place, also by
other handlers while a broadcast waits for a send.

**Sign-in and tokens.** `AuthDomain` gives each request's effect on the accounts and the
three token tables; `LoginLockout` and `TokenLifecycle` prove the bounds over runs of requests
with a clock that never goes back; `AuthPromises` says what each answer means, whom a request
touches, and that a token does what it was issued for; `AuthService` is the service that does
it.

**Roles.** `RoleMigrations` is migrations 0029 and 0030 with 0030's downgrade, `RoleService`
assigning and revoking, both on the tables of `RoleDomain`; `RolePromises` says what they do
and who holds a role after any run.

**Intake.** `IntakeDomain` and `IntakePaths` are the bulk sheet and the single form as
functions of the tables; `VehicleIntake` is the service with its scans, its error dictionary
and its commit or rollback per row. `IntakeAnswers` says what both answer and what a listing spells out, in
terms of the rows of the tables; `SheetAndForm` which submissions of the form a sheet
row can express.

`Text` has the string operations, `Options` the option type.

Where the code and its documentation differ, the model follows the code:

- `workers/auction_worker.py:14-18` says a message whose processing failed is replayed, not
  dropped. The loop goes on after a failure (`:73`) and the next `commit()` (`:75`) has no
  arguments, so it covers the failed message too. `BidCounterexamples.ABidCanBeLost` is a run
  that loses a bid, `BidLoss.LostExactlyWhen` the exact condition and `BidRuns.NoBidLost` the
  guarantee that remains. A bid decided late can lose its place to an equal one
  (`BidCounterexamples.ATieCanGoToTheLaterBid`); `BidLeader.WinnerLeadsExactlyWhen` is the
  exact condition.
- `services/bid_service.py:173-175` says the steps after the commit only affect latency. A
  replay of a committed bid is refused before it gets to them, so one that a failure cuts off
  never takes place: `BidEvents.EffectExactlyWhen` and `CutOffForGood`, and
  `BidCounterexamples.AnEventCanBeLost` for a run.
- `services/bid_service.py:45-48` says that a message that can never succeed is malformed and
  skipped. One that is not UTF-8, is no object, or has an amount or identifier of the wrong
  type raises something else and stalls the worker each time: `BidDomain.DeliveryByFields` is
  the exact line, `BidRuns.RaisingIsPassedOver` what becomes of such a message.
- `services/auth_service.py:14` says reset and refresh revoke sibling tokens. Only a reset
  does: `TokenLifecycle.SessionEndsExactlyWhen`, and `SiblingsSurvive` for an input.
- The delay told to a locked-out caller (`services/auth_service.py:141-142`) is cut to whole
  seconds, so it can be too short: `LoginLockout.AdvertisedDelayIsEnough` says exactly when
  it is not.
- An amount of 10^10 or more passes the API's checks, is published, and never gets a row:
  `BidDomain.PublishedBidIsDelivered`.
- `alembic/versions/0029_roles.py:28-32` says no user's role is lost. An empty string, like
  NULL, becomes Buyer: `RoleMigrations.LegacyRolesComeBack`.

Assumptions, all about what is outside the repository: a partition's messages are delivered in
order to one owner; a transaction commits whole or not at all; the Redis script is atomic and
Redis keeps its data; a cancelled task gets its `CancelledError` when it is resumed from its
next suspension, and taking a free lock does not suspend; requests to the sign-in service are
transactions one after the other, each with one reading of the clock; a token's hash
identifies it.

## Model

| member | source | states |
|---|---|---|
| `Binary64.RoundIsNearest` | core/redis.py:23-24 | The rounding that `tonumber` is taken to do yields a binary64 to which no binary64 is nearer, as section 4.3.1 of IEEE 754-2019 asks |
| `Binary64.RoundingError` | core/redis.py:23-24 | Below 10^10 the double of an amount is off by at most 2^-19, so less than half a cent |
| `Binary64.ComparisonIsExact` | core/redis.py:24 | For any two two-decimal amounts the column can hold, the script's comparison of doubles and the exact comparison agree, in both directions |
| `BidDomain.DeliveryByFields` | services/bid_service.py:44-70 | A message is skipped if and only if it is not JSON, lacks a field, or has an amount that is no number or, behind one of the right type, an identifier that is no UUID; it raises at every delivery if and only if it is one of the other messages nobody can decide |
| `BidDomain.DecidableExactlyWhen` | services/bid_service.py:102-111 | The worker decides a message as bid `b` if and only if it is the envelope of `b` and the amount fits the column |
| `BidDomain.PublishedBidIsDelivered` | services/bid_service.py:99-117 | What the API publishes is what the worker decides exactly when the amount is below 10^10; otherwise the worker raises on it every time |
| `BidDomain.APublishedBidCanCrash` | schemas/bid.py:15-22 | The least such amount: it passes the API and can never be decided |
| `BidDomain.Highest` | services/bid_service.py:148-154 | The query's answer is an upper bound of the auction's accepted amounts that one of them reaches, and is missing only if there is none |
| `BidDomain.VerdictExplained` | services/bid_service.py:142-155 | `auction_not_live` if and only if the auction is missing or not live, `not_highest` if and only if it is live and the amount is not above the starting price or not above some accepted bid |
| `BidDomain.ArbitrateKeepsLarger` | core/redis.py:22-30 | The compare-and-set leaves the exact maximum, keeps the earlier bidder on a tie and touches no other auction |
| `BidSafety.DecisionSurvives` | services/bid_service.py:127-133 | A verdict reached in one partition's transaction stays right while any other partition commits rows: no lock is needed between read and insert |
| `BidSafety.ConflictBreaksConstraints` | models/auction.py:67-105 | An insert is refused if and only if the table with the row would break a check, a foreign key, the primary key or the unique log position |
| `BidRuns.RunKeepsInv` | workers/auction_worker.py:50-75 | Every reachable state, through crashes, replays, skipped messages and status flips, satisfies the log, table, effect, cache and offset invariants |
| `BidRuns.AcceptedAmountsIncrease` | services/bid_service.py:141-168 | In every run accepted amounts of an auction strictly increase in commit order and exceed its starting price, and each row is the bid logged at its position |
| `BidRuns.AcceptedWhileLive` | services/bid_service.py:142-155 | For each accepted row two steps of the run decided it: one read its auction while it was live, a later one found its amount above the starting price and every accepted bid; the status may have flipped in between |
| `BidRuns.EventsSayWhy` | services/bid_service.py:145-195 | Every event of either channel goes back to two steps of the run, one that read the status and a later one that read the bids, and its verdict is the one these explain: `NotLive` if and only if the auction was missing or seen not live, `NotHighest` if and only if it was seen live and the bid was then outbid |
| `BidRuns.EffectsAtMostOnce` | services/bid_service.py:157-195 | In every run: one row per position and per bid id, at most one script call and one event per channel for it, each event with its row's status and in commit order |
| `BidRuns.EventsHaveDistinctPositions` | models/auction.py:98-104 | Two events of a channel stand for rows at different log positions |
| `BidRuns.CacheAgreesWithTable` | services/bid_service.py:173-177 | The cached amount and bidder are those of an accepted row, never above the highest bid, and equal to it if and only if the latest accepted bid has been through the script |
| `BidRuns.CacheNeverDecreases` | core/redis.py:22-30 | No step of any run lowers or removes a cached amount |
| `BidRuns.ScriptRepairsCache` | core/redis.py:72-88 | Whatever lag a crash left, the next accepted bid that completes the script brings the cache to the table's highest bid |
| `BidRuns.CommittedOffsetsAreSettled` | workers/auction_worker.py:54-75 | In every run each offset below the committed one has a row, was poison, was refused by a constraint, or failed before its commit and was passed over |
| `BidRuns.RaisingIsPassedOver` | workers/auction_worker.py:66-75 | In every run a message that always raises has no row, and is below the committed offset only because it was passed over |
| `BidRuns.FailStopSkipsNothing` | workers/auction_worker.py:66-75 | In fail-stop runs the last of those four never happens |
| `BidRuns.NoBidLost` | workers/auction_worker.py:14-18 | Fail-stop runs lose no valid bid: below the committed offset each has its own row, unless another message used its id |
| `SequentialBids.FoldStoresFirstStorable` | services/bid_service.py:157-171 | The sequential reader stores exactly the first valid message of each bid id, at that message's offset |
| `SequentialBids.HighestRowWins` | services/bid_service.py:148-155 | For a live auction the sequential reader's highest accepted row is the largest bid above the starting price, the earliest on a tie, and missing only if there is no such bid |
| `BidProjection.OutcomesOfSubLog` | services/bid_service.py:112-117 | An auction's outcomes are those of a partition that holds only its own messages |
| `BidProjection.OutcomesDependOnOwnMessages` | services/bid_service.py:112-117 | Two logs with the same messages about an auction give it the same outcomes, whatever else they hold and however it is interleaved |
| `BidProjection.PartitionDecidesAlone` | services/bid_service.py:145-155 | Deciding or refusing a bid against a whole table gives what the rows of its own partition give, if its auction's and its id's rows are there |
| `BidSettling.SettlingOnePartition` | services/bid_service.py:141-171 | The fold over all partitions' messages, seen by one partition, is the fold over its own log |
| `BidSettling.SettlingOneAuction` | services/bid_service.py:112-117 | Seen by one auction, it is what a reader of its partition alone would store for it, whatever the statuses of the others did |
| `BidOrder.FailStopKeepsOrder` | models/auction.py:98-104 | In fail-stop runs partitions settle their messages one after the other, every replay is refused, and rows follow the offsets |
| `BidRefinement.TableIsFoldOfStores` | services/bid_service.py:141-171 | In every run at all the table is the fold of the decision rule over the messages that got a row, in commit order: a verdict depends on the rows before it and the status that was read, and on nothing else |
| `BidRefinement.TableIsOneFold` | services/bid_service.py:141-171 | After any fail-stop run, with statuses changing and ids repeating at will, the whole table in commit order is the fold of the decision rule over the settled messages, which are a prefix of each log that covers everything committed |
| `BidRefinement.TableIsFold` | services/bid_service.py:141-171 | With statuses fixed and ids not shared between partitions, a partition's rows are what a reader of its log prefix alone would store |
| `BidRefinement.AuctionIsFold` | services/bid_service.py:141-171 | While an auction keeps its status and its bid ids, its rows are what a reader of its partition alone would store for it, whatever other auctions do |
| `BidRefinement.AuctionWinner` | services/bid_service.py:148-155 | In a fail-stop run an auction live throughout is led by the largest valid bid above the starting price in the settled prefix, by the lowest offset on a tie, and by none exactly if there is no such bid; other auctions may open and close |
| `BidOrder.EventsFollowOffsets` | services/bid_service.py:179-195 | In every fail-stop run the events of either channel about one auction, or one partition, come in the order of their messages in the log |
| `BidRefinement.OutcomesAreLocal` | services/bid_service.py:112-117 | Two fail-stop runs, of any two deployments, that settled the same messages about an auction under the same status gave it the same outcomes, whatever other auctions did |
| `BidCounterexamples.ABidCanBeLost` | workers/auction_worker.py:66-75 | A run of two bids after which the first, valid and below the committed offset, has no row |
| `BidCounterexamples.ATieCanGoToTheLaterBid` | workers/auction_worker.py:66-75 | A run in which a failed bid is decided after a later equal one and loses the tie it wins in the log |
| `BidLoss.LostExactlyWhen` | workers/auction_worker.py:66-75 | In any run a valid bid with an id of its own, below the committed offset, has no row if and only if each of its deliveries ended in an exception or a crash before the row was committed |
| `BidLoss.LostWasPassedOver` | workers/auction_worker.py:66-75 | Every lost bid was passed over, so stopping at a failure loses none |
| `BidLoss.LostForGood` | workers/auction_worker.py:50-75 | A lost bid stays lost through every later step, replay and restart |
| `BidLeader.LeaderIsFirstLargest` | services/bid_service.py:148-155 | In every run an auction live throughout is led by the largest bid that has a row, the first committed on a tie, and by none exactly if no row exceeds the starting price |
| `BidLeader.WinnerLeadsExactlyWhen` | workers/auction_worker.py:66-75 | In every run in which the auction's bid ids are not used twice, the log's winner leads if and only if its row was committed before that of every other bid on the auction as large |
| `BidLeader.NoLeaderExactlyWhen` | services/bid_service.py:148-155 | There is no leader exactly if no row above the starting price was committed, and a leader is always a bid that counts in the log |
| `BidEvents.EffectExactlyWhen` | services/bid_service.py:173-195 | In every run a committed row has had its cache write (if accepted), its update or its result event if and only if that is not still ahead in flight and no exception or crash cut it off |
| `BidEvents.CutOffForGood` | services/bid_service.py:166-175 | What was cut off never takes place, whatever is replayed later |
| `BidCounterexamples.AnEventCanBeLost` | services/bid_service.py:173-175 | A run in which the process dies after a commit, and the row stays without its result event |
| `AuctionWorker.Session.Flush` | services/bid_service.py:166-171 | The insert violates a constraint exactly when the table with the row would, and then only a rollback is left |
| `AuctionWorker.Session.CommitOrRollback` | core/database.py:79-91 | The table gains the flushed row or, if the commit raises, nothing; the session is usable again |
| `AuctionWorker.Worker.SubmitBid` | services/bid_service.py:89-124 | The checks in the code's order, each refusal leaving everything as it was; a received bid is in the log of its auction's partition, and one whose publish raised may be in it |
| `AuctionWorker.Worker.InsertRow` | services/bid_service.py:157-171 | One of: row committed, refused because of a conflict, or raised with nothing stored; each is one step of the path |
| `AuctionWorker.Worker.Judging` | services/bid_service.py:142-155 | The two reads, each a step of the path, and the verdict of the decision rule |
| `AuctionWorker.Worker.DecideAndStore` | services/bid_service.py:141-171 | The stored row has the verdict of the decision rule on the table before it; other partitions are untouched |
| `AuctionWorker.Worker.Script` | services/bid_service.py:176-177 | The cache call, one step, and only for an accepted bid |
| `AuctionWorker.Worker.Announce` | services/bid_service.py:179-195 | One publication, with the event of the bid in flight |
| `AuctionWorker.Worker.FanOut` | services/bid_service.py:173-195 | Script, update and result take place in this order; on an exception a prefix of them did, and the loop goes on |
| `AuctionWorker.Worker.DecideBid` | services/bid_service.py:127-198 | The result is a verdict that says whether the auction was live and the bid outbid, with the row, the cache write if accepted and both events; a replay or another row the constraints rule out, with no effect at all; or an exception with no effect or with the row and none, the first or both events; the invariants hold after it |
| `AuctionWorker.Worker.Process` | workers/auction_worker.py:54-73 | A malformed message is skipped and one that always raises stalls, in terms of its own fields and with no effect; anything else is decided |
| `AuctionWorker.Worker.CommitOwned` | workers/auction_worker.py:75 | Every assigned partition's committed offset becomes its position, failed messages included |
| `AuctionWorker.Worker.HandleNext` | workers/auction_worker.py:51-75 | One turn of the loop is a run of the path that keeps the invariants. It commits every assigned position for a malformed message and, unless something raises, for a bid, never for a message that always raises; the first and last have no effect |
| `AuctionWorker.Worker.RunWorker` | workers/auction_worker.py:39-81 | However its turns go, the loop is a run of the path, and the next owner starts from the committed offsets; if nothing raises these are everything the consumer yielded |
| `RoomSafety.CancelledNeverSends` | ws/gateway.py:60-86 | In any state satisfying the invariants a cancelled relay has no send step |
| `RoomRuns.RunKeepsInv` | ws/gateway.py:39-112 | Every interleaving of handlers and relays keeps the lock, membership, relay, room and delivery invariants |
| `RoomRuns.CancelledRelayIsSilent` | ws/gateway.py:49-57 | A relay once cancelled, by another task or from inside its own broadcast, never sends again |
| `RoomRuns.RelaysSucceedEachOther` | ws/gateway.py:60-86 | Once a second relay has sent for a room, the first is cancelled and sends no more |
| `RoomRuns.RoomsAgreeWithRelays` | ws/gateway.py:39-58 | Whenever the lock is free: same keys in both maps, no empty room, and the registered relay is the room's only uncancelled one |
| `RoomRuns.LockIsFreeOnRequest` | ws/gateway.py:37-50 | No task ever waits for the lock |
| `RoomRuns.NothingLeftBehind` | ws/gateway.py:93-112 | When all handlers have ended and the lock is free both maps are empty and every relay is cancelled |
| `RoomRuns.RepeatedDisconnectIsHarmless` | ws/gateway.py:49-57 | Disconnecting a socket that is not in its room changes neither map and cancels nothing |
| `RoomMembers.MembersExactly` | ws/gateway.py:39-58 | In every interleaving the members of a room are exactly the sockets added to it and not discarded since |
| `RoomMembers.ConnectedIsMember` | ws/gateway.py:92-112 | A socket whose handler is receiving is in its room, unless a relay took it out |
| `RoomBroadcasts.BroadcastStaysOnTrack` | ws/gateway.py:78-86 | In every interleaving a broadcast has sent to the first sockets of its snapshot, in order and each once, and goes on to take out those whose send raised |
| `RoomBroadcasts.OnlyFailedAreRemoved` | ws/gateway.py:78-86 | A relay takes a socket out only after its own send to it raised, and after it has sent to the whole snapshot |
| `RoomManager.CancelledExactlyWhenEmptied` | ws/gateway.py:49-57 | Whatever handlers do, a room's relay has been cancelled if and only if its room stood empty at some moment since, even if sockets have entered again; otherwise it is still the room's relay |
| `RoomManager.AuctionRoomManager.Connect` | ws/gateway.py:39-47 | The room gains the socket, a relay is started exactly if there was none, and the maps stay consistent |
| `RoomManager.AuctionRoomManager.Disconnect` | ws/gateway.py:49-58 | The socket goes; the room and its relay go, the latter cancelled, exactly with the last socket; other rooms do not change |
| `RoomManager.AuctionRoomManager.SendToAll` | ws/gateway.py:78-84 | One send per socket of the snapshot, in order, up to the first during which the relay is cancelled; without one, those whose send raised are collected; the maps are as the handlers acting meanwhile left them |
| `RoomManager.AuctionRoomManager.RemoveAll` | ws/gateway.py:85-86 | Exactly the dead sockets leave, and the relay is cancelled exactly if none stays |
| `RoomManager.AuctionRoomManager.Broadcast` | ws/gateway.py:78-86 | Whatever handlers do during its sends, a broadcast breaks off exactly if its room stands empty at some moment, and starts no send after that; otherwise every socket of the snapshot was sent to, the failing ones leave, and the relay cancels itself if and only if none is left |
| `LoginLockout.LockoutBound` | services/auth_service.py:140-158 | In any stretch of length T without a successful sign-in to an account at most M * (floor(T / L) + 1) password checks fail, from any state |
| `LoginLockout.LockoutBoundIsTight` | services/auth_service.py:312-319 | For every number of whole lockouts a run fails exactly that many, so no smaller bound holds |
| `LoginLockout.LockHolds` | services/auth_service.py:140-142 | Until the time set, every sign-in to a locked account is turned away unchecked, whatever other requests come, a completed password reset included |
| `LoginLockout.NoEarlyLockout` | services/auth_service.py:315-318 | An account whose counter was clear is not locked before M checks have failed with no successful sign-in between them, and the counter is their number |
| `LoginLockout.AdvertisedDelayIsEnough` | services/auth_service.py:140-142 | Waiting the advertised delay ends the lock if and only if what remained was a whole number of seconds or less than one |
| `LoginLockout.AdvertisedDelayCanBeTooShort` | services/auth_service.py:140-142 | With a second and a half left one second is advertised, and after it the account is still locked |
| `TokenLifecycle.DeadTokensStayDead` | services/auth_service.py:294-301 | A revoked, used or expired token of any of the three tables is never usable again in any run |
| `TokenLifecycle.ConsumedOnce` | services/auth_service.py:216-235 | Of all requests of a run at most one acts on a given token |
| `TokenLifecycle.ResetEndsSessions` | services/auth_service.py:231-233 | No refresh token issued before a completed reset of its owner is accepted by a later refresh or acted on by a later sign-out |
| `TokenLifecycle.SessionEndsExactlyWhen` | services/auth_service.py:166-188 | A live refresh token is spent if and only if it is itself presented unexpired, to a sign-out, or to a refresh of an active account that draws an unused token, or a good reset token of its owner is presented |
| `TokenLifecycle.SiblingsSurvive` | services/auth_service.py:166-180 | A run in which one of two sessions is refreshed and its spent token replayed, and the other session and the successor stay usable |
| `TokenLifecycle.TokenLifetime` | services/auth_service.py:271-278 | A token issued during a run expires its kind's lifetime after the request that issued it, whatever is rotated later |
| `TokenLifecycle.VerifiedExactlyWhen` | services/auth_service.py:238-256 | An account is verified exactly if it was before, or a run consumed one of its verification tokens |
| `TokenLifecycle.OnlyTheLastPasswordWorks` | services/auth_service.py:147-163 | An active, unlocked account is signed in to exactly with the password its sign-up or last completed reset set |
| `TokenLifecycle.RunKeepsChains` | services/auth_service.py:166-180 | In every run each refresh token descends from one sign-in of its owner, and at most one of a chain is unrevoked |
| `TokenLifecycle.OneActiveTokenPerSignIn` | services/auth_service.py:262-279 | Two usable tokens from one sign-in are the same token |
| `TokenLifecycle.SessionsAreBounded` | services/auth_service.py:304-309 | A user's unrevoked refresh tokens never outnumber the successful sign-ins since the last completed reset |
| `AuthPromises.SameAddressExactly` | services/auth_service.py:65-66 | Two spellings name one account if and only if they differ in outer white space and the case of letters at most |
| `AuthPromises.SignInAnswers` | services/auth_service.py:125-163 | Each answer to a sign-in, by what is so of the account: unknown address and wrong password are answered alike, a lock comes before anything else, and only a wrong password or success changes anything |
| `AuthPromises.SignUpAnswers` | services/auth_service.py:96-122 | Refused if and only if the address has an account |
| `AuthPromises.ResetAnswers` | services/auth_service.py:191-213 | A reset token is issued if and only if the address has an active account |
| `AuthPromises.TokenAnswers` | services/auth_service.py:166-256 | A presented token is refused if and only if it is unknown, spent or expired, or its owner is gone or, for a refresh, inactive; a refusal changes nothing and a sign-out is never refused |
| `AuthPromises.OthersUntouched` | services/auth_service.py:96-319 | No request about one account changes another account, or adds, spends or alters a token of another |
| `AuthPromises.ActiveExactlyAsSet` | services/auth_service.py:102-112 | Nothing the service does makes an account active or inactive after its sign-up |
| `AuthPromises.ResetWorks` | services/auth_service.py:191-235 | In any run a token issued for any spelling of an address, first presented before it expires, resets the password of that account |
| `AuthPromises.ResetThenSignIn` | services/auth_service.py:191-235 | From then until the next completed reset the open account is signed in to with exactly the new password |
| `AuthPromises.SignUpThenSignIn` | services/auth_service.py:96-163 | Until a reset the open account is signed in to with exactly the sign-up's password, and the address cannot be signed up again |
| `AuthPromises.VerificationWorks` | services/auth_service.py:238-256 | The token a sign-up issued, first presented before it expires, verifies that account for good |
| `AuthPromises.SessionWorks` | services/auth_service.py:166-180 | The token a sign-in issued is refreshed at any time before it expires or a request ends its session, for a token of the same active account with a whole lifetime |
| `AuthService.Service.SignUp` | services/auth_service.py:96-122 | A known address is refused; otherwise account and verification token appear together or not at all |
| `AuthService.Service.RegisterFailedLogin` | services/auth_service.py:312-319 | The counter and the lock after one more failure |
| `AuthService.Service.IssueToken` | services/auth_service.py:262-279 | A new row under a hash not in use, in the chain it is given |
| `AuthService.Service.SignIn` | services/auth_service.py:125-163 | The new tables and the outcome are those `Handle` gives, in the order unknown, locked, inactive, wrong password |
| `AuthService.Service.ActiveRefreshToken` | services/auth_service.py:294-301 | The row exactly if it is usable now |
| `AuthService.Service.Refresh` | services/auth_service.py:166-180 | The presented token is spent and its successor issued in one transaction, or nothing changes |
| `AuthService.Service.SignOut` | services/auth_service.py:183-188 | Spends a usable token and is otherwise a no-op |
| `AuthService.Service.RequestPasswordReset` | services/auth_service.py:191-213 | Issues a token for an active account only, and for the account of the normalized address |
| `AuthService.Service.RevokeAllRefreshTokens` | services/auth_service.py:304-309 | Of all rows exactly the user's unrevoked ones are revoked now |
| `AuthService.Service.ResetPassword` | services/auth_service.py:216-235 | Password, token and sessions change together or not at all; the lock and the counter do not |
| `AuthService.Service.VerifyEmail` | services/auth_service.py:238-256 | Spends a usable token and marks its owner verified |
| `RoleMigrations.BackfillIsUpgradable` | alembic/versions/0029_roles.py:132-198 | After 0029 every user has exactly one primary row, of a role that exists |
| `RoleMigrations.MigrationsEstablishRoles` | alembic/versions/0030_users_primary_role_fk.py:59-93 | For every legacy users table both migrations succeed and leave each user holding its primary role |
| `RoleMigrations.LegacyRolesComeBack` | alembic/versions/0030_users_primary_role_fk.py:96-146 | The 0030 downgrade then succeeds and restores a role string if and only if it was neither NULL nor empty |
| `RoleMigrations.RolesAfterUpgrade` | alembic/versions/0029_roles.py:132-170 | After both migrations the role names are the eight seeded ones and the legacy strings |
| `RoleMigrations.EveryoneKeepsTheirRole` | alembic/versions/0029_roles.py:173-198 | And each user holds exactly the role of the old string, Buyer where it was NULL or empty, since the backfill and as its primary role |
| `RoleMigrations.AnEmptyRoleBecomesBuyer` | alembic/versions/0029_roles.py:190-194 | A user whose role string is empty is a Buyer after the way up and down |
| `RoleMigrations.DowngradeThenUpgrade` | alembic/versions/0030_users_primary_role_fk.py:59-146 | On every consistent state downgrading gives one primary row per user, named as the role string, and upgrading again gives the same tables back |
| `RoleMigrations.Schema.InsertRoles` | alembic/versions/0029_roles.py:138-170 | The roles are the seed list and the legacy names, each once |
| `RoleMigrations.Schema.InsertHoldings` | alembic/versions/0029_roles.py:173-198 | One primary row per user, of the role its string names, or Buyer |
| `RoleMigrations.Schema.Upgrade0029` | alembic/versions/0029_roles.py:108-109 | Both inserts together are the backfill the theorems are about |
| `RoleMigrations.Schema.FillPrimary` | alembic/versions/0030_users_primary_role_fk.py:62-71 | After the update a user's new column names a role if and only if the user has a primary row for it |
| `RoleMigrations.Schema.Upgrade0030` | alembic/versions/0030_users_primary_role_fk.py:59-93 | Succeeds exactly if every user has a primary row of an existing role; otherwise nothing changes |
| `RoleMigrations.Schema.MarkPrimary` | alembic/versions/0030_users_primary_role_fk.py:97-110 | A row is primary again exactly where the user's column points |
| `RoleMigrations.Schema.Downgrade0030` | alembic/versions/0030_users_primary_role_fk.py:96-146 | Succeeds exactly if every primary role exists and its name fits 30 characters; otherwise nothing changes |
| `RoleService.RunKeepsRoles` | services/role_service.py:46-97 | Every run of sign-ups, assignments and revocations keeps each user holding its primary role, so at least one |
| `RoleService.RolesAgreeForever` | services/role_service.py:5-7 | From any legacy table, through both migrations and any run, the invariant holds |
| `RoleService.DowngradeAfterAnyRun` | alembic/versions/0030_users_primary_role_fk.py:96-146 | After any run the downgrade still succeeds, with exactly one primary row per user and its name as the role string |
| `RoleService.OnlyTheLastRoleIsRefused` | services/role_service.py:75-84 | A revocation is refused exactly when the role is the user's only one |
| `RoleService.RevokeUndoesAssign` | services/role_service.py:86-97 | Revoking a role just granted restores the tables unless it was made primary and the role promoted is not the former primary, which must be a longest-held one |
| `RolePromises.AssignGrants` | services/role_service.py:46-66 | An assignment that is not refused leaves the user holding the role of that name, since now if new and since when it was if not; it becomes primary if and only if asked; nothing else changes |
| `RolePromises.RevokeRemoves` | services/role_service.py:69-97 | A revocation that is not refused takes away exactly that holding; a primary role so lost passes to one held longest; it is refused if and only if the role is unknown or the only one |
| `RolePromises.SignUpWelcomes` | services/auth_service.py:102-117 | A new account holds exactly Buyer, as its primary role |
| `RolePromises.HoldsExactlyWhen` | services/role_service.py:46-97 | In every run a user holds a role if and only if the last request about the two that was not refused gave it, or there was none and it was held before |
| `RoleService.Service.RoleByName` | services/role_service.py:28-33 | The role of that name, or none exactly if there is none |
| `RoleService.Service.AssignRole` | services/role_service.py:46-66 | Idempotent grant that leaves the role held and keeps the invariant, with or without moving the primary role |
| `RoleService.Service.Oldest` | services/role_service.py:91-92 | A role no other remaining one was assigned before |
| `RoleService.Service.RevokeRole` | services/role_service.py:69-97 | Keeps the invariant; a revoked primary role is followed by one held longest |
| `RoleService.Service.WelcomeBuyer` | services/auth_service.py:102-117 | A new account starts as a Buyer with that role primary |
| `IntakePaths.OneResultPerRow` | services/vehicle_intake_service.py:408-414 | A completed request answers each row once, in order, under its own number |
| `IntakePaths.CreatedExactlyWhen` | services/vehicle_intake_service.py:284-405 | A row is created exactly when it is valid, its chassis number was not stored before, and it is the request's first valid row with that number; otherwise its errors say which |
| `IntakeAnswers.FindsFirstNamed` | services/vehicle_intake_service.py:225-237 | A cell resolves if and only if it is not blank and is, but for case, the English or Arabic name of an active row, of the make if one is given; and then to the first such row |
| `IntakeAnswers.ErrorsSayWhy` | services/vehicle_intake_service.py:289-347 | The dictionary has an entry for a text, a number or the client if and only if it is missing, does not parse, or is no active seller's full name or email, and the entry says which |
| `IntakeAnswers.LabelErrorsSayWhy` | services/vehicle_intake_service.py:294-331 | For a label if and only if it is no active row's name, the optional one only if it is not blank |
| `IntakeAnswers.ParentErrorsSayWhy` | services/vehicle_intake_service.py:298-353 | For a model if it is missing, its make is unknown, or that make has no such model, and the entry says which; for a contact if and only if a known client has none of that name |
| `IntakeAnswers.AnswersNameTheirListing` | services/vehicle_intake_service.py:384-405 | A created row is answered with the identifier and chassis number its listing is stored under, a rejected one with at least one error |
| `IntakeAnswers.RowIsDescribed` | services/vehicle_intake_service.py:361-372 | The two titles and locations of a created listing spell out the make, model, year and branch it names |
| `IntakePaths.ListingNamesWhatItsRowCalls` | services/vehicle_intake_service.py:294-331 | A created listing names active lookup rows called what the cells say, the model under that make; the bidding model exactly where its cell is not blank |
| `IntakePaths.ListingKeepsItsRow` | services/vehicle_intake_service.py:345-388 | A created listing has the row's stripped texts and numbers, an active seller called what the row says and, exactly where one is named, that seller's contact |
| `IntakePaths.TableGainsCreatedRows` | services/vehicle_intake_service.py:361-405 | The table gains the created rows' listings in order and nothing else |
| `IntakePaths.ErrorRowsDoNotMatter` | services/vehicle_intake_service.py:408-414 | Leaving out any row answered with an error changes neither the table nor any other row's answer |
| `IntakePaths.BulkCompletesWhenValuesFit` | services/vehicle_intake_service.py:389-399 | A request breaks off exactly when some valid row's value does not fit its column |
| `IntakePaths.SheetAgreesWithForm` | services/vehicle_intake_service.py:157-222 | Every row the sheet creates resolves to identifiers for which the form, against the same tables, stores the very same listing |
| `IntakeAnswers.FormRefusesExactly` | services/vehicle_intake_service.py:160-185 | The form refuses an identifier if and only if it is the first, in its order, without an active row, the client an active user and a named contact an active one of that client; and refuses none if and only if all have one |
| `IntakeAnswers.FormTakesExactly` | services/vehicle_intake_service.py:187-222 | Otherwise it stores the whole submission, its two texts stripped and its titles and locations spelled out, if and only if that fits and neither identifier nor chassis number is taken; it is a duplicate if and only if it fits and one is |
| `SheetAndForm.SheetSaysExactly` | services/vehicle_intake_service.py:157-222 | Of the submissions whose identifiers the form accepts, some valid sheet row gives the same listing if and only if no text is blank, there is no document, the terms are accepted, the model is under its make and each row is the first active one under one of its names |
| `SheetAndForm.FormTakesMore` | services/vehicle_intake_service.py:160-165 | A catalog of two makes and a model of the second: the form takes the model under either, the sheet can say it under its own only |
| `IntakePaths.ChassisStaysUnique` | models/content.py:72 | Neither way in stores a chassis number twice |
| `VehicleIntake.Service.Scan` | services/vehicle_intake_service.py:225-237 | The first row of a table that matches |
| `VehicleIntake.Service.FindByLabel` | services/vehicle_intake_service.py:225-237 | The first active row whose English or Arabic name is the cell but for case, within the make if one is given; none for a blank cell |
| `VehicleIntake.Service.FindClientByName` | services/vehicle_intake_service.py:240-258 | An active seller by full name or email |
| `VehicleIntake.Service.Validate` | services/vehicle_intake_service.py:287-356 | The dictionary has an entry for exactly the cells with a problem, and is empty exactly for a valid row |
| `VehicleIntake.Service.Insert` | services/vehicle_intake_service.py:389-394 | Stored exactly if it fits and clashes with no stored id or chassis number; otherwise the table is as before |
| `VehicleIntake.Service.CreateBulkRow` | services/vehicle_intake_service.py:284-405 | One row's answer and table, whatever came before it |
| `VehicleIntake.Service.BulkCreate` | services/vehicle_intake_service.py:408-414 | The loop computes what the row theorems are about, and on a value that does not fit keeps the rows before it |
| `VehicleIntake.Service.CreateSubmission` | services/vehicle_intake_service.py:157-222 | The first identifier without an active row is reported in the form's order; else the submission is stored as it says, a duplicate, or broken off, with the table to match |

## Left out

- Kafka, Redis, SQL Server and asyncio themselves; only the assumptions above are used. Rebalancing while an old owner still writes, and Redis losing data, are not modelled.
- JSON, UUID and decimal parsing, JWT signing and Argon2. Messages and sheet cells carry what parsing gives; a password hash is the password it verifies; access tokens are not modelled.
- BidDomain.Deliver: does not model amounts with fractions of a cent or their rounding to the column, because only the API's schema restricts amounts to two decimals; a non-finite or oversized amount is taken to raise.
- Bid and auction timestamps, `ends_at` and `reserve_price`: nothing decides on them. An auction's status changes by an outside step.
- BidRefinement.TableIsFold: the view of one partition needs fail-stop, fixed statuses and ids not shared between partitions; `TableIsOneFold` needs only the first, and `TableIsFoldOfStores` none.
- BidLeader.WinnerLeadsExactlyWhen: asks that no other message of the auction's partition carries an id of a bid on it, as holds when each submission draws a fresh id; so does `NoLeaderExactlyWhen`.
- BidRefinement.AuctionWinner: asks that no other auction's message carries a bid id of the auction, since such a message can take the id first and have the auction's own bid refused.
- That a relay is alive: one that fails stays registered and is not restarted, so "at most one" is proved, not "one running". Cancelling a handler's own task is not modelled.
- Concurrent sign-in requests on one account, which the code reads and then writes without a lock, and two readings of the clock within one request.
- LoginLockout.LockoutBound: asks for at least one attempt and one second of lockout, since the settings allow smaller values and then there is no lock to bound by.
- A password reset invalidating other reset tokens: the code does not do it.
- The case folding and trailing-space rules of the database's collation, and letters outside ASCII in `lower`: names, addresses and chassis numbers are compared exactly, labels but for ASCII case.
- RoleMigrations.Backfill: takes role names as compared exactly and gives new role rows in no order, where the script sorts names before drawing random identifiers; 0029's own downgrade only drops tables.
- Ties between lookup rows with the same label, users with the same name, or roles assigned at the same time: the first row in table order, or for roles any of them, since the queries have no order.
- IntakePaths.BulkCompletesWhenValuesFit: takes a value that fits no column to raise before constraints are looked at.
- Listing URLs, which are functions of the identifier, and the document upload.
- Content, admin and payment reads, dropdown lookups, searches, seed and schema-only migrations, HTTP controllers, configuration, logging and deployment: they would add only easy members.
