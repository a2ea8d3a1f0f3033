# Billiards server: the concurrency and lifecycle kernel

This project models the server-side core of the billiards platform and proves what it promises: rooms that several
transactions work on at once, the match that a full room becomes, the actor that runs a match, the connection that tells
a client about it, and the services around them (rate limiting, sessions, paging, transactions, password hashes).

`dafny verify dfyconfig.toml` checks everything.

How it is laid out:

| files | what they model |
|---|---|
| `Basics.dfy` | options, ids, facts about finite sets and sorted listings |
| `RateLimiter.dfy` | the token bucket and its sweeper, against a limiter that only remembers allowed requests |
| `Matches.dfy`, `Turns.dfy`, `MatchRows.dfy` | match states and validation, seats and turn rotation, the rows a match is stored in |
| `Rooms.dfy`, `RoomAnswers.dfy`, `RoomService.dfy` | what each room transaction does alone, each answer and effect written out, and the service that does it step by step |
| `RoomSchedule.dfy`, `RoomSerial.dfy`, `RoomRaces.dfy`, `UnlockedRace.dfy` | the transactions interleaved statement by statement; races for seats, with the row lock and without it |
| `PlayOrder.dfy` | from joining a room to taking a turn |
| `Actor.dfy`, `Registry.dfy` | a match's goroutine under every schedule, and the registry of running ones |
| `Connection.dfy`, `ConnectionObjects.dfy`, `ConnectionRuns.dfy` | session, bounded queue, write pump, backpressure watcher and socket; two runs of a full queue |
| `Paging.dfy`, `Base64.dfy`, `Cursors.dfy` | keyset paging while rows come and go, and the opaque tokens |
| `Sessions.dfy`, `SessionService.dfy` | sliding renewal, revocation and purging, interleaved |
| `Transactions.dfy` | `InTx` nested by savepoints, and signup |
| `PasswordHash.dfy` | PHC strings |

Conventions. A concurrent part is a state machine whose steps are the source's indivisible actions; a step that cannot be
taken changes nothing, so every sequence of steps is a run. An object of the source is a class whose methods are proved
to make exactly those steps. Clocks, random bytes, fresh ids, failures and the scheduler's choices are parameters. Times
are integers, except in the limiter, where time and tokens are reals. A table is a map from its primary key; unique
indexes and row locks are modelled where a statement depends on them.

Assumptions, each made where the code relies on something outside it:

- A transaction's statements take effect together at its commit; a row lock is held until then; each statement reads what
  others have committed (read committed).
- Transactions on different rooms touch different rows, so the schedules are those of one room.
- Join times strictly increase (`joined_at` is `clock_timestamp()`, migrations/000004_rooms.up.sql:70-76).
- The limiter's requests carry times no earlier than the sweeps already done; burst is at least 1 and the rate positive.
- Once a close frame has been written or the connection is broken, the socket accepts no more data (section 5.5.1 of
  RFC 6455). A frame is either wholly written or not at all. Encoding an envelope never yields nil data; that it may fail
  is modelled.
- A commit that fails leaves nothing behind; a savepoint that cannot be released leaves the enclosing transaction aborted
  or its connection broken.
- The session clock of the server and that of the database are one; a request's two readings around its renewal decision
  are one reading.
- The texts of times and uuids read back as what was written, and a time's text contains no bar.
- argon2 yields a key of the length asked for, and is otherwise uninterpreted.

Where the code and what it says about itself differ, the code is modelled:

- `turn.started` comes before `match.started` (internal/matches/actor.go:67-71).
- "Buckets idle for longer than ttl are discarded" (platform/security/ratelimit.go:37) is true exactly when
  burst <= rate * ttl: `RateLimiter.IdleBucketsAreDiscardedIff`.
- A request whose clock reading is older than a sweep that ran before it got the lock can be allowed where a limiter that
  never sweeps would deny it, and so can later ones. No continuation with requests from time c on can tell that a sweep
  took place if and only if every bucket it dropped would have been full at c too: `RateLimiter.SweepUnnoticedIff`.
- docs/protocol.md:26-29 says messages are never dropped. A message refused by a full queue is dropped, and a later one
  may still be accepted before the connection closes: `ConnectionRuns.DroppedThenAccepted` is such a run. What holds is
  `Connections.NumbersOnTheWire` and `Connections.NumbersAreConserved`.
- "Explain, then close" (internal/realtime/router.go:82-86) holds if and only if the queue accepted the explanation:
  `Connections.DrainedBeforeClose`. `ConnectionRuns.ClosedUnexplained` is a run in which a queued close is executed
  without it.
- The first part of a password hash, before the first dollar sign, is not looked at (platform/security/password.go:117):
  `PasswordHash.DecodesIff`.
- Purging expired sessions can change an answer, but only if a renewal lands more than 22 days after its request read the
  session: `Sessions.PurgeInvisibleIff`.
- The registry's comment that `Get` never sees a stale entry (internal/matches/registry.go:31-32) is true. That a running
  actor is found under its match holds at all times if and only if no match gets an actor while it still has one:
  `Registries.AlwaysFoundIff`. Starting an actor for a match that has one would lose it (`Registries.StartedTwiceLost`),
  but the program never does: it calls StartActor once for each match it creates, and each has a fresh id
  (internal/matches/service.go:51-72, internal/rooms/service.go:284-306), so `Registries.StartedOnceAllFound` applies.
- A reader can see a match in progress without a turn, only after a failed turn write: `Actors.ReaderSees`.
- The join-code alphabet has 31 symbols, not 32 (internal/rooms/service.go:42, internal/rooms/repository.go:107).
- A public room has no join code, so joining it by code answers ErrInvalidJoinCode, not the ErrWrongJoinPath announced in
  internal/rooms/model.go:167-170.

## Model

| member | source | states |
|---|---|---|
| `RateLimiter.Limiter.AllowAt` | platform/security/ratelimit.go:61-84 | the bucket updates in place as specified, and the answer is the one a limiter that remembers only allowed requests gives |
| `RateLimiter.Limiter.ResetKey` | platform/security/ratelimit.go:88-92 | only the key's bucket goes, and its past with it |
| `RateLimiter.Limiter.SweepTick` | platform/security/ratelimit.go:112-127 | visiting keys in any order, exactly the buckets that would have refilled are deleted, and nothing declared changes |
| `RateLimiter.StepAgrees` | platform/security/ratelimit.go:61-127 | every step keeps the stored tokens equal to the minimum, over all windows that start at an allowed request, of what the window leaves, and answers alike |
| `RateLimiter.LimiterIsExact` | platform/security/ratelimit.go:61-127 | after every run with resets and sweeps, a request at `now` is allowed if and only if for each i the requests allowed from the i-th on, with this one, number at most burst + (now - time of the i-th) * rate |
| `RateLimiter.RunAgrees` | platform/security/ratelimit.go:61-127 | every run answers as the limiter that remembers only allowed requests does |
| `RateLimiter.EveryWindowIsBounded` | platform/security/ratelimit.go:61-84 | over every run, the requests the limiter itself allowed from the i-th to the j-th number at most burst + (time of the j-th - time of the i-th) * rate |
| `RateLimiter.AfterBurstAllowedIff` | platform/security/ratelimit.go:61-84 | after burst requests at one time on a new key, a request at a later time is allowed if and only if the time between them, times rate, is at least 1 |
| `RateLimiter.SweepIsInvisible` | platform/security/ratelimit.go:113-127 | every run gives the answers of the same run without its sweeps |
| `RateLimiter.SweepUnnoticedIff` | platform/security/ratelimit.go:56-63 | no continuation with requests from time c on, with any resets and sweeps, can tell that a sweep took place, if and only if every bucket it dropped would be full at c too; so always when no request is older than the tick |
| `RateLimiter.NextRequestNoticesIff` | platform/security/ratelimit.go:56-63 | the request right after a sweep is answered differently exactly when the sweep dropped its bucket and the bucket holds less than one token at the request's older time |
| `RateLimiter.LateRequestExample` | platform/security/ratelimit.go:56-63 | a concrete run where it does |
| `RateLimiter.StaleSweepSparesBucket` | platform/security/ratelimit.go:112-126 | a sweep whose tick is no later than a bucket's last use leaves that bucket alone, whatever else the table holds |
| `RateLimiter.IdleBucketsAreDiscardedIff` | platform/security/ratelimit.go:36-37 | every bucket idle for longer than ttl is deleted by the next sweep if and only if burst <= rate * ttl |
| `Matches.Normalize` | internal/matches/model.go:172-202 | accepts exactly full sides, identified by position, of distinct non-nil players, a known mode and ruleset and a positive timer, with the errors in order; fills in the ruleset |
| `Matches.RefusedIff` | internal/matches/model.go:172-202 | each validation error, exactly: unknown mode, unknown ruleset, a timer below 1, sides that are not two full ones of distinct non-nil players |
| `Matches.TransitionIff` | internal/matches/model.go:64-94 | every legal transition, written out |
| `Matches.TerminalIffNoWayOut` | internal/matches/model.go:55-94 | the terminal states are exactly those no transition leaves |
| `Turns.TurnAfterIs` | internal/matches/turn.go:6-31 | after k timeouts the turn is (k mod 2, (k div 2) mod p), for any p players a side |
| `Turns.TurnsFollowSeats` | internal/matches/turn.go:10-31 | turn k belongs to the seat that fills (k mod capacity)-th |
| `Turns.TurnsAreFair` | internal/matches/turn.go:10-31 | over any m consecutive turns each seat gets m div capacity turns or one more, so two players differ by at most one |
| `Rooms.SeatOrderAlternates` | internal/rooms/model.go:37-62 | both seat orders are the alternating one, and list every seat once |
| `Rooms.FullIffEverySeatTaken` | internal/rooms/model.go:46-62 | by pigeonhole the member count reaches the capacity if and only if every seat is taken, and never exceeds it |
| `Rooms.ApplyKeeps` | internal/rooms/service.go:90-298 | every transaction keeps: distinct seats of the seat order, the host the longest-seated member, an open room never empty, a room with a match closed, at most one match |
| `Rooms.ApplyNeverReopens` | internal/rooms/service.go:90-298 | no transaction reopens a room, takes a match back or changes the configuration |
| `Rooms.FullRoomStarts` | internal/rooms/service.go:252-298 | a full, ready, open room always starts: its sides pass the match feature's validation and every player keeps side and slot |
| `Rooms.FullSidesAreWellSeated` | internal/rooms/service.go:314-329 | the same for any number of players a side: every slot is filled by a distinct non-nil player |
| `RoomAnswers.StartAnswersIff` | internal/rooms/service.go:252-298 | each answer of Start, exactly: Ok if and only if the caller is the host, the room is open, its members number 2 (4 in 2v2) and all of them are ready; each refusal when the checks before it hold and its own fails |
| `RoomAnswers.StartOkMeans` | internal/rooms/service.go:260-277 | whatever rows it reads, a Start answered Ok found the four facts |
| `RoomAnswers.StartEffect` | internal/rooms/service.go:284-298 | refused, Start changes nothing; otherwise the room closes and one match is added with the room's id, mode, ranked flag, ruleset and timer, every member at its side and slot and every slot a member's |
| `RoomAnswers.JoinAnswersIff` | internal/rooms/service.go:90-105 | each answer of Join, exactly; the newcomer gets the first seat of the written-out order that no row occupies, not ready, and nothing else changes |
| `RoomAnswers.JoinByCodeAnswersIff` | internal/rooms/service.go:109-161 | the same for JoinByCode on the room the code may lead to |
| `RoomAnswers.LeaveAnswersIff` | internal/rooms/service.go:165-200 | each answer of Leave; one row goes, the room closes exactly with its last member, and a leaving host is followed by the member who joined before all others left |
| `RoomAnswers.SetReadyAnswersIff` | internal/rooms/service.go:205-210 | each answer of SetReady; the caller's flag takes the value asked for and every other row and column stays as it was |
| `RoomService.SelectMembers` | internal/rooms/repository.go:168-178 | the member rows, each once, ordered by side and slot |
| `RoomService.FirstOpenSeat` | internal/rooms/service.go:147-160 | the first seat of the order that no row occupies |
| `RoomService.EarliestMember` | internal/rooms/service.go:192-197 | the loop finds the earliest-joined member |
| `RoomService.BuildMatchSides` | internal/rooms/service.go:314-329 | fills the two arrays so that each slot holds the member seated there, or the nil id; fails if and only if a seat is out of range |
| `RoomService.GenerateJoinCode` | internal/rooms/repository.go:112-122 | eight characters, the i-th being the symbol of the 31-symbol alphabet at the i-th byte modulo 31 |
| `RoomService.GeneratedCodeIsCanonical` | internal/rooms/service.go:109-113 | a generated code is found as typed: trimming and upper-casing leave it alone |
| `RoomService.TypedCode` | internal/rooms/service.go:109-113 | white space around a typed code does not matter, nor does its case, and nothing else is changed |
| `RoomService.Normalize` | internal/rooms/model.go:183-207 | answers with the refusal the input deserves, and fills in the defaults |
| `RoomService.Refusal` | internal/rooms/model.go:183-207 | which input is refused with which error: a timer outside 15 to 120, a negative wager |
| `RoomService.NewRoomIs` | internal/rooms/model.go:141-149 | a created room has what was asked for, or a 30 second timer, no wager and spectators allowed; it is open, for eight-ball, with its host not ready in the first seat |
| `RoomService.SeatIn` | internal/rooms/service.go:137-161 | seatMember: closed, already a member, full, or seated in the first open seat |
| `RoomService.LeaveFrom` | internal/rooms/service.go:165-200 | the last member closes the room; a leaving host hands over to the earliest-joined member left |
| `RoomService.DecideStart` | internal/rooms/service.go:254-294 | Start's checks in order and the input it hands over |
| `RoomService.Service.InsertRoom` | internal/rooms/service.go:68-75 | one attempt inserts room and host together, or collides on the code and changes nothing |
| `RoomService.Service.Create` | internal/rooms/service.go:46-85 | an invalid input gets its refusal and changes nothing; otherwise the room has the first of three codes that is free, or none is and nothing changes |
| `RoomService.Service.Join` | internal/rooms/service.go:90-105 | the room changes as the transaction alone specifies, no other room does, and all rooms stay in order |
| `RoomService.Service.JoinByCode` | internal/rooms/service.go:109-133 | the same for the one open room the code leads to; ErrInvalidJoinCode if there is none |
| `RoomService.Service.Leave` | internal/rooms/service.go:165-200 | the same for Leave, on open and closed rooms |
| `RoomService.Service.SetReady` | internal/rooms/service.go:205-210 | the same for SetReady, whatever the room's state |
| `RoomService.Service.Start` | internal/rooms/service.go:252-308 | the same for Start: match row and closed room together, or neither |
| `RoomService.AppliedKeepsOk` | internal/rooms/service.go:90-298 | each of these keeps every room in order and join codes distinct |
| `RoomSerial.Serializable` | internal/rooms/service.go:90-308 | every interleaving with aborts gives the answers and the final room of a serial order of the requests that were made (Join and Leave at commit, SetReady at its update, Start at its member read); the room is in order, the seat index was never hit, actors run only for committed matches |
| `RoomSchedule.QuietCommutesWithLaunch` | internal/rooms/service.go:205-210 | why Start may be placed at its read: launching first and then running the SetReady updates that came after gives the same answers and the same room |
| `RoomSchedule.JoinDecided` | internal/rooms/service.go:142-160 | a join that decided on rows differing from the present ones in ready flags only is the join of the present ones; its insert meets neither the primary key nor the unique seat index |
| `RoomSerial.UncommittedIsPrivate` | internal/rooms/service.go:245-251 | until its commit a transaction changes nothing anyone else can see, so a failed or aborted Start leaves no match and no closed room |
| `RoomSerial.RunNeverReopens` | internal/rooms/service.go:165-298 | along every run a closed room stays closed and no match or actor disappears |
| `RoomSerial.AtMostOneStartWins` | internal/rooms/service.go:252-308 | over every run at most one Start wins; there is a match row exactly when one does, and then the room is closed |
| `RoomSerial.WinnersReadReadyRooms` | internal/rooms/service.go:254-277 | over every run: a Start that won held, at some moment, the row lock of a room that was open, full and all ready and that its caller hosted |
| `RoomSerial.FinishesInFive` | internal/rooms/service.go:90-308 | in every reachable state a process that holds the lock, or that nobody stands in the way of, has its answer within five moves of its own |
| `RoomRaces.SerialJoins` | internal/rooms/service.go:137-161 | one after another, as many newcomers as there are free seats get in and the rest get ErrRoomFull |
| `RoomRaces.ExactlyMinWin` | internal/rooms/service.go:90-161 | n distinct newcomers racing for k free seats: every complete locked schedule has exactly min(n, k) winners, the rest ErrRoomFull |
| `UnlockedRace.IndexAloneIsSafe` | migrations/000004_rooms.up.sql:85-91 | without the lock, the unique index alone keeps seats distinct, and between 1 and k win, exactly one when k = 1 |
| `PlayOrder.StepContinues` | internal/rooms/service.go:137-161 | as long as nobody leaves, the j-th to join holds the j-th seat |
| `PlayOrder.PlaysInJoinOrder` | internal/matches/turn.go:10-31 | a room filled without leaves plays in join order: turn k is the (k mod capacity)-th joiner's |
| `MatchRows.Tables.InsertParticipant` | internal/matches/repository.go:122-126 | refused by the primary key, the unique seat index or the check on the slot, otherwise one more row |
| `MatchRows.Tables.Insert` | internal/matches/repository.go:107-130 | succeeds exactly for an unused id and a roster without repeats that fits the slots, and then stores every player in side and slot; after a refusal the match row and the players before the refused one are there, for the transaction to roll back, and no other match's rows have changed |
| `MatchRows.Tables.CreateInTx` | internal/matches/service.go:47-56 | validation errors change nothing; a valid input that fits the slots is stored unless its id is in use |
| `MatchRows.Tables.UpdateState` | internal/matches/repository.go:188-193 | three columns of one row change, and nothing else |
| `MatchRows.Tables.UpdateTurn` | internal/matches/repository.go:195-200 | the turn columns of one row change, and nothing else |
| `MatchRows.Tables.SelectParticipants` | internal/matches/repository.go:170-186 | every participant row of the match, ordered by side and slot |
| `MatchRows.Tables.Scan` | internal/matches/repository.go:140-162 | the match its row and its listed participants describe, if there is one |
| `MatchRows.ListingIsRoster` | internal/matches/repository.go:47-51 | any answer ordered by side and slot is the roster in order |
| `MatchRows.InsertThenScan` | internal/matches/repository.go:107-162 | reading back gives the match the insert returned, for any number of players a side: waiting, with every column and the sides as in the input and nothing else set |
| `MatchRows.UpdatesStoreTheActorsMemory` | internal/matches/repository.go:93-105 | the two updates store what the actor's two writes mean, and a reader sees the new state or turn and every other column unchanged |
| `MatchRows.CreatedMatchCanRun` | internal/matches/service.go:76-85 | every match that validation lets through is one an actor can run from: waiting, no turn, players on both sides, its row saying the same |
| `Actors.Actor.GotoState` | internal/matches/actor.go:108-145 | a state change: validated, stamped, written or lost, and reported |
| `Actors.Actor.SetTurn` | internal/matches/actor.go:147-156 | a turn change: stamped, written or lost, and reported |
| `Actors.Actor.Stop` | internal/matches/actor.go:57-62 | a non-blocking post on an inbox of at most 32 |
| `Actors.Actor.React` | internal/matches/actor.go:76-97 | one round of the select loop; which ending it makes of a match is `Actors.RunEnds` |
| `Actors.Actor.Run` | internal/matches/actor.go:66-99 | the whole goroutine body, for every sequence of wake-ups |
| `Actors.EveryRun` | internal/matches/actor.go:66-156 | every run from Waiting: events starting, turn, started, turn*, ended; no illegal transition, never a nil turn or an empty side; exactly one terminal state, at the end; started once, and the turn is the rotation applied once per timeout |
| `Actors.RunEnds` | internal/matches/actor.go:55-99 | the first wake that can end a run ends it: a cancelled context leaves the match Abandoned, a stop command Cancelled, completed at that wake's time, in the turn it was in |
| `Actors.RunGoesOn` | internal/matches/actor.go:76-97 | until then the match is in progress, in the turn that the timers fired so far have brought it to, which began when the last of them fired |
| `Actors.RunEndsIff` | internal/matches/actor.go:76-97 | a run has ended exactly when some wake was a cancellation, or a command after a stop was posted |
| `Actors.LastEventReports` | internal/matches/actor.go:108-156 | the latest event reports the match as it now is |
| `Actors.StoredIsLastWritten` | internal/matches/actor.go:108-156 | at every moment of every run, with any write failures, each stored group of columns is the memory at that group's last successful write; without failures the row is the memory |
| `Actors.ReaderSees` | internal/matches/actor.go:67-71 | at every moment of every run, exactly which state and whether a turn a reader of the row sees; without failures a match in progress has a turn |
| `Actors.StoredStateMovesForward` | internal/matches/actor.go:131-133 | of any two moments of any run, the later row's state is reachable from the earlier one's by legal transitions, whatever writes failed |
| `Registries.NoStaleEntries` | internal/matches/registry.go:26-72 | the map never holds an actor that has removed itself, and the wait group is at zero exactly when no counted goroutine is left |
| `Registries.AlwaysFoundIff` | internal/matches/registry.go:33-64 | at every moment of a run every actor not yet removed is found under its match, if and only if no actor is ever registered for a match that still has one |
| `Registries.StartedOnceAllFound` | internal/matches/service.go:80-85 | so it is when no match is started twice, as in the program |
| `Registries.StartedTwiceLost` | internal/matches/registry.go:50-54 | a run in which two actors of a match overlap: the first exit removes the second's entry, which is running and not found |
| `Registries.Registry.Start` | internal/matches/registry.go:33-48 | registers, counts and spawns one actor |
| `Registries.Registry.Exit` | internal/matches/registry.go:41-54 | the deferred calls remove the entry and then count down |
| `Connections.StepKeeps` | platform/websocket/conn.go:125-216 | every step of session, pump, watcher and socket keeps the queue within 64, the wire a record of what was taken, and every number accounted for |
| `Connections.WireIsPrefixOfAccepted` | platform/websocket/conn.go:72-82 | the wire is always a prefix, in order, of the accepted data frames, plus at most one last close frame; the queue never exceeds 64 |
| `Connections.DrainedBeforeClose` | platform/websocket/conn.go:138-158 | an executed queued close finds exactly the frames accepted before it on the wire, and the last of them is its own explanation, with the code that matches, if and only if the queue accepted that explanation |
| `ConnectionRuns.ClosedUnexplained` | internal/realtime/router.go:70-98 | a run in which a queued close is executed without its explanation, which met a full queue |
| `ConnectionRuns.DroppedThenAccepted` | platform/websocket/conn.go:128-136 | a run in which a message is dropped and the next one accepted |
| `Connections.CloseIsSent` | platform/websocket/conn.go:196-199 | a close executed on an open socket sends its own code and ends the pump |
| `Connections.SlowClientIsClosed` | internal/realtime/router.go:46-53 | the watcher closes an open socket with code 3000, and only once Full has been raised |
| `Connections.QueueDrains` | platform/websocket/conn.go:181-205 | an idle pump whose writes succeed puts the whole queue on the wire, in order |
| `Connections.NothingFollows` | internal/realtime/router.go:55-61 | after that nothing follows on the wire, though the session goes on handling frames |
| `Connections.NumbersOnTheWire` | internal/realtime/router.go:26-28 | numbers on the wire strictly increase, and the k-th is k + 1 exactly when nothing numbered before it was refused; a refusal for want of room has raised Full |
| `Connections.GreetingIsFirst` | internal/realtime/router.go:32-37 | the first data frame is the greeting, number 1 |
| `Connections.NumbersAreConserved` | internal/realtime/router.go:70-123 | every number drawn is written, queued, in the pump's or the session's hands, refused, not encodable, or the one lost to a failed write |
| `ConnectionObjects.Conn.Send` | platform/websocket/conn.go:128-136 | enqueues, or reports false and raises Full |
| `ConnectionObjects.Conn.CloseAfterDrain` | platform/websocket/conn.go:150-158 | the same for a close instruction |
| `ConnectionObjects.Conn.WriteItem` | platform/websocket/conn.go:192-205 | what the pump does with the item it took |
| `ConnectionObjects.Conn.Other` | platform/websocket/conn.go:181-216 | every step of the pump, the watcher and the world outside |
| `ConnectionObjects.Connection.NextSeq` | internal/realtime/router.go:26-28 | the counter after one increment |
| `ConnectionObjects.Connection.SendEnvelope` | internal/realtime/router.go:114-123 | encode and enqueue; a failure of either is only logged |
| `ConnectionObjects.Connection.Handle` | internal/realtime/router.go:70-109 | the reply each frame gets, and the close after a frame that cannot be gone on from, queued or else Full raised; undisturbed and with room for two, exactly the items `ConnectionObjects.HandleAlone` lists |
| `ConnectionObjects.HandleSays` | internal/realtime/router.go:70-109 | whatever the other goroutines do meanwhile, a frame adds to the queue one error envelope of its own kind under the next number, if it encodes and finds room, then close 1003 after a malformed frame and 1002 after a wrong version, if there is room, and nothing else |
| `ConnectionObjects.HandleAlone` | internal/realtime/router.go:70-109 | undisturbed, with room for two: exactly ErrMalformed and close 1003, ErrVersion and close 1002, or ErrUnknownType and no close |
| `ConnectionObjects.Connection.Serve` | internal/realtime/router.go:32-62 | greeting and read loop, with the other goroutines running anywhere in between |
| `Paging.Table.ListPage` | internal/rooms/service.go:340-363 | the first rows after the cursor, newest first, with the last one's key as next cursor exactly when more rows follow; a limit that is not 1 to 50 counts as 20 |
| `Paging.PageSize` | internal/rooms/service.go:341-343 | limits 1 to 50 are taken as they are and any other counts as 20 |
| `Paging.PageCovers` | internal/rooms/repository.go:67-86 | a page leaves out nothing listed between its cursors |
| `Paging.NoRowTwice` | internal/rooms/service.go:340-363 | whatever rows come and go between pages, rows come latest first, the larger id first among equals, none twice |
| `Paging.LastingRowsOnce` | internal/rooms/service.go:340-363 | when the cursor runs out, every row listed throughout has been returned exactly once |
| `Paging.OnlyListedRows` | internal/rooms/repository.go:67-86 | no row is returned that was not listed when its page was fetched |
| `Paging.SteadyTrip` | internal/matches/service.go:96-118 | on an unchanging table of n rows the traversal is done after exactly max(1, ceil(n / size)) pages, the listing returned in order |
| `Paging.SteadyTripEnds` | internal/matches/service.go:96-118 | and so ends, with that page count written out and the whole listing returned |
| `Base64.DecodeUndoesEncode` | platform/security/password.go:65-69 | unpadded base64 round trip for all bytes, both alphabets |
| `Base64.DecodesIff` | platform/security/password.go:137-144 | exactly which texts the lenient decoder accepts |
| `Base64.EncodeUndoesDecodeIff` | platform/security/password.go:137-144 | the other round trip holds exactly when the spare bits are clear |
| `Base64.Vectors` | platform/security/password.go:65-69 | vectors of section 10 of RFC 4648, and the characters in which the two alphabets differ |
| `Cursors.DecodeUndoesEncodeCursor` | internal/rooms/pagination.go:24-53 | a token decodes to the position it was made from, and is never empty |
| `Cursors.TokensDiffer` | internal/matches/pagination.go:24-27 | two positions never share a token |
| `Cursors.TokenHolds` | internal/rooms/pagination.go:24-27 | a token is made of letters, digits, - and _ and holds the time's text, a bar and the id's text |
| `Cursors.List` | internal/rooms/service.go:340-363 | a bad token is the client's error; otherwise the page named by the token, and a token for the cursor to follow |
| `Sessions.RevokedForGood` | internal/auth/repository.go:39-55 | once revoked by Logout or LogoutAll, no later read succeeds, under every interleaving with renewals, logins and purges |
| `Sessions.UnusedExpires` | internal/auth/service.go:137-160 | a session no request has looked up for 1209600 seconds is refused, even if renewals that were already computed land in between |
| `Sessions.ActiveNeverExpires` | internal/auth/service.go:147-160 | a session used at gaps of less than 604800 seconds is granted every time, whatever happens elsewhere |
| `Sessions.IssuedIsFresh` | internal/auth/service.go:114-130 | a login makes a session from which that run of uses may begin |
| `Sessions.ReadFinds` | internal/auth/repository.go:39-45 | a request's read finds the one row with its token that is neither revoked nor expired, or refuses |
| `Sessions.PurgeInvisibleIff` | internal/auth/repository.go:57-66 | purging never changes an answer if and only if every renewal lands within 1900800 seconds of its request's read |
| `Sessions.PurgeDeletes` | internal/auth/repository.go:64-66 | a purge deletes exactly the rows that expired more than 2592000 seconds ago |
| `SessionService.Service.SelectLiveSession` | internal/auth/repository.go:39-45 | the one session with the token that is neither revoked nor expired |
| `SessionService.Service.RevokeSession` | internal/auth/repository.go:47-50 | revokes one live session; revoking again changes nothing |
| `SessionService.Service.LogoutAll` | internal/auth/service.go:181-183 | revokes every live session of the user and counts them |
| `SessionService.Service.PurgeExpiredSessions` | internal/auth/service.go:187-189 | deletes exactly what expired more than 2592000 seconds ago, and counts it |
| `SessionService.Service.IssueSession` | internal/auth/service.go:114-130 | one new session, good for 1209600 seconds |
| `SessionService.Service.Consider` | internal/auth/service.go:149-151 | renews if and only if fewer than 604800 seconds are left, and then to 1209600 seconds from now; otherwise answers with the expiry it read |
| `SessionService.Service.Renew` | internal/auth/service.go:151-159 | a failed renewal is not fatal and leaves the old expiry |
| `SessionService.Service.Authenticate` | internal/auth/service.go:137-168 | granted exactly when the token is not empty and its session was live at the read; the whole course, with others' statements in between |
| `SessionService.CourseWithoutWrite` | internal/auth/service.go:147-168 | with 604800 seconds or more left at the decision, the course of a request adds nothing to what others do meanwhile but its answer, with the expiry it read |
| `SessionService.CourseWithWrite` | internal/auth/service.go:147-168 | with fewer, a write that succeeds gives row and answer the decision's time plus 1209600, and one that fails leaves the row and answers with the old expiry |
| `SessionService.AuthenticatedAlone` | internal/auth/service.go:137-168 | the same for a request that runs alone: the row and the answer before and after |
| `SessionService.CourseRefused` | internal/auth/service.go:142-145 | a request without a live session at its read is refused and does nothing else |
| `Transactions.Database.RunInTx` | platform/postgres/postgres.go:96-125 | begin, body, commit or rollback, with the deferred handler |
| `Transactions.InTxConsistent` | platform/postgres/postgres.go:96-125 | at every nesting the view is the replay of the writes whose enclosing calls have committed or are open |
| `Transactions.OnlyCommittedChainsSurvive` | platform/postgres/postgres.go:84-125 | the database ends with exactly the writes whose whole chain of enclosing calls committed, with errors returned or swallowed and panics anywhere |
| `Transactions.FailedCallChangesNothing` | platform/postgres/postgres.go:102-116 | a call that does not return nil leaves no trace, and one that does has committed |
| `Transactions.PanicsLeaveIff` | platform/postgres/postgres.go:102-108 | a panic raised at any depth leaves every enclosing call as a panic, never as an error a caller could swallow, and no call panics otherwise |
| `Transactions.AbortedIsStuck` | internal/rooms/service.go:43-45 | after a failed statement nothing a body goes on to do changes anything, until a rollback |
| `Transactions.SignupDone` | internal/auth/service.go:54-64 | a signup that succeeds has made user, profile and credential, none of which was there |
| `Transactions.SignupDoneIff` | internal/auth/service.go:54-64 | a signup succeeds exactly when everything it meets is in order and none of its rows was there |
| `Transactions.SignupsKeepKeys` | internal/users/service.go:44-76 | along every run of signups, whatever fails, users, profiles and credentials have the same keys |
| `PasswordHash.DecodeUndoesPrintIff` | platform/security/password.go:114-147 | decoding undoes printing exactly for version 19, nonzero parameters and a nonempty key; anything else printed is refused |
| `PasswordHash.FreshHashText` | platform/security/password.go:45-70 | a fresh hash, letter by letter, up to salt and key |
| `PasswordHash.FreshHashVerifiesIff` | platform/security/password.go:50-84 | a password verifies against a fresh hash exactly when it derives the same key; its own always does, and a fresh hash never needs a rehash |
| `PasswordHash.HashAnswersIff` | platform/security/password.go:50-70 | fewer than 10 bytes are too short and more than 1024 too long; any other password gets the text of its 32-byte key at memory 65536, time 3, threads 4 |
| `PasswordHash.VerifyAnswersIff` | platform/security/password.go:76-106 | a text that does not decode is an error to VerifyPassword and needs a rehash; one that does is compared at its own costs and length, and needs a rehash exactly when a cost is below 65536, 3 or 4 |
| `PasswordHash.DecodesIff` | platform/security/password.go:114-147 | exactly which texts decode, and to what: six parts between dollar signs, the first not looked at, argon2id, version 19, nonzero parameters, base64 salt and nonempty key |
| `PasswordHash.RefusedIff` | platform/security/password.go:114-147 | another version is refused as such, everything else that does not decode as a bad format |
| `PasswordHash.SplitIff` | platform/security/password.go:115-117 | the parts are the texts without a dollar sign that make up the hash: one way only |
| `PasswordHash.VersionReadsIff` | platform/security/password.go:122 | the version field is "v=" and a number |
| `PasswordHash.IntReadsIff` | platform/security/password.go:122 | that number: blanks, an optional sign, digits as far as they go, within 64 bits |
| `PasswordHash.ParamsReadIff` | platform/security/password.go:130 | the parameter field is "m=", ",t=" and ",p=" in this order, each before a number below its width |
| `PasswordHash.FieldReadsIff` | platform/security/password.go:130 | each such field: its literal and then the number |
| `PasswordHash.UintReadsIff` | platform/security/password.go:130 | that number: blanks, digits as far as they go, no sign |
| `PasswordHash.RehashIff` | platform/security/password.go:100-106 | of printed hashes exactly the weaker ones need a rehash |

## Left out

- HTTP handlers, routes, middleware, cookies, logging, configuration, metrics and the Angular client.
- SQL text, pgx and Postgres internals, foreign keys, and database errors other than the aborts, refusals and lost writes above.
- Detail reads after a mutation (internal/rooms/service.go:212-243): separate statements outside the transaction.
- Login, email and handle validation, profile edits: true but easy.
- Cryptography and randomness: argon2, SHA-256 and random bytes are parameters.
- Floating-point rounding in the limiter: tokens and time are reals.
- Timing: timers, ping intervals, write deadlines and ttl tickers fire whenever the schedule says.
- Unicode: trimming and upper-casing a typed join code, and the white space a scanned number may follow, are modelled for ASCII characters.
- The match_sides rows and the match_events table: written or created, never read.
- The number of slots a side is a parameter of the match tables; migrations/000005_matches.up.sql admits two.
- Actors.Actor.Run: Stop calls that arrive before the loop begins are counted in the inbox the run starts with.
- Cursors.List: RFC 3339 and uuid texts are a pair of faithful functions; years past 9999 are not considered.
- Sessions.ActiveNeverExpires: each use is a request that runs without interleaving and whose renewal succeeds.
