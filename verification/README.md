# Verified models of the sync-app messenger server

The server keeps numbered frame streams that survive reconnects, fans messages out to the nodes
its members are connected to, caches authorization, sells subscriptions, hands out one-time
prekeys and pages through contact books, chat lists and threads. This project models the logic on
top of its stores, and proves what that logic promises over every input, every run and every
interleaving the model allows.

Code that updates fields or loops is modelled as classes and methods proved against specification
functions. Protocols are modelled as state machines over their steps, and the theorems are about
`Run(steps)` for every sequence of steps.

| file | what it models |
|---|---|
| ResumeStream.dfy | the replay buffer, the AUTH_OK / RESUME_OK numbering of a connection, and the joint run of a server and an honest client, with writes that fail before or after their bytes are sent |
| ConnWriter.dfy | the three-lane writer: `Send`, `close`, the nested selects and `writeOne`, step by step |
| Sessions.dfy, AuthRuns.dfy, SteadyRuns.dfy | session rows and the auth service; every interleaving of Resume, Authenticate and ChangePassword split at their store calls; sessions in steady use |
| ChatService.dfy, CacheRaces.dfy | the authorization cache as a class, and its concurrent loads, invalidations and evictions as steps |
| Invites.dfy, OwnerRaces.dfy | joining, role changes and the last-owner rule read through that cache, one call at a time and overlapping |
| Fanout.dfy | node inversion, inline and sharded delivery, keyset walks and batches |
| KeyDir.dfy | the prekey directory in its in-memory and Redis forms |
| Billing.dfy, Periods.dfy | payments, subscriptions and the expiry sweep; where paid time goes when callbacks, checkouts and cancellations overlap |
| Money.dfy, Decimal.dfy | decimal money text on 64-bit integers |
| Contacts.dfy | address books and their incremental sync by a millisecond cursor |
| ChatList.dfy | numeric order of ids as text, and the paged fallback chat list |
| Threads.dfy | message logs: retries, edits and deletions, thread roots, reply counts, thread reads and forward origins |

## Findings

Where the code does not quite meet a promise, the model follows the code and the exact condition
is proved.

- RESUME_OK is documented to continue strictly after the last number. It repeats the client's cursor when
  nothing was recorded since its last handshake. A write that fails after its bytes were sent makes it
  go one below the cursor, exactly when that connection had recorded nothing (`ResumeIsGapFree`). The
  next frame recorded then takes a number the client has already read (`NumberReusedExactlyWhen`). If
  the client does not read it on that connection, no later resume replays it (`GoneForGood`,
  `TornWriteLosesAFrame`).
- The SQL session row remembers a single consumed resume token. An older one is refused but leaves
  the session live (`SpentTokenIsRecognised`, `OldTokenLeavesSessionLive`). The in-memory index remembers all.
- A session is still accepted at the instant it expires, but its expiry can no longer be extended then,
  so gaps one millisecond over half the TTL can lapse (`LongerGapsLapse`). When the extension reaches
  the store later than the lookup, gap and delay together must stay within half the TTL
  (`SteadyRuns.SteadyUseNeverLapses`, `LateTouchLapses`).
- The invite service is wired to write roles straight to the store, past the cache's invalidation.
  A chat can then lose its last owner, exactly under the condition in `LastOwnerLostExactlyWhen`.
  With role changes through the chat service and calls that do not overlap it never can
  (`EveryChatKeepsAnOwner`).
- SetRole counts the owners and then writes. Two owners who demote each other at the same time both
  see two, and the chat is left with none (`MutualDemotionLeavesNoOwner`). A write takes the last owner
  only if something was written to the chat after what it had checked
  (`LastOwnerLostOnlyWhenOvertaken`).
- The two prekey directories answer differently for one kind of call, a device's first publish with an
  empty signed prekey (`StepsAgreeExactlyWhen`). The documentation of `State` says the first-seen time
  is zero when a key is introduced; the code returns the time.
- The money round trip holds for the minimum 64-bit integer too, because it wraps twice; its text is
  malformed (`RoundTrip`, `WellFormedExactlyWhen`). An amount text beyond 64 bits can wrap silently
  (`AmountIsReadExactlyWhen`).
- A checkout forgets a period end that has passed (`CheckoutResetsExactlyWhen`). A payment settled
  later is worth less than a period to the account exactly when it is older than that end
  (`WorthAPeriodUnlessToldTooLate`, `DelayedNoticeLosesTime`). That cannot happen to callbacks that
  count from the server's clock (`ClockedCallbacksLoseNothing`).
- HandleCallback, Checkout and Cancel each read the subscription and write all of it later. Two payments
  notified at the same moment give one period (`TwoAtOnceGiveOnePeriod`). A cancellation can take a
  paid period (`CancelTakesAPeriod`), and a checkout paid access (`CheckoutTakesAccess`). A write takes
  paid time exactly when the account's end is later than the one its call had read, and for a callback
  also later than the payment (`LostOnlyToAWriteInBetween`). Nothing else ends access but time
  (`AccessLostOnlyToAStaleWrite`).
- Removing a blocked contact writes its row with stamp 0, so no sync ever sends it and clients keep the
  name (`LateRowIsNeverSent`, `RemovedNameIsKept`).
- A retried message is recognised by its sender and key, but only inside its chat. Once the same key has
  been stored in another chat, a retry in the first is stored again (`RetryRecognisedExactlyWhen`,
  `KeyReusedElsewhereStoresTwice`).
- An indexed thread read asked about a reply that itself has replies finds nothing
  (`ThreadReadIsRepliesExactlyWhen`, `AnsweredReplyHasNoThread`).

## Model

| member | source | states |
|---|---|---|
| `ReplayBuffer.SinceIsSuffix` | server/internal/replay/replay.go:118-133 | wherever an ascending buffer splits at a number, the frames returned are exactly the upper part, in order |
| `ReplayBuffer.SinceMember` | server/internal/replay/replay.go:118-133 | a frame is returned if and only if it is buffered and numbered above the argument |
| `ReplayBuffer.SinceBelowHighWater` | server/internal/replay/replay.go:118-145 | no returned frame is numbered above the high-water mark |
| `ResumeStream.Conn.DoAuth` | server/internal/gateway/conn.go:333-342 | a login writes AUTH_OK as the first number and nothing else |
| `ResumeStream.Conn.DoResume` | server/internal/gateway/conn.go:345-404 | an accepted resume writes exactly the missed frames under their old numbers, then RESUME_OK under the number after the high-water mark, and its counter ends there |
| `ResumeStream.Conn.WriteOne` | server/internal/gateway/conn.go:481-517 | a frame takes the next number whether or not its write succeeds, and is recorded only when it does |
| `ResumeStream.ResumeNumbers` | server/internal/gateway/conn.go:345-404 | a client that has read its last handshake is owed exactly the consecutive numbers from its cursor to the last one recorded, and the next handshake number is one more than that, or the old one when nothing was recorded |
| `ResumeStream.ResumeAcceptedExactlyWhen` | server/internal/gateway/conn.go:345-404 | in every run a client that comes back is accepted if and only if it holds the live token and the session has not ended; a token rotated away ends the session |
| `ResumeStream.EndedIsFinal` | server/internal/auth/auth.go:273-329 | once a session has ended no continuation of the run accepts a resume |
| `ResumeStream.ClientNeverSeesAGap` | server/internal/gateway/conn.go:345-404 | over every run, torn writes included, no number is skipped: each frame read takes the number after the highest read or repeats it, and only RESUME_OK goes below, by one |
| `ResumeStream.ResumeIsGapFree` | server/internal/gateway/conn.go:345-404 | over every run, a resume replays exactly the recorded frames above the cursor, consecutively and without leaving one out, and RESUME_OK is the next number, the cursor or one below it, each exactly when stated |
| `ResumeStream.RecordedFramesReadOnce` | server/internal/gateway/conn.go:481-517 | over every run without a torn write, what is read is one unbroken stream from 1, every recorded frame up to the cursor has been read, and no payload number is read twice |
| `ResumeStream.RecordedFramesAreRead` | server/internal/gateway/conn.go:481-517 | over every run, a recorded frame up to the cursor has been read unless it took a number that was read before it was recorded |
| `ResumeStream.NumberReusedExactlyWhen` | server/internal/gateway/conn.go:481-517 | over every run, a frame is recorded under a number already read if and only if it is the first on its connection and the cursor was past that connection's handshake |
| `ResumeStream.GoneForGood` | server/internal/gateway/conn.go:345-404 | a recorded frame at or below the cursor that was neither read nor is still in flight is read in no continuation of the run |
| `ResumeStream.TornWriteGoesBackwards` | server/internal/gateway/conn.go:481-517 | the shortest run in which RESUME_OK goes back: number 1 after frame 2 |
| `ResumeStream.TornWriteLosesAFrame` | server/internal/gateway/conn.go:481-517 | the same run continued: the frame recorded next under number 2 is never replayed |
| `ConnWriter.Connection.Send` | server/internal/gateway/conn.go:120-146 | a frame is queued on its lane if there is room; otherwise typing and presence frames are dropped, and any other frame closes the connection, which is the only refusal |
| `ConnWriter.Connection.WriteOne` | server/internal/gateway/conn.go:481-517 | the frame gets the next number; a failed write closes the connection |
| `ConnWriter.ClosingIsFinal` | server/internal/gateway/conn.go:644-667 | over every run, a closed connection stays closed, the writer stops only on a closed one, and from then on nothing is written and no number is used |
| `ConnWriter.WriterIsOrderedAndLossless` | server/internal/gateway/conn.go:432-517 | over every interleaving, written numbers rise by exactly one, and each lane's accepted frames are, in order, those written, the one in hand and those queued |
| `ConnWriter.NothingElseIsDropped` | server/internal/gateway/conn.go:120-146 | in every run no lane is over its depth; a frame is queued if and only if there is room, without which typing and presence frames are dropped and any other frame closes the connection |
| `ConnWriter.TakesHighestFirst` | server/internal/gateway/conn.go:432-476 | from any idle state the writer, left alone, takes the head of the highest lane that is not empty, and no select falls through while it has something ready |
| `ConnWriter.AtMostOneFrameBeforeControl` | server/internal/gateway/conn.go:432-476 | once a control frame is queued on any lane, at most one other frame is written before a control frame, whatever the producers do |
| `Sessions.Service.ListSessions` | server/internal/auth/sessions.go:29-41 | exactly the account's valid sessions, each once |
| `Sessions.Service.RevokeOwned` | server/internal/auth/sessions.go:48-65 | found exactly when the session is the caller's own; it is then invalid and keeps an earlier revocation time, and nothing else ever changes |
| `Sessions.Service.RevokeAll` | server/internal/auth/sessions.go:75-99 | every valid session but the kept one is revoked unless its store call fails, failures are reported, and the count is exact |
| `Sessions.Service.ChangePassword` | server/internal/auth/password.go:34-72 | the outcome and the new state in every case: when the password changes, which sessions close, and that a failure to close them leaves it changed |
| `Sessions.Service.Authenticate` | server/internal/auth/auth.go:207-252 | a valid session is accepted and its expiry extended only once half its TTL has passed |
| `Sessions.SteadyUseNeverLapses` | server/internal/auth/auth.go:238-252 | a session used by one call after another, at any times no more than half the TTL apart, is valid at every use |
| `Sessions.LongerGapsLapse` | server/internal/store/memory/sessions.go:60-74 | that bound is tight: one millisecond more can lapse a session in use |
| `SteadyRuns.SteadyUseNeverLapses` | server/internal/auth/auth.go:207-252 | over every interleaving, a session whose gaps between uses and whose delays between lookup and extension together stay within half the TTL is valid unless revoked |
| `SteadyRuns.LateTouchLapses` | server/internal/auth/auth.go:238-252 | that bound is tight: gaps of half the TTL and a delay of one millisecond lapse |
| `AuthRuns.ResumeTokenWinsOnce` | server/internal/auth/auth.go:273-311 | over every interleaving of store calls, no two calls that presented the same resume token were both accepted, and every accepted one is a rotation of its own |
| `AuthRuns.LookupFindsExactlyWhen` | server/internal/auth/auth.go:273-311 | in every run the lookup of a presented token finds a session if and only if some valid one has that token |
| `AuthRuns.AcceptedExactlyWhen` | server/internal/auth/auth.go:273-311 | in every run a call that found its session is accepted if and only if the session still has the token; it then holds one never handed out before, remembers the old one, and is otherwise as it was |
| `AuthRuns.BearerAcceptedExactlyWhen` | server/internal/auth/auth.go:207-252 | in every run a bearer is let in if and only if the session is valid |
| `AuthRuns.TouchExtendsExactlyWhen` | server/internal/auth/auth.go:238-252 | in every run an extension is written if and only if the session is still live and would last longer |
| `AuthRuns.LoginOpensOne` | server/internal/auth/auth.go:178-204 | in every run a login adds one session of that account, valid for one TTL, with a token never handed out before |
| `AuthRuns.ReplayRevokesExactly` | server/internal/auth/auth.go:289-329 | in every run a replayed token revokes its session, unless it was seen revoked already, and changes nothing else |
| `AuthRuns.SecondPresentationEndsSession` | server/internal/auth/auth.go:273-329 | any refused presentation of a token once handed out leaves its session revoked or expired, except one the SQL row no longer remembers |
| `AuthRuns.SpentTokenIsRecognised` | server/internal/store/memory/resume.go:36-49 | a spent token is recognised always in memory, and by the SQL row if and only if it is the last one rotated away |
| `AuthRuns.OldTokenLeavesSessionLive` | server/internal/store/postgres/postgres.go:403-425 | a run in which the SQL row refuses an older spent token and the session stays live |
| `AuthRuns.NothingSucceedsAfterTheEnd` | server/internal/auth/auth.go:273-329 | once a session is revoked or expired it stays so, and every call that still succeeds had looked it up before |
| `AuthRuns.SessionsLapseForGood` | server/internal/auth/auth.go:207-252 | over every run, expiry is at most one TTL after the last use, and no step makes an invalid session valid |
| `AuthRuns.ChangedPasswordEndsOtherSessions` | server/internal/auth/password.go:34-72 | from any run in which a change is about to list sessions: once it has reported success, every session the account then had but the kept one is never valid again, however the calls interleave |
| `AuthRuns.ChangedPasswordEndsNoOthers` | server/internal/auth/sessions.go:75-99 | whatever such a call does, every session it changes is another one of that account, and is revoked |
| `AuthRuns.FailureWasReal` | server/internal/auth/sessions.go:75-99 | over every run such a call reports failure only when one of its revocations failed |
| `AuthRuns.FailureIsReported` | server/internal/auth/sessions.go:75-99 | in every run a revocation that fails changes no session, and its call never reports success |
| `AuthRuns.PasswordChangeCanFinish` | server/internal/auth/password.go:34-72 | after any run a change can be begun and reach success |
| `ChatService.KeySplits` | server/internal/chat/chat.go:79-85 | a memo key splits back into the chat and user it was made from |
| `ChatService.PrefixIsChat` | server/internal/chat/chat.go:146-158 | when chat ids hold no separator, matching the prefix selects exactly that chat's keys |
| `ChatService.SeparatorInChatIdCollides` | server/internal/chat/chat.go:146-158 | with a separator inside a chat id, it would also match another chat's key |
| `ChatService.Trim` | server/internal/chat/chat.go:112-143 | all expired entries go, and live ones only when they reach the ceiling, down to exactly one below it |
| `ChatService.Service.Sweep` | server/internal/chat/chat.go:112-143 | a sweep that is not due changes nothing; one that is trims both maps and leaves each with room |
| `ChatService.Service.AuthView` | server/internal/chat/chat.go:34-63 | the view answers what the store holds and is cached, a new one for exactly one TTL, and the cache stays in agreement and within its cap |
| `ChatService.Service.RoleOf` | server/internal/chat/chat.go:69-101 | view, memo or probe, the role returned is the store's, and all caches stay in agreement and within their caps |
| `ChatService.Service.Invalidate` | server/internal/chat/chat.go:146-158 | exactly the chat's view and its memos are removed |
| `ChatService.OthersStillAgree` | server/internal/chat/chat.go:146-158 | after one chat changes and is invalidated, what remains cached still agrees with the store |
| `ChatService.Service.AddMember` | server/internal/chat/chat.go:495-501 | one membership row is written and the caches still agree; the SQL store keeps an existing row and refuses an unknown chat, the in-memory one replaces the row and leaves every answer about an unknown chat as it was |
| `ChatService.Service.SetMemberRole` | server/internal/chat/chat.go:505-515 | one existing role is rewritten and the caches still agree; otherwise nothing changes |
| `ChatService.Roster` | server/internal/chat/chat.go:177-208 | each user is seeded once, the owner as owner and everybody else as member |
| `ChatService.Service.CreateGroup` | server/internal/chat/chat.go:177-208 | the new chat has exactly that membership, other chats are untouched, and the caches still agree |
| `CacheRaces.RoleAnswersAreRecent` | server/internal/chat/chat.go:34-101 | over every interleaving of loads, changes, invalidations and evictions, a role answer was the store's at the instant of a read some call about that chat really made, and that instant lies within the answering call, or less than one TTL plus the duration of that load before the cache was consulted; the load ended when its call built the entry, before that call answered |
| `Invites.Service.RequireRole` | server/internal/invite/invite.go:215-224 | passes exactly for members whose rank is high enough; an unknown chat is its own error |
| `Invites.Service.SetRole` | server/internal/invite/invite.go:184-212 | the role is written if and only if the actor is an owner, the target a member, the role known, and the last owner not demoted; each refusal has its own exact condition and changes nothing |
| `Invites.Service.Join` | server/internal/invite/invite.go:136-159 | a member spends no use of the link; anybody else becomes a plain member and spends exactly one if it is not revoked, expired or used up; nobody else's role changes |
| `Invites.Service.JoinPublic` | server/internal/invite/invite.go:163-179 | joining by name adds a plain member once |
| `OwnerRuns.RoleChangeAgrees` | server/internal/invite/invite.go:184-212 | with current views, the run's role change is the one the service method computes |
| `OwnerRuns.EveryChatKeepsAnOwner` | server/internal/invite/invite.go:136-224 | over every run of creations, role changes and joins through the service, one call at a time, every chat keeps an owner although the checks read cached views |
| `OwnerRuns.RolesChangeOnlyByOwners` | server/internal/invite/invite.go:136-224 | in every run a role changes only by founding the chat, by joining as a plain member, or by a role change whose actor the view shows as an owner and, through the service, is one |
| `OwnerRuns.FoundersAndJoinersGetTheirRole` | server/internal/invite/invite.go:136-179 | in every run through the service founding and joining take effect although membership is read through the cache |
| `OwnerRuns.LastOwnerLostExactlyWhen` | server/internal/wiring/wiring.go:123 | with either writer, a role change removes the last owner if and only if the cached view shows the actor as owner and the target, really the only owner, as something else |
| `OwnerRuns.RawStoreLosesLastOwner` | server/internal/wiring/wiring.go:322-325 | with the raw store as writer a run of the service's own steps leaves a chat without an owner |
| `OwnerRaces.LastOwnerLostOnlyWhenOvertaken` | server/internal/invite/invite.go:184-212 | over every interleaving of the reads and writes of role changes and joins, each role read from any version of the membership, a write takes the last owner if and only if its target is then the only one, and only if something was written since the version it checked |
| `OwnerRaces.OwnersSurviveUnlessOvertaken` | server/internal/invite/invite.go:136-212 | over every interleaving in which no write is overtaken, every chat keeps an owner |
| `OwnerRaces.RolesChangeOnlyByOwners` | server/internal/invite/invite.go:136-212 | over every interleaving a role changes only by the write of a call that began as a role change for that member, to that role, by somebody who has been an owner, or as a join, which makes a plain member |
| `OwnerRaces.MutualDemotionLeavesNoOwner` | server/internal/invite/invite.go:184-212 | a run in which two owners demote each other and none is left |
| `Fanout.AddUser` | server/internal/fanout/fanout.go:221-231 | the user is appended to the list of exactly their own nodes |
| `Fanout.Invert` | server/internal/fanout/fanout.go:221-231 | the map from nodes to users holds each binding as often as the naive loop wants it, and the rest are those without a node, in order |
| `Fanout.PublishAll` | server/internal/fanout/fanout.go:232-254 | one publish per node, carrying exactly the map's deliveries, in any iteration order |
| `Fanout.RouteMany` | server/internal/fanout/fanout.go:206-236 | exactly the deliveries of the naive per-member loop, with one publish per node, and in order the recipients with no node |
| `Fanout.DeliverNew` | server/internal/fanout/fanout.go:351-378 | the naive deliveries, and push jobs exactly for offline members other than the sender who have not muted, none for an edit or a deletion |
| `Fanout.ShardHotChat` | server/internal/fanout/fanout.go:284-307 | while membership changes between pages, nobody is put in two jobs, only members are, and whoever was a member at every read is in exactly one |
| `Fanout.RunJobs` | server/internal/fanout/fanout.go:413-422 | jobs taken by competing workers in any order deliver and push what one pass over all members would |
| `Fanout.OnMessage` | server/internal/fanout/fanout.go:256-277 | for a membership that holds still, inline or sharded, every binding of a member gets exactly one delivery, nobody else any, and pushes go once to exactly the right members |
| `Fanout.OnMessageMoving` | server/internal/fanout/fanout.go:256-307 | inline or sharded, while membership changes between reads, everybody present at every read gets exactly one delivery per binding or the one push they are due, and nobody who was never a member gets anything |
| `Fanout.Broadcast` | server/internal/fanout/fanout.go:387-409 | all visited members but the skipped one, in batches that never exceed the bound |
| `Fanout.BroadcastHot` | server/internal/fanout/fanout.go:314-342 | while membership changes between pages, every binding of a member present throughout gets exactly one delivery, no binding two, and the skipped user none |
| `Fanout.WantIsOnce` | server/internal/fanout/fanout.go:206-236 | among distinct users with distinct nodes the naive loop itself wants each binding exactly once |
| `KeyDir.AcceptedIsExact` | server/internal/keydir/keydir.go:171-201 | the accepted count is the number of the frame's own keys at the end of the stored list, everything before them is older, and within the per-publish bound it is all of them |
| `KeyDir.PushStores` | server/internal/keydir/keydir.go:171-201 | the stored list is the ledger's stored part after every publish |
| `KeyDir.HandedOutOnceInOrder` | server/internal/keydir/keydir.go:133-226 | over every run on one device's ledger, keys leave oldest first and at most once, and the keys pushed split exactly into handed out, trimmed, expired and stored |
| `KeyDir.DistinctKeysHandedOutOnce` | server/internal/keydir/keydir.go:203-226 | if no key is pushed twice, none is handed out twice |
| `KeyDir.FetchServesLastPublish` | server/internal/keydir/keydir.go:203-226 | in every run on either backend a fetch answers exactly for a device that last published an identity key, with the keys and signatures of that publish and the oldest one-time key neither handed out nor trimmed |
| `KeyDir.KeysAnsweredOnceInOrder` | server/internal/keydir/keydir.go:133-226 | in every run on either backend the one-time keys in the answers about a device are, in order, its pushed keys that were handed out; if it pushes no key twice, none is answered twice |
| `KeyDir.AgeIsSinceIntroduced` | server/internal/keydir/keydir.go:145-156 | in every run the age kept is the time of the publish that introduced the signed prekey, however often it is published again; an empty key a device opens with is the one exception |
| `KeyDir.PublishReports` | server/internal/keydir/keydir.go:157-201 | in every run a publish answers with the number of keys then stored, the number of its own among them, and that age |
| `KeyDir.MemoryDir.Publish` | server/internal/keydir/keydir.go:133-167 | the new entry and answer are those of the call specification, and the device index matches the bundles |
| `KeyDir.MemoryDir.Fetch` | server/internal/keydir/keydir.go:203-226 | a live entry answers with its device's oldest key, which is popped from entry and ledger; a lapsed entry is forgotten, an unknown one changes nothing |
| `KeyDir.MemoryDir.Forget` | server/internal/keydir/keydir.go:230-243 | bundle and index entry go together and nothing else changes |
| `KeyDir.MemoryDir.FetchAll` | server/internal/keydir/keydir.go:245-256 | one bundle for each live indexed device, in index order, each with its own device's oldest key; one key is popped from each, lapsed entries are gone, and nothing else changes |
| `KeyDir.RedisDir.Publish` | server/internal/keydir/redis.go:33-104 | entries and answer are those of the call specification, with the age Redis records |
| `KeyDir.RedisDir.Fetch` | server/internal/keydir/redis.go:106-122 | the oldest key of the device's list is answered and popped, and entries and answer are those of the call specification |
| `KeyDir.StepsAgreeExactlyWhen` | server/internal/keydir/redis.go:33-122 | a call is answered alike by both backends if and only if it is not a device's first publish with an empty signed prekey |
| `KeyDir.BackendsAgree` | server/internal/keydir/redis.go:33-122 | over every run both specifications give the same answers if and only if no device opens with an empty signed prekey, and then hold the same entries |
| `KeyDir.ServeMemory` | server/internal/keydir/keydir.go:133-226 | the in-memory class, driven by any calls within one TTL, gives exactly the specified answers |
| `KeyDir.ServeRedis` | server/internal/keydir/redis.go:33-122 | the Redis class, driven by any calls, gives exactly the specified answers |
| `KeyDir.CompareBackends` | server/internal/keydir/redis.go:33-122 | the two classes, driven by the same calls within one TTL, give the same answers if and only if no device opens with an empty signed prekey, and both answer each device's keys once and in push order |
| `Billing.StatusOnlyRises` | server/internal/model/billing.go:74-92 | however callbacks repeat or reorder, a payment's rank never falls, and an equal rank is the same status |
| `Billing.GrantedAtMostOnce` | server/internal/billing/billing.go:529-599 | a period is granted exactly once if any callback reported success, and otherwise never |
| `Billing.OrderDoesNotMatter` | server/internal/model/billing.go:74-92 | without a refund the final status depends only on the set of callbacks |
| `Billing.RefundedExactlyWhen` | server/internal/model/billing.go:74-92 | a payment ends refunded if and only if some refund comes after some success |
| `Billing.RowFollowsItsCallbacks` | server/internal/store/memory/billing.go:93-115 | in every run of the whole service, a payment's row is what its own callbacks alone decide |
| `Billing.PaymentIsForItsCheckout` | server/internal/billing/billing.go:408-495 | in every run a reference names a payment if and only if some checkout used it, and the payment is for the user, provider and amount of the first that did |
| `Billing.SuccessPaysForThePayer` | server/internal/billing/billing.go:529-625 | in every run the first success told of a checkout's payment extends the account that checked out by one period and touches no other; told again it changes nothing |
| `Billing.BuyAndPay` | server/internal/billing/billing.go:408-599 | from any state, an accepted checkout, then any other requests, then the notice that its offer was paid: the notice is accepted and the buyer's own period, and nobody else's, is extended unless a success was told before |
| `Billing.CancelStandsExactlyUntil` | server/internal/billing/billing.go:632-644 | in every run the flag a cancellation sets stands until a payment settles or a lapsed account checks out, and no longer |
| `Billing.SweepingIsInvisible` | server/internal/billing/billing.go:688-698 | two runs equal but for when, or whether, lapsed subscriptions are swept give every account the same entitlements and period end |
| `Billing.AccessIsNotTakenAway` | server/internal/billing/billing.go:499-514 | after any run of calls that are not interrupted, no checkout, callback, cancellation or sweep makes an active account inactive or shortens its period |
| `Billing.CheckoutResetsExactlyWhen` | server/internal/billing/billing.go:499-514 | in every run a checkout changes a stored period end if and only if that end is set and has passed; time to come is never lost |
| `Billing.EntitledExactlyUntilEnd` | server/internal/model/billing.go:122-132 | in every run an account has premium if and only if its period end lies ahead |
| `Billing.SweepLeavesOnlyTheEntitled` | server/internal/store/memory/billing.go:143-163 | in every run, after a sweep that reaches every account, the rows still live are exactly those with time ahead |
| `Periods.PaymentsAddPeriods` | server/internal/billing/billing.go:606-625 | from any state over any run of uninterrupted calls in which no checkout finds an end to forget, k settled payments add at least k periods, and exactly k if and only if each settles no later than the end it finds |
| `Periods.PaidTimeIsAccountedFor` | server/internal/billing/billing.go:499-644 | from any state over any run, interrupted calls included, the period end moves by one period per settled payment, plus gaps and ends written back, minus ends forgotten and time taken back |
| `Periods.PeriodsGoToTheirPayers` | server/internal/billing/billing.go:408-599 | in every run, interrupted calls included, a payment keeps the terms of the first checkout that used its reference, and a period is only granted to the user who checked out |
| `Periods.WorthAPeriodUnlessToldTooLate` | server/internal/billing/billing.go:606-625 | in every run a payment settled without interruption adds less than a period to what the account is paid up to if and only if a checkout has forgotten an end, nothing has settled since, and the payment is older than that end; no other uninterrupted step changes it |
| `Periods.PaymentsAreWorthPeriods` | server/internal/billing/billing.go:606-625 | after any run, k uninterrupted payments none of which is told too late are worth at least k periods |
| `Periods.WholeIsBothHalves` | server/internal/billing/billing.go:499-644 | a callback, checkout or cancellation that is not interrupted is its read followed by its write |
| `Periods.WholeCallsTakeNothingBack` | server/internal/billing/billing.go:499-644 | uninterrupted calls take no paid time back and write no older end |
| `Periods.ClockedCallbacksLoseNothing` | server/internal/billing/billing.go:577-580 | after any run, and then over any uninterrupted run whose callbacks count from the server's clock, k settled payments move the end by at least k periods from where it was, or it was forgotten once all that time had passed |
| `Periods.DelayedNoticeLosesTime` | server/internal/billing/billing.go:499-514 | a run in which a lapsed account checks out and a delayed notice then gives two payments little more than one period |
| `Periods.LostOnlyToAWriteInBetween` | server/internal/billing/billing.go:499-644 | in every run a write of a callback, checkout or cancellation takes paid time back if and only if the end is by then later than the one its call had read, and for a callback later than the payment; and then a payment settled, or a cancellation wrote an older end back, in between |
| `Periods.AccessLostOnlyToAStaleWrite` | server/internal/billing/billing.go:499-644 | in every run, interrupted calls included, premium lasts exactly until the end, and the only move but time that ends it is a write that takes paid time back |
| `Periods.TwoAtOnceGiveOnePeriod` | server/internal/billing/billing.go:529-599 | a run in which two payments notified at once give one period |
| `Periods.CancelTakesAPeriod` | server/internal/billing/billing.go:632-644 | a run in which a payment settles during a cancellation and its period is gone |
| `Periods.CheckoutTakesAccess` | server/internal/billing/billing.go:499-514 | a run in which a payment settles during another checkout and the paid access is gone |
| `Billing.Service.Checkout` | server/internal/billing/billing.go:408-495 | each outcome exactly, the row it leaves for the buyer, the offer's provider and amount, and that every key once accepted stays taken even when the charge fails |
| `Billing.Service.EnsureIncompleteSubscription` | server/internal/billing/billing.go:499-514 | an active subscription is left alone, anything else becomes incomplete |
| `Billing.Service.HandleCallback` | server/internal/billing/billing.go:529-599 | a wrong amount is refused without a change, an unknown reference is a success without one, and otherwise the transition applies exactly when allowed |
| `Billing.Service.SubscriptionAfterPayment` | server/internal/billing/billing.go:606-625 | the period runs from the later of the payment and the current end |
| `Billing.Service.Cancel` | server/internal/billing/billing.go:632-644 | only the cancellation flag and the update time change |
| `Billing.Service.SweepExpired` | server/internal/store/memory/billing.go:143-163 | closes only lapsed subscriptions, at most a batch of them, and all of them when the batch is not full |
| `Money.RoundTrip` | server/internal/billing/provider.go:68-122 | reading back what was printed gives the same amount, for every 64-bit integer |
| `Money.WellFormedExactlyWhen` | server/internal/billing/provider.go:68-80 | the text is a sign, digits, a point and two digits if and only if the amount is not the minimum |
| `Money.AmountIsReadExactlyWhen` | server/internal/billing/provider.go:88-122 | an amount with any number of digits before and after the point, or without one, is read as its exact value in minor units if and only if that value fits in 64 bits |
| `Money.ParseUndoesFormat` | server/internal/billing/provider.go:108-115 | integer text parses back to the number it was printed from |
| `Contacts.Sync` | server/internal/contact/contact.go:86-118 | the page is a prefix of the rows that ends between two milliseconds, or is full of a single one, and the cursor is its last stamp |
| `Contacts.PageIsComplete` | server/internal/contact/contact.go:86-118 | unless one millisecond overfills it, the page is exactly the book's rows between the old cursor and the new one |
| `Contacts.DeliveredOnce` | server/internal/contact/contact.go:86-118 | over a whole walk no contact is sent twice, even when a millisecond is overfull |
| `Contacts.WalkDeliversAllExactlyWhen` | server/internal/contact/contact.go:86-118 | a walk that has ended sent every row stamped after its start if and only if no later millisecond holds more rows than a page |
| `Contacts.WalkEnds` | server/internal/contact/contact.go:86-118 | every answer that is not empty lowers the number of rows above the cursor, so a walk ends |
| `Contacts.BookSaysWhatWasWritten` | server/internal/contact/contact.go:31-73 | in every run a contact has the name it was last added under, none once removed, and is blocked exactly if it was last set so, which a removal does not undo |
| `Contacts.ClientIsUpToDate` | server/internal/contact/contact.go:31-118 | over every run of adds, blocks, removals and pulls, with writes stamped after the cursor, the client holds every row up to its cursor as the book has it |
| `Contacts.EmptyAnswerMeansCaughtUp` | server/internal/contact/contact.go:86-118 | after any such run an empty answer means the client holds every stamped row as it is now |
| `Contacts.LateRowIsNeverSent` | server/internal/contact/contact.go:58-73 | a row the client lacks and stamped at or before its cursor is not sent by any number of pulls |
| `Contacts.RemovedNameIsKept` | server/internal/contact/contact.go:58-73 | a run that adds, blocks, syncs and removes a contact, after which no number of pulls makes the client drop the name |
| `ChatList.LessIdIsNumeric` | server/internal/chat/util.go:10-15 | on canonical decimals of any length the comparison is the order of the numbers |
| `ChatList.SortSorts` | server/internal/chat/chat.go:262-267 | distinct ids come out strictly ascending and are the same ids |
| `ChatList.UserChatsSlow` | server/internal/chat/chat.go:262-311 | the summaries describe, in order, the first existing chats after the cursor up to the limit, with the caller's role and a two-party chat's first other member |
| `ChatList.UserChatPage` | server/internal/chat/chat.go:250-258 | an unusable limit means the default page size |
| `ChatList.WantedAfter` | server/internal/chat/chat.go:269-276 | asking again after any listed id continues exactly behind it |
| `ChatList.WalkListsEveryChat` | server/internal/chat/chat.go:262-311 | walking by last id in pages of any size lists every chat that still exists, once, in numeric order |
| `Threads.StoredRootIsWalkedRoot` | server/internal/message/message.go:101-114 | in every run a stored thread root is the one found by walking the reply chain, and the reply count of a message that starts a thread is the number of messages descending from it |
| `Threads.ThreadReadIsRepliesExactlyWhen` | server/internal/message/message.go:275-288 | in every run an indexed thread read is exactly the transitive replies if and only if the message asked about starts a thread or has no reply |
| `Threads.AnsweredReplyHasNoThread` | server/internal/message/message.go:275-288 | a run in which a reply has a reply and its own thread read finds nothing |
| `Threads.ForwardNamesTheOriginal` | server/internal/message/message.go:329-360 | in every run a forward's origin names a stored message that is not itself a forward, with its true sender |
| `Threads.RetryRecognisedExactlyWhen` | server/internal/store/memory/messages.go:17-53 | in every run, after a post with a key was stored, a later post to that chat by that sender with that key changes no log and resolves to the first message if and only if nothing was stored under sender and key in another chat in between |
| `Threads.KeyReusedElsewhereStoresTwice` | server/internal/store/memory/messages.go:20-30 | a run in which the key is reused in another chat and the retry is stored a second time |
| `Threads.StoredExactlyWhen` | server/internal/store/memory/messages.go:17-53 | a post is stored if and only if it resolves to no earlier message, its chat exists and a forward's source is there; its key then names it, and otherwise no log and no key changes |
| `Threads.MessageSaysWhatWasWritten` | server/internal/message/message.go:77-196 | in every run a message was stored by a post to its chat, keeps that post's sender and parent, and says what was last written: the post's or source's text, the last edit, or nothing once deleted; its flags tell whether it was ever edited or deleted |
| `Threads.ThreadContinues` | server/internal/store/memory/reads.go:43-62 | reading a thread on after an entry's number continues exactly behind it |
| `Threads.ThreadRows` | server/internal/store/memory/reads.go:43-62 | the first replies under the root after a number, up to the limit |
| `Threads.Service.InsertMessage` | server/internal/store/memory/messages.go:17-53 | a message is appended under the chat's next number and counted at its root, unless the sender's key already names one in this chat |
| `Threads.Service.Post` | server/internal/message/message.go:77-123 | the stored message, root included, and each outcome; a refused sender changes nothing |
| `Threads.Service.SendMessage` | server/internal/message/message.go:77-123 | sending is the run's send step exactly when the sender may post; it stores exactly when no earlier message has the sender's key, and otherwise answers with that message |
| `Threads.Service.ForwardMessage` | server/internal/message/message.go:329-360 | forwarding is the run's forward step exactly for a member of the source who may post; a missing or deleted source is not found |
| `Threads.Service.EditMessage` | server/internal/message/message.go:126-139 | edits exactly when the message exists and the caller sent it; anything else changes nothing |
| `Threads.Service.DeleteMessage` | server/internal/message/message.go:171-196 | leaves a tombstone exactly when the message exists and the caller sent it or may moderate; anything else changes nothing |
| `Threads.Service.Thread` | server/internal/message/message.go:275-288 | members get the page of replies, with the default limit for an unusable one; others get nothing |

## Left out

- Transports, listeners, the wire codec, HTTP handlers, metrics, tracing and logging: input and output only.
- Password hashing, TOTP, signatures and random tokens: tokens are distinct values and a hash verifies exactly the password it was made from.
- Acquirer calls and the price list: their answers are parameters of `Checkout` and callbacks arrive verified.
- Store internals: each store operation is the one atomic step its interface promises, and router and mute lookups succeed.
- Clocks: the time is a parameter or a step of the run.
- Lossy or expiring replay buffers, two live connections on one session, and token AUTH onto an existing session: numbering is not promised there, and a resume starts only after the old connection is gone.
- Payload completeness across a resume: a frame whose write fails is not recorded, so the stream theorems are about numbers and recorded frames.
- 64-bit wrap-around of sequence numbers, times and period ends; only the money text models it.
- Fanout's cached member lists and chat kinds, presence, typing, read receipts and call pushes: they add easy members.
- `MemberIDs`, `CanPost`, `CanModerate`, `CanPin` and the other single-branch wrappers over `roleOf`.
- The activity-ordered chat list, decided by a store query, and chats created or removed during a walk of the fallback list.
- `Billing.AccessIsNotTakenAway`: over calls that are not interrupted; for interrupted ones it does not hold, and `AccessLostOnlyToAStaleWrite` says what does.
- `Billing.SweepingIsInvisible`: over calls that are not interrupted; Periods.dfy takes callbacks, checkouts and cancellations apart, and does not restate it.
- `Billing.Service.Checkout`: one step, as are `HandleCallback` and `Cancel`; their reads and writes are taken apart in Periods.dfy, where a checkout starts with its reference attached.
- `Threads.Service.InsertMessage`: the in-memory store; the SQL one looks a sender's key up across all chats.
- `Threads.Service.Post`: the parent lookup and the insert are one step, and a message carries its text but no media, attachment or self-destruct time.
- `Contacts.ClientIsUpToDate`: a removed contact leaves no trace in the book, so the theorem does not say a client learns of it.
- `KeyDir.BackendsAgree`: expiry is set aside, since the Redis entries expire on their own; `CompareBackends` takes runs no longer than one TTL.
- `OwnerRuns.EveryChatKeepsAnOwner`: each role change and join is one step; overlapping calls are in OwnerRaces.dfy, and staged loads of the cache in CacheRaces.dfy.
- `ResumeStream.RecordedFramesReadOnce`: runs without torn writes, after which it does not hold; `RecordedFramesAreRead` and `GoneForGood` say what does.
- Invite link creation and listing, usernames, account deletion, calls, polls, pins, drafts and scheduled messages.
