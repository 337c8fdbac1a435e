# Sketchblock collaboration, modelled and proved in Dafny

Sketchblock lets several people edit one Excalidraw board. A collab server keeps one live Yjs document per
session in memory and writes it behind; browsers send merged updates with retries; owners can revoke guests
while guests are joining; a web server keeps versioned boards. This project models those protocols as state
machines and classes and proves what they promise over every run. All files are read together
(`dafny verify dfyconfig.toml`).

| files | what they model |
|---|---|
| `YjsDocument`, `YjsDurability`, `YjsPurge`, `YjsDocumentRegistry` | the live-document persistence protocol: one session as a state machine, what it never loses, what a purge guarantees, and the registry class whose methods are its steps |
| `Outbox`, `CollabPresence`, `Convergence`, `ConvergenceRuns`, `ConvergenceLimits` | the client's outbox, the hook that changes it in place, and the whole system of clients, server and ordered delivery |
| `GuestAccess`, `GuestRevocation`, `GuestGateway`, `SessionParticipantExclusions`, `PresenceRegistry` | guest policies, their recovery from the audit log, and revocation racing with joins |
| `SessionHistory`, `PostgresSessionStore`, `BoardHistory`, `WorkspaceBoardStore`, `BoardPaths` | the two versioned stores |
| `RateLimits`, `FixedWindowRateLimiter`, `PasswordSemaphore`, `FacilitationState`, `FacilitationRegistry`, `AuditRedaction`, `Base64Url`, `SignedTokens`, `BoardMaterializer` | the algorithms around them |
| `Prelude` | Option, map lookups, and documents as sets of operations |

## How it is modelled

- A Yjs document is the set of operations it has merged, so applying and merging are union. Every synchronous
  segment between two awaits is one event, and a run is any sequence of enabled events. A getDocument hit and
  the caller's next segment are one event; the callers waiting for a load continue in the event that ends it.
- A class carries the source's own fields; each of its methods is one segment, and its `ensures` says which step of the state
  machine it takes its session through, and that it leaves all other sessions alone. Fields marked as histories
  (accepted, dropped, acknowledged operations, the cut-off of returned revocations) only serve the statements.
- Requests of a client may be processed late, after a reconnect, or more than once; messages of one connection
  arrive in order. React may skip any number of intermediate states. Retry timers are counted, because their
  handle can be overwritten while they are armed.
- Times, clocks, secrets, HMAC, JSON and document sizes are parameters. Integers are unbounded.

## What the proofs found

- A release detects activity by a counter that restarts when the document is dropped. It relies on a release
  whose awaited writes are done continuing before the response of a later database read arrives; the model
  states this as a condition on the end of a load, and `YjsDurability.OvertakenReleaseDropsEdit` gives the run
  that breaks a release without it.
- A release whose write fails reports success and drops exactly the operations the row does not have.
- A purge is final if and only if no write of a chain forgotten by an earlier drop is in flight when it begins.
  The tombstone is a set entry: the first timer clears it, also after repeated purges, and from then on a
  late access can write the row again.
- The editor skips a remote update that carries its own client id, but that update may be a merged batch. The
  server stamps the authenticated actor, and the client's own id when there is no authentication.
- A snapshot's state is encoded before its database write and sent to the room after it. It can be older than
  a join answer or an acknowledgement already sent, and replaces it if React has not applied that one yet.
  So with two clients or more convergence is certain if and only if no update can be stamped with a client's
  id and no client may save snapshots over the socket. In any case an idle client lacks exactly what it has
  let go of since its last join answer and not been shown since: a batch skipped for its id, or a join
  answer replaced before its editor applied it; the next join makes that good. A client is never sent its own checkpoint.
- An edit made under another session replaces an update not yet acknowledged. An update the server refuses stays
  pending with nothing to send it until the next edit or join.
- A guest kicked between entering the room and its second check keeps its join running, and would be present
  outside the room if access were enabled again before that check. With rooms entered in memory, as this
  repository configures them, the entry lasts one microtask and this cannot happen; with an adapter whose
  room entry is remote it can, exactly when some guest ticket was issued after the clock at the start.
- The rate limiter's bound is sharper than twice the limit: the call that opens a window lies before any
  interval that reaches into the next one, so an interval of one window length holds at most 2·limit − 1.
- With a limit of zero the two limiters differ: the sign-in limiter lets the first attempt through.
- Lowering the vote limit keeps the votes already given; adding back a vote that was taken back can then fail.
- Redaction bounds the nesting of records but not of lists.
- The element comparator is a total order when all elements have an index or none has, and not transitive
  when only some have one.

## Model

| member | source | states |
|---|---|---|
| `YjsDurability.LiveDocumentIsCovered` | apps/collab-server/src/sketchblock-collab/infrastructure/persistence/yjs-document.registry.ts:156-221 | In every state reachable by any interleaving of calls, loads, timers, writes (failing ones too) and releases, without a purge: the live document is exactly stored ∪ state of a failed last write ∪ pending ∪ queued; a timer is armed exactly when something is pending; without a live document nothing is pending or queued |
| `YjsDurability.AcceptedIsKept` | apps/collab-server/src/sketchblock-collab/infrastructure/persistence/yjs-document.registry.ts:70-177 | In every run, failed writes included, each accepted operation is in the live document or, when there is none, in the row, except for what releases dropped |
| `YjsDurability.AcceptedIsDurable` | apps/collab-server/src/sketchblock-collab/infrastructure/persistence/yjs-document.registry.ts:70-91 | So with successful writes none is lost, across any number of releases and reloads |
| `YjsDurability.ReplyIsCurrent` | apps/collab-server/src/sketchblock-collab/application/use-cases/register-session.use-case.ts:31-33 | In every run, failed writes included, a caller is answered with a state that holds every accepted operation no release has dropped, its own included, and everything stored: at once when the document is live, and at the end of a load for every waiting caller in its turn; why a join returns the live state and not the row |
| `YjsDurability.HitIsServed` | apps/collab-server/src/sketchblock-collab/infrastructure/persistence/yjs-document.registry.ts:70-120 | A call that finds the document live: a mirror without a revision, or with one above the mirrored one, adds exactly its operations, is answered with the new document and queues it alone in place of anything scheduled, and any other mirror changes nothing; an update that would make the document too large is refused with the sizes and changes nothing, and any other adds exactly its operations, is answered with the new document and leaves it pending with a timer; a reader changes nothing |
| `YjsDurability.WaitersAreServed` | apps/collab-server/src/sketchblock-collab/infrastructure/persistence/yjs-document.registry.ts:51-120 | The same for every caller that waited for a load, each on what the one before it left |
| `YjsDurability.WaiterStays` | apps/collab-server/src/sketchblock-collab/infrastructure/persistence/yjs-document.registry.ts:51-53 | A caller that has to wait joins the end of the list and stays in it until the load ends |
| `YjsDurability.LoadsEnd` | apps/collab-server/src/sketchblock-collab/infrastructure/persistence/yjs-document.registry.ts:55-67 | A failed load leaves no trace; a finished one makes the row as read the live document, to which its callers only add |
| `YjsDurability.ViewShrinksOnlyByDrops` | apps/collab-server/src/sketchblock-collab/infrastructure/persistence/yjs-document.registry.ts:156-177 | What the server has of a session, live document or row, grows by accepted operations only, and shrinks exactly when a release drops what a failed write did not save, by exactly that |
| `YjsDurability.ViewOnlyGrows` | apps/collab-server/src/sketchblock-collab/infrastructure/persistence/yjs-document.registry.ts:156-177 | So without failed writes it only grows, over any run |
| `YjsDurability.OvertakenReleaseDropsEdit` | apps/collab-server/src/sketchblock-collab/infrastructure/persistence/yjs-document.registry.ts:156-176 | Why continuations that are due must come before a load response: a reachable state from which a load response that came first would let an edit bring the generation back to a due release, which then drops the document with the edit in neither document nor row |
| `YjsDurability.ReleaseLosesOnlyFailedWrite` | apps/collab-server/src/sketchblock-collab/infrastructure/persistence/yjs-document.registry.ts:156-177 | When a release drops the document, what is lost is exactly the part of a failed last write the row does not hold; so it loses nothing if and only if that part is empty |
| `YjsDurability.TouchedReleaseKeepsDocument` | apps/collab-server/src/sketchblock-collab/infrastructure/persistence/yjs-document.registry.ts:152-174 | Any access since a release began makes that release keep the document, also across a release, reload and generation counter restarting in between |
| `YjsDurability.BusyReleaseKeepsDocument` | apps/collab-server/src/sketchblock-collab/infrastructure/persistence/yjs-document.registry.ts:167-174 | A release keeps the document if the counter moved, something is pending, a timer is armed or a load is under way |
| `YjsDurability.FailedReleaseWriteDropsPending` | apps/collab-server/src/sketchblock-collab/infrastructure/persistence/yjs-document.registry.ts:160-175 | A concrete run from every state with pending edits, whatever is queued ahead of the release's write and whether that succeeds: the release whose write fails reports success and drops every operation of the document that the row then lacks |
| `YjsDurability.MirroredIsHighest` | apps/collab-server/src/sketchblock-collab/infrastructure/persistence/yjs-document.registry.ts:93-100 | Within one document lifetime, over any run, the mirrored snapshot revision is the highest of those mirrored |
| `YjsDurability.HighestRevisionIsMax` | apps/collab-server/src/sketchblock-collab/infrastructure/persistence/yjs-document.registry.ts:96-100 | That highest revision is the maximum, whatever the order of arrival |
| `YjsDurability.LoadMirrorsHighest` | apps/collab-server/src/sketchblock-collab/infrastructure/persistence/yjs-document.registry.ts:51-67 | The same for the callers that were waiting for one load and continue together |
| `YjsDurability.ReleasableMeansSaved` | apps/collab-server/src/sketchblock-collab/infrastructure/persistence/yjs-document.registry.ts:167-174 | A due release that passes its test finds an empty queue and a document that is all in the row, a failed last write apart |
| `YjsDurability.StepKeepsInv` | apps/collab-server/src/sketchblock-collab/infrastructure/persistence/yjs-document.registry.ts:40-221 | Every segment between awaits keeps the invariant behind these results |
| `YjsPurge.PurgeNeverResurrects` | apps/collab-server/src/sketchblock-collab/infrastructure/persistence/yjs-document.registry.ts:144-150 | If no write of a forgotten chain is in flight when a purge begins, then once the purge has deleted the row it stays deleted for every interleaving of late updates, armed timers, queued states, releases and further purges, until a tombstone timer fires |
| `YjsPurge.AbandonedWriteResurrects` | apps/collab-server/src/sketchblock-collab/infrastructure/persistence/yjs-document.registry.ts:134-142 | The converse: from any state with such a write in flight there is a run in which the row comes back after the purge |
| `YjsPurge.PurgeIsFinalIff` | apps/collab-server/src/sketchblock-collab/application/use-cases/purge-session.use-case.ts:16-22 | A purge is final for every continuation before a tombstone timer fires if and only if no forgotten write is in flight when it begins |
| `YjsPurge.PurgeLeavesNothing` | apps/collab-server/src/sketchblock-collab/infrastructure/persistence/yjs-document.registry.ts:134-149 | A purge cancels what is scheduled when it begins, and leaves no document, counters or chain when it drops it |
| `YjsPurge.ExpiryEndsProtection` | apps/collab-server/src/sketchblock-collab/infrastructure/persistence/yjs-document.registry.ts:145-146 | And only until a tombstone timer fires: from every state with one armed, however many later purges have set the tombstone too, that timer can fire and the row be written again |
| `YjsPurge.SlowWriteIsAbandoned` | apps/collab-server/src/sketchblock-collab/infrastructure/persistence/yjs-document.registry.ts:144-149 | The condition can fail: a write slower than the tombstone with one late update behind it leaves a forgotten write in flight |
| `YjsPurge.TombstoneExpiresTooEarly` | apps/collab-server/src/sketchblock-collab/infrastructure/persistence/yjs-document.registry.ts:145-146 | The run behind it: the tombstone expires while the purge still waits for the write |
| `YjsPurge.StepKeepsWrites` | apps/collab-server/src/sketchblock-collab/infrastructure/persistence/yjs-document.registry.ts:204-212 | Under a tombstone no step adds to the writes in flight, and only such a write can touch the row |
| `YjsPurge.ReachableIsNumbered` | apps/collab-server/src/sketchblock-collab/infrastructure/persistence/yjs-document.registry.ts:204-212 | Queued and forgotten writes stay apart in every reachable state, so the if-and-only-if covers all of them |
| `YjsDocumentRegistry.Registry.Touch` | apps/collab-server/src/sketchblock-collab/infrastructure/persistence/yjs-document.registry.ts:40-42 | The generation of this session goes up by one; every other session is unchanged (so for all methods of this class) |
| `YjsDocumentRegistry.Registry.SchedulePersistence` | apps/collab-server/src/sketchblock-collab/infrastructure/persistence/yjs-document.registry.ts:179-202 | The state becomes pending and a timer is armed, as that step of the state machine |
| `YjsDocumentRegistry.Registry.EnqueuePersistence` | apps/collab-server/src/sketchblock-collab/infrastructure/persistence/yjs-document.registry.ts:204-212 | A write is appended to the session's chain, as that step of the state machine |
| `YjsDocumentRegistry.Registry.CancelScheduledPersistence` | apps/collab-server/src/sketchblock-collab/infrastructure/persistence/yjs-document.registry.ts:214-221 | Nothing pending, no timer, as that step of the state machine |
| `YjsDocumentRegistry.Registry.DeleteDocument` | apps/collab-server/src/sketchblock-collab/infrastructure/persistence/yjs-document.registry.ts:134-142 | The document, its counters and the reference to its chain go; the chain's writes go on as forgotten ones, as that step of the state machine |
| `YjsDocumentRegistry.Registry.ApplyUpdate` | apps/collab-server/src/sketchblock-collab/infrastructure/persistence/yjs-document.registry.ts:70-91 | After its await: refused when too large, otherwise merged, touched and scheduled; the reply is the new state or the limit error, as that step of the state machine |
| `YjsDocumentRegistry.Registry.MirrorSnapshot` | apps/collab-server/src/sketchblock-collab/infrastructure/persistence/yjs-document.registry.ts:93-120 | After its await: skipped for an old revision, otherwise merged and written at once instead of anything scheduled, as that step of the state machine |
| `YjsDocumentRegistry.Registry.GetDocument` | apps/collab-server/src/sketchblock-collab/infrastructure/persistence/yjs-document.registry.ts:44-68 | A hit runs the caller's next segment; a miss joins the running load or starts one, as that step of the state machine |
| `YjsDocumentRegistry.Registry.ReadStore` | apps/collab-server/src/sketchblock-collab/infrastructure/persistence/yjs-document.registry.ts:53-58 | The load has read the row, as that step of the state machine |
| `YjsDocumentRegistry.Registry.FinishLoad` | apps/collab-server/src/sketchblock-collab/infrastructure/persistence/yjs-document.registry.ts:59-67 | The document becomes live and every waiting caller continues and is answered, in order, as that step of the state machine |
| `YjsDocumentRegistry.Registry.FailLoad` | apps/collab-server/src/sketchblock-collab/infrastructure/persistence/yjs-document.registry.ts:63-67 | The load is forgotten and no document appears, as that step of the state machine |
| `YjsDocumentRegistry.Registry.FireTimer` | apps/collab-server/src/sketchblock-collab/infrastructure/persistence/yjs-document.registry.ts:185-199 | The pending state, if any, is queued, as that step of the state machine |
| `YjsDocumentRegistry.Registry.StartJob` | apps/collab-server/src/sketchblock-collab/infrastructure/persistence/yjs-document.registry.ts:206-208 | A queued write is skipped under a tombstone, otherwise it goes out, as that step of the state machine |
| `YjsDocumentRegistry.Registry.FinishWrite` | apps/collab-server/src/sketchblock-collab/infrastructure/persistence/yjs-document.registry.ts:207-209 | A successful write merges into the row, a failed one does not, and the next one gets its turn, as that step of the state machine |
| `YjsDocumentRegistry.Registry.BeginRelease` | apps/collab-server/src/sketchblock-collab/infrastructure/persistence/yjs-document.registry.ts:156-166 | The first half of a release: what it remembers and what it waits for, as that step of the state machine |
| `YjsDocumentRegistry.Registry.CheckRelease` | apps/collab-server/src/sketchblock-collab/infrastructure/persistence/yjs-document.registry.ts:167-176 | The second half: true exactly when generation, pending state, timer and load allow dropping the document, as that step of the state machine |
| `YjsDocumentRegistry.Registry.BeginPurge` | apps/collab-server/src/sketchblock-collab/infrastructure/persistence/yjs-document.registry.ts:144-148 | Tombstone, timer and cancellation, and what the purge waits for, as that step of the state machine |
| `YjsDocumentRegistry.Registry.DropForPurge` | apps/collab-server/src/sketchblock-collab/infrastructure/persistence/yjs-document.registry.ts:149-149 | The document is dropped when the chain has run, as that step of the state machine |
| `YjsDocumentRegistry.Registry.ExpireTombstone` | apps/collab-server/src/sketchblock-collab/infrastructure/persistence/yjs-document.registry.ts:146-146 | One timer ends the tombstone, however many purges set it, as that step of the state machine |
| `YjsDocumentRegistry.Registry.DeleteRow` | apps/collab-server/src/sketchblock-collab/application/use-cases/purge-session.use-case.ts:20-21 | The row goes; true when there was one |
| `Outbox.NoLocalUpdateIsLost` | apps/web/src/features/home/hooks/useCollabPresence.ts:126-174 | In every reachable state each local update is acknowledged, pending, or was replaced by an edit under another session; at most one request is in flight |
| `Outbox.ClearingLosesNothing` | apps/web/src/features/home/hooks/useCollabPresence.ts:151-153 | An acknowledgement that clears the outbox clears exactly what was sent, although versions restart at 1 |
| `Outbox.RequestCarriesPending` | apps/web/src/features/home/hooks/useCollabPresence.ts:126-137 | A request goes out only from a joined, connected client with none in flight, and carries all that is pending for its session |
| `Outbox.AttemptsAreTimeouts` | apps/web/src/features/home/hooks/useCollabPresence.ts:150-158 | In every run the attempts used are the timeouts since the last acknowledgement, join or remount, counted from the events, up to eight |
| `Outbox.Unacknowledged` | apps/web/src/features/home/hooks/useCollabPresence.ts:138-173 | A rate-limited request leaves a timer and nothing goes out before it fires; a timed out one leaves nothing after eight, is replayed at once if a flush was asked for and no timer is set, and leaves a timer otherwise; a timer that fires gives up its handle |
| `Outbox.JoinStartsAfresh` | apps/web/src/features/home/hooks/useCollabPresence.ts:294-298 | A join answer: attempts free again, the timer behind the handle gone, what is pending on its way |
| `Outbox.EditDropsIffOtherSession` | apps/web/src/features/home/hooks/useCollabPresence.ts:528-537 | An edit keeps what is unacknowledged if and only if nothing of another session is pending or the edit contains it |
| `Outbox.QuietStepUsesBudget` | apps/web/src/features/home/hooks/useCollabPresence.ts:155-173 | Every timeout and every retry timer uses up the budget 2·(8 − attempts) + 2·timers + flags, overwritten timer handles included |
| `Outbox.RetriesAreBounded` | apps/web/src/features/home/hooks/useCollabPresence.ts:155-173 | Without a new edit, rejoin or answer, in any order and however often the connection is lost and restored, the timeouts, timers and resends still to come are together with the budget left never more than the budget |
| `Outbox.QuietRunsAreShort` | apps/web/src/features/home/hooks/useCollabPresence.ts:155-173 | So a run of timeouts and timers alone is no longer than the budget |
| `Outbox.NothingWaitsUnattended` | apps/web/src/features/home/hooks/useCollabPresence.ts:126-174 | As long as the server refuses no update, an update of a joined client is in flight or has a timer armed, unless there have been eight timeouts since the last acknowledgement, join or remount, counted from the events |
| `Outbox.RefusalLeavesWaiting` | apps/web/src/features/home/hooks/useCollabPresence.ts:140-149 | The condition is needed: a refused update stays pending with nothing to send it until the next edit or join |
| `Outbox.StepKeepsInv` | apps/web/src/features/home/hooks/useCollabPresence.ts:113-537 | Every handler keeps the outbox invariant: a request in flight was captured from the pending value, which has only grown |
| `CollabPresence.Presence.FlushYjs` | apps/web/src/features/home/hooks/useCollabPresence.ts:126-137 | Sends the pending value if joined and nothing is in flight, otherwise asks for another flush; a step of Outbox |
| `CollabPresence.Presence.SendYjsUpdate` | apps/web/src/features/home/hooks/useCollabPresence.ts:528-537 | Merges into the outbox of this session, or replaces that of another, and flushes; a step of Outbox |
| `CollabPresence.Presence.Settle` | apps/web/src/features/home/hooks/useCollabPresence.ts:138-173 | Acknowledgement, rate limit, rejection or timeout, then the finally block; a step of Outbox |
| `CollabPresence.Presence.FireTimer` | apps/web/src/features/home/hooks/useCollabPresence.ts:162-162 | A retry timer clears the handle and flushes; a step of Outbox |
| `CollabPresence.Presence.OnJoinAck` | apps/web/src/features/home/hooks/useCollabPresence.ts:294-298 | Joined, attempts reset, the timer behind the handle cleared, flushed; a step of Outbox |
| `CollabPresence.Presence.OnDisconnect` | apps/web/src/features/home/hooks/useCollabPresence.ts:433-434 | Not joined until the next join; a step of Outbox |
| `CollabPresence.Presence.Remount` | apps/web/src/features/home/hooks/useCollabPresence.ts:113-125 | A new effect starts with fresh variables; only the pending value survives; a step of Outbox |
| `Convergence.IdleLacksWhatItMissed` | apps/web/src/features/home/hooks/useExcalidrawYjs.ts:263-282 | Exactly how far a client can be off, in every run of edits, timeouts, late and repeated processing, rejections, snapshots, disconnects and rejoins, whatever the names: what a joined client with an empty outbox and inbox whose effects have run lacks of the server document, checkpoint operations aside, is what it has let go of since its last join answer (a batch skipped for its own id, or a join answer replaced before it was applied) and not been shown since; so it has converged if and only if it has been shown all of that |
| `Convergence.IdleMeansConverged` | apps/web/src/features/home/hooks/useCollabPresence.ts:281-378 | No update being stamped with a client's own id: in every run, from any point at which the client has missed nothing, such as the start or a join answer, and as long as no whole state replaces a join answer its editor has yet to apply, it shows exactly the server document, checkpoint operations aside, whenever it is joined and has nothing left to send or receive, however React batches |
| `Convergence.JoinAnswerMakesGood` | apps/web/src/features/home/hooks/useCollabPresence.ts:281-293 | A join answer makes good all that was missed before it |
| `Convergence.HandledIsShown` | apps/web/src/features/home/hooks/useExcalidrawYjs.ts:263-282 | What is handled is shown: once the effects have run, the editor has all that a join answer, whole state or awaited acknowledgement tells, and all that a broadcast of another's tells |
| `Convergence.StepsOfOutbox` | apps/web/src/features/home/hooks/useCollabPresence.ts:126-174 | Each of a client's own steps is the matching step of its outbox |
| `Convergence.SentIsOnTheWire` | apps/web/src/features/home/hooks/useCollabPresence.ts:136-138 | A request goes onto the wire with what is pending and the connection it was sent over |
| `Convergence.RejectionIsTold` | apps/collab-server/src/sketchblock-collab/infrastructure/realtime/realtime.gateway.ts:376-410 | A rejection reaches the socket that asked and no later connection |
| `Convergence.StepKeepsInv` | apps/collab-server/src/sketchblock-collab/infrastructure/realtime/realtime.gateway.ts:286-442 | Every step of the system, whatever the names and whoever saves snapshots, keeps each client's invariant: the server document is within replica ∪ join answer ∪ remote update ∪ broadcasts still to come ∪ checkpoints, and the join answer is within replica ∪ React state ∪ what was missed |
| `Convergence.CheckpointKeepsInv` | apps/collab-server/src/sketchblock-collab/infrastructure/persistence/yjs-document.registry.ts:93-115 | A snapshot merges its checkpoint and encodes the state before its write is awaited, telling nobody; the invariant is kept, also for the client that saved it |
| `Convergence.AnnounceKeepsInv` | apps/collab-server/src/sketchblock-collab/infrastructure/realtime/realtime.gateway.ts:338-343 | Once written, the state as it was encoded goes to everyone in the room but the socket that asked, and may be older than what they have been sent |
| `Convergence.DeliverKeepsPeer` | apps/web/src/features/home/hooks/useCollabPresence.ts:281-378 | Join answers, broadcasts, acknowledgements, rejections and whole states keep it, a join answer covering everything missed |
| `Convergence.EffectsKeepPeer` | apps/web/src/features/home/hooks/useExcalidrawYjs.ts:263-282 | React's two effects keep it even when sequence numbers are skipped, since a remote update holds the merge of all since the join; a batch that is not applied is missed |
| `ConvergenceLimits.ConvergesIff` | apps/web/src/features/home/hooks/useCollabPresence.ts:351-378 | With two clients or more, every idle client of every run shows the server document, checkpoints aside, if and only if no update can be stamped with some client's own id and no client may save snapshots over the socket |
| `ConvergenceLimits.OldStateDiverges` | apps/collab-server/src/sketchblock-collab/infrastructure/realtime/realtime.gateway.ts:324-343 | For any client that may: its snapshot is still being written when another's edit is processed; it joins again and handles the join answer and the older whole state before its effects run, and is idle without the edit |
| `ConvergenceLimits.OwnCheckpointIsNotShown` | apps/web/src/features/home/hooks/useCollabPresence.ts:479-510 | Why checkpoints are set aside: a client that saved one snapshot is idle without the checkpoint's operations, which no answer brings it |
| `ConvergenceLimits.ForeignNameDiverges` | apps/web/src/features/home/hooks/useExcalidrawYjs.ts:276-279 | Otherwise, for two different clients: a run that leaves one idle without the other's operation |
| `ConvergenceLimits.OwnNameDiverges` | apps/web/src/features/home/hooks/useExcalidrawYjs.ts:276-279 | And for a client stamped with its own id: the echo of a late duplicate, merged with another client's update, hides both |
| `GuestAccess.RestoreIsLatest` | apps/collab-server/src/sketchblock-collab/infrastructure/realtime/session-participant-exclusions.ts:21-30 | Replaying a log yields the policy in memory or, if newer, the highest revision of the log |
| `GuestAccess.AccessByClaims` | apps/collab-server/src/sketchblock-collab/infrastructure/realtime/session-participant-exclusions.ts:32-39 | In the ticket's claims: a viewer with guest = true and issuedAt = i is let in under a policy if and only if it is enabled and i > revokedBefore; without issuedAt, expiresAt − 300000 stands for it, also for a viewer named guest-… that says nothing of being a guest; every other ticket is let in under any policy, and every ticket without one |
| `GuestAccess.NextByRequest` | apps/collab-server/src/sketchblock-collab/infrastructure/realtime/session-participant-exclusions.ts:12-15 | The next policy says what was asked for: revoking now, or enabling with the old cut-off, one revision on |
| `GuestAccess.ReplayOrderIrrelevant` | apps/collab-server/src/sketchblock-collab/infrastructure/realtime/session-participant-exclusions.ts:21-30 | Replay in any order and with repetitions gives the same policy when revisions identify policies |
| `GuestAccess.ReplayOrderMatters` | apps/collab-server/src/sketchblock-collab/infrastructure/realtime/session-participant-exclusions.ts:26-28 | Why they must: with two policies of one revision the order decides |
| `GuestAccess.CutOffKeptIff` | apps/collab-server/src/sketchblock-collab/infrastructure/realtime/session-participant-exclusions.ts:12-15 | A new policy refuses every ticket the old cut-off refused if and only if it enables access or the clock has not run backwards |
| `GuestRevocation.RevokedGuestsStayOut` | apps/collab-server/src/sketchblock-collab/infrastructure/realtime/realtime.gateway.ts:228-255 | Rooms entered in memory, for every interleaving of joins, updates that succeed or throw anywhere, sweeps and restarts with replay: once a revocation has returned, no guest with a ticket issued at or before its cut-off is present or becomes present later, also after access is enabled again |
| `GuestRevocation.RevocationAloneKeepsGuestsOut` | apps/collab-server/src/sketchblock-collab/infrastructure/realtime/socket-session-connections.ts:32-49 | The same with any room adapter in every run in which no update enables access |
| `GuestRevocation.RevocationHoldsIff` | apps/collab-server/src/sketchblock-collab/infrastructure/realtime/socket-session-connections.ts:32-49 | Re-enabling included, the promise holds in every run if and only if rooms are entered in memory or no guest ticket was issued after the clock at the start |
| `GuestRevocation.AllowedStraySurvives` | apps/collab-server/src/sketchblock-collab/infrastructure/realtime/realtime.gateway.ts:249-255 | From any reachable state in which a guest kicked between room entry and second check would pass that check, a run in which the next revocation returns and leaves it present |
| `GuestRevocation.KickedWhileEntering` | apps/collab-server/src/sketchblock-collab/infrastructure/realtime/socket-session-connections.ts:36-44 | For any tickets of which one guest's was issued after the clock, with a remote adapter: that guest is kicked while entering, and access is enabled again before its second check |
| `GuestRevocation.ReturnRaisesBarrier` | apps/collab-server/src/sketchblock-collab/infrastructure/http/sessions.controller.ts:370-385 | A revocation that returns covers its own cut-off and all earlier ones |
| `GuestRevocation.SweepVisitsGuests` | apps/collab-server/src/sketchblock-collab/infrastructure/realtime/socket-session-connections.ts:35-39 | The sweep visits exactly the viewers in the room that are guests by their claims, new tickets and old |
| `GuestRevocation.KickRemoves` | apps/collab-server/src/sketchblock-collab/infrastructure/realtime/socket-session-connections.ts:40-43 | A kicked guest is neither present nor in the room; one still entering goes on |
| `GuestRevocation.FirstCheckDecides` | apps/collab-server/src/sketchblock-collab/infrastructure/realtime/realtime.gateway.ts:173-177 | A join starts only for a ticket the policy in memory lets in |
| `GuestRevocation.LastCheckDecides` | apps/collab-server/src/sketchblock-collab/infrastructure/realtime/realtime.gateway.ts:250-255 | A join that fails its last check leaves the room; one that passes is present |
| `GuestRevocation.RestartKeepsOnlyLog` | apps/collab-server/src/sketchblock-collab/infrastructure/http/sessions.controller.ts:376-380 | A restart forgets policies, rooms, presence, joins and updates under way, and keeps the log |
| `GuestRevocation.RevokedTicketRefused` | apps/collab-server/src/sketchblock-collab/infrastructure/realtime/session-participant-exclusions.ts:21-39 | In every run a ticket covered by a returned revocation is refused at every check while a policy is in memory, and always at the check before room entry, which restores the policy first; after re-enabling and after a restart too |
| `GuestRevocation.StepKeepsPolicies` | apps/collab-server/src/sketchblock-collab/infrastructure/http/sessions.controller.ts:370-385 | Every segment keeps the log: persisted revisions strictly increase, cut-offs never decrease, the running update's policy is the latest, and memory covers every returned revocation |
| `GuestRevocation.StepKeepsPresence` | apps/collab-server/src/sketchblock-collab/infrastructure/realtime/realtime.gateway.ts:249-255 | As long as no kicked guest would pass its second check, every segment keeps presence within the room and the sweep complete |
| `GuestRevocation.StepKeepsStraysRefused` | apps/collab-server/src/sketchblock-collab/infrastructure/realtime/socket-session-connections.ts:36-44 | In each of the three settings above, every segment keeps all kicked guests refused |
| `GuestGateway.Gateway.JoinSession` | apps/collab-server/src/sketchblock-collab/infrastructure/realtime/realtime.gateway.ts:173-177 | First check: refused without effect; a step of GuestRevocation |
| `GuestGateway.Gateway.RegisterSession` | apps/collab-server/src/sketchblock-collab/infrastructure/realtime/realtime.gateway.ts:216-218 | The session is registered and its audit log read; a step of GuestRevocation |
| `GuestGateway.Gateway.EnterRoom` | apps/collab-server/src/sketchblock-collab/infrastructure/realtime/realtime.gateway.ts:228-249 | Policy restored, access checked again, room entered; a step of GuestRevocation |
| `GuestGateway.Gateway.CompleteJoin` | apps/collab-server/src/sketchblock-collab/infrastructure/realtime/realtime.gateway.ts:250-255 | Checked once more inside the room: out again, or present; a step of GuestRevocation |
| `GuestGateway.Gateway.ComputePolicy` | apps/collab-server/src/sketchblock-collab/infrastructure/http/sessions.controller.ts:372-375 | Policy restored from the log and the next one computed; a step of GuestRevocation |
| `GuestGateway.Gateway.PersistPolicy` | apps/collab-server/src/sketchblock-collab/infrastructure/http/sessions.controller.ts:376-380 | Persisted before it takes effect; a step of GuestRevocation |
| `GuestGateway.Gateway.ApplyPolicy` | apps/collab-server/src/sketchblock-collab/infrastructure/realtime/socket-session-connections.ts:32-34 | In force before the room is looked at; a step of GuestRevocation |
| `GuestGateway.Gateway.FetchSockets` | apps/collab-server/src/sketchblock-collab/infrastructure/realtime/socket-session-connections.ts:35-36 | The guests in the room at that moment; a step of GuestRevocation |
| `GuestGateway.Gateway.KickGuest` | apps/collab-server/src/sketchblock-collab/infrastructure/realtime/socket-session-connections.ts:37-44 | One guest out of presence and room; a step of GuestRevocation |
| `GuestGateway.Gateway.FinishUpdate` | apps/collab-server/src/sketchblock-collab/infrastructure/realtime/socket-session-connections.ts:45-49 | The update has returned; a step of GuestRevocation |
| `GuestGateway.Gateway.FailUpdate` | apps/collab-server/src/sketchblock-collab/infrastructure/http/sessions.controller.ts:370-371 | The update threw, at any point, and the chain goes on; a step of GuestRevocation |
| `SessionParticipantExclusions.Exclusions.RestoreGuestPolicy` | apps/collab-server/src/sketchblock-collab/infrastructure/realtime/session-participant-exclusions.ts:21-30 | The replay loop computes the restore function for this session and touches no other |
| `SessionParticipantExclusions.Exclusions.NextGuestPolicy` | apps/collab-server/src/sketchblock-collab/infrastructure/realtime/session-participant-exclusions.ts:12-15 | The next policy: cut-off kept when enabling, now when revoking, revision plus one |
| `SessionParticipantExclusions.Exclusions.CanAccessGuest` | apps/collab-server/src/sketchblock-collab/infrastructure/realtime/session-participant-exclusions.ts:32-39 | True unless a policy refuses this guest's ticket, legacy tickets dated from their expiry |
| `SessionParticipantExclusions.Exclusions.ApplyGuestPolicy` | apps/collab-server/src/sketchblock-collab/infrastructure/realtime/session-participant-exclusions.ts:17-19 | The policy of this session is replaced |
| `SessionParticipantExclusions.Exclusions.Exclude` | apps/collab-server/src/sketchblock-collab/infrastructure/realtime/session-participant-exclusions.ts:43-47 | The actor joins the session's removed participants |
| `SessionParticipantExclusions.Exclusions.Clear` | apps/collab-server/src/sketchblock-collab/infrastructure/realtime/session-participant-exclusions.ts:53-56 | Policy and removed participants of the session go |
| `PresenceRegistry.RemoveLeavesOthers` | apps/collab-server/src/sketchblock-collab/infrastructure/realtime/presence.registry.ts:24-38 | After a removal the socket is in no session, every other client is where it was and emptied sessions are gone |
| `PresenceRegistry.AddPresent` | apps/collab-server/src/sketchblock-collab/infrastructure/realtime/presence.registry.ts:18-22 | An addition adds exactly that client |
| `PresenceRegistry.PresenceRegistry.RemovePresence` | apps/collab-server/src/sketchblock-collab/infrastructure/realtime/presence.registry.ts:24-38 | The loop over the nested map computes that removal and returns, without repetition, exactly the sessions the socket was in |
| `PresenceRegistry.PresenceRegistry.AddPresence` | apps/collab-server/src/sketchblock-collab/infrastructure/realtime/presence.registry.ts:18-22 | The socket's entry of that session is set |
| `PresenceRegistry.PresenceRegistry.DeleteSession` | apps/collab-server/src/sketchblock-collab/infrastructure/realtime/presence.registry.ts:44-46 | The session is forgotten |
| `SessionHistory.RevisionsMatchAudit` | apps/collab-server/src/sketchblock-collab/infrastructure/persistence/postgres-session.store.ts:61-286 | Over any run of transactions: since the last deletion at most one seed, snapshot revision = seed + number of snapshot events, Yjs revision = number of Yjs events, and the revisions in the events are consecutive |
| `SessionHistory.BasedWriteLandsOnBase` | apps/collab-server/src/sketchblock-collab/infrastructure/persistence/postgres-session.store.ts:152-221 | A write with a base revision lands directly on it or changes nothing |
| `SessionHistory.SameBaseWritesOnce` | apps/collab-server/src/sketchblock-collab/infrastructure/persistence/postgres-session.store.ts:157-159 | Two writes with one base revision never both succeed between deletions, whatever happens in between |
| `SessionHistory.RunIsMonotone` | apps/collab-server/src/sketchblock-collab/infrastructure/persistence/postgres-session.store.ts:152-335 | Between deletions revisions never go down, the log only grows and stored operations are never lost |
| `SessionHistory.StoredIsUnion` | apps/collab-server/src/sketchblock-collab/infrastructure/persistence/postgres-session.store.ts:223-274 | After any run without a deletion the stored operations are exactly those stored before and those of all states upserted |
| `SessionHistory.SnapshotIsLastWrite` | apps/collab-server/src/sketchblock-collab/infrastructure/persistence/postgres-session.store.ts:61-221 | Over any run revision and content are those of the seed or of the last write that was not refused, as determined from the requests alone |
| `SessionHistory.EveryWriteIsRecorded` | apps/collab-server/src/sketchblock-collab/infrastructure/persistence/postgres-session.store.ts:61-335 | Each operation appends its own event to the log, with its revision and actor, and nothing else |
| `SessionHistory.StatusAndPath` | apps/collab-server/src/sketchblock-collab/infrastructure/persistence/postgres-session.store.ts:61-316 | Status moves only by a status update; the path is kept by a join that finds one and set by a snapshot |
| `SessionHistory.CreatedAsAsked` | apps/collab-server/src/sketchblock-collab/infrastructure/persistence/postgres-session.store.ts:61-286 | A new row is active, at the path given, with the initial content, snapshot or state as revision 1 |
| `PostgresSessionStore.Store.GetOrCreateSession` | apps/collab-server/src/sketchblock-collab/infrastructure/persistence/postgres-session.store.ts:61-150 | Creates with an optional seed, or fills in a missing path and snapshot, and records it; that transaction of SessionHistory on this session, no other touched |
| `PostgresSessionStore.Store.UpsertSnapshot` | apps/collab-server/src/sketchblock-collab/infrastructure/persistence/postgres-session.store.ts:152-221 | Compare-and-set on the base revision; without one, last write wins; that transaction of SessionHistory on this session, no other touched |
| `PostgresSessionStore.Store.UpsertYjsState` | apps/collab-server/src/sketchblock-collab/infrastructure/persistence/postgres-session.store.ts:223-286 | Merges the state under the lock, with the next Yjs revision and its event; that transaction of SessionHistory on this session, no other touched |
| `PostgresSessionStore.Store.UpdateSessionStatus` | apps/collab-server/src/sketchblock-collab/infrastructure/persistence/postgres-session.store.ts:288-316 | Status and event of an existing session; that transaction of SessionHistory on this session, no other touched |
| `PostgresSessionStore.Store.AppendSessionAudit` | apps/collab-server/src/sketchblock-collab/infrastructure/persistence/postgres-session.store.ts:318-335 | An event of an existing session; that transaction of SessionHistory on this session, no other touched |
| `PostgresSessionStore.Store.DeleteSession` | apps/collab-server/src/sketchblock-collab/infrastructure/persistence/postgres-session.store.ts:346-357 | The row and its log go; that transaction of SessionHistory on this session, no other touched |
| `BoardHistory.HistoryIsSuffixOfLog` | apps/web/src/lib/server/database/workspace-board-store.ts:179-379 | For any run of saves, restores and renames with any positive limits, the retained versions are a contiguous end of the log of what the requests asked to be written (the content given to a save, that of the source version of a restore), which ends in the current content at the current revision |
| `BoardHistory.RevisionCountsSuccesses` | apps/web/src/lib/server/database/workspace-board-store.ts:228-379 | The revision goes up by exactly the number of successful saves and restores |
| `BoardHistory.FixedLimitRetention` | apps/web/src/lib/server/database/workspace-board-store.ts:179-191 | With a fixed limit exactly the last so many writes are retained, or all while there are fewer |
| `BoardHistory.BoardHistoryFromCreation` | apps/web/src/lib/server/database/workspace-board-store.ts:193-379 | From creation on: revision = 1 + successes, and the last min(revision, limit) writes are kept |
| `BoardHistory.RestoreBringsBack` | apps/web/src/lib/server/database/workspace-board-store.ts:341-379 | A restore succeeds exactly for retained versions and writes the content of the source, even when pruning then removes it |
| `BoardHistory.SaveWritesGiven` | apps/web/src/lib/server/database/workspace-board-store.ts:243-259 | A successful save has the given content as the current one and as the new version; versions kept are unchanged |
| `BoardHistory.SameShaSavesOnce` | apps/web/src/lib/server/database/workspace-board-store.ts:238-242 | After a successful save no later save with that sha succeeds, whatever happens in between |
| `BoardHistory.SaveNeedsCurrentSha` | apps/web/src/lib/server/database/workspace-board-store.ts:232-242 | The sha of a revision saves if and only if that revision is the current one |
| `WorkspaceBoardStore.Store.Create` | apps/web/src/lib/server/database/workspace-board-store.ts:193-226 | A new board at a free, acceptable path with revision 1; path uniqueness per owner is kept and no other board changes |
| `WorkspaceBoardStore.Store.Save` | apps/web/src/lib/server/database/workspace-board-store.ts:228-263 | Found by owner and path; not found, conflict or saved exactly as BoardHistory says, no other board changed |
| `WorkspaceBoardStore.Store.RestoreVersion` | apps/web/src/lib/server/database/workspace-board-store.ts:341-379 | Restored exactly when board and version exist for the owner, as BoardHistory says |
| `WorkspaceBoardStore.Store.Rename` | apps/web/src/lib/server/database/workspace-board-store.ts:265-303 | Title and path change, history does not; refused exactly when another board of the owner holds the given path |
| `WorkspaceBoardStore.Store.Delete` | apps/web/src/lib/server/database/workspace-board-store.ts:305-316 | Board and versions go, for the owner only |
| `BoardPaths.AllocatePath` | apps/web/src/lib/server/database/workspace-board-store.ts:203-206 | The suffix loop ends within one test more than there are taken paths and returns the first free candidate, which the path check accepts |
| `BoardPaths.PathInjective` | apps/web/src/lib/server/database/workspace-board-store.ts:84-94 | Different suffixes give different paths, for every title |
| `BoardPaths.DerivedPathIsValid` | apps/web/src/lib/server/domain/validate-drawing-path.ts:3-13 | Every derived path is accepted by the drawing-path check |
| `BoardPaths.SlugIsClean` | apps/web/src/lib/server/database/workspace-board-store.ts:85-92 | The slug is 1 to 80 characters of a-z, 0-9 and the hyphen |
| `BoardPaths.SlugKeepsLetters` | apps/web/src/lib/server/database/workspace-board-store.ts:84-92 | Hyphens aside, the slug is the title's letters and digits in order, cut off only by the length limit, and "board" when there are none |
| `BoardPaths.SlugJoinsWords` | apps/web/src/lib/server/database/workspace-board-store.ts:84-92 | The slug of a title is its words of small letters and digits, joined by single hyphens, whatever stands before, between and after them, cut to 80 characters |
| `BoardPaths.CandidatesInOrder` | apps/web/src/lib/server/database/workspace-board-store.ts:93-93 | The candidates are the slug, then the slug numbered from 2 on |
| `BoardPaths.PathAcceptedIff` | apps/web/src/lib/server/domain/validate-drawing-path.ts:3-13 | A path is accepted if and only if it has the extension, no slash in front and no two dots in a row |
| `BoardPaths.ShaReadIff` | apps/web/src/lib/server/database/workspace-board-store.ts:78-81 | A text is read as a sha if and only if it is rev- followed by digits, at least one, and nothing else |
| `BoardPaths.DecimalByDigits` | apps/web/src/lib/server/database/workspace-board-store.ts:74-76 | Revisions are written in decimal |
| `BoardPaths.ShaRoundTrip` | apps/web/src/lib/server/database/workspace-board-store.ts:74-81 | shaToRevision undoes revisionToSha |
| `RateLimits.LimitersAgree` | apps/web/src/lib/server/auth/request-security.ts:41-62 | On any calls in time order over any keys, with one window length and a limit of at least one, both limiters decide every call alike, with the same waiting time on refusal, and as one that never cleans up |
| `RateLimits.ZeroLimitDiffers` | apps/web/src/lib/server/auth/request-security.ts:52-58 | With a limit of zero they differ on the first call |
| `RateLimits.ConsumeRefines` | apps/collab-server/src/shared/infrastructure/security/fixed-window-rate-limiter.ts:45-64 | One call keeps the buckets equal to the never-cleaned reference, up to expired windows |
| `RateLimits.AttemptRefines` | apps/web/src/lib/server/auth/request-security.ts:41-62 | The same for the saturating counts, with equal decision and waiting time |
| `RateLimits.WindowBound` | apps/collab-server/src/shared/infrastructure/security/fixed-window-rate-limiter.ts:21-35 | Each window lets at most limit calls of a key through |
| `RateLimits.IntervalBound` | apps/collab-server/src/shared/infrastructure/security/fixed-window-rate-limiter.ts:21-64 | Any half-open interval of one window length holds at most 2·limit − 1 allowed calls of a key |
| `RateLimits.IntervalBoundIsReached` | apps/collab-server/src/shared/infrastructure/security/fixed-window-rate-limiter.ts:21-64 | That bound is reached for every limit of at least one and every window of more than a millisecond |
| `RateLimits.AllowedIffAmongFirst` | apps/collab-server/src/shared/infrastructure/security/fixed-window-rate-limiter.ts:21-35 | A call is allowed if and only if it is among the first limit calls of its key in its window, the calls being counted one by one |
| `RateLimits.CountIsCalls` | apps/collab-server/src/shared/infrastructure/security/fixed-window-rate-limiter.ts:22-24 | A window's count is the number of its calls |
| `RateLimits.RemainingIsWhatIsLeft` | apps/collab-server/src/shared/infrastructure/security/fixed-window-rate-limiter.ts:27-32 | Of the later calls of the key in the window exactly `remaining` more are allowed |
| `RateLimits.RetryAfterIsLeast` | apps/collab-server/src/shared/infrastructure/security/fixed-window-rate-limiter.ts:26-26 | retryAfterSeconds is the least whole number of seconds, at least one, after which the window has ended, and less than one second more than a window |
| `RateLimits.RetryAfterSuffices` | apps/collab-server/src/shared/infrastructure/security/fixed-window-rate-limiter.ts:26-34 | After a refusal and no call on that key in between, the next call made retryAfterSeconds or more later is allowed |
| `RateLimits.RefusedUntilWindowEnds` | apps/collab-server/src/shared/infrastructure/security/fixed-window-rate-limiter.ts:26-34 | After a refusal nothing on that key is let through before its window ends |
| `FixedWindowRateLimiter.FixedWindowRateLimiter.Consume` | apps/collab-server/src/shared/infrastructure/security/fixed-window-rate-limiter.ts:21-35 | Buckets and decision are those of the limiter function |
| `FixedWindowRateLimiter.FixedWindowRateLimiter.ReadBucket` | apps/collab-server/src/shared/infrastructure/security/fixed-window-rate-limiter.ts:45-56 | A live window as it is, or an empty one after cleanup |
| `FixedWindowRateLimiter.FixedWindowRateLimiter.Cleanup` | apps/collab-server/src/shared/infrastructure/security/fixed-window-rate-limiter.ts:58-64 | The deleting loop keeps exactly the live windows |
| `FixedWindowRateLimiter.AuthAttempts.ConsumeAuthAttempt` | apps/web/src/lib/server/auth/request-security.ts:41-62 | Attempts, decision and waiting time are those of the limiter function |
| `FixedWindowRateLimiter.AuthAttempts.DropExpired` | apps/web/src/lib/server/auth/request-security.ts:43-47 | The deleting loop keeps exactly the attempts not yet reset |
| `FixedWindowRateLimiter.AuthAttempts.ClearAuthAttempts` | apps/web/src/lib/server/auth/request-security.ts:64-67 | The key is forgotten, no other |
| `PasswordSemaphore.CounterIsHolders` | apps/web/src/lib/server/auth/password.ts:20-37 | In every reachable state the counter is the number of slot holders, at most 2; at most 32 wait; somebody waits only while both slots are held |
| `PasswordSemaphore.RefusedIffFull` | apps/web/src/lib/server/auth/password.ts:24-30 | A request is refused if and only if both slots are held and 32 wait, and then changes nothing |
| `PasswordSemaphore.ServedInTurn` | apps/web/src/lib/server/auth/password.ts:33-37 | A waiter at position k gets its slot at exactly the (k+1)-th release, whatever requests come in between |
| `PasswordSemaphore.FirstComeFirstServed` | apps/web/src/lib/server/auth/password.ts:23-37 | Slots granted, then those waiting, are the admitted requests in order of arrival |
| `PasswordSemaphore.AllFinishedMeansIdle` | apps/web/src/lib/server/auth/password.ts:48-55 | When all admitted tasks have finished the counter is 0 and nobody waits |
| `PasswordSemaphore.Semaphore.Acquire` | apps/web/src/lib/server/auth/password.ts:23-31 | Slot, queue place or refusal; a step of the state machine |
| `PasswordSemaphore.Semaphore.Release` | apps/web/src/lib/server/auth/password.ts:33-37 | Handover to the first waiter, or one slot less in use; a step of the state machine |
| `FacilitationState.RunKeepsInv` | apps/collab-server/src/sketchblock-collab/domain/services/facilitation-state.ts:46-124 | Over any run of updates, toggles and clears: limits and timers in range, no empty or repeating voter list, and nobody holds more votes than the highest limit in force since the votes were last emptied, itself at most 10 |
| `FacilitationState.ToggleFlipsOneVote` | apps/collab-server/src/sketchblock-collab/domain/services/facilitation-state.ts:94-120 | A successful toggle flips exactly one actor's vote on one element and keeps the lists well formed |
| `FacilitationState.ToggleCounts` | apps/collab-server/src/sketchblock-collab/domain/services/facilitation-state.ts:105-119 | It changes the actor's count by exactly one and nobody else's; an added vote stays within the limit then in force |
| `FacilitationState.RefusedIff` | apps/collab-server/src/sketchblock-collab/domain/services/facilitation-state.ts:100-118 | A toggle is refused as closed if and only if voting is closed, and for the limit if and only if voting is open, the vote is new and the actor has voted for as many elements as allowed |
| `FacilitationState.AddThenRemove` | apps/collab-server/src/sketchblock-collab/domain/services/facilitation-state.ts:94-120 | Adding a vote and taking it back restores the exact vote map |
| `FacilitationState.RemoveThenAdd` | apps/collab-server/src/sketchblock-collab/domain/services/facilitation-state.ts:94-120 | Taking a vote back and adding it again succeeds if and only if the actor held no more votes than the limit, and restores who voted for what |
| `FacilitationState.RemoveThenAddExactIffLast` | apps/collab-server/src/sketchblock-collab/domain/services/facilitation-state.ts:104-119 | It restores the exact map, order included, if and only if the actor was the element's last voter |
| `FacilitationState.UpdateIsPartial` | apps/collab-server/src/sketchblock-collab/domain/services/facilitation-state.ts:52-83 | What an update does not name stays, and applying an update twice is applying it once |
| `FacilitationState.FieldsAreIndependent` | apps/collab-server/src/sketchblock-collab/domain/services/facilitation-state.ts:52-83 | Each of the five fields of an update changes its own field of the state and no other |
| `FacilitationState.NamedFlagsAreSet` | apps/collab-server/src/sketchblock-collab/domain/services/facilitation-state.ts:53-77 | A flag that is named takes the value named, and a timer that is stopped is gone |
| `FacilitationState.TimerIsNearest` | apps/collab-server/src/sketchblock-collab/domain/services/facilitation-state.ts:59-72 | A started timer lasts the whole number of seconds within 10 to 3600 nearest to the one asked for, and ends then |
| `FacilitationState.CaptionIsTrimmed` | apps/collab-server/src/sketchblock-collab/domain/services/facilitation-state.ts:66-71 | A timer's label is what stands between the blanks around it, cut to 60 characters; a blank one is none |
| `FacilitationState.VotesMoveOnlyAsAsked` | apps/collab-server/src/sketchblock-collab/infrastructure/realtime/facilitation.registry.ts:27-50 | An update leaves the votes alone unless it asks for a reset; a toggle leaves the moderation alone; a cleared session starts over with voting closed and three votes |
| `FacilitationState.LimitIsNearest` | apps/collab-server/src/sketchblock-collab/domain/services/facilitation-state.ts:78-83 | The vote limit is the whole number within 1 to 10 nearest to the one asked for |
| `FacilitationState.LoweredLimitKeepsVotes` | apps/collab-server/src/sketchblock-collab/domain/services/facilitation-state.ts:74-87 | A concrete run: lowering the limit takes no vote away, so an actor can hold more than the limit in force |
| `FacilitationRegistry.Registry.ApplyTo` | apps/collab-server/src/sketchblock-collab/infrastructure/realtime/facilitation.registry.ts:27-37 | The session's moderation is updated, its votes kept or emptied, no other session touched |
| `FacilitationRegistry.Registry.ToggleVote` | apps/collab-server/src/sketchblock-collab/infrastructure/realtime/facilitation.registry.ts:39-46 | Stored only when the toggle succeeds; the result is that of the pure rule |
| `FacilitationRegistry.Registry.ClearSession` | apps/collab-server/src/sketchblock-collab/infrastructure/realtime/facilitation.registry.ts:48-50 | The session is forgotten |
| `AuditRedaction.SecretsDoNotShow` | apps/web/src/lib/server/audit/audit-redaction.ts:29-30 | Inputs that differ only in values under sensitive keys, at any depth and inside lists, give the same output |
| `AuditRedaction.SensitiveIffSpelled` | apps/web/src/lib/server/audit/audit-redaction.ts:38-41 | A key is sensitive if and only if one of the ten words stands somewhere in it, in any capitals |
| `AuditRedaction.WhatStays` | apps/web/src/lib/server/audit/audit-redaction.ts:21-36 | Of a value that is not hidden: the first 512 characters of a text, the first 50 items of a list, all keys of a record in order down to five deep and the placeholder below, numbers, flags and null as they are |
| `AuditRedaction.SecretsAreReplaced` | apps/web/src/lib/server/audit/audit-redaction.ts:30-30 | A value under a sensitive key is the text [redacted] |
| `AuditRedaction.RedactionIsIdempotent` | apps/web/src/lib/server/audit/audit-redaction.ts:17-36 | Redacting again changes nothing; keys stay and every value is clean: secrets replaced, texts and lists within bounds |
| `AuditRedaction.FixedIffClean` | apps/web/src/lib/server/audit/audit-redaction.ts:29-36 | A value is left as it is if and only if it is clean |
| `AuditRedaction.NestingIsBounded` | apps/web/src/lib/server/audit/audit-redaction.ts:21-22 | At most five records lie one inside the other below the redacted one, whatever lists lie between; the fifth is the placeholder |
| `AuditRedaction.ListNestingIsUnbounded` | apps/web/src/lib/server/audit/audit-redaction.ts:33-33 | Lists are not counted: any depth of them is kept as it is |
| `AuditRedaction.OwnKeysArePlain` | apps/web/src/lib/server/audit/audit-redaction.ts:1-12 | The keys the redaction itself uses are not sensitive |
| `Base64Url.RoundTrip` | apps/web/src/lib/server/auth/crypto.ts:16-27 | decode(encode(b)) = b for all byte strings, padding stripped and restored |
| `Base64Url.EncodedText` | apps/web/src/lib/server/auth/crypto.ts:16-22 | The text has ⌈4·n/3⌉ characters of the URL-safe alphabet, so neither "." nor "=" |
| `Base64Url.GroupTexts` | apps/web/src/lib/server/auth/crypto.ts:16-22 | One, two and three bytes give two, three and four characters, high bits first, as section 4 of RFC 4648 has them |
| `Base64Url.EncodeByGroups` | apps/web/src/lib/server/auth/crypto.ts:16-22 | Longer ones are put together group by group |
| `Base64Url.AlphabetInOrder` | apps/web/src/lib/server/auth/crypto.ts:19-21 | The characters are those of section 5 of RFC 4648 in order: capitals, small letters, digits, hyphen, underscore |
| `SignedTokens.SignThenVerify` | apps/web/src/lib/server/auth/crypto.ts:78-109 | For every payload and purpose, verifying a token just signed returns the payload |
| `SignedTokens.TicketAcceptedIff` | apps/collab-server/src/sketchblock-collab/infrastructure/auth/collab-ticket.verifier.ts:40-76 | A ticket signed by the web server is accepted by the collab server if and only if its kind is right and it has not expired, with the matching error otherwise |
| `SignedTokens.TicketRefusedIf` | apps/collab-server/src/sketchblock-collab/infrastructure/auth/collab-ticket.verifier.ts:40-59 | Without secret or text: missing; without a second part or with an empty one: malformed; with another digest: invalid signature |
| `SignedTokens.VerifiedByDigest` | apps/web/src/lib/server/auth/crypto.ts:88-109 | A token of two parts is read as its first part's payload exactly when the second is the digest of purpose, dot and first part |
| `SignedTokens.ReadersAgree` | apps/collab-server/src/sketchblock-collab/infrastructure/auth/collab-ticket.verifier.ts:40-76 | On every text whatever, the two readers of one secret accept the same payloads, up to kind and expiry |
| `SignedTokens.PurposesAreSeparate` | apps/web/src/lib/server/auth/crypto.ts:74-76 | A token of one purpose is read for another only if HMAC gives two different messages one digest |
| `BoardMaterializer.MaterializationIsDeterministic` | apps/collab-server/src/sketchblock-collab/domain/services/board-materializer.ts:17-30 | When all live elements have an index or none has, and index and id identify them, the content does not depend on the order the document yields them in nor on the sorting algorithm |
| `BoardMaterializer.UniqueIffKeysIdentify` | apps/collab-server/src/sketchblock-collab/domain/services/board-materializer.ts:3-11 | Among elements that all have an index, or none, the sorted arrangement is unique if and only if index and id identify the element |
| `BoardMaterializer.SortedIsUnique` | apps/collab-server/src/sketchblock-collab/domain/services/board-materializer.ts:25-27 | Two sorted arrangements of the same elements are equal |
| `BoardMaterializer.SortSorts` | apps/collab-server/src/sketchblock-collab/domain/services/board-materializer.ts:25-27 | The list persisted is a sorted permutation of the live elements |
| `BoardMaterializer.CompareIsTotalOrder` | apps/collab-server/src/sketchblock-collab/domain/services/board-materializer.ts:3-11 | Among elements that all have an index, or none, the comparator is a total order, zero exactly for equal index and id |
| `BoardMaterializer.SceneOrder` | apps/collab-server/src/sketchblock-collab/domain/services/board-materializer.ts:3-11 | Of two persisted elements the one whose index comes first in code unit order (a proper beginning, or smaller where they first differ) comes first, and with one index, or none, the one whose id does |
| `BoardMaterializer.MixedIndicesHaveNoOrder` | apps/collab-server/src/sketchblock-collab/domain/services/board-materializer.ts:5-10 | With indices mixed there may be no order at all: three elements of which no arrangement is sorted |
| `BoardMaterializer.OtherFieldsKept` | apps/collab-server/src/sketchblock-collab/domain/services/board-materializer.ts:17-29 | Every other field comes from the checkpoint, or from the default base when it is no record, and without live elements the checkpoint is returned as it is |

## Left out

- YjsDurability.AcceptedIsDurable: assumes successful writes, because a failed one does lose operations; YjsDurability.AcceptedIsKept and YjsDurability.ReleaseLosesOnlyFailedWrite say exactly which.
- YjsDurability.MirroredIsHighest: says which snapshot was mirrored last, not what Yjs keeps under the snapshot key after concurrent writes; documents are sets of operations.
- YjsPurge.PurgeNeverResurrects: covers the registry's own writes until a tombstone timer fires; a snapshot write of the store is a separate transaction and is not stopped by the tombstone.
- Convergence.IdleMeansConverged: a join reads the state and enters the room in one step. The server document only grows, which YjsDurability.ViewOnlyGrows shows of runs without failed writes; after a release has dropped what a failed write did not save, a client that returns can have more than the server.
- Convergence.StepKeepsInv: editors are neither unmounted (which clears drafts not yet sent) nor moved to another session.
- Outbox.RetriesAreBounded: counts retries, not the delays between them.
- GuestRevocation.RevokedGuestsStayOut: one join per connection, no end of the session, and no disconnect of its own between a guest's room entry and its presence. That rooms are entered in memory means only this: no policy is persisted while a socket is between room entry and second check. The other checks of a join (capacity, ticket scope, removed participants, closed sessions) only refuse and are not modelled.
- SessionHistory.RevisionsMatchAudit: the audit entries' ids, times and messages are not modelled, and callers of appendSessionAudit are taken to record neither snapshot nor Yjs writes, as they do.
- BoardHistory.SameShaSavesOnce: about one board; after a rename another board may hold the path.
- BoardPaths.ShaRoundTrip: numbers are exact; precision beyond 2^53 is not modelled.
- BoardPaths.DerivedPathIsValid: titles are taken after Unicode normalisation, removal of combining marks and lower-casing.
- RateLimits.LimitersAgree: about runs in which no key is cleared; clearing is a separate method.
- PasswordSemaphore.ServedInTurn: a waiter holds its slot from the release that hands it over, not from when its own code next runs.
- FacilitationState.RunKeepsInv: element ids that are names of Object.prototype are not modelled, and lengths of labels count code points, not UTF-16 units.
- AuditRedaction.NestingIsBounded: neither the number nor the length of keys is bounded by the source, so neither is stated; text lengths count code points.
- SignedTokens.SignThenVerify: the choice of secrets and their strength checks are given, and errors thrown for missing secrets are left out.
- Base64Url.RoundTrip: characters outside the alphabet are skipped by the decoder; how it treats padding inside a text is not modelled further.
- BoardMaterializer.MaterializationIsDeterministic: ids that are not strings enter by their text.
- The eviction scheduler (`document-eviction.scheduler.ts`): its timers only decide when releases begin, and the results hold for releases at any time.
- The two use cases that write a snapshot and then mirror it: each is one store transaction followed by one registry call, both modelled; a crash in between is not.
- Capacity limits on clients, eviction of every idle document, finality of a closed status under concurrent writes, a byte limit on mirrored documents: the code does not guarantee them.
- Encryption of stored secrets, password hashing itself, HTTP plumbing, schemas, logging, GitHub access, cookies, the website and the editor's user interface.
