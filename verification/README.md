# A-Meet: the logic around the media plane, modelled and proved

A-Meet is a video-meeting platform. Media itself runs through mediasoup; everything that decides who is let in, who is
seen in a room, what becomes a link, what ends up in the transcript and when media is set up again is ordinary code with
its own state, loops and arithmetic. This project models that code in Dafny and proves what it is for.

Each component is written twice. A pure specification (functions over datatypes) says what one step does; a class or a
method, in the form of the original (fields updated in place, loops over indices, a fixed buffer), is proved to do exactly
that. The theorems are then about the specification, over every input or every run. What the main operations compute is in
addition said without naming the specification's own helpers: the price of a request, the links of a message, which
segments a log takes, what a turn says, where a resampled value comes from are each characterised from the inputs or the
history alone.

| files | component |
|---|---|
| `TokenBucket`, `RateLimiter`, `LimiterEvents`, `RateLimiterTheorems`, `RateBound`, `RetryAfter` | the actor-keyed token-bucket limiter; what one event costs; eviction against a limiter that never forgets; the rate bound; when a denied event is admitted |
| `LinkText`, `Linkifier`, `LinkReference` | the one-pass chat linkifier against a scan of each word alone, and its links told by the characters of the message |
| `OrderedMap`, `RoomManager`, `Presence`, `PresenceTheorems`, `TranscriptExpiry`, `RosterTheorems`, `RosterRowTheorems`, `StaleRosters` | rooms, join/leave/disconnect with a grace period, transcript expiry, the peers' rosters |
| `TranscriptLog`, `TranscriptHistory`, `TranscriptMerge`, `TranscriptSync` | the bounded transcript log, the same told by its history, the client's merge, their convergence |
| `TurnAssembly`, `TurnTheorems`, `ProviderTheorems`, `TurnHistory`, `TurnSegments`, `AudioBudget` | turns of speech, told by the events alone as well, the utterance cap, what the provider gets, segment ids, the byte budget |
| `EditDistance` | the two-row edit distance and the merge decision built on it |
| `Resampler`, `ResamplerTheorems` | the capture worklet's streaming interpolation |
| `MediaRecovery`, `MediaConnections` | the retry ladder for media setup, and which connection a `ready` belongs to |
| `Wrappers` | optional values |

Some properties the code is written for hold only under a condition. For each of these the exact condition is proved, with
a run that breaks the property when the condition fails:

- Eviction loses nothing (server/src/socket/rate-limit.ts:19-24) exactly when every bucket refills from empty within the
  grace period and either holds a whole token or the first denial already disconnects
  (`UnobservableExactlyWhenAdequate`). The default limits qualify (`DefaultLimitsAreAdequate`). `Adequate` below is this
  condition.
- What one actor is admitted on a bucket stays within capacity plus refill, over every window, exactly when the grace
  period refills that bucket; other buckets do not matter (`RateBoundExactlyWhenGraceRefills`).
- `retryAfterMs` is kept exactly for costs up to the capacity; a dearer request is never admitted (`RetryAfterIsExact`,
  `RetryIsAdmittedOnTime`).
- An address on its own becomes a link exactly when it is a web URL, except that one opening with `www.` stays plain when a
  colon follows its first run of scheme characters, as before a port: `www.example.com:8080` is taken for the foreign
  scheme `www.example.com` (`AddressBecomesLink`).
- Three properties of presence hold exactly when no two user ids collide, that is, when there are no two different ids `u`
  and `v` such that `::u` ends with `::v`: joins and leaves alternate (`AlternatesExactlyWhenSafe`); a stored transcript
  of an empty room is always on its way out (`ExpiryFollowsExactlyWhenSafe`); every caught-up roster is right
  (`RostersRightExactlyWhenSafe`). Ids without a colon do not collide (`NoColonIsSafe`). `Safe` below is this condition.
- A transcript is left behind for good exactly by a late write: one to a room nobody is in, whose expiry has run and which
  has no leave pending, and which nobody joins afterwards (`StrandedExactlyByLateWrites`, `LateWriteStrands`).
- A connected `ready` belongs to the current connection exactly when the socket was not reconnected under the latest setup
  (`ReadyIsCurrentExactlyWhenNotCrossed`, `StaleReady`).
- The utterance cap (server/src/transcription/deepgram-session.ts:7) bounds every buffered turn exactly when chunks are
  at most 240000 bytes, because the pre-roll is copied in without applying the cap; the gate in front of the session lets
  at most 65536 through (`CapHoldsExactlyUpTo`, `ContributorStaysUnderCap`).

Where a comment in the code says something else than the code does, the code is followed:

- `tokenHasForeignScheme` speaks of `,`/`;` segments (client/src/components/ChatPanel.tsx:104), but every
  `SEGMENT_SEPARATOR` splits (line 113).
- The page says only the joiner receives `room-users` (client/src/pages/RoomPage.tsx:335), but peers receive it when
  somebody reconnects within the grace period (server/src/socket/handlers.ts:94).
- `getRoomUsers` speaks of the user's most recent socket (server/src/socket/room-manager.ts:28), but a socket that joins
  again keeps its place in the map, so the row may name a socket that joined later for the first time
  (`RowNamesJoiner`).
- "Evicting loses nothing" (server/src/socket/rate-limit.ts:22-24) holds for limits that satisfy the condition above, not for any.

## Model

| member | source | states |
|---|---|---|
| TokenBucket.BucketState.ConsumeToken | server/src/socket/rate-limit.ts:55-68 | refills, then spends or answers with the wait, updating tokens and time in place exactly as `Spend` says |
| TokenBucket.SpendIsExact | server/src/socket/rate-limit.ts:55-68 | an allowed spend takes exactly the cost from the refilled level, a denied one nothing; the level never leaves 0..capacity |
| TokenBucket.RefillComposes | server/src/socket/rate-limit.ts:56-58 | refilling at an intermediate time first makes no difference to the level reached |
| TokenBucket.DeniedAttemptsChangeNothing | server/src/socket/rate-limit.ts:55-68 | any ordered run of denied attempts leaves the level at every later time unchanged |
| TokenBucket.RetryAfterIsExact | server/src/socket/rate-limit.ts:60-67 | after a denial the same cost is admitted at a later millisecond if and only if it is at most the capacity and `retryAfterMs` has passed, whatever was denied in between |
| RateLimiter.SocketRateLimiter.Sweep | server/src/socket/rate-limit.ts:160-167 | removes exactly the entries without sockets that have been empty for the grace period |
| RateLimiter.SocketRateLimiter.TrackSocket | server/src/socket/rate-limit.ts:172-194 | sweeps, then attaches the socket to its actor's entry, once |
| RateLimiter.SocketRateLimiter.Guard | server/src/socket/rate-limit.ts:206-220 | registering a handler fails for an unknown bucket before touching anything, else tracks the socket |
| RateLimiter.SocketRateLimiter.OnDisconnect | server/src/socket/rate-limit.ts:186-191 | drops the reference and dates the entry when it was the last |
| RateLimiter.SocketRateLimiter.Handle | server/src/socket/rate-limit.ts:222-271 | one guarded event does what `Step` does: cost, violation count, flood disconnect at the threshold; `LimiterEvents.GuardedEvent` says what that is |
| LimiterEvents.PriceOfWholeTokens | server/src/socket/rate-limit.ts:225-230 | a request of more than n - 1 and at most n tokens, with 1 <= n <= capacity, costs n |
| LimiterEvents.PriceOfRest | server/src/socket/rate-limit.ts:225-230 | a request of at least the capacity costs the capacity, no request or one not above zero costs 1, any other at least what it asks and less than a token more |
| LimiterEvents.GuardedEvent | server/src/socket/rate-limit.ts:222-271 | an event of a known bucket is admitted if and only if the refilled level of the bucket, fresh if its entry is overdue, covers that price; the level then falls by exactly the price, on a denial by nothing; the wait is the least number of milliseconds that covers the price; violations, flood disconnect, every other bucket and every other actor are pinned |
| RateLimiterTheorems.EvictableIsFull | server/src/socket/rate-limit.ts:19-24 | a bucket that the grace period refills is full by the time a sweep may drop it |
| RateLimiterTheorems.FullActsFresh | server/src/socket/rate-limit.ts:222-236 | a full bucket answers like a fresh one whatever its violation count, and with a capacity of at least 1 admits any clamped cost (the capacity is at least 1, or the first denial disconnects) |
| RateLimiterTheorems.StepKeepsSimulation | server/src/socket/rate-limit.ts:160-271 | under `Adequate`, one legal event gives the same output with and without eviction and keeps the two stores in correspondence |
| RateLimiterTheorems.RunsAgree | server/src/socket/rate-limit.ts:160-271 | under `Adequate`, all outputs of every legal run agree from corresponding stores |
| RateLimiterTheorems.UnobservableExactlyWhenAdequate | server/src/socket/rate-limit.ts:19-24 | for all limits, eviction is unobservable on all legal runs if and only if grace times refill reaches every capacity and every capacity is at least 1 or the flood threshold at most 1 |
| RateLimiterTheorems.ShortGraceIsObservable | server/src/socket/rate-limit.ts:154-167 | with a shorter grace, a concrete drain-reconnect run is answered differently |
| RateLimiterTheorems.FractionIsObservable | server/src/socket/rate-limit.ts:228-260 | with a capacity below 1 a plain event is never admitted, and a concrete run reaches the flood disconnect only if its count of denials survives |
| RateLimiterTheorems.HeldBucketsAgree | server/src/socket/rate-limit.ts:196-200 | under `Adequate`, any bucket the evicting limiter holds agrees in tokens and time, and with a capacity of at least 1 in violations, with the one the unforgetting limiter holds |
| RateBound.StepKeepsSound | server/src/socket/rate-limit.ts:160-271 | for all limits, a legal event keeps: an entry is dated exactly when it has no sockets, no bucket was touched after that date, and connected sockets are attached |
| RateBound.StepSpendsFromLeft | server/src/socket/rate-limit.ts:160-236 | if the grace period refills the bucket and its capacity is not negative, no event, sweep included, gives an actor more of it than it takes away |
| RateBound.RateBoundOverAnyWindow | server/src/socket/rate-limit.ts:172-236 | if the grace period refills the bucket and its capacity is not negative, the price admitted on it for one actor, over all sockets and reconnects, in any window of any legal run, is at most capacity plus refill times the window |
| RateBound.BypassDrainsTwice | server/src/socket/rate-limit.ts:160-194 | with a shorter grace, a concrete reconnect run is admitted twice the capacity |
| RateBound.RateBoundExactlyWhenGraceRefills | server/src/socket/rate-limit.ts:55-236 | the bound on a bucket holds over all windows of all legal runs if and only if its capacity is not negative and the grace period refills it, whatever the other buckets are |
| RetryAfter.RetryIsAdmittedOnTime | server/src/socket/rate-limit.ts:55-68 | an event answered with a wait is admitted when sent again if and only if the wait has passed and its price is at most the capacity, over every legal run in between, of any actors, that admits nothing more on its bucket while its socket stays connected |
| RateLimiterTheorems.DefaultLimitsAreAdequate | server/src/config/env.ts:64-75 | the default limits satisfy the condition for unobservable eviction |
| LinkText.CandidateRegExp.Exec | client/src/components/ChatPanel.tsx:131 | a global regex: the leftmost candidate at or after `lastIndex`, which moves to its end, or back to 0 on failure |
| LinkText.SegmentHasForeignScheme | client/src/components/ChatPanel.tsx:90-101 | true if and only if the segment, past its wrappers, opens with a scheme other than http or https; by characters in `LinkReference.ForeignWordStaysPlain` |
| LinkText.TokenHasForeignScheme | client/src/components/ChatPanel.tsx:110-119 | true if and only if some separator-delimited segment of the token opens with a foreign scheme |
| LinkText.PeelFrom | client/src/components/ChatPanel.tsx:200-208 | the longest prefix whose last character is not trailing punctuation, or is a `)` without a surplus of closers in that prefix |
| LinkText.Peel | client/src/components/ChatPanel.tsx:190-208 | counting parentheses once gives the same end as recounting them at every step |
| Linkifier.FindInWord | client/src/components/ChatPanel.tsx:164-181 | searching the message from inside a word finds the word's own next candidate, shifted, or what is found from the word's end |
| Linkifier.AcceptInWord | client/src/components/ChatPanel.tsx:185-217 | a candidate is accepted, peeled and targeted in the message as in its word alone |
| Linkifier.PoisonedInWord | client/src/components/ChatPanel.tsx:156-162 | a word is poisoned in the message if and only if it is poisoned alone |
| Linkifier.TryLink | client/src/components/ChatPanel.tsx:182-217 | boundary test, peeling, `www.` prefix and URL validation of one candidate |
| Linkifier.LinkWord | client/src/components/ChatPanel.tsx:166-240 | the inner loop, with one carried match and a forward-only cursor, adds exactly the links still owed for the word and leaves the cursor poised for the next |
| Linkifier.VisitWord | client/src/components/ChatPanel.tsx:152-240 | one token: swept in full first, then linked, or skipped with its carried match dropped |
| Linkifier.LinkifyMessageText | client/src/components/ChatPanel.tsx:125-247 | the one-pass scanner returns exactly the nodes of scanning every word alone from its first character, and terminates; which links those are is `LinkReference.LinksAreExactly` |
| Linkifier.MessageIsSpaced | client/src/components/ChatPanel.tsx:219-239 | links are non-empty, in order and disjoint |
| Linkifier.NothingIsLost | client/src/components/ChatPanel.tsx:219-246 | the visible text of the nodes is the message |
| Linkifier.EveryLinkIsTrusted | client/src/components/ChatPanel.tsx:103-119 | every link lies in one word no segment of which opens with a foreign scheme, at a real boundary, with a validated target |
| Linkifier.ResumePointIsImmaterial | client/src/components/ChatPanel.tsx:237-239 | moving the cursor back to the end of a peeled link finds nothing the candidate's end would not |
| Linkifier.SchemeStaysInSegment | client/src/components/ChatPanel.tsx:94-97 | a scheme matched in a segment ends inside it, so no bound is needed on the sticky match |
| LinkReference.ClassesByCharacter | client/src/components/ChatPanel.tsx:34-57 | the character classes of the regular expressions, spelled out character by character |
| LinkReference.CodePointIsEncoded | client/src/components/ChatPanel.tsx:64-72 | the code point before a position is the surrogate pair that ends there, encoded as UTF-16, or else the single unit |
| LinkReference.LinksAreExactly | client/src/components/ChatPanel.tsx:125-247 | a message's links are, in every word no piece of which opens with a foreign scheme, the first candidate of every piece that stands at a boundary, cut to the longest kept text, and points to a web address; and no others |
| LinkReference.ForeignWordStaysPlain | client/src/components/ChatPanel.tsx:90-119 | a word with a piece that opens, past wrappers, with a letter-led run of scheme characters and a colon, whose name is not h-t-t-p or h-t-t-p-s in any case, holds no link |
| LinkReference.AddressBecomesLink | client/src/components/ChatPanel.tsx:182-247 | a message that is `http://`, `https://` or `www.` in any case followed by characters of a link is exactly one anchor with the kept text and its target, then the trailing punctuation as plain text, if and only if the target is a web URL and no `www.` host is followed by a colon |
| LinkReference.AnchorsAreLinks | client/src/components/ChatPanel.tsx:219-246 | the anchors shown are the links, in order, each with its own text and target |
| RoomManager.Manager.AddUser | server/src/socket/room-manager.ts:8-12 | adds the socket to the room and points the index at it |
| RoomManager.Manager.RemoveUser | server/src/socket/room-manager.ts:14-24 | removes the indexed membership and an emptied room, or nothing |
| RoomManager.Manager.GetRoomUsers | server/src/socket/room-manager.ts:26-38 | one row per user, as the map fill leaves them |
| RoomManager.Manager.IsUserInRoom | server/src/socket/room-manager.ts:40-45 | true if and only if some socket of the user is in the room |
| RoomManager.RosterIsRight | server/src/socket/room-manager.ts:26-38 | rows are the users of the room, once each, carrying the last of their sockets in map order |
| RoomManager.RosterOrder | server/src/socket/room-manager.ts:32-37 | rows stand in the order in which their users were first seen |
| RoomManager.RowNamesJoiner | server/src/socket/room-manager.ts:8-38 | after a join the user's row names the joining socket if and only if that socket is new to the room or already the user's last |
| RosterRowTheorems.RowsAreThoseOfTheRoom | server/src/socket/room-manager.ts:26-38 | the rows sent are the one list with a row for each person, in first-seen order, each naming the person's last socket in map order |
| Presence.Handlers.OnJoinRoom | server/src/socket/handlers.ts:60-96 | cancels a pending leave, joins, answers with roster, and tells peers unless the user never left |
| Presence.Handlers.OnLeaveRoom | server/src/socket/handlers.ts:98-115 | leaves at once; peers are told when it was the user's last socket; an emptied room starts to expire |
| Presence.Handlers.OnDisconnect | server/src/socket/handlers.ts:220-242 | defers the leave of a user's last socket |
| Presence.Handlers.OnGraceOver | server/src/socket/handlers.ts:235-241 | the deferred leave: tells peers if the user is still away, starts expiry of an empty room |
| Presence.Handlers.OnTranscriptExpiry | server/src/socket/transcript-manager.ts:146-154 | removes the transcript and its timer |
| PresenceTheorems.KeyDeterminesLeave | server/src/socket/handlers.ts:49 | the key of a pending leave determines room and user when neither id collides with the other |
| PresenceTheorems.NoColonIsSafe | server/src/socket/handlers.ts:49 | ids without a colon never collide |
| PresenceTheorems.StepNews | server/src/socket/handlers.ts:60-242 | under `Safe`, every step emits `user-joined` or `user-left` for a (room, user) exactly when "present or pending" changes, and in that direction |
| PresenceTheorems.NewsAlternates | server/src/socket/handlers.ts:60-242 | under `Safe`, over every run, joined and left strictly alternate for each (room, user) |
| PresenceTheorems.CollisionNews | server/src/socket/handlers.ts:49 | with colliding ids a concrete run announces a leave that no join preceded |
| PresenceTheorems.AlternatesExactlyWhenSafe | server/src/socket/handlers.ts:47-49 | alternation holds in all runs if and only if no two user ids collide |
| TranscriptExpiry.StepKeepsTimers | server/src/socket/handlers.ts:75-114 | for all user ids, every step keeps expiry timers to empty rooms |
| TranscriptExpiry.TimersOnlyForEmptyRooms | server/src/socket/transcript-manager.ts:141-154 | for all user ids and over every run, an expiry timer exists only for an empty room |
| TranscriptExpiry.ExpiryFollowsPresence | server/src/socket/handlers.ts:75-241 | under `Safe`, over every run, a stored transcript of an empty room has a timer or a pending leave that will set one |
| TranscriptExpiry.ForgottenLeaveStrands | server/src/socket/handlers.ts:65-70 | with colliding ids a concrete run cancels the leave that would have started the expiry, and the transcript stays |
| TranscriptExpiry.ExpiryFollowsExactlyWhenSafe | server/src/socket/handlers.ts:47-49 | no run strands a transcript if and only if no two user ids collide |
| TranscriptExpiry.TranscriptOutlivesPresence | server/src/socket/transcript-manager.ts:141-154 | for all user ids, in every run no step deletes the transcript of a room with somebody in it |
| TranscriptExpiry.StrandedStays | server/src/socket/handlers.ts:75-241 | for all user ids, nothing but a join of the room frees a stranded transcript |
| TranscriptExpiry.StrandedExactlyByLateWrites | server/src/socket/transcript-manager.ts:52-55 | under `Safe`, over runs with transcript writes at any time, a transcript is stranded if and only if some write hit a room with nobody in, no timer and no pending leave, and nobody has joined since |
| TranscriptExpiry.OnlyLateWritesStrandExactlyWhenSafe | server/src/socket/transcript-manager.ts:52-55 | late writes are the only way to strand a transcript if and only if no two user ids collide |
| TranscriptExpiry.LateWriteStrands | server/src/socket/transcript-manager.ts:52-55 | the run join, leave, expiry, write strands the transcript, for all user ids |
| RosterTheorems.ReduceIds | client/src/pages/RoomPage.tsx:332-352 | the ids each message leaves in the page's list, without repeats |
| RosterRowTheorems.MessageChangesRows | client/src/pages/RoomPage.tsx:332-352 | a roster replaces the list; a join appends its row unless the person is listed, and then changes nothing; a leave takes out exactly that person's rows and keeps the others, sockets and order included |
| RosterTheorems.JoinFollows | server/src/socket/handlers.ts:60-96 | under `Safe`, a join, with the messages it puts in every peer's queue, keeps each queue's outcome between the room and the room plus pending leaves |
| RosterTheorems.LeaveFollows | server/src/socket/handlers.ts:98-115 | under `Safe`, the same for an intentional leave |
| RosterTheorems.GraceOverFollows | server/src/socket/handlers.ts:235-241 | under `Safe`, the same for a deferred leave |
| RosterTheorems.RunKeepsInv | server/src/socket/handlers.ts:60-242 | under `Safe`, the invariant of server, channels and queues over every interleaving of events and deliveries |
| RosterTheorems.RosterSandwich | client/src/pages/RoomPage.tsx:332-352 | under `Safe`, a peer that has applied its queue lists everybody in the room once and nobody outside the room and its pending leaves; with none pending, exactly the room |
| RosterRowTheorems.ShownRowsAreGenuine | client/src/pages/RoomPage.tsx:332-352 | over every interleaving of events and deliveries, and for all user ids, a row shown to anybody pairs a socket with the user behind that socket |
| StaleRosters.StaleRosterStays | server/src/socket/handlers.ts:65-70 | with colliding ids a concrete run leaves a caught-up peer listing somebody who is gone, with no leave pending |
| StaleRosters.RostersRightExactlyWhenSafe | server/src/socket/handlers.ts:47-49 | every caught-up roster is right, in all runs, if and only if no two user ids collide |
| TranscriptLog.Session.AppendSegment | server/src/socket/transcript-manager.ts:87-122 | one append: inactive and invalid errors, retries ignored, entry and id recorded, both bounds applied; which segments are taken and what is recorded is said by `TranscriptHistory` |
| TranscriptLog.Session.ReviseSegment | server/src/socket/transcript-manager.ts:124-139 | replaces the first entry with the id in place, or reports none |
| TranscriptLog.EntryIdIsInjective | server/src/socket/transcript-manager.ts:104 | within a room an entry id stands for one sequence number |
| TranscriptLog.ApplyKeepsInv | server/src/socket/transcript-manager.ts:87-139 | appends and revisions keep the log's invariant |
| TranscriptLog.LogInvariant | server/src/socket/transcript-manager.ts:87-139 | after any operations the entries are numbered consecutively up to the newest, min(accepted, 5000) of them, and the remembered ids are a suffix of the accepted ones covering every entry, at most 10000 |
| TranscriptLog.RetriesAreIgnored | server/src/socket/transcript-manager.ts:99-101 | retained entries come from distinct segment ids, and sending any of these again changes nothing |
| TranscriptLog.RevisionReplacesInPlace | server/src/socket/transcript-manager.ts:124-139 | a retained entry can be revised by its id and keeps its place, number and speaker |
| TranscriptHistory.AcceptedExactlyWhenTaken | server/src/socket/transcript-manager.ts:71-122 | after any operations a segment is accepted if and only if the latest start or stop was a start, its text and id are not empty and the first 100 characters of its id are not among the remembered ones: all ids taken until the 10001st cuts them to the last 5000, and again with every 5001 more; a refusal names the first of these that failed |
| TranscriptHistory.LogTellsHistory | server/src/socket/transcript-manager.ts:87-139 | after any operations the log holds the last of the segments taken, at most 5000, numbered as taken; each entry has its segment's speaker and time, and its text, provider (or `browser`) and provisional mark as last revised |
| TranscriptMerge.MergeTranscriptEntries | client/src/utils/transcript.ts:24-33 | the map fill and sort compute `Merge` |
| TranscriptMerge.SortIsStable | client/src/utils/transcript.ts:32 | entries with the same sequence number keep their order |
| TranscriptMerge.MergeKeepsLatest | client/src/utils/transcript.ts:24-33 | the merge holds exactly the newest version of every id, in sequence order |
| TranscriptMerge.MergeIsNewest | client/src/utils/transcript.ts:24-33 | an entry is in the merge if and only if it is the last one brought in with its id or, nothing having been brought in under that id, the last one held with it; entries brought in without an id change nothing, and no id occurs twice |
| TranscriptSync.MergeOfGood | client/src/utils/transcript.ts:24-33 | merging strictly ordered lists of one room gives one, holding the incoming entries and the current ones not replaced |
| TranscriptSync.BroadcastUpdates | server/src/transcription/meeting-transcription.ts:44-55 | the entry broadcast for an append or revision brings any list holding the old entries up to date |
| TranscriptSync.StepKeepsInv | server/src/socket/handlers.ts:79-83 | appends, revisions, deliveries, losses and rejoin snapshots keep the client's outcome in step with the log |
| TranscriptSync.ClientConverges | server/src/socket/transcript-manager.ts:66-69 | through any run the client's list is strictly increasing without repeats, and once rejoined and caught up it ends with the server's current version of every retained entry |
| TurnAssembly.DeepgramSession.OnOpen | server/src/transcription/deepgram-session.ts:87-93 | sends the connect buffer in order and empties it, unless stopping |
| TurnAssembly.DeepgramSession.OnSpeechStarted | server/src/transcription/deepgram-session.ts:110-116 | copies the pre-roll into the utterance and counts its bytes, once per speech |
| TurnAssembly.DeepgramSession.OnResults | server/src/transcription/deepgram-session.ts:118-142 | one result: parts, the live text, and on the end of speech the turn with its audio and a clean state; what these say is `TurnHistory` |
| TurnAssembly.DeepgramSession.DropExcess | server/src/transcription/deepgram-session.ts:155-157 | drops from the front while over the cap, never the last chunk |
| TurnAssembly.DeepgramSession.SendChunk | server/src/transcription/deepgram-session.ts:148-162 | six-chunk pre-roll ring, capped utterance, then provider or bounded connect buffer |
| TurnAssembly.DeepgramSession.CompleteStop | server/src/transcription/deepgram-session.ts:175-181 | what stopping clears |
| TurnTheorems.ExcessIsLeast | server/src/transcription/deepgram-session.ts:155-157 | the cap drops as few chunks as possible: with the last dropped one back, the limit is exceeded |
| TurnTheorems.SendKeepsInv | server/src/transcription/deepgram-session.ts:148-162 | a chunk keeps pre-roll and utterance the right suffixes of everything taken, and the byte count their sum |
| TurnTheorems.ResultsKeepInv | server/src/transcription/deepgram-session.ts:118-142 | a result keeps the same, and adds a turn only for the current suffix |
| TurnTheorems.TurnsAreSlices | server/src/transcription/deepgram-session.ts:110-162 | in every run the i-th turn is numbered i and its audio is a contiguous slice of the chunks taken; slices are in order and disjoint, start at the pre-roll or, only if the cap forces it, as little later as possible |
| ProviderTheorems.UtteranceWithinCap | server/src/transcription/deepgram-session.ts:110-162 | the byte count is the sum of the buffered chunks and within the cap, for chunks up to 240000 bytes |
| ProviderTheorems.CapHoldsExactlyUpTo | server/src/transcription/deepgram-session.ts:110-157 | all runs with chunks up to a limit respect the cap if and only if the limit is at most 240000 bytes |
| ProviderTheorems.ProviderGetsKeptChunksInOrder | server/src/transcription/deepgram-session.ts:87-93 | what was sent, then what waits, is every chunk taken once and in order, except those that found a hundred waiting |
| TurnHistory.JoinSpells | server/src/transcription/deepgram-session.ts:126-130 | joined parts stand in the text in order, one space between neighbours and nothing else |
| TurnHistory.ConcatLaysOut | server/src/transcription/deepgram-session.ts:131 | concatenated chunks stand in the audio one behind the other, each at the sum of the lengths before it |
| TurnHistory.KeptUnlessAHundredWait | server/src/transcription/deepgram-session.ts:148-162 | after any events a chunk is kept for the provider if and only if it is not empty, no stop was asked for, and the connection is open or fewer than a hundred chunks wait |
| TurnHistory.ResultsShowTheRunningTurn | server/src/transcription/deepgram-session.ts:118-142 | after any events a result puts out the words heard since the last turn, with a text that is not final at their end, under the running turn's number, unless there are none; then, exactly if it ends speech with some final text heard, a blank and the turn |
| TurnHistory.TurnsAreThoseOfTheEvents | server/src/transcription/deepgram-session.ts:110-162 | in every run there is one turn for every result that ends speech with some final text heard since the turn before; it says those final texts, immediate repeats dropped, in order with single spaces; its audio is the bytes, end to end, of a slice of the chunks sent that ends with the newest and begins with the pre-roll of the event that first showed speech, or as little later as the cap forces (no audio once the session was torn down) |
| TurnSegments.TurnsAreNotRetriesExactlyWhenIdsFit | server/src/transcription/meeting-transcription.ts:37-44 | the turns of a session are told apart by the log if and only if there is at most one or the longest id fits in 100 characters |
| TurnSegments.ServerIdsFit | server/src/transcription/deepgram-session.ts:61-63 | with socket ids of 20 and session ids of 36 characters this is the case for all turns numbered below ten to the 33rd |
| AudioBudget.SendContributorAudio | server/src/transcription/meeting-transcription.ts:73-89 | unknown socket, oversized chunk, window reset, budget test and hand-over to the session, with the new window and session state |
| AudioBudget.WindowBound | server/src/transcription/meeting-transcription.ts:78-86 | from any window on, what is forwarded is at most what the window has left plus one budget per full second |
| AudioBudget.BudgetFromStart | server/src/transcription/meeting-transcription.ts:73-89 | in the first T ms at most 98304 bytes times (T/1000 rounded down, plus 1) |
| AudioBudget.StartBoundIsAttained | server/src/transcription/meeting-transcription.ts:73-89 | some arrivals reach that bound, for every T |
| AudioBudget.BudgetOverAnyInterval | server/src/transcription/meeting-transcription.ts:73-89 | in any interval of L ms, after anything, at most 98304 bytes times (L/1000 rounded up, plus 1), hence (rounded down, plus 2) |
| AudioBudget.IntervalBoundIsAttained | server/src/transcription/meeting-transcription.ts:73-89 | some run reaches the first of these bounds, for every L |
| AudioBudget.ContributorStaysUnderCap | server/src/transcription/meeting-transcription.ts:77-87 | whatever a contributor sends, a turn's buffered audio stays within the cap after every step |
| AudioBudget.WindowIsWhatWasOffered | server/src/transcription/meeting-transcription.ts:77-85 | a window is opened by a chunk of at most 65536 bytes a second or more after the one before, and counts every such chunk since, handed on or not |
| AudioBudget.ForwardedExactly | server/src/transcription/meeting-transcription.ts:73-89 | what is forwarded of any arrivals is exactly the chunks of at most 65536 bytes with which no more than 98304 bytes were offered in their window |
| EditDistance.NextRow | server/src/transcription/groq-refiner.ts:46-53 | one row of the table from the one above |
| EditDistance.Levenshtein | server/src/transcription/groq-refiner.ts:41-57 | the two-row program computes the edit distance |
| EditDistance.DistanceIsMinimalScriptLength | server/src/transcription/groq-refiner.ts:41-57 | some script of insertions, deletions and substitutions of that length turns one text into the other, and no shorter one does |
| EditDistance.ZeroExactlyOnEqual | server/src/transcription/groq-refiner.ts:41-57 | distance zero if and only if the texts are equal |
| EditDistance.Symmetric | server/src/transcription/groq-refiner.ts:41-57 | the order of the texts does not matter |
| EditDistance.TriangleInequality | server/src/transcription/groq-refiner.ts:41-57 | a detour is never shorter |
| EditDistance.DistanceBounds | server/src/transcription/groq-refiner.ts:41-57 | at least the difference of the lengths, at most the longer one |
| EditDistance.RatioIsNormalised | server/src/transcription/groq-refiner.ts:63 | the ratio lies in 0..1 and is 0 if and only if the texts are equal |
| EditDistance.ShouldMerge | server/src/transcription/groq-refiner.ts:59-65 | merges if and only if the texts differ and the ratio exceeds 0.12 or the word counts differ |
| EditDistance.MergeDecisionIsSymmetric | server/src/transcription/groq-refiner.ts:59-65 | the decision does not depend on which provider wrote which text |
| EditDistance.MergeDecisionIsExact | server/src/transcription/groq-refiner.ts:59-65 | two different texts are merged if and only if 25 times their distance exceeds 3 times the longer length, or they hold different numbers of spaces |
| EditDistance.InsertedSpaceMerges | server/src/transcription/groq-refiner.ts:64 | a space more anywhere is one edit and always triggers a merge, in a text of any length |
| EditDistance.OneSubstitutionThreshold | server/src/transcription/groq-refiner.ts:63-64 | one wrong letter triggers a merge if and only if the text has at most eight characters |
| Resampler.PcmCaptureProcessor.PushSample | client/public/pcm-capture-worklet.js:15-25 | clamps, scales and stores one sample, posting and replacing a full buffer |
| Resampler.PcmCaptureProcessor.Process | client/public/pcm-capture-worklet.js:27-44 | one block of input has exactly the effect of feeding its samples one by one |
| ResamplerTheorems.QuantisedNeverWraps | client/public/pcm-capture-worklet.js:16-17 | a stored sample is the scaled one cut towards zero, within Int16, without wrap-around |
| ResamplerTheorems.QuantisedStores | client/public/pcm-capture-worklet.js:16-17 | the stored value is the only one that is full scale beyond either end and in between 32767 times the sample, or 32768 times a negative one, cut towards zero |
| ResamplerTheorems.QuantisedIsMonotone | client/public/pcm-capture-worklet.js:16-17 | a larger sample is never stored as a smaller one, in spite of the two scales |
| ResamplerTheorems.CountIsExact | client/public/pcm-capture-worklet.js:33-39 | sample k is among floor((N-1)/ratio)+1 if and only if its position k times ratio lies within the N inputs heard |
| ResamplerTheorems.DueSampleIsLerp | client/public/pcm-capture-worklet.js:34-37 | what is pushed between two inputs is their mean, weighted by the distances of the output's position from them |
| ResamplerTheorems.BlocksDoNotMatter | client/public/pcm-capture-worklet.js:27-44 | any split into blocks leaves the worklet in the same state, messages included |
| ResamplerTheorems.OutputIsClosedForm | client/public/pcm-capture-worklet.js:15-44 | posted chunks, all of 1600, and the partial buffer are exactly the quantised interpolations at k times ratio for all k due |
| ResamplerTheorems.OutputIsInterpolation | client/public/pcm-capture-worklet.js:15-44 | there is a k-th sample if and only if k times the ratio lies within the input heard, and it stores (i + 1 - p) x[i] + (p - i) x[i+1] for p that position and i its floor |
| ResamplerTheorems.LinesAreKept | client/public/pcm-capture-worklet.js:34-37 | on every input p + q i the k-th sample stores p + q k times the ratio |
| ResamplerTheorems.PostedChunkIsSlice | client/public/pcm-capture-worklet.js:19-23 | the i-th message is samples 1600 i to 1600 (i+1) of the resampled input |
| MediaRecovery.DelayIsBackoff | client/src/hooks/useMediasoup.ts:882 | the delays are 500, 1000, 2000, 4000, 8000, and 8000 from then on |
| MediaRecovery.MediaHook.StartSetup | client/src/hooks/useMediasoup.ts:834-848 | starts a setup, clearing an armed timer, unless unmounted, without media or already running |
| MediaRecovery.MediaHook.Schedule | client/src/hooks/useMediasoup.ts:868-887 | pauses without a socket, gives up after five, else arms the next delay |
| MediaRecovery.MediaHook.OnSocketConnect | client/src/hooks/useMediasoup.ts:965-973 | resets the budget and starts a setup, or lets the parked one go on |
| MediaRecovery.MediaHook.OnSetupSettled | client/src/hooks/useMediasoup.ts:850-865 | success resets the budget and reports ready; failure schedules |
| MediaRecovery.MediaHook.RetryMedia | client/src/hooks/useMediasoup.ts:891-895 | resets the budget and starts a setup if the socket is up |
| MediaRecovery.ExtendKeepsInv | client/src/hooks/useMediasoup.ts:834-985 | every event keeps the machine's invariant, with the delays armed and timers fired since the last reset |
| MediaRecovery.NeverStranded | client/src/hooks/useMediasoup.ts:65-72 | in every run: mounted, with media and a connected socket, the hook is setting up, has a timer armed, is ready, or has given up |
| MediaRecovery.TimerAndSetupExclude | client/src/hooks/useMediasoup.ts:834-886 | a timer and a running setup never coexist |
| MediaRecovery.LadderIsBounded | client/src/hooks/useMediasoup.ts:868-887 | between resets the delays are a prefix of 500, 1000, 2000, 4000, 8000, at most five timers fire, and the hook gives up only after all five |
| MediaRecovery.AttemptsAreShown | client/src/hooks/useMediasoup.ts:848-894 | in every run, while mounted: the attempt shown is at most 5, none while connecting or ready, 5 once given up; with a timer armed the status is reconnecting and the attempt shown is the one whose delay runs, or none after a manual retry without a connection |
| MediaRecovery.DropIsShown | client/src/hooks/useMediasoup.ts:975-982 | after any events a drop of the socket leaves a mounted hook reconnecting at the attempt it showed, unless it had given up and goes on saying so; nothing else changes |
| MediaRecovery.StartIsShown | client/src/hooks/useMediasoup.ts:847-848 | after any events a setup that starts shows connecting if no delay was armed since the last reset, and else reconnecting and how many were |
| MediaRecovery.RecoverySettles | client/src/hooks/useMediasoup.ts:834-887 | left alone with a connected socket it comes to rest within eleven setup outcomes and timer firings, and then is ready or has given up |
| MediaConnections.ReadyIsCurrentExactlyWhenNotCrossed | client/src/hooks/useMediasoup.ts:834-856 | in every run, a connected `ready` stems from a setup started on the current connection if and only if no reconnect happened under the latest setup |
| MediaConnections.StaleReady | client/src/hooks/useMediasoup.ts:965-973 | the run media, disconnect, connect, success ends connected, idle and ready on the old connection |

## Left out

- RateLimiter.SocketRateLimiter.Handle: one clock reading per event where the code reads it up to three times; entries are held by value, so the aliasing of an entry dropped by the sweep is not modelled; the actor key (server/src/socket/rate-limit.ts:96-104) is given with the socket; the acknowledgement callback is the output `Denied`.
- LinkText.CandidateRegExp.Exec: the regex is modelled by its language; the Unicode letter, mark and number tables and the URL parser are parameters of every theorem.
- Linkifier.LinkifyMessageText: a link node is its text and target; keys and styling are rendering.
- EditDistance.ShouldMerge: takes the normalised texts; `lexicalForm` (server/src/transcription/groq-refiner.ts:37-39) is string-library detail.
- RosterTheorems.RosterSandwich: assumes a socket joins one room at a time, because `addUser` leaves an earlier membership behind, and ids that do not collide, which `RostersRightExactlyWhenSafe` shows to be needed; the alternation and expiry theorems do not assume one room at a time.
- TranscriptExpiry.ExpiryFollowsPresence: timers fire in any order, so the six hours of an expiry and the four seconds of a grace period are not compared.
- Presence.Handlers.OnJoinRoom: the transcript snapshot sent to the joiner belongs to `TranscriptSync`; user fields other than the id and a display part, logging and the relay to the media handlers are not modelled.
- TranscriptLog.Session.AppendSegment: text arrives already trimmed, collapsed and cut to 1000 characters; `startedAt`, `startedBy` and `stoppedAt` are not modelled.
- TranscriptSync.ClientConverges: one server session; after a restart sequence numbers begin again and the client's list is not cleared.
- TurnAssembly.DeepgramSession.OnResults: the result's text arrives trimmed, and collapsing white space inside the joined final text is not modelled; status callbacks are left out.
- TurnAssembly.DeepgramSession.CompleteStop: stopping is two steps, with provider messages possible in between; the finalize and close messages and the 450 ms wait are I/O.
- Resampler.PcmCaptureProcessor.Process: samples and positions are exact reals, not floats; NaN is not modelled.
- MediaRecovery.MediaHook.OnSetupSettled: the setup itself (signalling, transports, producers) is one opaque step that parks until the socket is connected and then succeeds or fails; that it can succeed across a reconnect is taken from `consumeProducer`, which reports a failed request without failing the setup (client/src/hooks/useMediasoup.ts:522-532, 774).
- Clocks are assumed not to run backwards.
- The SFU room and transport bookkeeping (server/src/socket/sfu-handlers.ts, server/src/sfu/sfu-rooms.ts): its checks and inserts are separated by awaits, and it rests on mediasoup's own close cascades.
- The rest of `useMediasoup.ts`, UI components, authentication, persistence, the Discord bot, Deepgram and Groq calls, configuration: I/O and library glue.

Nothing here runs the original program.
