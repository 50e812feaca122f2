# LingFlow: a verified model of the gateway's core

LingFlow is a WebSocket chat gateway.  It keeps a table of live connections with a cap per IP
address, evicts dead peers with application-level heartbeats, records what happens as domain events
in an in-memory store, answers queries by ranking "skills" kept in a registry, and lets users create
new skills that a language model writes and that an S3 bucket stores.  This project models those four
parts in Dafny and proves what they keep: in every step, in every interleaving, and over whole runs.

`dafny verify dfyconfig.toml` checks everything.

## Structure

**Connections and heartbeats** (`internal/connections/wss.go`)

- `Connection`, `IpCounts`: the per-connection record and the per-IP counters, with the small updates
  that all models below share.
- `HeartbeatProtocol`, `HeartbeatSafety`: one connection as a timed state machine (discrete clock,
  one-tick ticker buffers, ping loop, monitor, read deadline, arbitrary peer), and whole-run theorems
  about it.
- `AdmissionProtocol`: admission, removal, eviction and overwriting as an interleaving of critical
  sections, with the exact accounting law of the IP counters.
- `Gateway`, `ConnectionManager`: the manager as a class whose methods update its tables in place, each
  proved equal to an operation on values; which sessions the event streams then call connected.
- `SerialAdmission`: the manager's operations are runs of the admission protocol.
- `ManagerProtocol`: the manager's record of a connection follows the timed protocol, through every run and
  with any operations on other connections in between, so the heartbeat theorems hold of the manager.

**Event sourcing** (`internal/events`)

- `EventModel`, `EventStore`, `SessionFolds`, `ChatAggregate`, `ChatProjection`, `EventBus`,
  `SessionRules`, `CommandHandler`.

**Retrieval** (`internal/services/skill_registry.go`)

- `Text`, `Tokenizer`, `SkillModel`, `Relevance`, `Ranking`, `SkillRegistry`.  The logarithm is any
  function with ln(1) = 0 that grows with its argument; the order in which a map is walked is arbitrary.

**Skill creation** (`internal/services/skill_creator.go`, `internal/services/s3_skill_loader.go`,
`internal/models/skills.go`)

- `RateLimiter`, `StoragePath`, `CreateCommand`, `SkillParser`, `SkillLoader`, `SkillPipeline`.  The bucket is a map;
  each call to it and to the language model has an arbitrary outcome, and a failed call has no effect.

`Options` is a plain optional value.

## Where the code and what is said about it differ

Each of these is stated below as an exact condition or with a concrete run.

- `WSS_HEARTBEAT_TIMEOUT` is documented as an idle timeout.  A ping refreshes the activity time
  (`internal/connections/wss.go:785`), so with interval <= timeout, as in the defaults, the idle monitor
  never removes anyone; with interval > timeout it can remove a peer that has left no ping unanswered
  (`MonitorNeverActsIff`, `KeepsAnsweringPeersIff`).
- Eviction, a failed broadcast write and re-adding a live identifier discard an entry without
  decrementing its IP counter.  Once `max` entries of an address have leaked this way, the address is
  refused for ever (`CanAdmitLaterIff`).
- Those departures also record no disconnect event, so the session's stream still says "connected"
  (`LiveImpliesConnected`, `EvictionStrandsSession`).
- The command handler checks the stream of the command's aggregate identifier and appends to the stream
  of its payload's connection identifier.  Streams stay well formed exactly when the two agree on being
  connected (`AcceptedKeepsIff`, `MisalignedConnectsTwice`).
- A bus publication may deliver everything and still report an error: when the last handler called is the
  one that fails, or when the context is cancelled after that call and before a later event's check
  (`CompleteMeansPublishedIff`, `CompleteButFailed`, `CompleteButCancelled`).
- Skill creation is documented as at most five requests per user and minute.  The limiter is a fixed
  window: in an interval of length L the exact maximum is 5 (ceil(L / (60 s + 1 ns)) + 1), which is five
  only for a single instant (`AllowedAtMost`, `AllowedAtMostIsAttained`, `AtMostFiveIff`).  The creation
  pipeline never asks the limiter.
- A skill path whose cleaned name contains ".." or ends in "." builds a key that the parser refuses
  (`BuiltPathRoundTrip`).
- A listed skill is loaded under a key rebuilt from its name, which is the listed key only for a lower-case
  extension that no upper-case one precedes (`ListedKeyIsRebuiltIff`).
- The content generated for a skill has section headings, and a later heading within the first twenty lines
  replaces the display name (`SectionOverridesName`).  A field whose name is not in lower case is
  recognised, but its name stays in the value (`CapitalisedFieldKeepsItsName`).
- When the final upload fails, the empty placeholder stays in the bucket and blocks its name
  (`OccupiedIff`, `PlaceholderBlocks`).

## Model

| member | source | states |
|---|---|---|
| HeartbeatProtocol.ScheduledRun | internal/connections/wss.go:864-941 | in every timed run ticks are served on time, a loop that waits for a tick has no ping outstanding, and an outstanding ping was sent exactly one timeout before its check |
| HeartbeatProtocol.TimePasses | internal/connections/wss.go:864-956 | from every reachable live state and for every later instant, the server and the clock alone reach that instant or the connection's removal: timers cannot hold the clock up |
| HeartbeatSafety.PingBeatsMonitorRun | internal/connections/wss.go:783-785 | with interval <= timeout the next ping always comes before the idle limit, whatever the peer does |
| HeartbeatSafety.AnswersBeatChecksRun | internal/connections/wss.go:906-923 | with interval <= timeout a pong that comes in time precedes both the nonce check and the read deadline, in every run |
| HeartbeatSafety.AnsweringPeerStays | internal/connections/wss.go:864-998 | no false eviction: with interval <= timeout a peer that answers every ping strictly within the timeout is never removed by nonce check, idle monitor or read deadline, in any run, and is never idle beyond the timeout |
| HeartbeatSafety.LongIntervalEvicts | internal/connections/wss.go:975-998 | with interval > timeout there is a run in which the monitor evicts a peer that has left no ping unanswered |
| HeartbeatSafety.KeepsAnsweringPeersIff | internal/connections/wss.go:864-998 | the guarantee to answering peers holds if and only if interval <= timeout |
| HeartbeatSafety.MonitorNeverActsIff | internal/connections/wss.go:944-998 | the idle monitor never removes anyone, answering or not, if and only if interval <= timeout |
| HeartbeatSafety.RemovalDueRun | internal/connections/wss.go:906-921 | the instant by which a silent peer is removed never moves later, whatever else the peer sends |
| HeartbeatSafety.DeadPeerIsRemoved | internal/connections/wss.go:853-942 | dead-peer bound: for every interval and timeout, once a peer sends no matching pong any more, the clock cannot pass timeout + max(interval, timeout) with it registered |
| HeartbeatSafety.DeadPeerReachesRemoval | internal/connections/wss.go:853-1053 | however a peer's silence has gone so far, the server's own steps take its connection to removal, no later than that bound |
| HeartbeatSafety.DeadPeerBoundIsAttained | internal/connections/wss.go:853-942 | for every configuration some silent peer is still registered when that bound is reached, so no smaller bound holds |
| ManagerProtocol.PongAnswersPing | internal/connections/wss.go:657-834 | after a ping and a pong with its nonce nothing is outstanding and the activity time is the pong's |
| ManagerProtocol.WrongPongKeepsPing | internal/connections/wss.go:657-834 | a pong with another nonce counts as activity and leaves the ping outstanding; so does a second ping |
| ManagerProtocol.StepIsFollowed | internal/connections/wss.go:558-1053 | each step of the timed protocol and the manager's operation for it change the connection's record alike |
| ManagerProtocol.RunIsFollowed | internal/connections/wss.go:558-1053 | through every run, with any operations on other connections in between, the manager's record of a connection is the protocol's, and it is gone exactly when the protocol says so |
| ManagerProtocol.AnsweringPeerIsRegistered | internal/connections/wss.go:150-1053 | with interval <= timeout an admitted peer that answers in time stays registered at the manager until it leaves |
| ManagerProtocol.DeadPeerIsUnregistered | internal/connections/wss.go:150-1053 | at the manager a silent peer is registered no longer than the bound |
| IpCounts.EntriesAfterPut | internal/connections/wss.go:212-220 | how inserting or overwriting a connection changes the number of connections of each address |
| IpCounts.EntriesAfterDelete | internal/connections/wss.go:298-324 | how deleting a connection changes the number of connections of each address |
| AdmissionProtocol.StepKeepsBalance | internal/connections/wss.go:175-324 | the accounting law: each critical section keeps counter + half-done removal = registered + reserved + leaked, and the cap, for every address |
| AdmissionProtocol.RunKeepsInv | internal/connections/wss.go:175-324 | the law, stored counters in 1..max and the cap hold through every interleaving, and leaks never shrink |
| AdmissionProtocol.CapUnderInterleaving | internal/connections/wss.go:175-324 | in every reachable state an address has at most max registered connections, stored counters are in 1..max, and between removals the counter is exactly registered + reserved + leaked |
| AdmissionProtocol.ExactWithoutLeaks | internal/connections/wss.go:175-324 | without overwrites, evictions and failed broadcasts the counter is exactly registered + reserved |
| AdmissionProtocol.UncappedNeverRefuses | internal/connections/wss.go:176-210 | with max <= 0 no run ever counts or refuses anyone |
| AdmissionProtocol.Drain | internal/connections/wss.go:298-324 | from every reachable state some run empties the table and the reservations without a leak |
| AdmissionProtocol.CanAdmitLaterIff | internal/connections/wss.go:176-206 | an address can ever be admitted again if and only if fewer than max of its entries have leaked |
| SerialAdmission.PerformIsRun | internal/connections/wss.go:150-1053 | each operation of the manager is a run of the admission protocol |
| SerialAdmission.SerialCap | internal/connections/wss.go:150-1053 | in every serial run of the manager, registered connections of an address <= its counter <= max |
| Gateway.RecordStreamInjective | internal/connections/wss.go:1478-1510 | different connections record their events in different streams |
| Gateway.PongInTwoHalves | internal/connections/wss.go:657-711 | refreshing activity and clearing the nonce in two steps amounts to one pong, for a matching nonce, a wrong one, or none outstanding |
| Gateway.BroadcastNotedOneMore | internal/connections/wss.go:376-449 | a broadcast records one event per recipient whatever the order in which the table is walked |
| Gateway.EventsRecorded | internal/connections/wss.go:150-1053 | exactly which event each operation appends to each stream: none to any stream but its own connection's, except one to every recipient of a broadcast |
| Gateway.ConnectedAfter | internal/connections/wss.go:220-348 | only an accepted add and the removal of a registered connection change what a stream says about being connected |
| Gateway.LiveImpliesConnected | internal/connections/wss.go:150-1053 | in every serial run a stream says connected if and only if its connection is registered or was last evicted or dropped by a broadcast |
| Gateway.ServerRunConnectsExactly | internal/connections/wss.go:150-1053 | the same for every serial run of a server that starts empty |
| Gateway.EvictionStrandsSession | internal/connections/wss.go:1009-1053 | after an eviction and the reader's own removal the session is registered nowhere and still connected on record |
| ConnectionManager.WebsocketConnectionManager.RecordEvent | internal/connections/wss.go:1478-1510 | appends one event of the given type to the connection's own stream and leaves every other stream alone |
| ConnectionManager.WebsocketConnectionManager.ReserveSlot | internal/connections/wss.go:175-210 | refuses exactly at the limit, changing nothing, and otherwise counts the reservation |
| ConnectionManager.WebsocketConnectionManager.AddConnection | internal/connections/wss.go:150-272 | accepted exactly below the limit; then registers the connection, overwriting one of the same identifier, and records the connect |
| ConnectionManager.WebsocketConnectionManager.ReleaseSlot | internal/connections/wss.go:298-307 | decrements the address's counter, deletes it at zero or below, and does nothing for an unknown address |
| ConnectionManager.WebsocketConnectionManager.RemoveConnection | internal/connections/wss.go:274-348 | for a registered connection: decrements or deletes its counter, deletes the entry and records the disconnect; otherwise changes nothing |
| ConnectionManager.WebsocketConnectionManager.BroadcastMessage | internal/connections/wss.go:376-449 | drops exactly the connections whose write fails, records one event for every recipient, and leaves the counters alone |
| ConnectionManager.WebsocketConnectionManager.UpdateLastActive | internal/connections/wss.go:558-567 | moves one connection's activity time and nothing else |
| ConnectionManager.WebsocketConnectionManager.SendPing | internal/connections/wss.go:736-834 | skips while a ping is outstanding; else installs the nonce and refreshes the activity time, and records the ping if it was written |
| ConnectionManager.WebsocketConnectionManager.HandlePong | internal/connections/wss.go:657-711 | any pong refreshes activity and is recorded; a nonce equal to the stored one, empty or not, leaves none outstanding |
| ConnectionManager.WebsocketConnectionManager.HandleHeartbeatTimeout | internal/connections/wss.go:1009-1053 | records the timeout and deletes the entry without touching the counters |
| ConnectionManager.WebsocketConnectionManager.CheckHeartbeatTimeouts | internal/connections/wss.go:958-998 | starts evictions for exactly the connections idle beyond the timeout |
| ConnectionManager.WebsocketConnectionManager.LiveRebuildsConnected | internal/connections/wss.go:220-232 | in a serial run each registered connection's stream rebuilds without error to a connected session |
| EventStore.AppendKeepsIndex | internal/events/store.go:36-65 | appending a correctly versioned event to log and stream keeps index and log in agreement |
| EventStore.InMemoryEventStore.Append | internal/events/store.go:36-65 | fails and changes nothing exactly for a cancelled context, an empty stream or an empty type; otherwise completes the event, gives it the stream's next version and appends it to stream and log; this is the step that runs of appends are made of |
| EventStore.InMemoryEventStore.LoadStream | internal/events/store.go:68-83 | returns the events of the log with that stream id, in order, versioned 1..n |
| EventStore.InMemoryEventStore.LoadAll | internal/events/store.go:86-97 | fails exactly when cancelled; else the whole log, which filtered by stream gives every stream with versions 1..n |
| EventStore.ReachableIndexRefinesLog | internal/events/store.go:57-65 | in every store reachable by appends each stream equals the log filtered to it, with versions exactly 1..n |
| SessionFolds.TallyMeaning | internal/events/aggregate.go:33-52 | what the fold computes, without a fold: connected if and only if the last session event is a connect, and each counter is the number of events of its type |
| ChatAggregate.ChatSessionAggregate.ApplyEvent | internal/events/aggregate.go:33-52 | counts the event, takes the identifier only from a connect that decodes, and leaves the version alone |
| ChatAggregate.RebuildChatSessionAggregate | internal/events/aggregate.go:20-30 | the fold of the history; its version is the length, hence the last loaded event's version |
| ChatAggregate.IdentifierAfter | internal/events/aggregate.go:20-42 | a connect that decodes sets the identifier; any other event leaves it, or lends its own while there is none |
| ChatAggregate.OneConnectionIdentified | internal/events/aggregate.go:20-42 | a stream of one connection's events rebuilds to that connection's aggregate |
| ChatAggregate.ChatSessionAggregate.HandleConnectSession | internal/events/aggregate.go:56-82 | refused exactly when connected, then for a payload that does not decode; else one connect event |
| ChatAggregate.ChatSessionAggregate.HandleDisconnectSession | internal/events/aggregate.go:85-111 | refused exactly when not connected, then for a payload that does not decode; else one disconnect event |
| ChatAggregate.ChatSessionAggregate.HandleSendMessage | internal/events/aggregate.go:113-138 | refused exactly when not connected, then for a payload that does not decode; else one message event |
| ChatProjection.ChatSessionProjection.ApplyEvent | internal/events/chat_projection.go:28-59 | one event; fails exactly for a session event that does not decode, and even then moves the time |
| ChatProjection.RebuildChatSessionProjection | internal/events/chat_projection.go:62-97 | the one-pass rebuild, with its own copy of the switch, equals applying the events one by one from zero |
| ChatProjection.ResumedJoins | internal/events/chat_projection.go:62-97 | rebuilding h1 + h2 is resuming h2 from the rebuild of h1, failures included |
| ChatProjection.RebuildMeaning | internal/events/chat_projection.go:62-97 | succeeds if and only if every session event decodes; the result has the aggregate's tally, the latest time and the last session's identifier |
| EventBus.ScriptDelivers | internal/events/bus.go:47-66 | context checks and handler calls in order, run to the end, make exactly the deliveries owed |
| EventBus.InMemoryEventBus.Subscribe | internal/events/bus.go:36-40 | adds the handler behind the earlier ones of that type and changes no other type |
| EventBus.SubscriptionAdds | internal/events/bus.go:36-66 | a subscribed handler is owed every event of its type, behind the earlier subscribers, and no other; nothing is owed without subscriptions |
| EventBus.DeliveriesJoin | internal/events/bus.go:47-66 | what several events are owed is what each is owed, one after the other |
| EventBus.InMemoryEventBus.Publish | internal/events/bus.go:47-66 | takes the steps up to and including the first that goes wrong, makes exactly their calls, and reports that step |
| EventBus.DeliveredPrefix | internal/events/bus.go:47-66 | what was delivered is a prefix of the event-by-event, subscription-order sequence, and success implies all of it |
| EventBus.CompleteIff | internal/events/bus.go:47-66 | everything is delivered if and only if every context check and handler before the last owed call goes well |
| EventBus.CompleteMeansPublishedIff | internal/events/bus.go:47-66 | "complete if and only if nil" holds if and only if the publication does not reach the last owed call with that call, or a check behind it, going wrong |
| EventBus.CompleteButFailed | internal/events/bus.go:47-66 | for any handlers and events with something to deliver: all of it delivered and the last handler's error reported |
| EventBus.CompleteButCancelled | internal/events/bus.go:47-66 | for any events the last of which has no handler: all delivered and the cancellation before that event reported |
| SessionRules.WellFormedAlternates | internal/events/aggregate.go:56-138 | the session events of a well-formed stream alternate connect and disconnect, starting with a connect |
| SessionRules.ReceivedWhileConnected | internal/events/aggregate.go:113-138 | in a well-formed stream messages are received only behind a connect that no disconnect follows |
| SessionRules.AcceptsIff | internal/events/handler.go:28-59 | which commands are accepted, by the last session event of the stream checked and the payload |
| SessionRules.RecordedMeaning | internal/events/handler.go:61-68 | an accepted command adds one event of its kind, correctly owned and versioned, to its payload's stream and to no other |
| SessionRules.StreamsAreOwned | internal/events/handler.go:28-77 | over every serial run a stream holds only its own connection's events and rebuilds to that connection's aggregate |
| SessionRules.AcceptedKeepsIff | internal/events/handler.go:28-74 | an accepted command keeps every stream well formed if and only if the stream checked and the stream written agree on being connected |
| SessionRules.SerialRunsAreWellFormed | internal/events/handler.go:28-77 | in every serial run of commands whose two identifiers agree, every stream alternates and messages arrive only while connected |
| SessionRules.MisalignedConnectsTwice | internal/events/handler.go:28-77 | checked against one stream and written to another, the same connect is accepted twice |
| CommandHandler.ChatCommandHandler.Decide | internal/events/handler.go:28-59 | decides on one event exactly when the load succeeds and the rebuilt aggregate accepts |
| CommandHandler.ChatCommandHandler.Persist | internal/events/handler.go:61-70 | appends the decided event with its version, or changes nothing |
| CommandHandler.ChatCommandHandler.Handle | internal/events/handler.go:28-77 | the store changes exactly when the command is accepted and the context alive; only then is the event published, already stored and versioned; a rejected command leaves store and bus alone |
| Tokenizer.Tokenize | internal/services/skill_registry.go:274-286 | the lower-case words of at least two bytes, in order |
| Tokenizer.OneWord | internal/services/skill_registry.go:275-277 | a run of letters and digits is never broken, however it mixes them |
| Tokenizer.OneToken | internal/services/skill_registry.go:274-286 | such a run is one token, lower-cased, if it has at least two bytes, and none otherwise; with the joining laws this determines the tokenizer |
| Tokenizer.ByteLengthMeaning | internal/services/skill_registry.go:281-281 | a word has as many bytes as runes exactly when it is ASCII, and at most four per rune |
| Tokenizer.TokensFoldCase | internal/services/skill_registry.go:275-275 | texts that differ only in ASCII case have the same tokens |
| Tokenizer.WordsMeaning | internal/services/skill_registry.go:275-277 | words are non-empty, hold only letters and digits, and together spell all of those in the text |
| Tokenizer.TokensJoinAt | internal/services/skill_registry.go:274-286 | tokenizing two texts joined by anything that is neither letter nor digit gives the tokens of the first, then those of the second |
| Relevance.CountTokens | internal/services/skill_registry.go:240-243 | the frequency table has exactly the tokens, each with its number of occurrences |
| Relevance.SearchTokensAre | internal/services/skill_registry.go:228-235 | the search tokens are those of name, description, category and each keyword, in this order, and nothing else |
| Relevance.MatchesIff | internal/services/skill_registry.go:248-260 | a query token matches if and only if it extends or is contained in some search token |
| Relevance.WeightOf | internal/services/skill_registry.go:248-261 | a token counts as matched whatever the walk order; its weight is the exact one, or half that of some related token, or nothing |
| Relevance.WeighQuery | internal/services/skill_registry.go:245-261 | the number of matched tokens is the same for every walk order, and the total is a sum of weights some order gives |
| Relevance.ComputeRelevanceScore | internal/services/skill_registry.go:227-271 | the score is the combination of coverage and average weight for weights that some walk order gives |
| Relevance.ScoreAtLeast | internal/services/skill_registry.go:240-270 | with e exact and p partial matches among n tokens the score is at least (e + 0.8 p)/n, in every order |
| Relevance.ScoreAtMost | internal/services/skill_registry.go:240-270 | with N search tokens the score is at most ((e + p)/n)(1 + 0.4 ln N), in every order |
| Relevance.ScoreZeroIff | internal/services/skill_registry.go:263-270 | the score is never negative, and zero if and only if no query token matches |
| Relevance.ExactTokenScore | internal/services/skill_registry.go:249-270 | one query token found f times scores exactly 1 + 0.4 ln f |
| Relevance.PartialTokenScore | internal/services/skill_registry.go:253-270 | one query token that is only related to search tokens scores 0.8 + 0.2 ln f for one of them, found f times |
| Relevance.OwnTextScoresOne | internal/services/skill_registry.go:227-271 | queried with its own name, description, category or a keyword, a skill scores at least 1 in every order |
| Ranking.SortRetrievalResults | internal/services/skill_registry.go:290-300 | the in-place insertion sort leaves the ranking of the array's contents |
| Ranking.InsertInto | internal/services/skill_registry.go:291-299 | one pass shifts the smaller entries and inserts the current one, leaving the rest alone |
| Ranking.RankedDescends | internal/services/skill_registry.go:290-300 | the ranking descends by score |
| Ranking.RankedIsStable | internal/services/skill_registry.go:290-300 | the entries of every score are kept, in their original order |
| Ranking.RankedPermutes | internal/services/skill_registry.go:290-300 | the ranking is a permutation |
| Ranking.RankingIsUnique | internal/services/skill_registry.go:290-300 | any descending and stable arrangement is the ranking |
| Ranking.TopIsBest | internal/services/skill_registry.go:172-176 | exactly min(maxResults, qualifying) results, descending, and nothing left out scores higher than anything returned |
| Ranking.TopIsStable | internal/services/skill_registry.go:172-176 | equal scores keep index order in what is returned |
| SkillRegistry.EveryEntryIndexed | internal/services/skill_registry.go:212-224 | an index that agrees with the table misses no entry |
| SkillRegistry.LoadedMeaning | internal/services/skill_registry.go:86-113 | after a reload an identifier holds the last definition given for it, and nothing else is in the table |
| SkillRegistry.QualifyingMembers | internal/services/skill_registry.go:160-170 | the candidates are exactly the entries at or above the threshold |
| SkillRegistry.QualifyingJoin | internal/services/skill_registry.go:160-170 | candidates keep index order |
| SkillRegistry.Registry.RebuildMetadataIndex | internal/services/skill_registry.go:212-224 | one metadata record per table entry and no others, for any walk order |
| SkillRegistry.Registry.RegisterSkill | internal/services/skill_registry.go:39-62 | refuses exactly empty identifiers and names, changing nothing; else puts the skill and keeps index and table in agreement |
| SkillRegistry.Registry.UnregisterSkill | internal/services/skill_registry.go:65-83 | removes exactly that entry and keeps index and table in agreement |
| SkillRegistry.Registry.Reload | internal/services/skill_registry.go:86-113 | all or nothing: one unusable definition leaves everything; else the last duplicate wins and index and table agree |
| SkillRegistry.Registry.RetrieveSkills | internal/services/skill_registry.go:148-185 | the top of the candidates, ranked; nothing for a query without tokens |
| SkillRegistry.Registry.Candidates | internal/services/skill_registry.go:160-170 | exactly the entries whose score, for some walk order, reaches the threshold, in index order |
| SkillRegistry.Registry.RetrieveBestSkill | internal/services/skill_registry.go:189-201 | nil exactly when this call's own retrieval found nothing, which it never does for a registered skill's own text; otherwise the registered definition of its first result |
| SkillRegistry.SelfRetrieval | internal/services/skill_registry.go:148-286 | queried with its own name, description, category or a keyword, an indexed skill is among the results with a score of at least 1, or the results are full of skills that score at least as high |
| SkillRegistry.AnswersAreScored | internal/services/skill_registry.go:148-185 | any query with tokens, one or many, gets at most maxResults registered skills, descending, each with a score the query can give it and not below the threshold |
| SkillRegistry.OwnTextIsAnswered | internal/services/skill_registry.go:148-185 | self-retrieval at the registry: queried with its own text a registered skill is in every answer with a score of at least 1, or the answer is full of skills that score at least as high |
| RateLimiter.CreateSkillRateLimiter.Allow | internal/services/skill_creator.go:69-112 | allows below five in the current window, opening one after more than a minute; the first call of a window is always allowed |
| RateLimiter.UsersAreIndependent | internal/services/skill_creator.go:84-110 | inside a window one user's calls change neither another's count nor what that user is allowed |
| RateLimiter.FiveForEveryUser | internal/services/skill_creator.go:79-86 | whatever others have used of a window, a user's own count in it is still zero |
| RateLimiter.RunIsTracked | internal/services/skill_creator.go:77-111 | over any chronological run: at most five per window opened in the interval, and one window's worth more only if the first opening came after its first instant; openings are more than a minute apart |
| RateLimiter.AllowedAtMost | internal/services/skill_creator.go:69-112 | any run, user and interval of length L: at most 5 (ceil(L / (60 s + 1 ns)) + 1) allowed calls |
| RateLimiter.AllowedAtMostIsAttained | internal/services/skill_creator.go:69-112 | every interval has a run that reaches that number, so it is the exact maximum |
| RateLimiter.AllowedBound | internal/services/skill_creator.go:69-112 | the same in started minutes: at most 5 (ceil(L / 60 s) + 1) for L > 0 |
| RateLimiter.TenAtOnce | internal/services/skill_creator.go:69-112 | every interval longer than an instant has a run with exactly ten allowed calls, five in each of its last two ticks |
| RateLimiter.AtMostFiveIff | internal/services/skill_creator.go:69-112 | no run allows a user more than five calls in an interval if and only if the interval is a single instant |
| RateLimiter.FiveWithinOneWindow | internal/services/skill_creator.go:79-86 | at most five in any interval in which no window opens |
| StoragePath.ParsedKeyIsObjectKey | internal/models/skills.go:119-154 | whatever key is accepted, the path found has that key |
| StoragePath.AcceptedIff | internal/models/skills.go:119-154 | a key is accepted if and only if it is the key of a non-empty flat name and holds no ".." |
| StoragePath.NamesAreCleaned | internal/models/skills.go:91-114 | one final ".md" and the white space around a flat name are dropped and nothing else |
| StoragePath.FlatNameParses | internal/models/skills.go:119-154 | the key of a flat name parses back to it, unless the key contains ".." |
| StoragePath.BuiltPathRoundTrip | internal/models/skills.go:91-154 | a built path survives the trip through its key if and only if the cleaned name has no ".." and does not end in "." |
| CreateCommand.ParsedIsTrimmed | internal/services/skill_creator.go:134-146 | a parsed name and description have no white space at either end, and the name holds no blank |
| CreateCommand.ParsesIffSpelled | internal/services/skill_creator.go:114-155 | a message parses to a valid name and a trimmed description if and only if it spells them, white space aside; only a blank separates the two |
| CreateCommand.IsCommandIff | internal/services/skill_creator.go:119-132 | a message is a command at all if and only if it begins with the command word, white space aside, with or without a separator |
| CreateCommand.NameOnlyIff | internal/services/skill_creator.go:134-146 | a message names a skill without a description if and only if it spells only that |
| SkillPipeline.NameFromKey | internal/services/s3_skill_loader.go:698-755 | every accepted skill name comes back from its own key, under any prefix |
| SkillLoader.ListedKeyIsRebuiltIff | internal/services/s3_skill_loader.go:698-755 | the key rebuilt from a listed name is the listed key if and only if it has a lower-case extension preceded by no upper-case one |
| SkillParser.ParseSkillDefinition | internal/services/s3_skill_loader.go:757-855 | the loops over the head compute the definition that the next row describes |
| SkillParser.DefinitionMeaning | internal/services/s3_skill_loader.go:757-855 | every part of the definition: name, category and keywords from the first twenty lines, the description field unless empty and else the first plain line behind the second, and the whole content as instructions |
| SkillParser.TitleMeaning | internal/services/s3_skill_loader.go:778-788 | a heading of the first or second level gives its text as a title |
| SkillParser.FieldMeaning | internal/services/s3_skill_loader.go:789-818 | a field line in lower case gives what follows its name |
| SkillParser.CapitalisedFieldKeepsItsName | internal/services/s3_skill_loader.go:789-806 | a field line in another case is recognised, and its whole text, name included, becomes the value |
| SkillParser.SectionOverridesName | internal/services/s3_skill_loader.go:776-788 | a later section heading in the head replaces the display name |
| SkillParser.SplitLinesJoin | internal/services/s3_skill_loader.go:770-770 | the head's pieces joined again are the whole content; at most twenty, and only the twentieth can hold a newline |
| SkillParser.SplitCommasJoin | internal/services/s3_skill_loader.go:806-807 | the pieces of a keyword line hold no comma and join to the line |
| SkillParser.HeadMeaning | internal/services/s3_skill_loader.go:769-819 | name, description and category each come from their own last line, the keywords from all keyword lines in order; without a title the name is the identifier's base name |
| SkillParser.LastValueMeaning | internal/services/s3_skill_loader.go:776-819 | a later line overrides an earlier one; the default stands only when no line gives a value |
| SkillParser.KeywordsInJoin | internal/services/s3_skill_loader.go:807-812 | within a line each piece contributes itself, trimmed, or nothing if empty, in order and with repetitions |
| SkillParser.KeywordsMeaning | internal/services/s3_skill_loader.go:805-818 | the keywords are those of each keyword line, line after line, and nothing else |
| SkillParser.FallbackMeaning | internal/services/s3_skill_loader.go:821-832 | without a description the first plain body line is used, cut at one hundred bytes |
| SkillParser.ParsedIsRegistrable | internal/services/s3_skill_loader.go:757-855 | a parsed definition keeps identifier and content and never has an empty name |
| SkillLoader.NamesJoin | internal/services/s3_skill_loader.go:205-259 | the names of a listing are those of its pages, one page after the other |
| SkillLoader.NamesIff | internal/services/s3_skill_loader.go:240-253 | exactly the names of listable keys are listed |
| SkillLoader.ListedOnlyIf | internal/services/s3_skill_loader.go:240-253 | only Markdown files directly under the prefix are listed |
| SkillLoader.LoadedIff | internal/services/s3_skill_loader.go:408-429 | exactly the listed skills whose read succeeds are loaded, each parsed from the object under its own key |
| SkillLoader.LoadedIsRegistrable | internal/services/s3_skill_loader.go:377-451 | whatever a listing loads can be registered and holds its object's content |
| SkillLoader.S3SkillLoader.ListSkills | internal/services/s3_skill_loader.go:173-272 | the names on all pages, or nothing as soon as a page fails |
| SkillLoader.S3SkillLoader.LoadAllSkills | internal/services/s3_skill_loader.go:377-451 | fails only with the listing; a failed read only skips its skill |
| SkillLoader.S3SkillLoader.UploadSkill | internal/services/s3_skill_loader.go:462-537 | puts the content under the skill's key, or has no effect |
| SkillLoader.S3SkillLoader.SkillExists | internal/services/s3_skill_loader.go:545-628 | whether the skill's key is there; a missing bucket reads as absent, another failure as an error |
| SkillLoader.S3SkillLoader.DeleteSkill | internal/services/s3_skill_loader.go:641-696 | deletes exactly the skill's key, or has no effect |
| SkillPipeline.ChatHandler.TryHandleCreateSkillCommand | internal/services/skill_creator.go:491-957 | a command gets exactly one error or final response; bucket and registry end as specified for it; anything else leaves everything alone |
| SkillPipeline.ChatHandler.CreateSkill | internal/services/skill_creator.go:660-870 | existence check, placeholder, generation, output check and upload, with the bucket left by each failure |
| SkillPipeline.CreatedContent | internal/services/skill_creator.go:468-477 | what is stored and reported is the trimmed answer, whole, or its first 50 * 1024 bytes when it is longer |
| SkillPipeline.CheckErrorsIff | internal/services/skill_creator.go:526-603 | each error about the command itself is sent if and only if its own cause holds, in production too |
| SkillPipeline.CallErrorsIff | internal/services/skill_creator.go:604-870 | each later error is sent if and only if everything before it went well and its own cause holds; production tells only the output check apart |
| SkillPipeline.ChatHandler.RefreshRegistry | internal/services/skill_creator.go:883-900 | a failed listing keeps the old table; what loads is never refused by the reload |
| SkillPipeline.OccupiedIff | internal/services/skill_creator.go:718-870 | over any serial run an unused key is there afterwards if and only if some request reported the skill, or reserved the name and then failed the final upload, or the cleanup after an unusable answer |
| SkillPipeline.OccupiedOnce | internal/services/skill_creator.go:682-716 | at most one request of a run reports or abandons a name |
| SkillPipeline.RunKeepsObjects | internal/services/skill_creator.go:491-957 | over any serial run and any call failures a key that is present keeps its content for ever |
| SkillPipeline.RunAddsOnlyReported | internal/services/skill_creator.go:491-957 | whatever a serial run has added at any point is an empty placeholder or the validated content of a skill reported as created |
| SkillPipeline.ReportedStays | internal/services/skill_creator.go:682-716 | what is reported as created stays in the bucket, under a key unused before, and no name is reported twice |
| SkillPipeline.PlaceholderBlocks | internal/services/skill_creator.go:702-716 | a name whose key is there, placeholder or not, is never reported as created by any later command |
| SkillPipeline.CreatedSkillIsServed | internal/services/skill_creator.go:847-900 | round trip: once the listing arrives, "/name" is served if and only if one of its reads arrives, and its instructions are the uploaded content, which is the whole trimmed answer if that is within the cap |

## Left out

- Processing time: in the timed model handlers take no time; in particular the reader is not blocked while it streams an answer, which can delay a pong in the program.
- Reuse of a connection identifier while an old ping loop is alive: the loop and the eviction look up by identifier, so the timed model covers one identifier's life at a time.
- A failing random source in `sendPing`, the manager's shutdown context, and the constructor without event store.
- Intervals below two clock units: the monitor's ticker needs a positive period.
- ConnectionManager.WebsocketConnectionManager.AddConnection: its two locked sections run back to back here; their interleaving with other calls is what AdmissionProtocol models.
- Concurrent command handling and concurrent creation of the same skill: load, check and append, and HEAD then PUT, are not atomic in the program, so only serial runs are claimed.
- EventBus.InMemoryEventBus.Publish: handlers that subscribe further handlers during a publication.
- Event payloads beyond "decodes, with this connection identifier", event metadata maps and JSON encoding.
- Relevance.ComputeRelevanceScore: scores are real numbers; rounding to 32 bits and the values of the logarithm are not modelled.
- Tokenizer.Tokenize: lower-casing is ASCII; which runes beyond ASCII are letters or digits is an arbitrary function.
- CreateCommand.ParsesIffSpelled: white space is ASCII white space.
- The two injection detectors, authentication and origin checks: arbitrary truth values here.
- AWS clients and the language model: each call's outcome is arbitrary; building the client is part of the call.
- SkillPipeline.ChatHandler.TryHandleCreateSkillCommand: message texts, previews, storage URIs and timings of the replies.
- `SendMessageToConnection`, `handlePing`, the WebSocket and HTTP layers, list and count getters, reference files, timestamps of definitions: they keep no state that the properties above depend on.
