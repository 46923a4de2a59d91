# Verification of the platform's stateful services

A Dafny model of the parts of the platform whose correctness depends on whole histories: OAuth2 grants and
refresh-token chains, the event bus with the ingestion pipeline that feeds it, the TTL counters behind rate
limiting, lockout and idempotency, nested foreign-key representation, and the permission catalog up to the
role check. Each component is a state machine on values; where the source updates records, tables, cache keys
or files in place there is a class or a method with the same loops and branches, proved equal to a step of that
machine; and the promises are lemmas over every run of the machine.

`dafny verify dfyconfig.toml` checks the whole project.

## Components

- `TokenLinks`, `OAuth`, `OAuthChains`, `OAuthGrants`, `OAuthService`: authorization codes and refresh tokens. The walk along
  `replaced_by` is first studied on any table, cyclic or not; then the tables that service calls can reach are
  shown to be disjoint chains, one for each consumed code. Generated values are new; every call carries its own
  clock reading.
- `Envelope`, `Registry`, `EventBus`, `EventBusRuns`, `EventBusTables`, `EventBusOutcomes`, `EventBusDrain`,
  `EventBusService`: a stream with a group cursor, polls, queued dispatches, retries, the processed table and the
  dead-letter table. Polls, publishers and workers interleave one small step at a time, so that polls may overlap
  each other, handlers of one message may overlap, and a poll or a worker may die anywhere. The log in the state
  is a history variable; nothing reads it.
- `Ingestion`, `IngestionRuns`, `Documents`, `DocumentBus`: chunked digests, the session's stages, the published event,
  and the rows that its handler writes, joined end to end with the bus.
- `TtlCache`, `Windows`, `CounterWindows`, `RateLimit`, `RateLimitOverlap`, `RateGate`, `Lockout`, `Idempotency`: a
  cache of keys with expiry times and a clock that may advance between any two cache operations. Overlapping limiter
  calls keep the bound as long as no reset overwrites a live counter, and overlapping logins as long as no failure is
  recorded under a live lock.
- `Representation`, `RepresentationAcyclic`, `FieldPaths`: expansion of a possibly cyclic object graph, and what a field
  name means.
- `Catalog`, `Permissions`, `RoleTable`: the catalog merge, its validation and flattening, the seeded and edited
  roles, and the decision.

## Where the code and its descriptions differ

- The revocation endpoint is described as revoking a token along with its whole chain. It returns early on a token
  that is already revoked, so presenting a rotated token leaves the chain's live tail alone
  (`EndpointRevokesChainIff`, `EndpointLeavesTailLive`).
- The processed table is keyed by message, not by message and handler. A message with two handlers is recorded by the
  first to succeed and the other is skipped, or refused and dead-lettered although its call returned
  (`ProcessedIffOneSuccess`, `NeverSkipsIff`, `ExclusiveIff`).
- A failing dispatch disappears without a dead letter when the queue's own retry cap is below the configured number
  of retries (`NeverDropsIff`).
- A refused save after publishing makes the pipeline publish the same upload again (`OneUploadPublishedTwice`,
  `NeverTwiceIff`).
- An extension of more than twenty characters passes the pipeline, which never stores it, but not the version's column.
  The handler has written the document by then, and its title makes every later attempt fail: the dispatch ends
  dead-lettered and the document without a version (`LongSuffixIsHalfDone`, `SafeIffExtensionFits`, `HalfDoneEndsDead`).
- The idempotency lookup and the registration are two operations, and two requests between them both execute
  (`SplitLookupExecutesTwice`, `ExecutionsApartIff`).
- Catalog validation looks at action entries only; a writable access entry granted to viewers passes it
  (`SafeIffAccessIsReadonly`).

## Model

| member | source | states |
|---|---|---|
| TokenLinks.WalkEndsIff | apps/iam_oauth/services.py:107-116 | on any table of links the revocation walk ends exactly when it meets no cycle |
| TokenLinks.AcyclicWalksEnd | apps/iam_oauth/services.py:107-116 | on an acyclic table the walk ends from every row |
| TokenLinks.PrefixRows | apps/iam_oauth/services.py:108-116 | after n turns exactly the rows met so far are revoked; an earlier revocation time and every link are kept |
| TokenLinks.WalkStep | apps/iam_oauth/services.py:108-116 | one turn of the loop stamps one row and moves one link nearer to the end, although the row is rewritten before its link is read |
| TokenLinks.PrefixIsAll | apps/iam_oauth/services.py:106-116 | when the walk has ended, the rows reachable from its start are revoked and no other row or field has changed |
| OAuthService.Service.RevokeRefreshTokenChain | apps/iam_oauth/services.py:96-123 | from any heap on which the walk ends, cyclic elsewhere or not, the loop revokes exactly the records reachable from its argument |
| OAuthService.Service.GenerateAuthorizationCode | apps/iam_oauth/services.py:21-93 | public clients need a challenge; otherwise one unconsumed code is added, for the given user, that expires after the lifetime |
| OAuthService.Service.IssueRefreshToken | apps/iam_oauth/services.py:126-157 | one live row is added under a new reference; no other row changes |
| OAuthService.Service.CheckAuthorizationCode | apps/iam_oauth/services.py:185-200 | the guards of an exchange in their order, PKCE included |
| OAuthService.Service.ConsumeAuthorizationCode | apps/iam_oauth/services.py:160-243 | a refused exchange changes nothing; a granted one consumes the code and adds its first token, unless the code has no user |
| OAuthService.Service.ConsumeRefreshToken | apps/iam_oauth/services.py:246-323 | a refused rotation changes nothing; a granted one adds a child with the narrowed scope and links and revokes the parent |
| OAuthService.Service.RevokePost | apps/iam_oauth/views.py:209-261 | the guards of the endpoint, on any heap on which the walk from the presented row ends; only an authenticated client's own unrevoked token starts the walk |
| OAuthChains.ExchangeKeepsShape | apps/iam_oauth/services.py:202-243 | an exchange starts a new one-token chain and keeps the others |
| OAuthChains.RefreshKeepsShape | apps/iam_oauth/services.py:274-299 | a rotation extends exactly one chain at its tail |
| OAuthChains.RevokeKeepsShape | apps/iam_oauth/services.py:106-116 | revoking from any token keeps all chains |
| OAuthChains.StepKeepsShape | apps/iam_oauth/services.py:96-299 | every call keeps disjoint chains of which only the tail can be unrevoked |
| OAuthChains.ReachableShape | apps/iam_oauth/services.py:160-299 | in every reachable store the tokens form disjoint chains, one for each code that issued a token |
| OAuthChains.ShapeIsAcyclic | apps/iam_oauth/models.py:189-195 | such links are acyclic, so the walk always ends in reachable stores |
| OAuthChains.LiveTokensBounded | apps/iam_oauth/services.py:187-204 | in every reachable store no more tokens are unrevoked than codes have been consumed |
| OAuthChains.CodeIsExchangedOnce | apps/iam_oauth/services.py:187-188 | once an exchange has succeeded, every later one for that code is refused as already consumed |
| OAuthChains.FailedExchangeIff | apps/iam_oauth/services.py:187-243 | a failed exchange leaves the store unchanged exactly when a guard refused it, and not when the row has no user |
| OAuthChains.ExchangeIsWhole | apps/iam_oauth/services.py:160-243 | in every store whose codes were generated for users, an exchange issues a token or changes nothing |
| OAuthChains.RefreshIff | apps/iam_oauth/services.py:269-299 | a rotation succeeds exactly on the chain's unrevoked, unexpired tail with the chain's client and no scope asked for or a contained one, else the store is unchanged |
| OAuthGrants.ScopeHasItsWords | apps/iam_oauth/services.py:284-285 | a scope string has exactly the words that stand in it, bounded by white space or its ends |
| OAuthGrants.RotationIff | apps/iam_oauth/services.py:269-287 | a rotation succeeds exactly for a live, unexpired token of the client when each word asked for is one of its words |
| OAuthGrants.RotationWrites | apps/iam_oauth/services.py:283-299 | the child has the scope asked for, or the parent's when none is; the parent is linked, revoked and stamped; no other row changes |
| OAuthGrants.RotationErrorIsTrue | apps/iam_oauth/services.py:269-287 | the error of a refused rotation names something wrong with it |
| OAuthGrants.CodeOrigin | apps/iam_oauth/services.py:44-62 | after every run a code is there exactly when some call stored it, with what that call supplied |
| OAuthGrants.ExchangeIff | apps/iam_oauth/services.py:185-243 | after every run an exchange issues its token exactly when an earlier call stored the code for a user, it is unconsumed, in time, from its client, with its redirect and its verifier |
| OAuthGrants.ExchangeErrorIsTrue | apps/iam_oauth/services.py:185-200 | the error of a refused exchange names something wrong with it |
| OAuthGrants.ExchangeWrites | apps/iam_oauth/services.py:202-243 | the code is consumed and stamped, and its first token has its tenant, user and scope and the full lifetime; no other row changes |
| OAuthGrants.RevocationStamps | apps/iam_oauth/services.py:106-116 | rows reached live get the time of the call; rows revoked before, or not reached, stay as they were |
| OAuthChains.Lineage | apps/iam_oauth/services.py:231-294 | every token's scope is contained in that of the code that started its chain; client, tenant and user are the code's |
| OAuthChains.RevokeChainRevokesAll | apps/iam_oauth/services.py:96-116 | revoking any member of a chain leaves the whole chain revoked and every other chain untouched |
| OAuthChains.RevocationIsPermanent | apps/iam_oauth/services.py:274-299 | a chain revoked throughout never changes or grows in any later run |
| OAuthChains.NoRotationAfterRevocation | apps/iam_oauth/services.py:274-275 | after one revocation of any member, every later rotation of any member is refused as revoked |
| OAuthChains.EndpointRevokesChainIff | apps/iam_oauth/views.py:249-261 | the endpoint leaves the chain revoked exactly when the client owns the presented token and it is unrevoked, or nothing was left to revoke |
| OAuthChains.EndpointTouchesOneRow | apps/iam_oauth/views.py:255-261 | when the endpoint acts it acts on a chain's tail, and revokes that row only |
| OAuthChains.EndpointLeavesTailLive | apps/iam_oauth/views.py:255-259 | a concrete run in which the endpoint is given a rotated token and the live tail survives |
| Envelope.RoundTripIff | apps/sys_eventbus/envelope.py:33-75 | an envelope survives the stream unchanged exactly when its tenant and actor are not empty strings |
| Envelope.RoundTripKeeps | apps/sys_eventbus/envelope.py:33-75 | everything else always survives |
| Envelope.WrittenBack | apps/sys_eventbus/envelope.py:33-75 | what is read and written again is the same exactly for six fields whose payload is in the encoder's form |
| Registry.Handlers.EventHandler | apps/sys_eventbus/registry.py:17-39 | a registration appends to the list of its event type |
| Registry.Handlers.GetHandlers | apps/sys_eventbus/registry.py:42-55 | the lookup returns the registered list, and creates an empty one for an unknown type |
| Registry.Handlers.ResolveHandler | apps/sys_eventbus/tasks.py:116-135 | the nested search loops find the first handler of that name |
| Registry.ResolveIff | apps/sys_eventbus/tasks.py:116-135 | the search succeeds exactly when a handler of that name is registered under some type |
| Registry.ResolveFindsRegistered | apps/sys_eventbus/tasks.py:131-135 | with distinct names, a dispatched name resolves to the very function it was taken from |
| EventBusService.Worker.Publish | apps/sys_eventbus/publisher.py:56-100 | one entry with the envelope's fields is appended, and its position is the message's identifier |
| EventBusService.Worker.ReadBatch | apps/sys_eventbus/consumer.py:65-70 | at most the batch size is read, less only when the stream is exhausted, and the cursor moves past it |
| EventBusService.Worker.DeliverMessage | apps/sys_eventbus/consumer.py:74-96 | one message is sent to all its handlers, or skipped as processed, and acknowledged either way |
| EventBusService.Worker.PollStream | apps/sys_eventbus/consumer.py:42-102 | a whole poll is a run of poll steps that acknowledges exactly the messages it read |
| EventBusService.RunsStayReachable | apps/sys_eventbus/consumer.py:42-102 | so everything proved of runs holds after polls |
| EventBusService.Worker.StartDispatch | apps/sys_eventbus/tasks.py:54-71 | a processed message or an unknown name ends the dispatch; unreadable fields raise; else the resolved handler is called with the decoded envelope |
| EventBusService.Worker.FinishDispatch | apps/sys_eventbus/tasks.py:73-113 | a return is recorded; a failure, or a refused record, is retried, dropped at the queue's cap, or dead-lettered |
| EventBusRuns.StepConserves | apps/sys_eventbus/tasks.py:54-113 | every step keeps the dispatches sent equal, as a multiset, to the queued ones plus those ended in each way |
| EventBusRuns.StartSent | apps/sys_eventbus/consumer.py:74-79 | a message that a poll takes up is never processed yet |
| EventBusRuns.StepSent | apps/sys_eventbus/consumer.py:73-96 | every step keeps: each handler is sent each message at most once, and all of them before it is acknowledged |
| EventBusTables.StepTasks | apps/sys_eventbus/tasks.py:86-97 | every step keeps: a queued dispatch has attempts left, was called as often as its retry count says and has waited 2^(retries+1) - 2 seconds |
| EventBusTables.StepLetters | apps/sys_eventbus/tasks.py:105-113 | every step keeps: a dead letter describes its message, its handler was called max(1, MAX_RETRIES) times and its backoffs add up to 2^M - 2 |
| EventBusTables.StepRecords | apps/sys_eventbus/tasks.py:73-78 | every step keeps: one row for each success, at most one row for each message, and only recorded messages are skipped |
| EventBusTables.ReachableInvariant | apps/sys_eventbus/tasks.py:54-113 | all of these hold in every reachable state |
| EventBusOutcomes.ExactlyOnePlace | apps/sys_eventbus/tasks.py:54-113 | every dispatch that was sent is in exactly one place: queued, succeeded, dead-lettered, skipped, dropped by the queue, killed with its worker, or unresolved |
| EventBusOutcomes.AttemptsTell | apps/sys_eventbus/tasks.py:86-113 | no handler is called more than M times for a message; queued dispatches have fewer than M retries and dead letters exactly M |
| EventBusOutcomes.AckedMeansSent | apps/sys_eventbus/consumer.py:93-96 | each handler's dispatch of an acknowledged message is in exactly one place |
| EventBusOutcomes.ProcessedIffOneSuccess | apps/sys_eventbus/tasks.py:73-78 | a message is in the processed table exactly when one of its dispatches succeeded, and then exactly one did |
| EventBusOutcomes.NoCallAfterRecord | apps/sys_eventbus/tasks.py:54-60 | once a message is recorded no later run calls a handler for it |
| EventBusOutcomes.LastFailureIsBuried | apps/sys_eventbus/tasks.py:105-113 | a failure on the last attempt leaves exactly one letter with the message, its fields, tenant, error and attempts |
| EventBusOutcomes.OneHandlerExcludes | apps/sys_eventbus/tasks.py:73-113 | a message with one handler is never both recorded and dead-lettered |
| EventBusOutcomes.LossesExplained | apps/sys_eventbus/tasks.py:62-113 | every queued task can be called; nothing is dropped when the cap allows all retries; nothing is killed or lost unless a worker or a poll dies |
| EventBusOutcomes.NothingIsLost | apps/sys_eventbus/consumer.py:72-96 | once the bus is drained and nothing died, every message is acknowledged, and recorded or dead-lettered for every handler |
| EventBusOutcomes.HandlerSeesPublished | apps/sys_eventbus/tasks.py:71-74 | the envelope a handler is called with is the one published at its message |
| EventBusDrain.StepDecreases | apps/sys_eventbus/tasks.py:85-113 | every step but publishing strictly decreases a measure of unread messages, messages in flight and remaining attempts |
| EventBusDrain.SchedulesAreBounded | apps/sys_eventbus/consumer.py:64-96 | without new messages no schedule is longer than the measure of its first state |
| EventBusDrain.DrainedOrProgress | apps/sys_eventbus/consumer.py:64-96 | as long as the bus is not drained some poll or worker can take a step |
| EventBusDrain.NeverDropsIff | apps/sys_eventbus/tasks.py:86-97 | failures always reach the dead-letter table exactly when the queue's cap admits M - 1 retries |
| EventBusDrain.ExclusiveIff | apps/sys_eventbus/tasks.py:73-113 | the processed and dead-letter tables never share a message exactly when no event type has two handlers, or the queue's cap lets nothing be dead-lettered |
| EventBusDrain.NeverSkipsIff | apps/sys_eventbus/tasks.py:54-60 | no handler is ever skipped for another one's success exactly when no event type has two handlers |
| Ingestion.Checksum | apps/dms_ingestion/processors.py:64-77 | the digest is that of the whole content whatever the chunks and the starting position, and the file is rewound |
| Ingestion.SuffixIff | apps/dms_ingestion/processors.py:95-96 | there is an extension exactly when a dot of the last path component follows something other than dots, and it begins at the last such dot |
| Ingestion.Pipeline.Transition | apps/dms_ingestion/services.py:103-111 | only the state is stored |
| Ingestion.Pipeline.Fail | apps/dms_ingestion/services.py:114-124 | the failed state and the detail are stored |
| Ingestion.Pipeline.Run | apps/dms_ingestion/services.py:25-100 | the stages in order, with the state and the failure that each leaves behind |
| Ingestion.Pipeline.Put | apps/dms_ingestion/views.py:62-84 | an accepted upload stores the file and resets the session; a refused one changes nothing |
| IngestionRuns.EventsAreCounted | apps/dms_ingestion/services.py:43-98 | in every run, events are at most uploads plus calls whose last save was refused after publishing |
| IngestionRuns.NeverTwiceIff | apps/dms_ingestion/services.py:43-98 | in every run events are at most uploads, exactly when no call that gets as far as publishing has its last save refused |
| IngestionRuns.OneUploadPublishedTwice | apps/dms_ingestion/services.py:91-98 | for any such call, a run of one upload and two of these calls that publishes twice |
| IngestionRuns.FinishedIsFinal | apps/dms_ingestion/services.py:45-47 | once the document is created, pipeline calls publish nothing and change nothing |
| IngestionRuns.PipelineEffect | apps/dms_ingestion/services.py:43-98 | a call publishes nothing, or the event of the stored session and file, and stores no checksum or extension |
| IngestionRuns.RowIsLatest | apps/dms_ingestion/views.py:74-79 | in every run the session points at its latest upload, storage holds that content, and the declared data never change |
| IngestionRuns.EventAtPublish | apps/dms_ingestion/services.py:77-98 | in every run each event went out in one call, with the declared data and the key and digest of the file that was the latest upload at that call |
| IngestionRuns.FinishedEvent | apps/dms_ingestion/services.py:91-98 | a finished session's last event is that of its latest upload |
| IngestionRuns.UploadIsPublished | apps/dms_ingestion/services.py:43-98 | after any run, an accepted upload and a call that meets no failure publish that file and finish the session |
| IngestionRuns.Outcomes | apps/dms_ingestion/services.py:43-98 | which state, detail and failure each kind of trouble leaves behind |
| IngestionRuns.RefusedStops | apps/dms_ingestion/services.py:55-98 | a refused save leaves the session in the stage before it, and the event out only if it was the last save |
| Documents.DocumentTables.HandleDocumentCreated | apps/dms_documents/event_handlers.py:15-73 | the type lookup, the document row and the version row in order, with what stays when a step fails |
| Documents.HandleKeepsConsistent | apps/dms_documents/event_handlers.py:47-67 | titles stay unique within a tenant, and each version is the first of a document of its own and of its tenant |
| Documents.TypeOfIff | apps/dms_documents/event_handlers.py:33-45 | the lookup finds a type exactly when one and only one of the tenant's types has the declared name, or none is declared |
| Documents.TypeErrorIsTrue | apps/dms_documents/event_handlers.py:36-45 | its error tells whether no type or more than one matches |
| Documents.HalfDoneIff | apps/dms_documents/event_handlers.py:47-67 | for every session and tables, a first call leaves a document without a version exactly when the type is found, the title is free and the extension is wider than its column; it succeeds exactly when it fits instead |
| Documents.SafeIffExtensionFits | apps/dms_document_versions/models.py:38-39 | no call for an event can ever leave a document without a version exactly when its extension fits the column |
| Documents.LongExtensionIsHalfDone | apps/dms_ingestion/services.py:43-98 | for every session with too long an extension, a run from the upload to the handler that leaves a document without a version |
| Documents.LongSuffixIsHalfDone | apps/dms_ingestion/services.py:43-98 | a file name that passes the whole pipeline and for which the handler then leaves a document without a version |
| Documents.HalfDoneWrites | apps/dms_documents/event_handlers.py:47-67 | what a half-done call has written is one document with no version |
| DocumentBus.StuckEndsDead | apps/sys_eventbus/tasks.py:73-113 | while such a document is there, the dispatch never succeeds, and on a drained bus it is dead-lettered and the document has no version |
| DocumentBus.HalfDoneEndsDead | apps/sys_eventbus/tasks.py:73-113 | a half-done call ends that way in every run of the bus |
| Documents.TaskCarries | apps/sys_eventbus/tasks.py:71-74 | a worker decodes from its queue entry exactly the envelope that was published |
| Documents.UploadToRows | apps/dms_documents/event_handlers.py:29-67 | end to end from upload to rows: title, tenant, declared document type, file name, type, size and extension of the session, and the key and the digest of the whole content of the file that was the latest upload when the event was published |
| TtlCache.Cache.Add | core/middleware/rate_limit.py:170-172 | the key is set exactly when it is not live |
| TtlCache.Incr | core/middleware/rate_limit.py:173-177 | a live counter grows by one and keeps its expiry; a missing one is an error |
| TtlCache.PutIsFound | apps/iam_auth/lockout.py:57-93 | a value that was set is found exactly until its timeout has passed; other keys are as before |
| Windows.StartsInBound | core/middleware/rate_limit.py:162-178 | starts that are a width apart meet an interval of k widths at most k times |
| Windows.TotalBound | core/middleware/rate_limit.py:162-178 | windows of at most n events, W apart, hold at most (ceil(L / W) + 1) * n events in an interval of length L |
| CounterWindows.OpenExplains | core/middleware/rate_limit.py:170-177 | setting a counter that is not live opens a window W after the last one's start |
| CounterWindows.BumpExplains | core/middleware/rate_limit.py:174-178 | an increment counts in the window that the key's expiry belongs to |
| RateLimit.IsRateLimited | core/middleware/rate_limit.py:162-178 | the cache operations of one call, with time passing between them |
| RateLimit.ServeExplains | core/middleware/rate_limit.py:162-178 | each call keeps the windows that explain a counter and adds to them exactly what it admits |
| RateLimit.AdmissionBound | core/middleware/rate_limit.py:162-178 | over any trace an interval of length L admits at most (ceil(L / W) + 1) * max(1, count) requests on a key |
| RateLimit.OneWindowBound | core/middleware/rate_limit.py:162-178 | in any span of one window at most 2 * max(1, count) |
| RateLimit.RefusedOnlyWhenFull | core/middleware/rate_limit.py:162-178 | over any trace a request is refused only over at least max(1, count) decisions on its key within the window that ends with it |
| RateLimitOverlap.SerialIsLimit | core/middleware/rate_limit.py:162-178 | a call whose steps meet no other decides and leaves its cache as the limiter does |
| RateLimitOverlap.OverlapBound | core/middleware/rate_limit.py:170-178 | the same bound for overlapping calls, one cache operation at a time, as long as no reset overwrites a live counter |
| RateLimitOverlap.WindowsApartIff | core/middleware/rate_limit.py:173-177 | in every interleaving a key's windows are a width apart exactly when no reset overwrites its live counter |
| RateLimitOverlap.ThreeResetsBreakBound | core/middleware/rate_limit.py:173-177 | an interleaving in which three calls are admitted at once under a limit of one |
| RateGate.ParseRateIff | core/middleware/rate_limit.py:48-68 | a rate string is accepted exactly when it is a number, one slash and a known period, and means those |
| RateGate.KeysApart | core/middleware/rate_limit.py:99-109 | without a scope, different clients or paths never share a counter |
| RateGate.ScopedKeysApart | core/middleware/rate_limit.py:84-109 | nor do different scopes, clients or paths when no scope holds a colon |
| RateGate.ScopedKeysCollide | core/middleware/rate_limit.py:84-109 | two scopes, one with a colon, that share a counter |
| RateGate.HandleCall | core/middleware/rate_limit.py:130-156 | the gates before the limiter: disabled, opted out, skipped prefix, bad rate, limited |
| RateGate.PassedBound | core/middleware/rate_limit.py:130-178 | the admission bound for the whole middleware, over any mix of counted and uncounted calls |
| RateGate.ThrottledOnlyWhenFull | core/middleware/rate_limit.py:130-178 | and its counterpart: only counted calls are throttled, and only over max(1, count) decisions within the window |
| RateGate.UncountedPasses | core/middleware/rate_limit.py:133-140 | with the limiter disabled, the view opted out or the path skipped, a call passes and touches no counter |
| Lockout.KeysApart | apps/iam_auth/lockout.py:14-15 | the counter and lock keys of all emails are different |
| Lockout.RecordFailedAttempt | apps/iam_auth/lockout.py:60-93 | the cache operations of one recorded failure |
| Lockout.Clear | apps/iam_auth/lockout.py:96-105 | both keys are gone, no other key changes |
| Lockout.LoginPost | apps/iam_auth/views.py:61-112 | a locked email is turned away unchecked; else a rejection is recorded and a login clears |
| Lockout.UnlockPost | apps/iam_auth/views.py:174-205 | only superusers and tenant admins unlock, and nobody their own account |
| Lockout.CounterNeverOutlivesLock | apps/iam_auth/lockout.py:72-93 | at every call boundary of every run a live counter at the threshold has a live lock that does not expire before it |
| Lockout.FailureBound | apps/iam_auth/views.py:76-110 | after any history, with no clear from then on and no failure recorded under a live lock, an interval of length L sees at most (ceil(L / D) + 1) * MAX failed checks for one email |
| Lockout.SerialIsNeverLate | apps/iam_auth/views.py:76-110 | logins that do not overlap never record a failure under a live lock |
| Lockout.ManualUnlockIff | apps/iam_auth/lockout.py:72-93 | with duration 0, after any history and with no clear from then on, the failures since the last clear stay within MAX exactly when none is recorded under the lock; the email is locked exactly from the MAX-th on |
| Lockout.LockedForCause | apps/iam_auth/lockout.py:72-93 | in every run, with any duration, an email with fewer than max(1, MAX) failures since its last clear is not locked |
| Lockout.LockLasts | apps/iam_auth/lockout.py:91-93 | a failure that brings the counter to the threshold locks the email for exactly the duration |
| Lockout.UnlocksInTime | apps/iam_auth/lockout.py:72-93 | after any history an email with no failure recorded for the duration is not locked |
| Idempotency.RedisKeyInjective | core/middleware/idempotency.py:25-35 | distinct pairs never share an entry when user keys have no colon |
| Idempotency.Handle | core/middleware/idempotency.py:57-145 | which requests pass, are refused, replayed or executed; after an execution, lookups within the TTL replay its answer, and after a raise they conflict |
| Idempotency.ServedIsCompleted | core/middleware/idempotency.py:93-137 | in any interleaving a response served from the cache is that of a completed execution of the same pair |
| Idempotency.AnswerIsReplayed | core/middleware/idempotency.py:93-137 | in every run, once an execution has answered, and until another of the pair registers or answers, lookups replay that answer for the TTL and find nothing after it |
| Idempotency.RunningConflicts | core/middleware/idempotency.py:93-129 | and between its registration and its answer they conflict, for the TTL |
| Idempotency.ExecutionsApartIff | core/middleware/idempotency.py:89-137 | in every interleaving, executions of one pair start at least the TTL apart exactly when no registration comes less than the TTL after one that started since its own lookup |
| Idempotency.ExecutionsApart | core/middleware/idempotency.py:89-137 | so they do when lookup and registration are one step, however long handlers run |
| Idempotency.SplitLookupExecutesTwice | core/middleware/idempotency.py:91-129 | a concrete interleaving of the two steps in which both requests execute |
| Representation.RepresentInstance | core/fields/related.py:63-124 | the loops of the source compute the recursive expansion |
| Representation.RepresentFields | core/fields/related.py:104-124 | the loop that fills the result, field by field |
| Representation.EmitValue | core/fields/related.py:107-123 | one value: nested when it is a model, element by element when it is a list, else itself |
| Representation.RepresentPaths | core/fields/related.py:87-124 | below any node no visited identity is expanded, and the depth is bounded by the identities left |
| Representation.RepresentationBounded | core/fields/related.py:188-204 | on every finite graph each identity is expanded at most once on a path, and depth is at most the identities plus one (two if the root has no key) |
| FieldPaths.ExpandedIff | core/fields/related.py:90-124 | the id and label stand exactly for a repeated identity or for lack of fields; else every field has its entry |
| FieldPaths.RootUsesExplicitFields | core/fields/related.py:188-204 | explicit fields replace those of the class, and without either the id and label are used |
| FieldPaths.HooksComeFirst | core/fields/related.py:152-159 | the serializer's hook wins over the model's, and that over any other meaning of the name |
| FieldPaths.PathGoesThroughHead | core/fields/related.py:161-176 | a path goes through its first segment, by method or else attribute, and the rest is resolved there without the serializer |
| FieldPaths.PathIsWalk | core/fields/related.py:161-186 | without methods a field name means the walk along its segments |
| Representation.VisitedIrrelevant | core/fields/related.py:90-99 | where identities can be ranked the visited set has no effect |
| RepresentationAcyclic.EdgeDescends | core/fields/related.py:105-123 | on an acyclic graph each identity leads to fewer others than those that lead to it |
| RepresentationAcyclic.AcyclicExpandsPlainly | core/fields/related.py:188-204 | on every acyclic graph the output is the plain expansion that keeps no visited set |
| Catalog.OverrideActions | apps/sys_permissions/catalog.py:152-156 | the loop that pops and sets is the override of one action map by another |
| Catalog.MergeDefault | apps/sys_permissions/catalog.py:144-162 | one default resource under the explicit catalog |
| Catalog.MergeNew | apps/sys_permissions/catalog.py:165-188 | one resource that only the explicit catalog names |
| Catalog.MergeCatalog | apps/sys_permissions/catalog.py:101-193 | the loops compute the merge |
| Catalog.MergeIsOverride | apps/sys_permissions/catalog.py:106-193 | each action is the explicit entry, else removed at its own or an outer level, else the default, generated for new resources |
| Catalog.AccessIsOverride | apps/sys_permissions/catalog.py:122-130 | the access entry is the explicit one, removed by `false`, or the default where the explicit catalog is silent |
| Catalog.CaptionIsOverride | apps/sys_permissions/catalog.py:157-187 | a resource keeps its explicit label, else its default one, else its capitalised name |
| Catalog.GeneratedEntries | apps/sys_permissions/catalog.py:69-98 | what is generated for an app: its access entry and one resource with a labelled copy of each standard action |
| Catalog.UnsetIsGenerated | apps/sys_permissions/catalog.py:165-177 | a standard action that a new resource leaves unset is generated under its label |
| Catalog.MergeKeeps | apps/sys_permissions/catalog.py:144-188 | which resources remain: defaults not removed, and new ones with an action left |
| Catalog.MergeIsClean | apps/sys_permissions/catalog.py:101-193 | no `false` is left |
| Catalog.MergeIdempotent | apps/sys_permissions/catalog.py:101-193 | applying the same explicit catalog again changes nothing |
| Permissions.EnabledEntries | apps/sys_permissions/catalog.py:305-327 | the traversal lists each enabled entry exactly once |
| Permissions.ValidateUniqueness | apps/sys_permissions/catalog.py:297-335 | there are as many errors as enabled entries minus distinct codenames, and each names an app that repeats a codename and the first app that has it |
| Permissions.CountsAgreeIffDistinct | apps/sys_permissions/catalog.py:297-335 | there is no error exactly when no two enabled entries share a codename |
| Permissions.GetMergedCatalog | apps/sys_permissions/catalog.py:371-401 | the registry has exactly the enabled codenames, each with an entry of the last app that has it |
| Permissions.CodenameReadsBack | apps/sys_permissions/catalog.py:387-399 | codenames of dotless names read back as app, resource and action |
| Permissions.FlatteningLoses | apps/sys_permissions/catalog.py:371-401 | the registry keeps every entry exactly when no two share a codename |
| Permissions.ValidateBusinessRules | apps/sys_permissions/catalog.py:265-294 | the errors name exactly the writing actions granted to viewers |
| Permissions.GetDefaultRolePermissions | apps/sys_permissions/catalog.py:404-418 | each default role gets exactly the codenames whose default for it is 1 |
| RoleTable.Roles.SeedDefaultRoles | apps/tenants/signals.py:11-27 | one role is created for each default role with its grants |
| RoleTable.SeededRows | apps/tenants/signals.py:19-27 | the new rows in order, and the older rows unchanged |
| RoleTable.ActiveMembership | apps/sys_permissions/permissions.py:45-54 | the first active membership in the tenant, if there is one |
| RoleTable.PermissionIff | apps/sys_permissions/permissions.py:31-62 | a request is let through exactly when it is authenticated, has a tenant, and its first active membership there is an administrator's or grants both the app's access and the codename |
| RoleTable.CreateIff | apps/iam_roles/serializers.py:49-83 | a creation is refused exactly for a viewer that would write; else the role is as asked, or custom and bare |
| RoleTable.UpdateIff | apps/iam_roles/serializers.py:49-83 | an update is refused exactly when it names a kind or would let a viewer write; else only the grants change |
| RoleTable.ApplyViewerRows | apps/iam_roles/serializers.py:49-83 | every step keeps: a viewer role has the seeded grants, or grants that write nothing |
| RoleTable.ViewersNeverWriteIff | apps/sys_permissions/permissions.py:37-62 | over every history of seeding and validated edits, no viewer passes for a writing codename, exactly when no such codename is granted to viewers by default together with its app's access |
| RoleTable.KindIsFixed | apps/iam_roles/serializers.py:55-58 | over every history a role keeps its kind and tenant, and a deleted role does not come back |
| RoleTable.RulesMakeSafe | apps/sys_permissions/catalog.py:265-294 | passing business rules and readonly access entries are enough for that |
| RoleTable.SafeIffAccessIsReadonly | apps/sys_permissions/catalog.py:265-294 | for validated catalogs with dotless labels, access entries granted to viewers must be readonly too |
| RoleTable.EffectiveBreaksIff | apps/sys_permissions/catalog.py:220-294 | an effective catalog breaks the viewer rule at an action exactly when the app's own file declares that action so; generated actions never do |
| RoleTable.DeclarationsDecide | apps/sys_permissions/catalog.py:220-247 | from declarations to decisions: if no app declares a writing entry for viewers, no viewer is ever let through for a writing codename |

## Left out

- Cryptography and tokens: JWT decoding, client secrets beyond equality, password checks and the PKCE and SHA-256 digests are parameters.
- Object identity in the ORM: one object stands for each row; two loaded copies of a row are not modelled.
- OAuth2 calls are atomic; concurrent calls on the same code or token are not interleaved.
- Codes and references are assumed newly generated; a repeated authorization code for two clients is not modelled.
- Overlapping limiter calls are modelled in `RateLimitOverlap`; the middleware around the limiter is stated for calls that do not overlap.
- The lockout's login view is one step, and a login that overlaps others appears as a failure recorded on its own; the cache operations of one recorded failure are not interleaved with those of another.
- The remaining time reported with a throttled response depends on a cache method that is not part of this model.
- Registry.ResolveFindsRegistered: assumes distinct qualified names, as does everything about the bus; with shared names the first registered handler is called.
- EventBusService.Worker.PollStream: states one poll without interference, on entries that publishers wrote; interleaved polls are runs of its steps, and a malformed entry, which makes a poll fail, appears as a poll that dies.
- Redelivery by the queue's broker and claiming of pending stream entries; the source does neither.
- Validation messages and log records, and the wording of exceptions.
- Sessions are uploaded to and processed one call at a time; an upload during a pipeline call is not modelled.
- Database failures other than the constraints and widths of the document tables, foreign keys of deleted tenants and users, and payload values of a JSON type other than the column's.
- Rows of codes without a user, which the column admits and the service never writes, appear only in `OAuthChains.FailedExchangeIff`.
- The validators of size, type and extension appear only as a verdict; storage names only as new keys.
- Ingestion.SuffixIff: lower-casing is a parameter, so nothing is said about letter case.
- Representation of attributes of plain values: an attribute of text or numbers resolves to nothing in the model.
- Django's `QuerySet` appears as a list of values.
- Empty dictionaries in place of catalog entries, which the source treats as absent, and schema validation.
- Role names and descriptions, and grant values that are not integers.
- Views, serializers and routing around the modelled functions, tenant filters, audit log, settings, document version numbers and session limits: easy members.
