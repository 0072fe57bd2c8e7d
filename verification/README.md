# whiz-gateway: a model of message delivery and of the state it routes by

The gateway takes Meta webhooks, finds the inboxes they are for, posts each payload unchanged to the
ambiente of every inbox, retries with exponential backoff, and keeps what it cannot deliver as dead
letters that an operator can resend. This project models that engine and what it depends on, and
proves what each part keeps over whole runs. `dafny verify dfyconfig.toml` checks all of it.

How the parts fit together:

- **Delivery.** `Dispatch` gives one `handle` call as an automaton whose steps are the awaits of the
  source, and as one function of its inputs; `DispatchService` is the object with the retry loop.
  `Ledger` interleaves any number of such automata with ingestion, the queue consumer, both kinds of
  resend, purges and crashes; `LedgerProofs` and `LedgerRuns` prove that no message is lost in a run
  without exactly named steps, `LedgerLoss` says of each message exactly when it is gone. `FanOut`
  proves that the schedule of a webhook's un-awaited calls does not matter. `Retry` is one specification
  that the four hand-written retry loops (`DispatchService`, `InstagramForward`, `Redirects`,
  `MediaCallback`) all refine.
- **Routing.** `Payload` reads the routing ids, `Registry` keeps inboxes unique per (pid, ambiente),
  `Ingestion` sends one dispatch per ambiente, `InstagramWebhook` is the sequential variant,
  `Redirects` the copies to registered redirect urls.
- **Caches and indexes.** `AmbienteCache` is the ambiente cache used sequentially, `FlowCallbacks` the
  flow-callback cache. `AmbienteStaleness` is the interleaved machine for both, `AmbienteStaleEntries`
  the exact conditions for one of its entries to be stale or of a deleted row. `ApiKeys` is the hash
  that the guard scans with its service used sequentially, `ApiKeysOverlap` the machine in which
  start-ups, creates and revocations overlap.
- **Dead letters.** `DeadLetters` is the table with its paged query, `DeadLetterServices` the consumer
  and the resend of one row, `Resend` the bulk resend, `ResendDrain` what repeated resends achieve.
- **Observation.** `WebhookErrors` is the error extractor; `MetricKeys`, `Metrics` and `Percentile` are
  the metrics aggregator; `DispatchMetrics` relates its counters to the messages.

Network outcomes, exceptions, crashes, evictions, generated ids, the clock, `JSON.parse` and the hash
function are parameters of the operations, so that every statement holds for all of them. Objects the
source mutates are classes; a loop of the source is a loop here, proved against a function or a
predicate of its inputs. What an operation selects or writes is stated on the fields of the rows, on
paths into the payload and with the literal limits and names, apart from the functions it calls.

## Where the code does not do what is said of it

Each of these is modelled as the code has it, with the exact condition proved.

- `README.md:5` of the repository says that any failure anywhere ends in the dead letters.
  `Dispatch.DroppedExactly` and `LedgerRuns.DropsExactly` name the exceptions: `handle` logs and
  swallows what its reads and its queue send throw, a retry limit below 1 makes the loop do nothing,
  the consumer refuses a message it could not insert without putting it back, and a crash takes running
  calls along. `InstagramWebhook.LostExactly` names those of the Instagram path.
- A bulk resend marks a row after `handle` returned, and `handle` returns after a swallowed exception
  too. `Resend.VanishesExactly` says of one row when it ends marked with its message neither delivered
  nor queued; `LedgerLoss.GoneExactly` and `LedgerLoss.GoneWasDropped` say of one message in a whole run
  when it is gone; `LedgerRuns.ResendCanLoseAMessage` is such a run.
- A comment in `src/resend/resend.service.ts:43-46` promises the dead letters of every inbox of the pid.
  The page holds the newest 50 rows found, and is cut before the rows of other inboxes are dropped.
  `ResendDrain.EveryAnswerMarksExactly`, `ResendDrain.ProgressExactly` and `ResendDrain.DrainsExactly` say
  when a resend gets to a row, to any row and to all of them; `ResendDrain.StarvationHappens` shows that
  rows of other inboxes may keep it from one for good.
- A message that fails once more comes back as a new row, which is newer than all others. While every
  dispatch fails, a row with 50 newer ones is never resent, whatever the number of calls:
  `ResendDrain.NeverResentExactly`. A request whose interval ends before these rows arrive does not see
  them, and drains: `ResendDrain.QuietWhen`, `ResendDrain.Drain`.
- `docs/implementation/2026-06-08-cache-ambientes-redis.md:142` promises a cache miss after a soft delete.
  Under interleaving a deleted ambiente may be served for an hour and the duration of one read
  (`AmbienteStaleness.BoundIsTight`), and an update that found the row active and commits after its
  deletion puts the deleted row into the cache (`AmbienteStaleEntries.UpdateOverDelete`).
  `AmbienteStaleEntries.StaleExactly` says when an entry is stale, `AmbienteStaleEntries.DeletedExactly`
  when it is flagged as deleted, and `AmbienteStaleEntries.HitAfterDeleteExactly` when the promise breaks.
- A revoked API key stays valid if its revocation broke off between table and hash; neither revoking
  again nor a restart mends it: `ApiKeys.StaleExactly`, `ApiKeys.RevokedKeyCanStayAccepted`. It also
  stays valid, with nothing failing, if it is revoked between the two accesses of its create or of
  another process's start-up: `ApiKeysOverlap.RevokedDuringCreate`, `ApiKeysOverlap.RevokedDuringStartUp`.
  `ApiKeysOverlap.OverlapStaleExactly` is the condition over all runs.
- The two copies of the dispatch classify a failure differently when the response carries no status:
  `InstagramForward.CopiesAgreeExactly`.
- A comment in `src/redirecionamentos-webhooks/redirecionamentos-webhooks.service.ts:155-156` wants every
  redirect of every ambiente to receive the webhook. It receives it more than once: each `handle` makes a
  dispatch to the redirects of all ambientes, so with k ambientes there are k of them to a redirect and
  k * k to a global one (`Redirects.CopiesPerWebhook`).

## Model

| member | source | states |
|---|---|---|
| Retry.RetrySpecDetermines | src/dispatch/dispatch-handler.service.ts:86-154 | the retry specification leaves nothing open: outcomes, limit and base fix posts, sleeps and delivery |
| Retry.TerminalFailure | src/dispatch/dispatch-handler.service.ts:109-153 | a loop fails for good exactly when each of its n attempts fails |
| Retry.TotalWait | src/dispatch/dispatch-handler.service.ts:127-128 | one sleep less than posts, and base * (2^(posts-1) - 1) milliseconds waited in all |
| Dispatch.HandleTerminates | src/dispatch/dispatch-handler.service.ts:36-160 | on any answers a call ends after at most 2n + 4 awaits with n >= 1 attempts allowed and 5 with none, its attempt counter in range |
| Dispatch.BoundIsReached | src/dispatch/dispatch-handler.service.ts:86-154 | some call takes exactly as many |
| Dispatch.AutomatonRefinesOutcome | src/dispatch/dispatch-handler.service.ts:36-184 | await by await the call never gets stuck on the answers of its inputs and can only end with its one outcome |
| Dispatch.DroppedExactly | src/dispatch/dispatch-handler.service.ts:86-159 | a message is dropped exactly if a read throws, no attempt is allowed where one is due, or a needed queue send throws |
| Dispatch.DeliveredExactly | src/dispatch/dispatch-handler.service.ts:48-125 | a call delivers at attempt k exactly if its inbox is an active row whose ambiente, from a live entry or an active row, can be read, and k is the first success within the limit |
| Dispatch.RefusedExactly | src/dispatch/dispatch-handler.service.ts:50-59 | NACK_RECEBIDO is the end of exactly the calls whose inbox is missing or soft-deleted, and these have no ambiente to post to |
| Dispatch.StatusExactly | src/dispatch/dispatch-handler.service.ts:50-73 | the status of the dead letter, by the fields of the inbox and ambiente rows, the live entry, and whether the last error had a truthy response |
| DispatchService.DispatchHandler.Handle | src/dispatch/dispatch-handler.service.ts:36-160 | the outcome, at most one dead letter for this inbox with the payload as it came, every metric call in order; posts by the retry specification to the ambiente of an active inbox, none and NACK_RECEBIDO for a missing or deleted one |
| DispatchService.DispatchHandler.PostUntilDelivered | src/dispatch/dispatch-handler.service.ts:86-154 | the loop refines the retry specification, posts the payload unchanged and dead-letters exactly on exhaustion |
| DispatchService.DispatchHandler.GetAmbienteCached | src/dispatch/dispatch-handler.service.ts:174-184 | cache-aside read: the cached row, else the active row, which is then cached |
| DispatchService.DispatchHandler.EnviarParaDlq | src/dispatch/dispatch-handler.service.ts:163-172 | the dead letter is counted by status before the send, whether or not the send throws |
| LedgerProofs.BooksStep | src/rabbitmq/rabbitmq.service.ts:80-109 | no step of any task queues, stores or delivers anything that was not owed |
| LedgerProofs.AccountedStep | src/resend/resend.service.ts:90-109 | no step of any task takes the last copy of an owed message without putting it on record as delivered, purged, refused or lost |
| LedgerRuns.RunInvariant | src/dispatch/dispatch-handler.service.ts:36-172 | both hold in every reachable state of the interleaved system |
| LedgerRuns.NoLoss | README.md:5 | in every drop-free run each (webhook, inbox) obligation is delivered, removed, refused, or still held by a task, the queue or an unmarked row; a resend can pick the row exactly if the obligation has an inbox, and marking one never drops its payload |
| LedgerRuns.NoLossWithoutFaults | README.md:5 | with a retry limit of at least 1 the same holds of every run in which nothing outside the gateway fails |
| LedgerRuns.DropsExactly | src/dispatch/dispatch-handler.service.ts:86-159 | a step drops a message exactly on an infrastructure fault, or on a retry limit below 1 |
| LedgerRuns.ConsumerIsNeverRejected | src/dead-letter/dead-letter-consumer.service.ts:23-35 | in every reachable state the inbox of a dead letter exists, so its insert violates no foreign key |
| LedgerRuns.ResendCanLoseAMessage | src/resend/resend.service.ts:99-102 | a reachable run in which a resend marks a row although its dispatch was swallowed, and the message is nowhere |
| LedgerLoss.GoneStep | src/dispatch/dispatch-handler.service.ts:36-172 | a step makes a message gone (owed, unsettled, in no task, queue or unmarked row) exactly if it takes its last copy, by dropping it or by marking its row, and leaves it gone unless it settles it or copies it anew |
| LedgerLoss.GoneExactly | src/resend/resend.service.ts:99-102 | over a whole run a message is gone exactly if some step took its last copy and none has settled or copied it since |
| LedgerLoss.GoneWasDropped | src/rabbitmq/rabbitmq.service.ts:85-91 | every message that is gone was dropped by a step of the run: a mark alone takes no last copy |
| FanOut.Confluence | src/webhook/webhook.service.ts:59-68 | with fixed tables, whichever lookups, cache reads and queue sends throw, every complete schedule of the un-awaited calls ends each as it would end alone and adds up to the same deliveries, dead letters and counters |
| FanOut.NeverStuck | src/webhook/webhook.service.ts:62-68 | whatever the other calls do, one that has not ended can go on |
| FanOut.Isolation | src/webhook/webhook.service.ts:59-68 | in any two runs of the un-awaited calls, with other inboxes, outcomes, schedules and starting caches, a call that has ended has ended and contributed the same |
| FanOut.EndsAsAlone | src/webhook/webhook.service.ts:62-68 | however it was scheduled, a call that has ended has ended as the one function of its own inputs says, and contributed its counters and its one delivery or dead letter, as it would alone |
| FanOut.CountersAreTheCallsOfHandle | src/dispatch/dispatch-handler.service.ts:38-146 | the counters of the interleaved model are those the method raises |
| Payload.ReadersFollowTheirPaths | src/webhook/webhook.service.ts:111-140 | on every JSON value the guards of all four readers amount to one path lookup; the two pid readers agree, and so do the WABA and Instagram readers |
| Registry.InboxService.Create | src/inbox/inbox.service.ts:47-67 | for a call on its own: conflict, bad request, revival of the old row under its own id, or insert, each exactly when; either way the row is then active, of the pair asked for, with the given name and WABA or else those it had, and no other row changes |
| Registry.SecondCreateConflicts | src/inbox/inbox.service.ts:48-56 | after a create that succeeded, revival included, another one of the pair is a conflict |
| Registry.InboxService.Update | src/inbox/inbox.service.ts:69-75 | the row with the given fields and its own in the others, or which violation was met, with nothing changed |
| Registry.InboxService.SoftDelete | src/inbox/inbox.service.ts:77-83 | only the flag of an existing active row changes; not found exactly otherwise |
| Registry.InboxService.InsertRow | src/inbox/repositories/inbox.prisma.repository.ts:132-154 | an inactive ambiente is refused, an occupied pair is a unique violation, else exactly the new row is added |
| Registry.RunKeepsUnique | prisma/schema.prisma:71 | over every run one row per (pid, ambiente), deleted rows included; rows neither disappear nor change their pid |
| Registry.OnlyCreateRevives | src/inbox/repositories/inbox.prisma.repository.ts:114-124 | no registry operation makes a deleted row active again but a create that answers its id |
| Registry.DeleteThenCreateRevives | src/inbox/repositories/inbox.prisma.repository.ts:90-130 | after a soft delete, creating the pair again gives back the same row, active, in the same ambiente; without a new name and WABA the table is what it was before the delete |
| Ingestion.PidQueryIsOnePerAmbiente | src/inbox/repositories/inbox.prisma.repository.ts:38-50 | in a unique registry the pid query is strictly increasing in the ambiente and covers each addressed one |
| Ingestion.InboxRepository.FindAllByWabaId | src/inbox/repositories/inbox.prisma.repository.ts:67-89 | exactly the ambientes of the WABA, each once, with its earliest inbox |
| Ingestion.WebhookService.ResolverInboxes | src/webhook/webhook.service.ts:87-109 | the inboxes of the pid, or if there are none those of the WABA, one per ambiente |
| Ingestion.WebhookService.HandleIncoming | src/webhook/webhook.service.ts:41-69 | each dispatch is to an active row whose pid, or without any such row whose WABA, is the text at its place in the payload; each ambiente of such rows gets one, to its earliest row; one INBOX_NAO_REGISTRADA entry exactly when there is no such row |
| Ingestion.AddressedExactly | src/inbox/repositories/inbox.prisma.repository.ts:38-42 | the rows that the readers and queries address are those, in terms of row fields and payload paths |
| Ingestion.OnePerAmbienteCount | src/webhook/webhook.service.ts:43-62 | the number of dispatches is the number of addressed ambientes, zero exactly when nothing is addressed |
| Ingestion.RoutingOverEveryRun | src/webhook/webhook.service.ts:87-109 | in every registry that a run of registry operations produces, on every answer of the queries, each addressed ambiente is resolved once, to its earliest inbox, WABA fallback included, and nothing exactly if nothing is addressed |
| Ingestion.DeletedIsNotRouted | src/inbox/repositories/inbox.prisma.repository.ts:38-42 | a deleted inbox gets no webhook in any later registry, until a create revives it |
| InstagramForward.ClassifiersAgreeExactly | src/instagram-webhook/instagram-webhook-forwarder.service.ts:92-133 | the two failure classifiers differ exactly on a truthy response without a status |
| InstagramForward.CopiesAgreeExactly | src/instagram-webhook/instagram-webhook-forwarder.service.ts:33-104 | on the same inputs the forwarder ends like `handle`, unless such a response ended n failed attempts and the dead letter got through |
| InstagramForward.ForwardStatusExactly | src/instagram-webhook/instagram-webhook-forwarder.service.ts:40-104 | the status of a forward's dead letter, by the fields of entry and row and by whether the last error has a status |
| InstagramForward.SlashesDoNotMatter | src/instagram-webhook/instagram-webhook-forwarder.service.ts:53-54 | trailing slashes of the registered url do not change the target |
| InstagramForward.TargetExactly | src/instagram-webhook/instagram-webhook-forwarder.service.ts:53-54 | the target is the url without its trailing slashes, followed by the path of the surface |
| InstagramForward.LoopObeysRetrySpec | src/instagram-webhook/instagram-webhook-forwarder.service.ts:66-103 | the forwarder's loop obeys the shared retry specification |
| InstagramForward.InstagramForwarder.Forward | src/instagram-webhook/instagram-webhook-forwarder.service.ts:33-104 | outcome, raw posts, sleeps and the dead letter of one forward; no cache entry of another ambiente is touched |
| InstagramWebhook.InstagramWebhookService.HandleIncoming | src/instagram-webhook/instagram-webhook.service.ts:42-107 | each inbox of the pid gets the forward it would have got alone, whatever the others throw; without an inbox one INBOX_NAO_REGISTRADA entry |
| InstagramWebhook.LostExactly | src/instagram-webhook/instagram-webhook.service.ts:42-107 | a webhook leaves nothing behind exactly if its lookup throws or its INBOX_NAO_REGISTRADA entry cannot be sent; a forward is lost exactly if a read throws, no attempt is allowed where one is due, or a due dead letter cannot be sent |
| InstagramWebhook.DeadLetterIsNeverNull | src/instagram-webhook/instagram-webhook-forwarder.service.ts:106-119 | the dead letter of a forward is the parsed body where the text parses, else the raw text, and never null |
| Redirects.TargetsExactly | src/redirecionamentos-webhooks/redirecionamentos-webhooks.service.ts:163-176 | a dispatch posts to each active, unexpired redirect of its ambientes once and to each global one once per ambiente, to nothing else |
| Redirects.OnceExactly | src/redirecionamentos-webhooks/repositories/redirecionamentos-webhooks.prisma.repository.ts:57-76 | a target is posted to once exactly if it belongs to an ambiente or there is only one ambiente |
| Redirects.CopiesPerWebhook | src/dispatch/dispatch-handler.service.ts:40-46 | a webhook routed by its pid to k ambientes starts k deliveries (each with its retries) to a redirect of one of them and k * k to a global one that stay active, one exactly if k is 1 |
| Redirects.RedirecionamentosService.Dispatch | src/redirecionamentos-webhooks/redirecionamentos-webhooks.service.ts:145-177 | the count answered is the number of targets, and every target gets its own retries whatever becomes of the others |
| Redirects.RedirecionamentosService.SendWithRetry | src/redirecionamentos-webhooks/redirecionamentos-webhooks.service.ts:179-197 | five attempts by the shared retry specification; exhaustion throws nothing |
| MediaCallback.DelaysAreTheBackoff | src/wpp-media-business-profiles/wpp-media-upload-consumer.service.ts:127 | the delay table is 1000 * 2^k |
| MediaCallback.MediaUploadConsumer.FireWebhookWithRetry | src/wpp-media-business-profiles/wpp-media-upload-consumer.service.ts:122-169 | six attempts by the shared retry specification; the callback is persisted, with its last error, exactly on exhaustion |
| MediaCallback.MediaUploadConsumer.HandleJob | src/wpp-media-business-profiles/wpp-media-upload-consumer.service.ts:56-120 | the temporary file always goes; the caller hears `done` exactly on a 2xx answer, and nothing if the upload threw; a callback that fails six times is persisted as it was |
| AmbienteCache.AmbienteService.GetAmbiente | src/dispatch/dispatch-handler.service.ts:174-184 | used sequentially, with entries expiring at any moment, the read is what `findById` gives, nothing after a soft delete included |
| AmbienteCache.AmbienteService.WarmUp | src/ambiente/ambiente.service.ts:35-48 | every active ambiente becomes a live entry and no wrong entry appears |
| AmbienteCache.AmbienteService.Create | src/ambiente/ambiente.service.ts:69-84 | conflict, unique violation on a deleted id, or a new row that the cache agrees with |
| AmbienteCache.AmbienteService.Update | src/ambiente/ambiente.service.ts:86-101 | table and entry change together |
| AmbienteCache.AmbienteService.SoftDelete | src/ambiente/ambiente.service.ts:103-107 | the row is marked and no live entry is left |
| AmbienteStaleness.RunKeepsInv | src/ambiente/ambiente.service.ts:35-107 | in every interleaving of readers and writers, updates over a deletion included, every entry and every value in flight was really committed, no row goes and a deleted one stays deleted |
| AmbienteStaleness.BoundedStaleness | src/ambiente/ambiente.service.ts:69-107 | a live entry is the row its id had at some instant of the last 3600 + gap seconds, in the ambiente cache and in that of the flow callbacks; one flagged as deleted is of a row deleted now |
| AmbienteStaleness.BoundIsTight | src/dispatch/dispatch-handler.service.ts:174-184 | a run in which a deleted ambiente is served for exactly that long |
| AmbienteStaleness.ExclusiveRunsAreTransparent | src/ambiente/ambiente.service.ts:69-107 | a sufficient condition: if no commit overlaps a reader or another writer of its id and no writer fails half-way, every entry that no writer is about to replace is the current row |
| AmbienteStaleEntries.OvertakenExactly | src/dispatch/dispatch-handler.service.ts:174-184 | a value on its way to the cache differs from the current row exactly if a commit of another row, the last for its id, came after its database access |
| AmbienteStaleEntries.StaleExactly | docs/implementation/2026-06-08-cache-ambientes-redis.md:142 | with no writer of the id in flight, an entry differs from the current row exactly if its last store was of an overtaken task, or another row was committed since by a writer that failed half-way |
| AmbienteStaleEntries.DeletedExactly | src/ambiente/ambiente.service.ts:86-101 | an entry is flagged as deleted exactly if its last store, untouched since, was of an update that committed onto a row deleted since it was looked up |
| AmbienteStaleEntries.HitAfterDeleteExactly | docs/implementation/2026-06-08-cache-ambientes-redis.md:142 | with no writer of a deleted row in flight, it still has an entry, where a miss was promised, exactly in these two cases: stale, or stored by an update over the deletion |
| AmbienteStaleEntries.UpdateOverDelete | src/ambiente/repositories/ambiente.prisma.repository.ts:41-52 | a run in which the entry of a deleted row stays, though it equals the row |
| FlowCallbacks.FlowCallbacksService.GetUrl | src/wpp-flow-callbacks/wpp-flow-callbacks.service.ts:78-102 | the url of the active row, or nothing, whatever reads and fills of the cache fail, unless a delete of the entry failed less than an hour ago |
| FlowCallbacks.FlowCallbacksService.Update | src/wpp-flow-callbacks/wpp-flow-callbacks.service.ts:53-65 | the row changes, its entry goes, and only a failed delete is remembered as a risk |
| FlowCallbacks.FlowCallbacksService.Remove | src/wpp-flow-callbacks/wpp-flow-callbacks.service.ts:67-76 | the row is marked, its entry goes, and only a failed delete is remembered as a risk |
| ApiKeys.NothingInvented | src/api-keys/api-keys.service.ts:28-95 | in every sequential run, crashes and losses included, each hash entry is that of a row of the table |
| ApiKeys.CleanRunsStayInStep | src/api-keys/api-keys.service.ts:28-95 | in every sequential crash-free run the hash is exactly the active rows |
| ApiKeys.StartUpRestores | src/api-keys/api-keys.service.ts:28-40 | after any sequential run a completed start-up brings back every active row, and keeps exactly the stale entries besides |
| ApiKeys.StaleExactly | src/api-keys/api-keys.service.ts:85-95 | in a sequential run a revoked key is still in the hash exactly if its revocation broke off after the table write and Redis has not lost the entry since |
| ApiKeys.RevokedKeyCanStayAccepted | src/api-keys/api-keys.service.ts:85-95 | such a sequential run, with a second revocation and a restart that do not help |
| ApiKeys.GuardReadsTheTable | src/api-keys/guards/api-key.guard.ts:29-52 | after a sequential crash-free run the guard accepts a key exactly if it matches the salted hash of an active row |
| ApiKeys.ApiKeysService.OnModuleInit | src/api-keys/api-keys.service.ts:28-40 | the loop loads every active row, or the ones before the write that threw |
| ApiKeys.ApiKeysService.CreateKey | src/api-keys/api-keys.service.ts:42-78 | the row keeps only the salted hash, and the answered raw key is accepted at once |
| ApiKeys.ApiKeysService.RevokeKey | src/api-keys/api-keys.service.ts:85-95 | row marked, then entry removed; not found exactly for inactive rows |
| ApiKeys.ApiKeysService.CanActivate | src/api-keys/guards/api-key.guard.ts:21-53 | the scan accepts exactly if some entry matches a non-empty header |
| ApiKeysOverlap.NothingInventedByOverlaps | src/api-keys/api-keys.service.ts:28-95 | in every run with overlapping start-ups, creates and revocations, crashes and losses included, each entry in the hash or on its way is that of a row of the table |
| ApiKeysOverlap.OverlapStaleExactly | src/api-keys/api-keys.service.ts:85-95 | with no revocation of the key in flight, a revoked key is in the hash exactly if its last access, a hset, was of an entry got before the revocation committed, or a revocation that committed later failed before its hdel |
| ApiKeysOverlap.OverlapMissingExactly | src/api-keys/api-keys.service.ts:28-78 | with nothing about to set it, an active key is missing from the hash exactly if Redis lost it or its create failed half-way, and no start-up has set it since |
| ApiKeysOverlap.InStepExactly | src/api-keys/api-keys.service.ts:28-95 | with nothing in flight the hash is the active rows exactly if no key is stale or missing for one of these reasons |
| ApiKeysOverlap.GuardAcceptsExactly | src/api-keys/guards/api-key.guard.ts:29-52 | with nothing in flight the guard accepts exactly the keys of active rows that are not missing and of revoked rows that are stale |
| ApiKeysOverlap.SequentialRunsAreRuns | src/api-keys/api-keys.service.ts:28-95 | every sequential run is a run of this machine, with the same table and hash |
| ApiKeysOverlap.RevokedDuringCreate | src/api-keys/api-keys.service.ts:49-66 | a run in which nothing fails and a key revoked between the insert and the hset of its create stays in the hash |
| ApiKeysOverlap.RevokedDuringStartUp | src/api-keys/api-keys.service.ts:28-40 | the same with the findAll and the hset of a start-up elsewhere |
| DeadLetters.PageMatches | src/dead-letter/repositories/dead-letter.prisma.repository.ts:45-84 | a page holds distinct matching rows, and from offset 0 min(limit, matches) of them |
| DeadLetters.PageExactly | src/dead-letter/repositories/dead-letter.prisma.repository.ts:45-84 | in terms of the row fields: a page has the undeleted rows that fit every given field, from the offset on by their rank in time, each once, as many as there are up to the limit |
| DeadLetters.DeadLetterRepository.FindMany | src/dead-letter/repositories/dead-letter.prisma.repository.ts:45-84 | the page is a window of all matching rows, newest first, each row fitting every given field and in its rank |
| DeadLetters.DeadLetterRepository.MarkReenviado | src/dead-letter/repositories/dead-letter.prisma.repository.ts:109-114 | one flag of one row changes; a missing row throws |
| DeadLetters.DeadLetterRepository.HardDeleteOlderThan | src/dead-letter/repositories/dead-letter.prisma.repository.ts:116-121 | exactly the rows older than the cutoff go, and their number is answered |
| DeadLetterServices.DeadLetterService.Resend | src/dead-letter/dead-letter.service.ts:74-120 | one post of the stored message to the inbox's current ambiente; a bad request exactly without a message, an active inbox or an active ambiente; the row is marked exactly when the post succeeded and the mark does not throw |
| DeadLetterServices.DeadLetterConsumer.OnMessage | src/dead-letter/dead-letter-consumer.service.ts:23-35 | the message leaves the queue for a new unmarked row, or for good if the insert throws |
| Resend.CandidatesAre | src/resend/resend.service.ts:77-85 | the cut keeps exactly the rows of the pid's inboxes, unmarked ones unless forced |
| Resend.WantedExactly | src/resend/resend.service.ts:47-85 | query and cut together select exactly the undeleted rows in the interval, of an active inbox of the pid, unmarked unless forced |
| Resend.ResendService.Resend | src/resend/resend.service.ts:38-116 | total = reenviadas + falhas; exactly the wanted rows of the page are marked, each after a `handle` of its own message; nothing else in the table changes, and the queue grows by what the handles dead-lettered |
| Resend.VanishesExactly | src/resend/resend.service.ts:99-107 | a row ends marked with its message neither delivered nor queued exactly if the mark went through and its `handle` had a read throw, no attempt allowed, or a needed queue send throw |
| Resend.ResendService.Dispatch | src/resend/resend.service.ts:87-109 | the loop over the page: calls in order, marks and counters |
| ResendDrain.Drain | src/resend/resend.service.ts:61-116 | for a pid with one inbox, as long as nothing arrives that the selection finds, k unforced calls leave max(0, n - 50k) of n rows: none exactly from call ceil(n / 50) on |
| ResendDrain.QuietWhen | src/resend/resend.service.ts:66-71 | nothing the selection finds arrives when nothing arrives at all, as when every dispatch delivers, and when the request's interval ends before what arrives, whatever the dispatches give |
| ResendDrain.EveryAnswerMarksExactly | src/dead-letter/repositories/dead-letter.prisma.repository.ts:73-81 | a call marks a row on every answer of the database exactly if fewer than 50 other rows found are at least as new |
| ResendDrain.SomeAnswerMarksExactly | src/dead-letter/repositories/dead-letter.prisma.repository.ts:73-81 | a call marks a row on some answer exactly if fewer than 50 rows found are strictly newer |
| ResendDrain.NeverResentExactly | src/resend/resend.service.ts:87-109 | while every dispatch fails and is stored again, no number of unforced calls marks a row exactly if 50 rows found are strictly newer |
| ResendDrain.ResendIsARound | src/dead-letter/dead-letter-consumer.service.ts:23-35 | what the bulk resend ensures, followed by the consumer's inserts and any other, is a round of these results |
| ResendDrain.ProgressExactly | src/resend/resend.service.ts:73-85 | for any selection, every page lets a call mark something exactly if fewer than 50 foreign rows are as new as the newest own one |
| ResendDrain.DrainsExactly | src/resend/resend.service.ts:73-109 | as long as nothing arrives that the selection finds, unforced calls get every own row out, on every answer of the database, exactly if fewer than 50 foreign rows are as new as the oldest own one |
| ResendDrain.StarvesForever | src/dead-letter/repositories/dead-letter.prisma.repository.ts:73-81 | 50 strictly newer foreign rows keep any number of calls from marking an older own row, whatever the dispatches give and whatever arrives |
| ResendDrain.StarvationHappens | src/dead-letter/dto/list-dead-letter-query.dto.ts:83 | such tables, for a pid with two inboxes and for a request without a pid: the row asked for stays unmarked |
| WebhookErrors.OneRecordPerError | src/meta-error-logs/meta-webhook-errors.extractor.ts:94-138 | on every payload there is one record for each place that holds an error object, in document order, with its own context and whole node, and no other |
| WebhookErrors.RecordsByPath | src/meta-error-logs/meta-webhook-errors.extractor.ts:68-138 | a place has a record exactly if an object stands at its path into the errors; node, WABA id, pid, status id, code and the line of code, title or message, and details are what stands at their own paths |
| WebhookErrors.PayloadRecords | src/meta-error-logs/meta-webhook-errors.extractor.ts:94-138 | so the records of a payload are one for each such path, in document order, and none besides |
| WebhookErrors.ExtrairErrosDeWebhook | src/meta-error-logs/meta-webhook-errors.extractor.ts:94-138 | the accumulating loops give exactly these records, each field as the payload has it at its path; only a null payload throws |
| WebhookErrors.Saida.ColetarErros | src/meta-error-logs/meta-webhook-errors.extractor.ts:68-87 | the list grows by one record per object element of the node's errors |
| WebhookErrors.DetailsEndTheLine | src/meta-error-logs/meta-webhook-errors.extractor.ts:53-66 | the summary is never empty and ends with the details if there are any |
| MetricKeys.OrderDoesNotShow | src/sentry/sentry-metrics.service.ts:178-183 | a key does not depend on the order of the attributes |
| MetricKeys.KeyIsCanonical | src/sentry/sentry-metrics.service.ts:178-183 | with no bar in names, no equals sign in keys and no comma in values, two keys are equal exactly if name and attributes are |
| MetricKeys.BarInNameCollides | src/sentry/sentry-metrics.service.ts:182 | a bar in a name makes two metrics one |
| MetricKeys.EqualsInKeyCollides | src/sentry/sentry-metrics.service.ts:181 | an equals sign in an attribute key makes two metrics one |
| MetricKeys.CommaInValueCollides | src/sentry/sentry-metrics.service.ts:181-182 | a comma in a value makes two metrics one |
| Metrics.SentryMetrics.Contar | src/sentry/sentry-metrics.service.ts:36-44 | the open window stays what its records say, and gains this one |
| Metrics.SentryMetrics.RegistrarDuracao | src/sentry/sentry-metrics.service.ts:47-70 | every duration is counted and the first 500 of the window are kept, in order |
| Metrics.SentryMetrics.EmitirSnapshot | src/sentry/sentry-metrics.service.ts:92-119 | the window is closed whether or not it is sent; a sent one shows under its name every counter, every number of durations, and of the first 500 of a key the p50, the p95 and the largest, and besides the gauges nothing else; nothing recorded is lost |
| Metrics.WindowsConserve | src/sentry/sentry-metrics.service.ts:36-119 | over all windows, counters and totals of each key add up to everything recorded |
| Metrics.MontarAtributos | src/sentry/sentry-metrics.service.ts:121-147 | each counter, each statistic and each gauge is in the snapshot under its name, and nothing else is |
| Metrics.NamesAreApart | src/sentry/sentry-metrics.service.ts:127-147 | no two entries of a snapshot share a name, gauges included, whatever the keys |
| Percentile.NearestRank | src/sentry/sentry-metrics.service.ts:186-195 | of n samples in any order the percentile p of num/den is a sample with den * |those <= p| >= num * n > den * |those < p| |
| Percentile.PercentileIsOne | src/sentry/sentry-metrics.service.ts:186-195 | only one sample is that |
| Percentile.PercentilesAscend | src/sentry/sentry-metrics.service.ts:130-141 | on sorted samples p50 <= p95 <= the last one, which is the largest |
| Metrics.StatisticsAscend | src/sentry/sentry-metrics.service.ts:130-141 | in every distribution of a snapshot p50 <= p95 <= max, and max is the largest kept sample |
| DispatchMetrics.OneCall | src/dispatch/dispatch-handler.service.ts:36-172 | under their names, a call counts one attempt, a success exactly if it delivers, a failure exactly if its attempts run out, and one success or one dead letter unless it vanishes |
| DispatchMetrics.TimedExactly | src/dispatch/dispatch-handler.service.ts:95-146 | a call records its duration once exactly if it gets to attempt |
| DispatchMetrics.LabelIsStatus | src/dispatch/dispatch-handler.service.ts:163-172 | the last counter of a dead-lettered call carries the name of the status that the queue gets |
| DispatchMetrics.LedgerAndMetricsAgree | src/dispatch/dispatch-handler.service.ts:36-172 | over any run, successes and dead letters fall short of the attempts by exactly the vanished calls |
| DispatchMetrics.NothingMissingExactly | src/dispatch/dispatch-handler.service.ts:36-172 | they add up exactly if every call reads its ambiente and is allowed an attempt |

## Left out

- Graph API proxy controllers, templates, phone numbers, messages: pass a request through over HTTP.
- HMAC and RSA/AES-GCM handling, SHA-256: foreign calls; the guard's hash is a parameter.
- Prisma, RabbitMQ, Redis and axios internals: only uniqueness, order, paging, expiry, acknowledgement and outcome are kept.
- Verify-token handshakes, header redaction, Swagger, health check, admin UI, Winston and Sentry SDK calls, process-memory readings themselves.
- File system and multipart streaming, resumable upload sessions.
- Instagram forwards in the ledger: they dead-letter to the same queue, and what each of them queues is proved in `InstagramForward`; the ledger's obligations are those of the WhatsApp webhooks only.
- Redirects in the ledger: their deliveries are never dead-lettered; each exhausted one is given up, as `Redirects` has it.
- ResendDrain.Drain: no mark throws in a round of `ResendDrain`, while `Resend` has throwing marks; between two calls rows may arrive; rows that an operator, the cron or another resend removes or marks in the meantime are not part of the rounds.
- Creating, updating and removing redirects, with the default expiry of 15 minutes: single-row writes.
- FanOut.Confluence: durations are left out of the compared effects, because they measure the schedule itself; reads of the ambiente table and fills of the cache do not throw, because only some schedules make them.
- Registry.InboxService.Create: a call runs on its own; of two overlapping creates of a pair the later insert meets the unique violation that `InsertRow` answers.
- LedgerRuns.NoLoss: that a single resend refuses a picked row whose inbox or ambiente is deleted is in `DeadLetterServices`, not in the ledger; the rows of one bulk resend are independent tasks, which allows every order the source allows and more.
- Redirects.RedirecionamentosService.Dispatch: posts are kept per target; how the parallel retries of different targets alternate is not modelled.
- Percentile.NearestRank: the fractions 0.5 and 0.95 are the rationals 1/2 and 19/20, durations are integers.
- MetricKeys.OrderDoesNotShow: keys are compared by code point, JavaScript compares UTF-16 code units; no result depends on which total order is used.
- Ingestion.WebhookService.HandleIncoming: the body is a JSON value other than null, which is all the HTTP layer passes on; what the un-awaited calls do is the subject of `FanOut`.
- Resend.ResendService.Resend: inboxes and ambientes stand still while one bulk resend runs; in `Ledger` each call may find them changed.
- Re-encoding of a payload by `JSON.stringify` on the way through the queue: payloads are values, so numbers outside the finite range keep their text.
- Soft deletion of dead letters through the API and listing filters beyond the query: part of `Ledger` as a step, without a method of its own.
