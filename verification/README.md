# A verified model of ibdm

ibdm is a bridge: sources page through an API or receive webhooks and push `source.Data` onto an unbuffered
channel; one mapper goroutine turns every item into a main record and "extra" relationship records; a
destination receives upserts and deletes, which a catalog applies by item identity. This project models that
path in Dafny, together with the lifecycle protocols and the data cores around it, and proves properties of
the model. `dafny verify dfyconfig.toml` checks everything.

## How it is organised

- `Values`, `Sequences`, `Endings`: loosely typed payloads; sequences, subsequences and interleavings; how loops end.
- `Identifier`, `Mapper`: the identifier grammar, and the upsert and delete paths of the mapper.
- `Outcomes`: what the mapper makes of a payload, said of the templates themselves and not of the functions above.
- `Destination`, `Pipeline`: records, the sender, and the receive loop, proved against the function `PerformAll`
  (what a sequence of items makes of the destination's log).
- `PipelineProtocol`: producers, mapper goroutine, channel, `close`, the `mappingDone` barrier and a context
  that may be cancelled at any step, as a transition system. `PerformAll` is what its invariant speaks of, so
  the loop of `Pipeline` and the protocol meet in one specification.
- `PlanContents`, `StoredItems`: the calls of one item, record by record, and what they leave in the catalog.
- `Catalog`, `Undo`, `ExtraItems`: what streams of events do to the catalog. `Schedules` joins this with the protocol: what
  whole runs do to the catalog on any schedule, and that a clean run repairs what an interrupted one left.
- `Paging`, `Nested`, `Draining`: what page iterators, nested synchronisations and the loops that drain them
  have in common. `GitHub`, `Bitbucket`, `GitLab`, `Sysdig` hold the iterators (as classes) and the loops, and say
  what comes out in terms of the fields of the responses (the predicates `Hands`), whatever fails or is cancelled.
- `GcpClient`, `DevOpsSync`, `TokenEndpoint`: lifecycle protocols, any number of callers interleaving at every
  access to a lock or an atomic pointer.
- `Console`, `ConsoleWebhook`: the two ways the Console source describes a revision; `ConsoleContents`: what these
  records hold, which are listed, and with what outcome, in terms of the fields of the answers.
- `Languages`, `Parsers`: percentages in exact arithmetic; event names and result addresses.

Servers, templates, the YAML decoder, URL helpers and the outcome of every delivery are arbitrary functions; a
Go map is iterated in an arbitrary order.

## What the code does not do

These came out of the proofs; each has a lemma with the exact condition.

- A delete does not always undo an upsert of the same payload: the delete path renders the identifiers of
  extras that `createIf` kept out of the upsert, and one that does not render makes the whole delete fail
  (`Undo.UpsertIsUndoneIff`; an example is `Undo.GuardedExtraBlocksDelete`).
- An extra whose body renders to a null document is labelled "delete" even when it is sent as an upsert, and the
  catalog then drops it (`ExtraItems.UpsertLabelledDeleteIff`, `ExtraItems.ExtraIsStoredIff`). A body template is the
  YAML of the extra's fields and begins with the name of the first, so this takes field names that hold template
  actions spanning the rest, as in the example of `ExtraItems.NullBodyDeletes`; where no body decodes to a null
  document every payload of an upsert is labelled "upsert" (`ExtraItems.UpsertsAreLabelledUpsert`).
- A synchronisation or an event stream that does not select on the context at its sends (most sources do not) can
  leave the pipeline waiting for ever after a cancellation: exactly when it has something left to send
  (`PipelineProtocol.CancellationCanHangIff`). Webhook handlers are not waited for; see "Left out".
- A second GCP client can be opened while a `Close` call has still to close the one it took, and only then
  (`GcpClient.TwoOpenIff`; an example is `GcpClient.TwoClientsCanBeOpen`), although no client is overwritten,
  leaked or closed twice.
- In GitLab an inaccessible first page ends the token loop, because no page total is known yet
  (`GitLab.SkipsOnlyInaccessiblePagesIff`).
- Where a Console project has no string `defaultBranch`, the synchronisation skips the services and the webhook
  panics (`ConsoleWebhook.EventAgreesWithSync`, `ConsoleWebhook.NoDefaultBranch`).

## Where the code and its comments differ

The model follows the code in each case.

- `buildProjectData` (internal/source/console/console.go:253-263) is said to keep four fields; it also keeps `info`.
- `queryAllPages` (internal/source/sysdig/client.go:37-71) is said to stop at a page with no items; it stops at a
  page that reports none, and advances by what is reported.
- `next` of GitLab (internal/source/gitlab/iterator.go:33-62) is said to end when all pages have been consumed;
  after an error it also ends when no page beyond the current one is known of.

## Model

| member | source | states |
|---|---|---|
| Identifier.StarOfClass | internal/mapper/mapper.go:39-39 | the repetition of a character class matches exactly the strings over that class |
| Identifier.TailGrammar | internal/mapper/mapper.go:39-39 | the inner group matches exactly the non-empty strings of inner characters that end in an alphanumeric one |
| Identifier.AcceptedIffWellFormed | internal/mapper/mapper.go:274-287 | the regular expression and the length bound together accept exactly the identifiers of 1 to 253 characters among `[a-z0-9.-]` that start and end alphanumeric |
| Identifier.AcceptedJoin | internal/mapper/mapper.go:31-40 | two accepted identifiers joined by "-" are accepted whenever the length bound allows |
| Mapper.ExecuteExtraMappings | internal/mapper/mapper.go:322-364 | the loop yields the extras that `createIf` lets through, in order, or the first failure |
| Mapper.InternalMapper.ApplyTemplates | internal/mapper/mapper.go:212-238 | identifier, metadata, spec and extras of an upsert, or the first failure in that order |
| Mapper.InternalMapper.ApplyIdentifierTemplate | internal/mapper/mapper.go:241-271 | the identifier and the extras whose policy is not "none", whatever `createIf` says, or the first failure |
| Mapper.DeleteExtrasSucceed | internal/mapper/mapper.go:253-271 | after a successful upsert of the payload, the extras of the delete fail exactly when a cascading extra that `createIf` skipped has an identifier that does not render |
| Mapper.CascadingExtrasAreDeleted | internal/mapper/mapper.go:241-364 | the cascading extras an upsert emits are a subsequence of all it emits, and their identities a subsequence of those the delete names |
| Undo.CascadingNamed | internal/mapper/mapper.go:253-268 | a delete that maps names every extra whose policy is not "none", with the key its mapping gives it |
| Mapper.EachFromMapping | internal/mapper/mapper.go:325-361 | every extra an upsert emits is what some mapping that `createIf` lets through renders |
| Mapper.EachMappingEmits | internal/mapper/mapper.go:325-361 | every mapping that `createIf` lets through contributes what it renders, before the mappings after it |
| Outcomes.UpsertMapsIff | internal/mapper/mapper.go:212-238 | an upsert maps exactly when the identifier renders to a well-formed one, metadata and spec render to mappings or null documents, and every extra is either skipped by its `createIf` or let through and rendered |
| Outcomes.UpsertMapsTo | internal/mapper/mapper.go:212-238 | what it maps to, template by template: the identifier, the metadata rendered from the metadata template, the spec rendered from the spec template, and what the extras let through render, in order |
| Outcomes.DeleteMapsIff | internal/mapper/mapper.go:241-271 | a delete maps exactly when the identifier and those of all extras whose policy is not "none" render to well-formed ones |
| Outcomes.DeleteMapsTo | internal/mapper/mapper.go:241-271 | what it maps to: the identifier and the extras whose policy is not "none", no others, in order and without bodies |
| Outcomes.FirstFailure | internal/mapper/mapper.go:212-238 | which failure is reported: that of the identifier before that of the metadata, the spec and the extras |
| Outcomes.FirstExtraFailure | internal/mapper/mapper.go:322-364 | among the extras of an upsert the first that does not render decides, and what is wrong with it: its `createIf`, then its identifier, then its body |
| Outcomes.FirstDeleteFailure | internal/mapper/mapper.go:253-271 | among those of a delete the first whose policy is not "none" and whose identifier does not render |
| PlanContents.UpsertAsksFor | internal/pipeline/pipeline.go:193-244 | the calls of an upsert: its own record with the rendered documents, then one for every extra that `createIf` lets through, in order, all stamped with the time of the item |
| PlanContents.DeleteAsksFor | internal/pipeline/pipeline.go:209-264 | the calls of a delete: the item and then the extras whose policy is not "none", in order, all without data and stamped with the time of the item |
| PlanContents.NothingAskedIff | internal/pipeline/pipeline.go:176-223 | nothing is asked for exactly when the item is of another operation, is not mapped, or does not map |
| PlanContents.PerformAppends | internal/pipeline/pipeline.go:196-223 | performing an item appends to the log all its calls, or the first alone when that one fails, each with the outcome of its turn |
| Pipeline.Pipeline.UpsertExtraMappedData | internal/pipeline/pipeline.go:228-244 | every extra is sent, in order, whatever becomes of the ones before it |
| Pipeline.Pipeline.DeleteExtraMappedData | internal/pipeline/pipeline.go:246-264 | every extra is deleted, in order, whatever becomes of the ones before it |
| Pipeline.Pipeline.MapAndSend | internal/pipeline/pipeline.go:176-223 | one item's effect on the destination: nothing when unmapped or failing to map, else its own call, and all its extras only when that call succeeds |
| Pipeline.Pipeline.MappingData | internal/pipeline/pipeline.go:165-226 | the loop with all its `continue`s makes the effects of the items received, whole and in order, and stops at the close of the channel or at the first select that sees the cancellation |
| PipelineProtocol.StepKeepsInv | internal/pipeline/pipeline.go:131-226 | every step keeps: the log is the whole effects of the settled items plus the first calls of the current one; each producer has sent a beginning of its program; close, barrier and return come in order |
| PipelineProtocol.ReturnedPipeline | internal/pipeline/pipeline.go:131-264 | on every schedule, cancelled or not, at the return the destination has been asked for the whole effect of every item sent, in order, and nothing else; what was sent interleaves beginnings of the lists of the producers started: whole lists of all that never look at the context, and of all when not cancelled |
| PipelineProtocol.ProducersAreStarted | internal/pipeline/pipeline.go:131-148 | on every run the producers are those that the run starts, in order, each with the mode and the whole list it was started with |
| PipelineProtocol.MayGiveUpIff | internal/source/sysdig/sysdig.go:132-148 | a producer with something left to send can give up exactly when cancelled: between sends if it looks at the context there, at a send only if it selects on it |
| PipelineProtocol.StepKeepsProducers | internal/source/github/webhook.go:49-72 | every step keeps, for any number of concurrent handlers: what the mapper has received from each is a beginning of its result list, in order and each once; only a producer that looks at the context may give up, and only when it is cancelled |
| PipelineProtocol.WholeItemsSoFar | internal/pipeline/pipeline.go:165-226 | at every moment only the item received last can be half done |
| PipelineProtocol.NothingAfterReturn | internal/pipeline/pipeline.go:144-148 | no call and no receive after the return |
| PipelineProtocol.StuckIff | internal/pipeline/pipeline.go:131-226 | before the return the program is stuck exactly when the mapper has left and some producers, all that are unfinished, wait in a send that ignores the context |
| PipelineProtocol.NoDeadlock | internal/source/sysdig/sysdig.go:132-148 | without cancellation, or when every producer that has something left to send selects on the context at its sends, the program is never stuck before the return |
| PipelineProtocol.BlockedForEver | internal/pipeline/pipeline.go:165-171 | a send that ignores the context is never answered once the mapper has left |
| PipelineProtocol.CancelledPlainSendDeadlocks | internal/pipeline/pipeline.go:144-171 | from any reachable state, for any producer that the close waits for, that does not select at its sends and that has something left to send, there is a schedule of the program's own steps and a cancellation into a state where nothing is left to do and that no continuation returns from |
| PipelineProtocol.CancellationCanHangIff | internal/pipeline/pipeline.go:131-171 | from any reachable state, with any producers that the close of the channel waits for and any programs, a cancellation can hang the pipeline exactly when some unfinished one that does not select at its sends has something left to send |
| PipelineProtocol.RunsAreBounded | internal/pipeline/pipeline.go:131-226 | the program's own steps are bounded by a measure of what is left, so every schedule of them ends |
| PipelineProtocol.PipelineReturns | internal/pipeline/pipeline.go:131-149 | from every such state the program's own steps lead to the return |
| PipelineProtocol.MaximalRunReturns | internal/pipeline/pipeline.go:131-149 | every schedule of the program's own steps from such a state that cannot be prolonged has returned |
| Catalog.WritesForget | internal/destination/interface.go:31-45 | what the catalog held under the keys that calls write does not matter for the result |
| Catalog.OnlyKeysChange | internal/destination/interface.go:31-45 | keys that no call names are unchanged |
| Catalog.LastCallDecides | internal/destination/interface.go:31-45 | the last call that names a key decides whether the key is in the catalog and what it holds |
| Catalog.PipelineReplays | internal/pipeline/pipeline.go:183-263 | when no call fails the destination's log amounts to the replay of the stream on the catalog |
| Catalog.ReplayRepairs | internal/pipeline/pipeline.go:183-263 | whatever deliveries failed the first time, a successful replay of the whole stream gives the catalog a first run without failures would have given |
| Catalog.ReplayIsIdempotent | internal/pipeline/pipeline.go:183-263 | replaying a whole stream changes nothing |
| Catalog.NeighboursCommute | internal/pipeline/pipeline.go:183-263 | neighbouring events with disjoint keys may be swapped anywhere in a stream |
| Schedules.InterleavingsAgree | internal/pipeline/pipeline.go:165-226 | every interleaving of event lists that write different keys has the effect of the lists one after the other |
| Schedules.ScheduleDoesNotMatter | internal/pipeline/pipeline.go:131-264 | whatever the schedule, a run without cancellation or failed calls of producers that write different keys brings the catalog to where their items, one producer after the other, would have brought it |
| Schedules.OnlyProgramKeysChange | internal/pipeline/pipeline.go:131-264 | at any moment of any run, cancelled or failing, the catalog has changed only under keys of the producers' items |
| Schedules.CleanRunRepairs | internal/pipeline/pipeline.go:131-264 | after a run interrupted anywhere, with deliveries failed or misreported, one clean run of the same producers on any schedule ends where a single clean run would have ended |
| ExtraItems.DeletesAreLabelledDelete | internal/destination/interface.go:31-45 | whatever a delete event asks for is labelled "delete" |
| ExtraItems.NullSpecIff | internal/mapper/mapper.go:343-360 | an upsert that maps emits an extra without a body exactly when a mapping that `createIf` lets through renders a null document |
| ExtraItems.UpsertLabelledDeleteIff | internal/destination/interface.go:31-45 | an upsert's own record is labelled "upsert", and some other payload of it "delete" exactly when such a mapping exists |
| ExtraItems.ExtraIsStoredIff | internal/pipeline/pipeline.go:228-244 | after a delivered upsert the catalog holds an extra that `createIf` lets through, with exactly its rendered body, if and only if the body is not a null document; else its key is gone, whatever was there (no later mapping creating an extra with its key) |
| ExtraItems.UpsertsAreLabelledUpsert | internal/destination/interface.go:31-45 | where no body decodes to a null document, every payload of an upsert is labelled "upsert" |
| ExtraItems.NullBodyDeletes | internal/mapper/mapper.go:179-196 | an extra whose field names hold actions that span the rest: its delivered upsert stores it for one payload and deletes it from the catalog for another |
| Undo.DeleteUndoesUpsert | internal/mapper/mapper.go:212-271 | when both events map and are delivered, neither the item nor any extra whose policy is not "none" is left; what is left of the upsert are "none" extras; every other key is untouched |
| Undo.DeleteUndoesUpsertIff | internal/mapper/mapper.go:241-271 | after an upsert that mapped, the delete takes the item out exactly when all cascading extras that `createIf` skipped have identifiers that render; otherwise the delete changes nothing |
| Undo.UpsertIsUndoneIff | internal/mapper/mapper.go:241-271 | where no extra has the item's own key, item and all cascading extras are gone after the delete exactly when the extras that `createIf` skipped have identifiers that render |
| StoredItems.UpsertStoresTheDocuments | internal/pipeline/pipeline.go:193-208 | a delivered upsert leaves under the key of the item exactly what the metadata and the spec templates render, each in its place, unless an extra that is created has that key |
| StoredItems.DeletedKeysIff | internal/mapper/mapper.go:241-271 | the keys that a delete names are that of the item and those of the extras whose policy is not "none", and no others |
| StoredItems.DeleteTakesExactly | internal/pipeline/pipeline.go:209-264 | a delivered delete takes exactly those keys out of the catalog and leaves every other as it was |
| StoredItems.NoneExtraStays | internal/mapper/mapper.go:254-256 | an extra whose policy is "none", once stored under a key of its own, is still in the catalog, with the same record, after the delete of its item |
| Undo.GuardedExtraBlocksDelete | internal/mapper/mapper.go:253-261 | a mapping for which the item survives its delete |
| Paging.IteratorAnswers | internal/source/github/iterator.go:41-88 | for every listing: the pages in order up to the first error, empty page or last page, then "done" for ever; never an empty page |
| Paging.IteratorRequests | internal/source/github/iterator.go:41-88 | k calls have made the first k requests, or those up to the one whose reply ended the iterator, and none after it |
| Paging.LoopEndsAt | internal/source/github/github.go:142-184 | a draining loop whose turn n is the first to be cancelled, to fail, or to meet an empty or last page is handed the pages before it, and the last page, and ends accordingly |
| Paging.DrainReturnsTheList | internal/source/github/iterator.go:41-88 | against a server that pages a list: after one call of `next` a page, and at least one, the iterator is done, has made that many requests and no more ever, and has handed out the list, in order, without error |
| Draining.LastTurn | internal/source/github/github.go:142-153 | a turn of a draining loop that ends it: by cancellation, at the end of the listing, or with its error, having emitted exactly what the loop is to emit |
| Draining.PageTurn | internal/source/github/github.go:142-182 | a turn that visits a page emits the blocks of its elements and goes on, or ends with the element that ends the walk |
| Paging.PageCountRoundsUp | internal/source/github/iterator.go:41-88 | the number of pages is the length divided by the page size, rounded up |
| GitHub.PageIterator.Next | internal/source/github/iterator.go:41-88 | a call of `next` on the fields is one step of the cursor of `Paging`; the pages requested are 1, 2, 3, ... once each |
| GitHub.WrappedPageIterator.Next | internal/source/github/iterator.go:113-172 | the same for arrays wrapped under a response key |
| GitHub.WrappedIteratorSimulatesPlain | internal/source/github/iterator.go:113-172 | over responses that wrap the same arrays the wrapped iterator answers as the plain one, call for call |
| GitHub.SyncRepositoryWorkflowRuns | internal/source/github/github.go:199-229 | the runs on the pages reached, in order, up to the end, the first failing page or the first check that finds the context cancelled |
| GitHub.SyncRepository | internal/source/github/github.go:156-180 | a repository contributes itself, then its runs up to their first failing page or the cancellation, which ends the synchronisation |
| GitHub.SyncRepositoryPage | internal/source/github/github.go:155-181 | the blocks of one page's repositories, up to and including the first that fails or is cancelled |
| GitHub.SyncRepositoryAssets | internal/source/github/github.go:122-184 | for every pattern of failures and cancelled checks the output is the walk over the repositories reached, ended by the first failing or cancelled block; the result is that block's, or how the repository listing ends |
| GitHub.SyncEmitsEverything | internal/source/github/github.go:122-229 | in terms of the fields of the responses: when no runs fail and no check inside is cancelled, the output is the upserts, field by field, of every repository handed out, in order, each followed by those of its runs, and nothing else; the result is how the listing of the repositories ends |
| GitHub.SyncStopsAt | internal/source/github/github.go:142-182 | otherwise it stops at the first repository before which a check finds the context cancelled, or whose runs fail or are cancelled, with what that one has given |
| Nested.WalkEmitsWholeBlocks | internal/source/github/github.go:122-184 | a walk emits whole blocks in order, all of them or those up to the first failing one |
| Nested.WalkEmitsPrefix | internal/source/github/github.go:122-229 | its output is a beginning of the flat map of all blocks, and the whole of it when nothing fails |
| Bitbucket.PageIterator.Next | internal/source/bitbucket/iterator.go:40-79 | a call of `next` is one step of the cursor of `Paging`; the URLs requested are the first one and then each time the one announced by the 2xx response, with values, before it |
| Bitbucket.HandsReached | internal/source/bitbucket/iterator.go:40-79 | what a loop is handed along the chain of announced URLs, read off the fields of the responses, and how it ends, is what the listing of the iterator gives it |
| Bitbucket.SyncRepositoryPipelines | internal/source/bitbucket/sync.go:166-199 | the pipelines on the pages reached, in order, up to the end, the first failing page or the first cancelled check |
| Bitbucket.SyncRepository | internal/source/bitbucket/sync.go:138-158 | a repository contributes itself and its pipelines up to their first failing page, and never fails; a cancelled check before it ends the workspace |
| Bitbucket.SyncRepositoryPage | internal/source/bitbucket/sync.go:138-159 | the blocks of the repositories of one page, whatever pipelines fail, up to a cancelled check |
| Bitbucket.SyncRepositoriesForWorkspace | internal/source/bitbucket/sync.go:119-162 | the blocks of all repositories on the pages reached; failed exactly when the repository listing fails |
| Bitbucket.SyncWorkspacePage | internal/source/bitbucket/sync.go:98-110 | the blocks of one page's workspaces with a slug, up to and including the first that fails, or up to a cancelled check |
| Bitbucket.SyncWorkspaceAssets | internal/source/bitbucket/sync.go:78-114 | for every pattern of failures and cancelled checks: the configured workspace alone, or the blocks of all workspaces with a slug up to the first that fails |
| Bitbucket.NoRepositoryIsLost | internal/source/bitbucket/sync.go:119-162 | within a workspace the output is a beginning of the flat map over all repositories reached, and the whole of it, whatever pipelines fail, unless a check before a repository finds the context cancelled |
| Bitbucket.WorkspaceEmits | internal/source/bitbucket/sync.go:119-199 | in terms of the fields of the responses along the chains of URLs: a workspace gives the upserts, field by field, of every repository handed out, in order, each followed by those of its pipelines handed out, whatever their listing ends with, and nothing else, up to a cancelled check before a repository |
| Bitbucket.SyncEmitsEverything | internal/source/bitbucket/sync.go:78-199 | and without a configured workspace, when no listing of repositories fails, all of that for every workspace with a slug, in order, even after a cancellation within one; the result is how the listing of the workspaces ends |
| Bitbucket.SyncStopsAt | internal/source/bitbucket/sync.go:84-111 | otherwise it stops at the first workspace before which a check finds the context cancelled, or whose repositories cannot all be listed, with what that one has given |
| GitLab.PageIterator.Next | internal/source/gitlab/iterator.go:35-62 | a call of `next` is one step of a cursor that an error ends only at the last page known of |
| GitLab.RequestsAreBounded | internal/source/gitlab/iterator.go:35-62 | when no response reports more than T pages, the loops end after at most max(1, T) requests, even if every page is inaccessible |
| GitLab.SyncAccessTokens | internal/source/gitlab/gitlab.go:158-191 | the tokens of a project or group as the lenient walk finds them, each as one item, how it ends, and its number of requests: at most max(1, T) when no response reports more than T pages |
| GitLab.SyncGroupPage | internal/source/gitlab/gitlab.go:243-277 | the token blocks of one page's groups, those without an identifier skipped, up to and including the first that fails |
| GitLab.SyncAccessTokenResources | internal/source/gitlab/gitlab.go:230-281 | the token blocks of the groups reached that have an identifier, up to the first failure |
| GitLab.SyncEmitsEverything | internal/source/gitlab/gitlab.go:230-281 | in terms of the responses: when no tokens fail, the upserts, field by field, of the tokens handed out for every group whose "id" is a number, in order, and nothing else; the result is how the strict listing of the groups ends |
| GitLab.SyncStopsAt | internal/source/gitlab/gitlab.go:249-265 | otherwise it stops at the first group whose tokens fail, with those handed out before the failure |
| GitLab.FirstPageAccessible | internal/source/gitlab/gitlab.go:158-191 | with an accessible first page, a constant total and non-empty pages, exactly the accessible pages' items are emitted, in order |
| GitLab.SkipsOnlyInaccessiblePagesIff | internal/source/gitlab/iterator.go:35-62 | nothing accessible is missed exactly when the first page is accessible or no page is; otherwise the loop ends after one request |
| GitLab.DrainReturnsTheList | internal/source/gitlab/iterator.go:35-62 | against a server that pages a list, the loop yields the list, in order, in one request a page and at least one |
| Sysdig.SendRows | internal/source/sysdig/sysdig.go:132-148 | the rows of a page are sent after what was sent before, all of them or up to the first send that finds the context cancelled |
| Sysdig.QueryAllPages | internal/source/sysdig/client.go:40-71 | what is sent is the rows of all queries before the first that fails or reports nothing; or, cancelled at a check, the rows of all queries made; or, cancelled at a send, those and a proper beginning of the last page |
| Sysdig.HandedRowsAreSent | internal/source/sysdig/client.go:40-71 | the queries, each at the sum of the counts reported before it, up to the first that fails or reports nothing, hand out exactly the rows the loop sends |
| Sysdig.DrainReturnsTheRows | internal/source/sysdig/client.go:40-71 | against a server that pages a table truly, the rows in order, in one query a page and a last one |
| GcpClient.StepKeepsInv | internal/source/gcp/gcpclient.go:141-276 | every step keeps: a synchronisation under way holds the lock, the pointer is nil except between its store and its swap, and every client created is in exactly one place |
| GcpClient.LockIsReleased | internal/source/gcp/gcpclient.go:235-276 | on every interleaving the lock is free exactly when no synchronisation is under way, and exactly then a TryLock succeeds |
| GcpClient.NobodyIsStuck | internal/source/gcp/gcpclient.go:141-276 | every caller that has not finished has a step of its own to take |
| GcpClient.NoStoreOverwrites | internal/source/gcp/gcpclient.go:141-157 | the pointer is nil whenever a caller loads it under the lock or is about to store: no client is overwritten |
| GcpClient.StepKeepsPlaces | internal/source/gcp/gcpclient.go:141-185 | every step leaves every client in exactly one place: the pointer, one caller's hands, or closed |
| GcpClient.ClosedExactlyOnce | internal/source/gcp/gcpclient.go:141-207 | on every interleaving no client is closed twice, and when no synchronisation is under way and no `Close` is about to close, every client created has been closed once |
| GcpClient.AtMostOneLive | internal/source/gcp/gcpclient.go:141-207 | of the clients that no caller has swapped out, at most one is stored or about to be stored |
| GcpClient.OpenIffLiveOrTaken | internal/source/gcp/gcpclient.go:174-207 | the clients created and not closed are exactly the live ones and those in the hands of a caller about to close them: none is leaked |
| GcpClient.TwoOpenIff | internal/source/gcp/gcpclient.go:141-207 | on every interleaving two clients are open at a time exactly when a `Close` call has still to close one and another is in the pointer or in the hands of a caller; so with no such call at most one is open |
| GcpClient.TwoClientsCanBeOpen | internal/source/gcp/gcpclient.go:174-207 | an interleaving with two clients created and none closed |
| DevOpsSync.PointerBelongsToTheHolder | internal/source/azure-devops/devops.go:74-101 | on every interleaving the published cancel function is that of the synchronisation that holds the lock and still runs; nil when the lock is free; taken by at most one `Close` |
| DevOpsSync.LockIsReleased | internal/source/azure-devops/devops.go:74-101 | on every interleaving the lock is free exactly when no synchronisation is under way, and exactly then a TryLock succeeds |
| DevOpsSync.CloseReachesTheSync | internal/source/azure-devops/devops.go:230-242 | a `Close` that swaps while a synchronisation is syncing takes its cancel function, unless another one has |
| DevOpsSync.NobodyIsStuck | internal/source/azure-devops/devops.go:74-101 | every caller that has not finished has a step of its own to take |
| DevOpsSync.StepKeepsCancel | internal/source/azure-devops/devops.go:230-242 | every step keeps: the cancel functions taken are those called plus those a `Close` is about to call |
| DevOpsSync.CancelledAtMostOnce | internal/source/azure-devops/devops.go:230-242 | no synchronisation is cancelled by more than one `Close`, nor before it has published |
| TokenEndpoint.TokenSource.ResolveTokenEndpoint | internal/tokensource/oauth2source/oauth2source.go:251-304 | one call of the method is one step of the cache: the cached endpoint, or the endpoint of an accepted document, which is then cached, or an error and nothing cached |
| TokenEndpoint.TokenSource.Token | internal/tokensource/oauth2source/oauth2source.go:145-202 | at most one request is posted, to the endpoint resolved, with that endpoint as audience |
| TokenEndpoint.EndpointIsStable | internal/tokensource/oauth2source/oauth2source.go:251-304 | once there is an endpoint it never changes, every call returns it and none makes a discovery |
| TokenEndpoint.ConfiguredEndpointNeedsNoDiscovery | internal/tokensource/oauth2source/oauth2source.go:119-140 | a configured endpoint means no discovery in any number of calls |
| TokenEndpoint.EndpointComesFromFirstAcceptedDocument | internal/tokensource/oauth2source/oauth2source.go:265-304 | failures are never cached: in any number of calls the endpoint is the first that a 200 response to a request for the discovery URL, its own or else the issuer's, brings with a non-empty endpoint and the configured issuer, if there is one (OpenID Connect Discovery 1.0, section 4.3); every call before it asked again |
| TokenEndpoint.CacheIsAfterCalls | internal/tokensource/oauth2source/oauth2source.go:251-304 | what any interleaving of concurrent callers does to the cache is what some number of calls one after the other does |
| TokenEndpoint.ConcurrentEndpointIsAccepted | internal/tokensource/oauth2source/oauth2source.go:145-304 | on every interleaving: the only answer that brought such an endpoint is the last one asked for, its endpoint is the one cached, and everything posted went there |
| TokenEndpoint.AudienceIsTheURL | internal/tokensource/oauth2source/oauth2source.go:145-239 | for any number of concurrent callers every assertion's audience is the URL it is posted to (RFC 7523, section 3), which is the one cached endpoint |
| TokenEndpoint.CallerPosts | internal/tokensource/oauth2source/oauth2source.go:145-202 | once there is an endpoint, a caller that gets hold of the mutex and signs posts to it, if it is a URL at all, and asks for nothing |
| Console.FilterTypes | internal/source/console/console.go:115-123 | the requested types of the chain, each once, in chain order |
| Console.ImageTags | internal/source/console/console.go:281-304 | an image keeps its name exactly when it has a digest or a non-empty tag after its last slash; all others get the default tag, and once only |
| Console.CustomRemoveFields | internal/source/console/console.go:242-251 | the top-level services and the keys of a configuration survive |
| Console.AtMostOneItem | internal/source/console/console.go:308-319 | no entry is both a service and a custom resource |
| Console.CollectServicesFromConfiguration | internal/source/console/console.go:350-359 | in whatever order the map is iterated: every valid service once, or a panic exactly when some entry's assertions fail |
| Console.CollectCustomResourcesFromConfiguration | internal/source/console/console.go:363-373 | the same for custom resources |
| Console.ListRevision | internal/source/console/console.go:208-233 | the records of one revision for the requested types, as a multiset, services only on the default branch |
| Console.ListRevisions | internal/source/console/console.go:197-234 | the records of all revisions of a project, or the first failure or panic |
| Console.ListProject | internal/source/console/console.go:180-235 | one project: its own record if asked for and those of its revisions, or the first failure or panic |
| Console.ListConfigurations | internal/source/console/console.go:168-238 | every project, once if asked for, with the records of its revisions, or the first failure or panic |
| ConsoleContents.ListedIff | internal/source/console/console.go:168-238 | a record is listed exactly when it is, field by field, that of a project, of a revision of one, or of a service or custom resource of the default branch of one, and its kind is requested |
| ConsoleContents.ProjectsOutcomeIs | internal/source/console/console.go:168-238 | the listing succeeds exactly when every project and revision can be listed, and otherwise comes to what the first that cannot comes to |
| ConsoleContents.RevisionsOutcomeIs | internal/source/console/console.go:190-234 | the same for the revisions of a project: an error where the configuration cannot be fetched; a panic where the name is no text, or the services of the default branch cannot be read |
| ConsoleContents.EntryGives | internal/source/console/console.go:308-402 | an entry gives the record of a service exactly when its type is "custom" and it is expressly not advanced, that of a custom resource exactly when its type is "custom-resource", and nothing otherwise |
| ConsoleContents.EntryPanicsIff | internal/source/console/console.go:308-319 | exactly which entries make the assertions panic |
| ConsoleContents.FieldsRemoved | internal/source/console/console.go:242-251 | two nested fields become nil where there is a map to hold them; everything else stays |
| ConsoleWebhook.ProcessConfigurationServices | internal/source/console/console.go:596-621 | one pass over the services of the default branch: its outcome, and what is sent, complete or up to a panic |
| ConsoleWebhook.SendServices | internal/source/console/console.go:611-619 | the pass itself, in whatever order the map is iterated: the records of all entries, or at a panic exactly those of the entries that came first |
| ConsoleWebhook.SendEntry | internal/source/console/console.go:612-618 | what one entry sends, and whether an assertion fails on it, in which case it sends nothing |
| ConsoleWebhook.SendHeaders | internal/source/console/console.go:579-588 | the project record and the revision record, each once if asked for |
| ConsoleWebhook.ConfigurationEventChain | internal/source/console/console.go:558-591 | the answer to a configuration event: its outcome; nothing is sent without the project; with it the project and revision records go out first, then nothing on a failure, the records of the services on success, and those of the entries before it at a panic |
| ConsoleContents.EventOutcomeIs | internal/source/console/console.go:558-621 | the answer to a configuration event in terms of its payload, of what can be fetched, and of which services can be read |
| ConsoleContents.HeadersAre | internal/source/console/console.go:579-588 | the records that go out before the services, field by field: that of the project, then that of the revision |
| ConsoleWebhook.OnePassIsTwo | internal/source/console/console.go:611-619 | the webhook's one pass emits exactly what the synchronisation's two passes emit |
| ConsoleWebhook.EventAgreesWithSync | internal/source/console/console.go:168-238 | for one revision with successful fetches: same multiset of types and values on both paths, and the same outcome exactly when no services are asked for or the project has a string default branch |
| ConsoleWebhook.NoDefaultBranch | internal/source/console/console.go:602-604 | the exception: the webhook panics where the synchronisation skips |
| ConsoleWebhook.OnlyDefaultBranchHasServices | internal/source/console/console.go:212-231 | services and custom resources are sent for the default branch only, on both paths, and only when asked for |
| ConsoleWebhook.SyncIsOneEventPerRevision | internal/source/console/console.go:168-238 | a successful synchronisation sends each project once plus what one event for every listed revision sends |
| Languages.ComputeLanguagePercentages | internal/source/github/client.go:108-119 | whatever the iteration order: nothing for a zero total, else the rounded percentage of every language |
| Languages.EachPercentage | internal/source/github/client.go:115-117 | each percentage lies in [0,100], follows the order of the counts, and is within 0.005 of the exact share |
| Languages.SumIsNearHundred | internal/source/github/client.go:108-119 | the percentages of n languages sum to 100 within n times 0.005 |
| Languages.ThirdsMissHundred | internal/source/github/client.go:115-117 | three equal counts sum to 99.99: the margin is needed |
| Parsers.Event.GetResource | internal/source/console/event.go:26-42 | the cached resource, or the one parsed from the name, which is then cached |
| Parsers.JoinUndoesSplit | internal/source/console/event.go:31-39 | joining undoes splitting and no part holds the separator |
| Parsers.ResourceRoundTrip | internal/source/console/event.go:26-42 | the resource of `resource_verb` is `resource` for every resource and every verb without underscore |
| Parsers.EveryNameIsPrinted | internal/source/console/event.go:31-39 | every name with an underscore is its resource, an underscore and a verb without one; a name without is its own resource |
| Parsers.FoundWherePut | internal/source/sysdig/processor_vulnerabilityevent.go:195-218 | a marker whose first letter does not recur is found where it was put unless it occurs before |
| Parsers.ExtractedIffEmbedded | internal/source/sysdig/processor_vulnerabilityevent.go:195-218 | an identifier is returned exactly for the addresses that embed it between the first "results/" and the next "/overview" |
| Parsers.RefusedIff | internal/source/sysdig/processor_vulnerabilityevent.go:195-218 | the three refusals, each with exactly the addresses it concerns |

## Left out

- Transports (HTTP, gRPC, Pub/Sub, Event Hub) and retries: a server is a function from requests to responses that keeps what the code branches on.
- Template execution, YAML, JSON and URL helpers: deterministic functions of their input; templates that use the clock, generate identifiers or modify the payload are outside the catalog results.
- Cryptography: webhook signatures and the signing of assertions are one yes-or-no answer.
- Command line, environment configuration, logging and status routes: plumbing.
- Azure, Nexus and the continuation tokens of Azure DevOps: the same shape as the iterators here.
- The catalog's treatment of a cancelled send as a success: catalog results assume that a call reported as successful is applied, except `Schedules.CleanRunRepairs`, which lets the first run misreport.
- Sends on the channel after the webhook server has stopped: in the protocol the channel is closed when all producers have finished; the code waits for a synchronisation or an event stream, but not for webhook handlers, and a handler that sends after the close panics.
- Times taken from the clock: an item without a time carries a mark instead of a timestamp; the times that GitHub, Bitbucket and GitLab items take from their payload are not modelled.
- GitLab projects, pipelines and languages: strict loops over the same iterator, which would add easy members.
- The Pub/Sub client of the GCP source: a pointer without a lock; and the use of a client after a concurrent `Close` has closed it.
- The Console's clusters, its sync lock and the selection of webhook types: one-branch filters; the lock is not released in the code and no invariant is claimed for it.
- In-place edits of Console maps: `dockerImage` and the stripped fields are new maps here, so aliasing between emitted records and the fetched configuration is not captured.
- Operation and time of Console records: they differ on purpose between the two paths, and only types and values are compared.
- `Operation` and `IsTypeIn` of Console events, and the flattening of Sysdig vulnerability events: easy members.
- GitHub.SyncRepositoryAssets: says nothing of a call that never returns, because a listing announces next pages for ever and no check finds the context cancelled; `limit` bounds the turns of the loops of a call that does return.
- GitHub.SyncRepositoryWorkflowRuns: says nothing of a call that never returns, for the same reason.
- GitHub.SyncRepository: says nothing of a call that never returns, for the same reason.
- GitHub.SyncRepositoryPage: says nothing of a call that never returns, for the same reason.
- Bitbucket.SyncWorkspaceAssets: says nothing of a call that never returns, for the same reason.
- Bitbucket.SyncRepositoryPipelines: says nothing of a call that never returns, for the same reason.
- Bitbucket.SyncRepository: says nothing of a call that never returns, for the same reason.
- Bitbucket.SyncRepositoryPage: says nothing of a call that never returns, for the same reason.
- Bitbucket.SyncRepositoriesForWorkspace: says nothing of a call that never returns, for the same reason.
- Bitbucket.SyncWorkspacePage: says nothing of a call that never returns, for the same reason.
- GitLab.SyncAccessTokens: says nothing of a call that never returns, because the totals reported grow for ever; these loops do not check the context.
- GitLab.SyncGroupPage: says nothing of a call that never returns, because the totals reported grow for ever; these loops do not check the context.
- GitLab.SyncAccessTokenResources: says nothing of a call that never returns, because the totals reported grow for ever; these loops do not check the context.
- Sysdig.QueryAllPages: says nothing of a call that never returns, because every query reports rows and nothing is cancelled; the choice of data types around it is not modelled.
- The bodies of nested loops are methods of their own, and a send in these loops is a record in their output; what a send meets on the channel is in `PipelineProtocol`.
- Languages.ComputeLanguagePercentages: exact arithmetic instead of binary floating point.
- DevOpsSync.CancelledAtMostOnce: the effect of the cancellation on the running synchronisation is not modelled.
