# Verified model of the co-worker service's protocols, parsers and buffers

The service runs an AI co-worker: it reacts to audit events, keeps credentials for external systems, chunks documents
into memory, compacts that memory with a model, and runs jobs on workers. Its hard logic is a set of crash-tolerant
protocols and small hand-written algorithms. This project models fourteen of them in Dafny and proves what they are
for. `dafny verify dfyconfig.toml` checks everything.

| file | what it models |
|---|---|
| `Text.dfy` | trimming, splitting, joining and searching of JavaScript strings |
| `YamlSubset.dfy`, `YamlParser.dfy` | the indentation-driven YAML subset parser: as functions on the remaining lines, and as the source's loops over an index |
| `YamlScalars.dfy`, `YamlShape.dfy` | what a scalar, a comment and a key are, character by character; which lines are rejected and which trees come out |
| `YamlRoundTrip.dfy`, `YamlTrees.dfy` | a printer for the documents of the subset, and the round trips |
| `YamlAccounting.dfy` | which line of a document plays which role |
| `Lifecycle.dfy`, `LifecycleRuns.dfy` | replacing and disconnecting a connection, with every external call fallible |
| `LifecycleGuards.dfy`, `LifecycleStages.dfy` | who may do so, and how far a call comes and what it reports |
| `LifecycleOverlap.dfy`, `OverlapServing.dfy`, `OverlapAlone.dfy` | the same calls overlapping, step by step, each acting on what it captured: which authorities are lost, and when the one in use dies; alone, a call does in steps what it does in one go |
| `SecretBoundary.dfy`, `BoundarySteps.dfy`, `ScopedRegion.dfy`, `ScopedMarkers.dfy` | call-scoped authorizations behind a promise lock, and the marked config region they rewrite |
| `Reactive.dfy`, `ReactiveProgress.dfy` | tailing an append-only ledger: watermark, retries, dead letters, crashes, and that the ledger drains |
| `ReactiveFilter.dfy`, `ReactiveRetries.dfy` | which rows are reacted to, and what one attempt does to its row |
| `ReactiveBatches.dfy`, `ReactiveBatchRuns.dfy` | several rows in flight and reads that disagree, for one pass and over runs |
| `SingleFlightLoop.dfy` | the polling loop |
| `SchemaSearch.dfy`, `SchemaPaths.dfy` | the search of a cyclic `$ref` schema graph |
| `Chunker.dfy`, `WordRuns.dfy`, `ChunkerLayout.dfy`, `ChunkerLines.dfy` | the document chunker: its bounds and words, how blocks are laid out in chunks, how lines become sections |
| `GraphWalk.dfy`, `GraphDistances.dfy` | the depth-capped graph walk |
| `Consolidation.dfy`, `ConsolidationRows.dfy`, `ConsolidationRuns.dfy` | memory compaction: what it does to each row, and its runs while other writers are active |
| `BurstBuffer.dfy`, `BurstTimes.dfy`, `BurstBufferObject.dfy` | the per-space burst buffer with its quiet timers |
| `ReplayGuard.dfy`, `UploadLimiter.dfy` | the webhook replay guard and the upload rate limiter |
| `CappedBackoff.dfy` | the capped exponential backoff that event delivery and the job loop share |
| `JobLoop.dfy`, `JobGates.dfy`, `JobDrain.dfy` | claiming, running, requeuing and ending worker jobs, when each may be claimed, and that every job ends |

Objects whose methods update fields are classes here, and loops are loops. Each such method is proved against a
function of the old state, and the theorems are about that function and about runs of it. A failing external call (vault,
broker, store, file, proxy, clock, model) is an input. Fields called history record what happened; nothing reads them.

## Results worth knowing

Where a promise does not hold of the code, the code is kept and a lemma gives the exact condition or a concrete run:

- A double-quoted sequence item is read back exactly when it holds no `": "`: the key test looks before the quotes do
  (`YamlTrees.QuotedItemReadBack`).
- A replacement leaves an authority that nothing references exactly when its provisioning took effect and then failed,
  or when its begin fails and the revocation after it does too; the call reports a failure (`Lifecycle.StrayAuthority`).
- A replacement whose prepare fails and whose roll-back fails after the staged authority was revoked asks for a retry.
  When the boundary still prepares the revoked authority, as the 1Password resolver does, a retry that succeeds reports
  success and leaves the connection active with nothing live (`LifecycleRuns.RetryAfterFailedRollBack`). The current
  authority stays live exactly when no call switches to a dead one (`LifecycleRuns.CurrentStaysLive`). When calls
  overlap, one whose prepare failed can also revoke the authority that another has switched to meanwhile
  (`OverlapServing.UndoKillsCurrent`; for every step: `OverlapServing.StepServesExactly`).
- Overlapping calls can lose track of a live authority silently, in two ways: a transition compares the status and not
  the revision (`LifecycleRuns.OverlapStrandsAuthority`), and a roll-back compares the revision, which begin and
  roll-back leave as it was (`LifecycleOverlap.RollBackStrands`). `LifecycleOverlap.StepExact` says of every step of
  every interleaving whether it does: exactly when it takes from the row a live authority other than the one its call
  captured.
- With several rows in flight a later success moves the watermark past an earlier failure, exactly when a row that
  will be left unaccounted comes before one that will be consumed (`ReactiveBatches.BatchDropsExactly`, `BatchDrops`).
  Separate reads per event type can skip a row (`ReactiveBatches.ReadsMustAgree`). A dropped row is never read again, so
  a run drops nothing exactly when no batch of it does that (`ReactiveBatchRuns.GapsDropExactly`, `BatchedRunsExact`).
- A tick that throws leaves the polling loop running with no pass in flight and none scheduled, and a further start
  does nothing (`SingleFlightLoop.StalledExactly`, `StalledStays`). Stopping and starting the loop in mid-pass adds a
  concurrent pass, each time (`SingleFlightLoop.RestartsOverlap`).
- The webhook route records a delivery before it dispatches it. When dispatching fails and the provider sends the
  delivery again, as it is told to, the guard refuses it as a replay and it is never dispatched
  (`ReplayGuard.RetryRefused`; when a refused delivery was really dispatched: `RefusedIsReplay`).
- A secret file outlives its call exactly when its removal failed and the process has not started again since
  (`SecretBoundary.FileLeftExactly`).
- Splicing twice is splicing the second entries alone exactly when the first hold no end marker
  (`ScopedRegion.SpliceTwice`).
- Two overlapping compactions of one pool can move its marker back and count facts again
  (`ConsolidationRuns.OverlapCountsAgain`). A commit is harmless exactly when the marker is still the one that its read
  saw (`ConsolidationRuns.CommitExact`).
- The memories table has no AUTOINCREMENT, so when its newest rows are deleted or forgotten their row ids come again. A
  new fact that gets an id at or below the marker is not seen by the next compaction
  (`ConsolidationRuns.ReusedRowIdSeen`).
- An executor that dies on a job claims it again without end: the attempt limit is looked at only when a run throws
  (`JobLoop.DyingRunsForever`). One that dies between completing a job and posting its outbox row loses the signal for
  good (`JobLoop.OutboxExact`); and a run that returns a state after its job has failed posts a row for it all the same
  (`JobLoop.StrayExactly`).

## Model

| member | source | states |
|---|---|---|
| Text.SplitJoin | src/yaml-subset.ts:27-35 | splitting joined separator-free parts gives the parts back |
| Text.JoinSplit | src/yaml-subset.ts:27-35 | joining a split gives the text back |
| Text.TrimSurrounded | src/yaml-subset.ts:27-35 | trimming takes off exactly the whitespace around a text that has none at its ends |
| YamlSubset.BlockAdvances | src/yaml-subset.ts:64-69 | a block read at its own first line always consumes that line, so parsing makes progress |
| YamlScalars.StripExact | src/yaml-subset.ts:37-47 | a comment starts at the first # that an even number of double quotes comes before and that stands at the start or after a blank or a tab; from there the line is cut, and a line without one is kept |
| YamlScalars.ScalarExact | src/yaml-subset.ts:49-61 | a text in one pair of double quotes means what is between them; one that is empty, or does not start with a quote or bracket and holds no ": ", means itself; every other text is an error, and which one is told by its characters |
| YamlScalars.KeyExact | src/yaml-subset.ts:81-81 | a key is one or more letters, digits, underscores, dots and dashes, by their character codes |
| YamlShape.KeyLineExact | src/yaml-subset.ts:76-82 | a mapping line is rejected, at its number and in this order, for having no key before a colon, for another character in the key and for a key that stands already or is inherited; any other is cut at its first colon |
| YamlShape.ItemLineExact | src/yaml-subset.ts:112-185 | an item line is rejected when empty, or when what its first colon before a blank or the end cuts off is no key; without such a colon it is its scalar |
| YamlShape.ParsedShape | src/yaml-subset.ts:64-205 | whatever text parses, no mapping of the tree has a key twice, a key that is spelled otherwise or an inherited one (the first key of an item is not looked up), and no item is a sequence or an empty mapping |
| YamlShape.LinesExact | src/yaml-subset.ts:27-35 | the lines that are read are exactly those with something other than white space before a comment, each with its own number and the white space before it counted, in order |
| YamlShape.KeysStop | src/yaml-subset.ts:74-77 | the keys of a mapping go on exactly to the next line of another indentation or with a dash and a blank; a bare dash ends them too, except among the further keys of an item |
| YamlShape.ItemsStop | src/yaml-subset.ts:114-117 | the items of a sequence go on exactly to the next line of another indentation or without a dash |
| YamlShape.OneKind | src/yaml-subset.ts:188-205 | no text with a line in it is both a mapping and a sequence: what one entry point accepts the other refuses for its kind, and other errors are the same for both |
| YamlRoundTrip.MappingRoundTrip | src/yaml-subset.ts:188-195 | any text whose significant lines spell a mapping parses to its value, whatever the scalar style, the width of each indentation step, the blank lines and the comments |
| YamlRoundTrip.SequenceRoundTrip | src/yaml-subset.ts:198-205 | the same for a top-level sequence |
| YamlRoundTrip.PrintThenParse | src/yaml-subset.ts:188-195 | printing a well-formed mapping and parsing the text gives its value |
| YamlRoundTrip.PrintThenParseSequence | src/yaml-subset.ts:198-205 | the same for a sequence |
| YamlRoundTrip.ReadValue | src/yaml-subset.ts:83-106 | a printed value is read back from after its key, leaving exactly the lines that follow it |
| YamlRoundTrip.ReadEntries | src/yaml-subset.ts:72-109 | printed keys at one indentation are read back in order, after the keys read before them, up to the first line that is not theirs |
| YamlRoundTrip.ReadItems | src/yaml-subset.ts:112-185 | the same for sequence items, including map items whose further keys sit at indent + 2 |
| YamlRoundTrip.LiteralRead | src/yaml-subset.ts:83-94 | a literal block gives back its body lines, cut to the block's margin |
| YamlTrees.TreeRoundTrip | src/yaml-subset.ts:64-195 | every tree that has a spelling is returned by parsing its printing, with every scalar quoted or with every scalar plain that can be |
| YamlTrees.SequenceTreeRoundTrip | src/yaml-subset.ts:112-205 | the same for sequences of such trees |
| YamlTrees.PlainReadBack | src/yaml-subset.ts:49-109 | "key: text" parses to the text, for every text on one line without blanks at its ends, comment start, ": ", or quote or bracket in front, other than the literal mark |
| YamlTrees.PlainItemReadBack | src/yaml-subset.ts:112-185 | "- text" parses to the text, for every such text that does not end in a colon |
| YamlTrees.QuotedItemReadBack | src/yaml-subset.ts:117-125 | a quoted sequence item is read back if and only if it holds no ": " |
| YamlTrees.QuotedItemRejected | src/yaml-subset.ts:117-125 | with one it is rejected as an unsupported key, at its own line number |
| YamlAccounting.DocumentAccounted | src/yaml-subset.ts:64-205 | every tokenized line of a document that parses is used exactly once, as key, item or literal body, in order, and those roles spell exactly the returned tree |
| YamlAccounting.ReadBlock | src/yaml-subset.ts:64-69 | the same for one block and the lines it leaves |
| YamlAccounting.ReadKeys | src/yaml-subset.ts:72-109 | the same for the keys at one indentation |
| YamlAccounting.ReadItems | src/yaml-subset.ts:112-185 | the same for the items at one indentation |
| YamlParser.StripCommentLoop | src/yaml-subset.ts:37-47 | the character loop stops at the first comment outside double quotes |
| YamlParser.TokenizeLoop | src/yaml-subset.ts:27-35 | the line loop keeps the lines with something on them besides a comment, with their indentation and number |
| YamlParser.ParseBlockAt | src/yaml-subset.ts:64-69 | the index-based block parser computes the specification on the lines from its index on |
| YamlParser.ParseMappingAt | src/yaml-subset.ts:72-109 | so does the key loop, also over the keys that continue a sequence item |
| YamlParser.ParseValueAt | src/yaml-subset.ts:83-106 | so does the reading of a value; the source repeats this code three times |
| YamlParser.ReadLiteral | src/yaml-subset.ts:83-94 | the literal-block loop takes exactly the deeper lines and cuts them to the margin |
| YamlParser.ParseSequenceAt | src/yaml-subset.ts:112-185 | the item loop computes the specification |
| YamlParser.ParseDocumentText | src/yaml-subset.ts:188-195 | the whole parser computes the specification, errors included |
| YamlParser.ParseSequenceText | src/yaml-subset.ts:198-205 | the same for the sequence entry point |
| Lifecycle.NoStrayAuthority | src/extensions/lifecycle.ts:306-545 | over any run of replaces and disconnects with failures anywhere, lost answers of provisioning and revocation included, every unrevoked authority is current, pending or retiring; while active only the current one is live; once disconnected none is. The exception is exact: a provisioning that took effect and failed, or a rejected begin whose revocation failed, and the call reported it |
| Lifecycle.RunKeeps | src/extensions/lifecycle.ts:306-545 | the invariant behind it from any good state, with authorities added to the stray ones if and only if one of those two things happens |
| Lifecycle.ReplaceKeeps | src/extensions/lifecycle.ts:341-473 | one replace keeps the invariant and leaves at most the authority it provisioned unreferenced, exactly in those two cases |
| Lifecycle.DisconnectKeeps | src/extensions/lifecycle.ts:475-545 | one disconnect leaves none |
| Lifecycle.StrayAuthority | src/extensions/lifecycle.ts:370-426 | the new authority is left live and unreferenced if and only if its provisioning took effect and then failed, or begin fails and its revocation does too |
| LifecycleGuards.ReplaceChecks | src/extensions/lifecycle.ts:341-385 | a replace by someone else than a personal connection's owner, at another revision, or of an organization's connection without approval, changes nothing; which answer it gives, in the source's order; and so for each state a replacement cannot start from |
| LifecycleGuards.DisconnectChecks | src/extensions/lifecycle.ts:475-510 | the same for disconnect |
| LifecycleGuards.ChangesAuthorized | src/extensions/lifecycle.ts:341-545 | over any run, a call that changes the row or an authority was made by the owner or on an organization's connection with approval, at the row's revision |
| LifecycleStages.ReplaceGoes | src/extensions/lifecycle.ts:341-473 | a replace that passes the checks makes its external calls, audits included, in the source's order from the status it finds, reports the first that fails, and leaves the row at the status it had come to; when none fails it is done and the row active |
| LifecycleStages.DisconnectGoes | src/extensions/lifecycle.ts:475-545 | the same for disconnect |
| LifecycleStages.TransitionExact | src/store/db.ts:1605-1621 | the compare-and-swap moves the row exactly from the expected status, clears the retiring authority only when asked to, and changes nothing else |
| LifecycleGuards.ReplaceDone | src/extensions/lifecycle.ts:341-473 | a replace that reports success leaves the row active with nothing pending or retiring, on a new authority, on the pending one or on its own depending on the status it found, at the revision that goes with it, and exactly the replaced authority revoked |
| LifecycleGuards.DisconnectDone | src/extensions/lifecycle.ts:475-545 | a disconnect that reports success leaves the row disconnected and exactly its authority revoked |
| LifecycleGuards.CallsSucceed | src/extensions/lifecycle.ts:341-545 | an authorized call on an active connection whose external calls all succeed reports success |
| LifecycleRuns.StatusMoves | src/extensions/lifecycle.ts:341-545 | statuses follow each other only along the replace and disconnect automata, and a begun disconnect never returns to active |
| LifecycleRuns.RevisionCounts | src/store/db.ts:1518-1621 | the revision counts the commits and begun disconnects of the status trail |
| LifecycleRuns.RetryReplace | src/extensions/lifecycle.ts:341-473 | from every intermediate status of a replacement one retry whose external calls succeed ends it: active on the new authority, the old one revoked; the new one is live if and only if it still was before the retry |
| LifecycleRuns.RetryAfterFailedRollBack | src/extensions/lifecycle.ts:430-455 | the failing run: prepare fails, the staged authority is revoked, the roll-back fails; the retry reports success and nothing the connection stands for is live |
| LifecycleRuns.RetryDisconnect | src/extensions/lifecycle.ts:475-545 | from every disconnecting status one such retry reaches disconnected with nothing live |
| LifecycleRuns.CurrentStaysLive | src/extensions/lifecycle.ts:306-545 | over any run the current authority is live in every state up to a disconnect if and only if no call switches to a staged authority that is dead |
| LifecycleRuns.CallServesExactly | src/extensions/lifecycle.ts:341-545 | the same for one call, whatever fails in it |
| LifecycleRuns.StagedDiesExactly | src/extensions/lifecycle.ts:430-455 | a replace leaves a dead staged authority on the row if and only if prepare fails, the revocation takes effect and the roll-back does not follow |
| LifecycleRuns.LadderExact | src/extensions/credentials.ts:50-80 | along any run the ladder hands out the row exactly while it is active and in scope |
| LifecycleGuards.LadderChoice | src/extensions/credentials.ts:50-80 | which connection is handed out, and when the caller is asked, for every scope asked for and any two rows |
| LifecycleRuns.NotHandedOutBetween | src/extensions/credentials.ts:50-80 | after a begin the ladder hands the connection out only once a roll-back or the last transition of that replacement has ended it; after the begin of a disconnect, never again |
| LifecycleRuns.FinishKeepsExactly | src/extensions/lifecycle.ts:306-339 | the last transition of a replacement keeps every authority referenced if and only if the retiring one the row names is revoked |
| LifecycleRuns.OverlapStrandsAuthority | src/extensions/lifecycle.ts:306-339 | three overlapping calls after which a live authority is referenced by nothing, unreported |
| LifecycleOverlap.StepExact | src/extensions/lifecycle.ts:306-545 | in any interleaving of calls, each acting on what it captured, a step leaves some unrevoked authority unreferenced and unrecorded if and only if a roll-back or a final transition takes from the row a live authority that is not the captured one |
| LifecycleOverlap.ActExact | src/store/db.ts:1518-1621 | the same for one step of one call on any row, and what it loses was the row's |
| LifecycleOverlap.RunExact | src/extensions/lifecycle.ts:306-545 | in every state of a run every unrevoked authority is with the row or a call in flight, or recorded as left behind, if and only if the run has no such step |
| LifecycleOverlap.OverlapSafe | src/extensions/lifecycle.ts:306-545 | so from a fresh connection, however calls overlap, fail and die |
| LifecycleOverlap.RollBackStrands | src/extensions/lifecycle.ts:430-460 | a run in which a late roll-back at an unchanged revision drops the authority of a newer replacement, live and unrecorded |
| OverlapServing.StepServesExactly | src/extensions/lifecycle.ts:306-545 | in any interleaving a step leaves the authority in use dead before a disconnect revokes it if and only if a call whose prepare failed revokes what is current by now, or a commit switches to a pending authority that is dead |
| OverlapServing.OverlapServes | src/extensions/lifecycle.ts:306-545 | from a fresh connection, however calls overlap, fail and die, it is live in every state up to a disconnect if and only if no step is one of these |
| OverlapServing.UndoKillsCurrent | src/extensions/lifecycle.ts:430-455 | a run of two overlapping replacements that ends active with nothing live, although no authority was ever lost track of |
| OverlapAlone.ReplacesAlone | src/extensions/lifecycle.ts:341-473 | the steps of a replace that nothing interrupts come to the world of the replace in one go, whatever but an audit fails |
| OverlapAlone.DisconnectsAlone | src/extensions/lifecycle.ts:475-545 | the same for disconnect |
| Lifecycle.Connection.ReplaceConnection | src/extensions/lifecycle.ts:341-473 | the step-by-step replace, audits included, reaches exactly the specified world and outcome |
| Lifecycle.Connection.DisconnectConnection | src/extensions/lifecycle.ts:475-545 | the same for disconnect |
| Lifecycle.Connection.FinishReplacementCleanup | src/extensions/lifecycle.ts:306-339 | the same for the shared cleanup |
| Lifecycle.Connection.MoveStatus | src/store/db.ts:1605-1621 | the compare-and-swap moves the row if and only if its status is the expected one, and writes exactly the specified row |
| Reactive.NothingDropped | src/events/reactive.ts:254-337 | one row in flight: in every reachable state, crashes included, each matching row up to the watermark was reacted to, filtered out or dead-lettered, and the consumed rows are exactly those, once each, in id order |
| ReactiveFilter.MeantReacted | src/events/reactive.ts:254-337 | in every reachable state each row up to the watermark with one of the behavior's events, and with a space its filter accepts or no filter set, was reacted to or dead-lettered |
| ReactiveFilter.OthersUnseen | src/events/reactive.ts:274-281 | a row of another event, one with no space under a filter, or with a space the filter rejects is never reacted to and never dead-lettered, in any run |
| ReactiveRetries.RejectionWaits | src/events/reactive.ts:295-323 | a failed attempt below the limit leaves the row unconsumed, and no attempt reacts to it before the backoff of that attempt, doubling and capped, has passed |
| ReactiveRetries.LastRejection | src/events/reactive.ts:295-312 | the failed attempt that reaches the limit dead-letters the row and consumes it |
| ReactiveRetries.ReactionConsumes | src/events/reactive.ts:288-294 | an attempt that succeeds consumes its row and forgets its gate |
| ReactiveRetries.DeathForgets | src/events/reactive.ts:254-323 | a crash in an attempt consumes nothing and forgets every gate, so that every row is tried again at once |
| ReactiveRetries.SmoothPass | src/events/reactive.ts:254-323 | a pass in which every reaction resolves, every write is stored and nothing is kept back consumes every row of the behavior's events and reacts to every new one that is meant |
| ReactiveRetries.LedgerExact | src/events/reactive.ts:254-267 | over any run the ledger holds exactly what was appended, in order |
| Reactive.RunKeeps | src/events/reactive.ts:254-337 | the same invariant from any state, over appends, passes and crashes; watermarks never decrease |
| Reactive.TailKeeps | src/events/reactive.ts:268-323 | one pass keeps it, whatever fails |
| Reactive.ConsumeOneKeeps | src/events/reactive.ts:279-323 | a row is consumed only when accounted for, and what accounts for earlier rows stays |
| Reactive.AppendKeeps | src/events/reactive.ts:254-267 | appending a newer row drops nothing |
| Reactive.TailingCore.ConsumeRow | src/events/reactive.ts:279-323 | reacting to one row updates storage and gates exactly as specified |
| Reactive.TailingCore.Reject | src/events/reactive.ts:288-312 | a failed attempt ends in a dead letter or in one more counted attempt behind a backoff |
| Reactive.TailingCore.TailPass | src/events/reactive.ts:254-337 | the loop over the snapshot is the specified pass |
| Reactive.TailingCore.StoreConsumed | src/events/reactive.ts:136-146 | delivery key and watermark move together, and the watermark is a maximum |
| ReactiveProgress.RunGated | src/events/reactive.ts:254-337 | in every reachable state, crashes and storage failures included, only the first pending row has a gate, with fewer attempts than are allowed and no more than its reactions |
| ReactiveProgress.PassProgress | src/events/reactive.ts:279-323 | a calm pass never leaves more rows pending; run after the head's backoff it leaves fewer, or the same rows and one attempt less for the head |
| ReactiveProgress.Drains | src/events/reactive.ts:279-323 | from every reachable state, once appends, crashes and storage failures stop, a bounded number of such passes consumes every row |
| ReactiveProgress.EveryRowEnds | src/events/reactive.ts:279-323 | and there always are such passes, whatever the reactions come to in each of them |
| ReactiveProgress.ReactionsBounded | src/events/reactive.ts:279-323 | since its last crash a run reacts to no row more often than maxAttempts allows; without crashes the bound is absolute |
| ReactiveProgress.OneStep | src/events/reactive.ts:279-323 | whatever becomes of the attempt at the head, the gate bookkeeping holds after it and only the head was reacted to, at most once |
| ReactiveBatches.ReadsMustAgree | src/events/reactive.ts:260-267 | from any state in which nothing was dropped, and whatever fails, a pass over what separate reads returned drops nothing if and only if every matching row they missed, up to the last row the pass consumes, is accounted for already |
| ReactiveBatches.TailExact | src/events/reactive.ts:325-334 | a pass consumes and accounts for exactly its leading rows and changes nothing that accounts for others |
| ReactiveBatches.BatchDropsExactly | src/events/reactive.ts:325-334 | from any state in which nothing was dropped, a batch of pending rows drops nothing if and only if no row that will be left unaccounted comes before one that will be consumed, told from the gates and the attempts before the call; with one row in flight there is none |
| ReactiveBatches.BatchExact | src/events/reactive.ts:254-334 | the same for a batch of any rows read, however the reads disagreed: it drops nothing if and only if it consumes no row past one it leaves unaccounted, in the batch or missed by the reads |
| ReactiveBatchRuns.TailDropsExactly | src/events/reactive.ts:314-337 | the same for a pass that goes on batch by batch until a row is not consumed |
| ReactiveBatchRuns.BatchedRunsExact | src/events/reactive.ts:254-337 | over appends, crashes and passes with any number of rows in flight and any reads, nothing is dropped if and only if no batch so far passes over a row; what was dropped stays dropped |
| ReactiveBatchRuns.GapsDropExactly | src/events/reactive.ts:254-337 | when reads agree, nothing is dropped in any state of a run if and only if no batch had a gap; with one row in flight none has |
| ReactiveBatchRuns.OneInFlight | src/events/reactive.ts:314-323 | with one row in flight the batches are the strictly ordered pass |
| ReactiveBatchRuns.OneInFlightSteps | src/events/reactive.ts:314-323 | so are its steps, when the reads return the whole ledger |
| ReactiveBatches.BatchEach | src/events/reactive.ts:325-334 | each row of a batch fares as it would alone on the state the batch started from |
| ReactiveBatches.AttemptExact | src/events/reactive.ts:279-323 | when one attempt consumes its row and when it leaves it unaccounted, told before the call; other rows are untouched |
| ReactiveBatches.BatchDrops | src/events/reactive.ts:325-334 | a run of two rows in flight in which the first, rejected, is never read again |
| SingleFlightLoop.PassesBounded | src/events/single-flight-loop.ts:38-63 | at most one pass is in flight, plus one for each restart in mid-pass; without restarts none is scheduled beside it; a stopped loop has none scheduled |
| SingleFlightLoop.StalledExactly | src/events/single-flight-loop.ts:38-63 | a running loop has neither a pass in flight nor one scheduled if and only if the tick of its last pass threw while running and it was not stopped since |
| SingleFlightLoop.StalledStays | src/events/single-flight-loop.ts:52-56 | nothing but a stop changes that; starting it again does nothing |
| SingleFlightLoop.FirstTickThrows | src/events/single-flight-loop.ts:38-56 | the shortest such run: the first tick throws, and starting the loop again does nothing |
| SingleFlightLoop.RestartsOverlap | src/events/single-flight-loop.ts:52-63 | that bound is reached for every number of restarts |
| SingleFlightLoop.PollingLoop.StartLoop | src/events/single-flight-loop.ts:52-56 | start runs a pass unless the loop is running |
| SingleFlightLoop.PollingLoop.StopLoop | src/events/single-flight-loop.ts:57-63 | stop clears the timer and leaves a pass in flight alone |
| SingleFlightLoop.PollingLoop.EndPass | src/events/single-flight-loop.ts:38-50 | a pass whose tick resolves schedules the next one only while running and with none scheduled |
| SingleFlightLoop.PollingLoop.FailPass | src/events/single-flight-loop.ts:38-50 | a pass whose tick throws schedules nothing |
| SingleFlightLoop.PollingLoop.FireTimer | src/events/single-flight-loop.ts:44-47 | the timer clears itself and starts one pass |
| ScopedRegion.SpliceKeepsOutside | src/extensions/boundary.ts:457-468 | every character outside the marked region is kept and the region is exactly the new body |
| ScopedRegion.SpliceTwice | src/extensions/boundary.ts:457-468 | splicing twice equals splicing the second entries alone if and only if the first hold no end marker |
| ScopedRegion.MarkersAfter | src/extensions/boundary.ts:457-468 | where the two markers are after a splice, for any entries |
| ScopedRegion.JoinHasNone | src/extensions/boundary.ts:421-455 | entries joined by newlines hold a marker only if one of them does |
| ScopedRegion.FindExact | src/extensions/boundary.ts:457-468 | a marker is found at the first place where the text spells it, character by character, and nowhere if there is none |
| ScopedMarkers.MarkersApply | src/extensions/boundary.ts:353-354 | the two marker texts of the source meet the splice lemmas' premises |
| SecretBoundary.OverlappingCallsSafe | src/extensions/boundary.ts:512-652 | under any interleaving of calls and restarts, failing removals included: once initialized the secret files are exactly those of the active calls and of calls whose removal failed; each active call is activated and not finished; before that no call is active; a finished call has a file if and only if its removal failed; at most one call is inside the lock |
| SecretBoundary.FileLeftExactly | src/extensions/boundary.ts:512-652 | over any run a finished call has a secret file if and only if the removal of its own secret failed and the process was not started again since |
| SecretBoundary.ActivateExact | src/extensions/boundary.ts:567-634 | what any activation, initialization included, does to files and active calls |
| SecretBoundary.InitializeClears | src/extensions/boundary.ts:567-574 | a complete initialization after a start removes every file an earlier process left |
| SecretBoundary.RunKeeps | src/extensions/boundary.ts:512-652 | the invariant behind it, from any good state |
| SecretBoundary.StepKeeps | src/extensions/boundary.ts:512-652 | every step keeps it |
| SecretBoundary.EnterExactly | src/extensions/boundary.ts:512-522 | the promise lock is first come, first served and exclusive: a call may enter if and only if it waits at the head |
| SecretBoundary.ApplyLists | src/extensions/boundary.ts:554-565 | a successful apply makes the marked region list exactly the active calls in insertion order and changes nothing else |
| BoundarySteps.ApplyExact | src/extensions/boundary.ts:554-565 | applying succeeds if and only if the config can be written, has its markers in order and is reloaded; between them stand exactly the entries of the active calls, and a config that was written stays so |
| BoundarySteps.InitializeExact | src/extensions/boundary.ts:567-574 | what the first initialization removes, writes and counts, for every failure in it; a second does nothing |
| BoundarySteps.ActivateSteps | src/extensions/boundary.ts:614-634 | an activation succeeds if and only if all its calls do, and what list, files and config are otherwise |
| BoundarySteps.RevokeExact | src/extensions/boundary.ts:576-584 | a revocation takes exactly its call off the list, then its file, then rewrites the config, each only after the one before |
| BoundarySteps.RunsOn | src/extensions/boundary.ts:512-652 | a run goes on with exactly the steps enabled where it has come to |
| BoundarySteps.ActivateInitializes | src/extensions/boundary.ts:614-616 | the first activation initializes and goes no further when that fails |
| SecretBoundary.ActivateKeeps | src/extensions/boundary.ts:614-634 | activation keeps files and active calls equal if and only if the secret of a failed activation could be removed |
| SecretBoundary.RevokeKeeps | src/extensions/boundary.ts:576-584 | so does revocation, if and only if the removal succeeds |
| SecretBoundary.SecretFileBoundary.ApplyConfig | src/extensions/boundary.ts:554-565 | the in-place apply is the specified one |
| SecretBoundary.SecretFileBoundary.InitializeScoped | src/extensions/boundary.ts:567-574 | initialization clears the directory once, and only a complete one counts |
| SecretBoundary.SecretFileBoundary.ActivateCall | src/extensions/boundary.ts:614-634 | the locked activation, with its roll-back, is the specified one |
| SecretBoundary.SecretFileBoundary.RevokeCall | src/extensions/boundary.ts:576-584 | the locked revocation is the specified one |
| SchemaSearch.SearchExact | src/memory/mem0.ts:248-268 | the search with its shared visited set and early exit answers true if and only if a schema whose properties hold the field is reachable through $ref, or through allOf, anyOf and oneOf where there is no string $ref; it terminates on cyclic documents |
| SchemaPaths.SearchByPaths | src/memory/mem0.ts:248-268 | the same with schemas, fields and references told by the members of the document along a path |
| SchemaPaths.UnescapeDecodes | src/memory/mem0.ts:242-242 | ~1 stands for a slash and ~0 for a tilde, wherever they stand; nothing else changes |
| SchemaPaths.OnlyLocal | src/memory/mem0.ts:238-239 | a reference that does not start with #/ leads nowhere |
| SchemaSearch.FoundReaches | src/memory/mem0.ts:248-268 | a true answer comes with the chain of schemas that leads there |
| SchemaSearch.MissedClosed | src/memory/mem0.ts:248-268 | a false answer leaves the visited set closed under the edges and free of the field |
| SchemaSearch.UnescapeEscape | src/memory/mem0.ts:238-246 | pointer unescaping undoes the escaping of section 4 of RFC 6901 |
| SchemaSearch.PointerResolves | src/memory/mem0.ts:238-246 | the pointer spelled from a path of keys resolves to that path, or to nothing where the document has none |
| SchemaSearch.ResolveLoop | src/memory/mem0.ts:238-246 | the segment loop computes the resolution |
| SchemaSearch.Visited.AdvertisesField | src/memory/mem0.ts:248-268 | the recursion that mutates the set computes the specified answer and set |
| SchemaSearch.Visited.SomeAdvertises | src/memory/mem0.ts:260-267 | so does the loop over the alternatives |
| Chunker.ChunkTextExact | src/kb/ingest.ts:123-163 | every chunk has 1 to maxChars characters; the sections carry in order exactly the words of the text; and per section the bodies carry in order exactly the words of its blocks, only words longer than the body limit cut |
| ChunkerLayout.ChunksCarry | src/kb/ingest.ts:123-163 | the chunks are, in order, one run for each section: each chunk of a headed section with blocks starts with the heading, cut to half of what maxChars leaves beside the break, and the break; with that off, the chunks carry exactly the words of the section's blocks, or of its heading where there are none, chopped at what is left of maxChars |
| ChunkerLayout.BodiesPacked | src/kb/ingest.ts:137-159 | blocks are packed greedily and in order: each body is its blocks joined by the break, a block too long for one body is split alone, and no body could have taken the next block |
| ChunkerLines.TextSectionsRead | src/kb/ingest.ts:71-103 | the sections are those that reading the lines from the last to the first gives: a heading opens one, blank lines end paragraphs, lines of a paragraph are joined by blanks |
| ChunkerLines.HeadingExact | src/kb/ingest.ts:94-97 | a heading is one to six # signs, white space, and something after it |
| ChunkerLines.NewlinesAt | src/kb/ingest.ts:88-88 | each line break, of one or two characters, becomes one line feed and nothing else changes |
| ChunkerLines.CollapseAt | src/kb/ingest.ts:89-89 | each run of blanks and tabs becomes one blank |
| ChunkerLines.TakeExact | src/kb/ingest.ts:105-117 | a part ends before the last white space that fits, or at the limit if there is none past the start |
| Chunker.BodyLimit | src/kb/ingest.ts:133-136 | with maxChars of 16 or more at least 7 characters are left for the body |
| Chunker.SplitWords | src/kb/ingest.ts:105-117 | splitting a block keeps its words, cutting only those longer than the limit |
| Chunker.SplitBounds | src/kb/ingest.ts:105-117 | every part has 1 to limit characters |
| Chunker.BodyWords | src/kb/ingest.ts:137-159 | packing blocks into bodies keeps the words in order |
| Chunker.BodyBounds | src/kb/ingest.ts:137-159 | every body has 1 to limit characters |
| Chunker.SectionWords | src/kb/ingest.ts:71-103 | sectioning loses no word and moves none |
| Chunker.TextWords | src/kb/ingest.ts:71-103 | the same from the raw text, through line-ending and blank normalization |
| WordRuns.ChopKeeps | src/kb/ingest.ts:105-117 | a cut word is its pieces joined, and a word that fits is not cut |
| Chunker.SplitBlockLoop | src/kb/ingest.ts:105-117 | the loop over the remaining text computes the split |
| Chunker.TextSectionsLoop | src/kb/ingest.ts:71-103 | the line loop with its two flushes computes the sections |
| Chunker.SectionLoop | src/kb/ingest.ts:127-160 | the body loop of one section computes its bodies |
| Chunker.ChunkTextLoop | src/kb/ingest.ts:123-163 | the whole loop computes the chunks and rejects a limit below 16 |
| GraphWalk.NeighborsExact | src/graph/view.ts:562-655 | the walk fails exactly for a depth outside 1..8 or more reached nodes than allowed; otherwise it reports exactly the nodes within the cap, each at its shortest undirected distance over edges that pass the relation filter |
| GraphDistances.NeighborsByWalks | src/graph/view.ts:562-655 | the same told by walks: sequences of nodes, each next to the one before over an edge in either direction that passes the filter |
| GraphWalk.WalkExact | src/graph/view.ts:620-632 | a node is reported at a depth if and only if that is its shortest-path distance and within the cap |
| GraphWalk.RowsAreLeast | src/graph/view.ts:620-631 | the rows are the least solution of the recursive query |
| GraphWalk.RowIffPath | src/graph/view.ts:620-631 | a row is made for a node and a depth if and only if a path of that many edges leads there within the cap |
| GraphWalk.ReportedOnce | src/graph/view.ts:632-632 | every node within the cap is reported once, and no other |
| GraphWalk.WalkGrows | src/graph/view.ts:620-632 | raising the cap keeps every reported node at its depth |
| GraphWalk.RowsBounded | src/graph/view.ts:620-631 | even on cycles the recursion makes at most one row for each node and depth |
| ConsolidationRuns.CountedExactlyOnce | src/memory/consolidation.ts:146-304 | whatever is inserted or forgotten while model calls are out, and however compactions overlap, as long as each commit is timely no fact is counted by two compactions, and a fact still there has been counted exactly when its pool's marker has reached it |
| ConsolidationRuns.CommitExact | src/memory/consolidation.ts:181-304 | a commit keeps every fact in exactly one window and counted as the marker says if and only if the marker is still the one its read saw; the counts alone survive exactly when the marker is not past the window and nothing in it was counted |
| ConsolidationRuns.AloneIsTimely | src/memory/consolidation.ts:267-304 | a commit is timely when no other compaction of its pool is committed between its read and it |
| ConsolidationRuns.MarkersGrow | src/memory/consolidation.ts:254-261 | while commits are timely markers never decrease |
| ConsolidationRuns.NextExact | src/memory/consolidation.ts:267-304 | every event keeps the window invariant, with any number of compactions of a pool in flight; a commit if and only if it is timely |
| ConsolidationRuns.OnlyThePool | src/memory/consolidation.ts:181-265 | a compaction leaves the rows of other pools as they were, removes exactly the deleted rows and adds only generated ones of its pool |
| ConsolidationRuns.PoolSize | src/memory/consolidation.ts:181-265 | the pool's size changes by the adds minus the deletes that took effect |
| ConsolidationRuns.CountIsEffect | src/memory/consolidation.ts:198-264 | the reported count is the rows that went, came or were rewritten, and no other row changed |
| ConsolidationRuns.DeleteBeatsUpdate | src/memory/consolidation.ts:203-214 | an index both updated and deleted loses its row |
| ConsolidationRows.RowByPlace | src/memory/consolidation.ts:198-230 | the row shown at place k goes if and only if k + 1 is deleted; else it has the text of the last update of k + 1 and what was shown as superseded, or is as it was |
| ConsolidationRows.OtherRowsStay | src/memory/consolidation.ts:198-252 | a row of another pool or one that was not shown stays as it was |
| ConsolidationRows.NewRowsByPlace | src/memory/consolidation.ts:232-252 | the adds become new rows in the order of the actions, and no other row is new |
| ConsolidationRows.ReadSees | src/memory/consolidation.ts:149-178 | a compaction starts from the facts of its pool past the marker that no compaction made, at least as many as asked for; it shows the model every row of the pool, the oldest first |
| ConsolidationRows.ReadsWhenEnough | src/memory/consolidation.ts:267-290 | a compaction can start if and only if there are enough such facts |
| ConsolidationRows.CommitCloses | src/memory/consolidation.ts:254-304 | a commit moves its pool's marker, and no other, to the end of its window |
| ConsolidationRows.AbandonExact | src/memory/consolidation.ts:283-304 | a compaction whose model call fails writes nothing |
| ConsolidationRuns.OverlapCountsAgain | src/memory/consolidation.ts:283-304 | a run of two overlapping compactions whose commits come in the other order: a fact is counted twice, the marker is lower and a counted fact is new again |
| ConsolidationRuns.ReusedRowIdSeen | src/memory/sqlite.ts:32-39 | with row ids that may come again, a new fact is seen by the next compaction at a marker if and only if that is 0 or a row at or past it is left |
| Consolidation.Store.ApplyActions | src/memory/consolidation.ts:181-265 | the in-place application reaches exactly the specified table, marker and count, for any actions and any rows gone meanwhile |
| Consolidation.Store.Collect | src/memory/consolidation.ts:189-196 | of several updates of one index the last wins, deletes are a set, adds keep their order |
| Consolidation.Store.DeleteRows | src/memory/consolidation.ts:203-210 | exactly the named rows still in the pool are deleted and counted |
| Consolidation.Store.UpdateRows | src/memory/consolidation.ts:212-230 | exactly the named, undeleted rows still in the pool are rewritten and counted |
| Consolidation.Store.InsertRows | src/memory/consolidation.ts:232-252 | the adds become generated rows of the pool, after every other row |
| BurstBuffer.NothingLost | src/memory/extraction.ts:121-198 | in every reachable open state, for every space, the flushed bursts followed by the pending turns are the turns added; bursts hold 1 to maxTurns turns; every pending burst has a live timer due within quietMs of its last turn |
| BurstBuffer.StaleTimerHarmless | src/memory/extraction.ts:151-162 | a timer that fires at any later time, even a cleared one, flushes nothing, or the very burst it was set for with nothing of that space flushed in between |
| BurstBuffer.DrainLeavesNothing | src/memory/extraction.ts:186-189 | after the synchronous part of a drain nothing is pending, no timer is live and every added turn is in a flushed burst |
| BurstBuffer.DrainWaits | src/memory/extraction.ts:186-189 | when nothing is in flight after a drain, every flush in flight at the call and every burst it flushed has settled, whatever was added meanwhile |
| BurstBuffer.FireCases | src/memory/extraction.ts:154-159 | a timer's callback flushes its own burst, re-arms it, or does nothing |
| BurstTimes.AddExact | src/memory/extraction.ts:172-184 | an added turn is the last of its space's burst, after the turns still pending; the burst is handed over at maxTurns, and else waits for a timer due quietMs after the turn |
| BurstTimes.AddOthers | src/memory/extraction.ts:164-184 | an add hands over every other space that has been quiet for quietMs and touches none besides |
| BurstTimes.FireExact | src/memory/extraction.ts:151-162 | a timer hands its burst over if it has been quiet for quietMs, waits on for what is left of that, or does nothing when the burst is another or gone |
| BurstTimes.FlushDueExact | src/memory/extraction.ts:164-169 | exactly the quiet spaces are handed over, each as one burst |
| BurstTimes.DrainExact | src/memory/extraction.ts:186-189 | a drain hands over every pending burst as it is |
| BurstTimes.CloseExact | src/memory/extraction.ts:190-196 | closing drops what is pending, hands nothing over and stops its timers |
| BurstBuffer.AddKeeps | src/memory/extraction.ts:172-184 | adding a turn keeps order, sizes and timers |
| BurstBuffer.CloseKeeps | src/memory/extraction.ts:190-196 | closing drops exactly the pending turns and clears every timer |
| BurstBuffer.RunKeeps | src/memory/extraction.ts:121-198 | the invariant over every run of adds, timers, flushes, drains and closes |
| BurstBufferObject.Buffer.Add | src/memory/extraction.ts:172-184 | the in-place add is the specified one |
| BurstBufferObject.Buffer.FlushSpace | src/memory/extraction.ts:143-149 | so is the flush of one space |
| BurstBufferObject.Buffer.ArmTimer | src/memory/extraction.ts:151-162 | so is the re-arming of a timer |
| BurstBufferObject.Buffer.FlushDue | src/memory/extraction.ts:164-169 | the loop flushes exactly the spaces that have been quiet long enough |
| BurstBufferObject.Buffer.OnTimer | src/memory/extraction.ts:154-159 | the timer callback is the specified one |
| BurstBufferObject.Buffer.DrainNow | src/memory/extraction.ts:186-189 | the drain loop flushes every pending space |
| BurstBufferObject.Buffer.CloseNow | src/memory/extraction.ts:190-196 | close is the specified one |
| BurstBufferObject.FlushMore | src/memory/extraction.ts:143-169 | flushing spaces one after the other is flushing them together |
| ReplayGuard.KeyInjective | src/ingest/replay-guard.ts:40-42 | for colon-free providers the guard's key determines provider and delivery id |
| ReplayGuard.DispatchedOnce | src/ingest/webhook-server.ts:248-255 | over any run a delivery passes the guard again, and so is dispatched again, only after its time to live or after MAX_TRACKED others have passed |
| ReplayGuard.RefusedIsReplay | src/ingest/webhook-server.ts:248-345 | a refused delivery repeats one of the same provider and id that passed within the time to live; it was really dispatched in that time, among that pass and the MAX_TRACKED before it, if and only if that pass got past every later step of the route |
| ReplayGuard.RetryRefused | src/ingest/webhook-server.ts:248-345 | the failing case, after any run: dispatching throws and the answer asks for the delivery again; a retry within the time to live is acknowledged as a replay, with nothing dispatched, if and only if the guard still tracks the id, and it does unless MAX_TRACKED others have passed meanwhile |
| ReplayGuard.AgreesWithUnbounded | src/ingest/replay-guard.ts:50-65 | the bounded guard reports no replay the unbounded one would not, and agrees with it on every key recorded with fewer than MAX_TRACKED recordings since |
| ReplayGuard.Answers | src/ingest/replay-guard.ts:50-54 | it answers "replayed" if and only if the key's last recording is not evicted and not expired |
| ReplayGuard.DeliverExact | src/ingest/webhook-server.ts:248-255 | a delivery with no id, or one of white space only, passes and is not recorded; any other passes exactly when the guard does not know its key |
| ReplayGuard.AnswerExact | src/ingest/webhook-server.ts:248-345 | the provider is asked to send a delivery again if and only if it passed and dispatching it failed |
| ReplayGuard.GuardBounded | src/ingest/replay-guard.ts:50-65 | over any run it tracks at most MAX_TRACKED keys, in expiry order |
| ReplayGuard.Record | src/ingest/replay-guard.ts:55-64 | recording a fresh delivery keeps the invariant |
| ReplayGuard.Tracker.CheckReplay | src/ingest/replay-guard.ts:50-65 | the in-place check is the specified one |
| UploadLimiter.WindowsBounded | src/extensions/upload-link.ts:269-280 | however a client spaces its attempts, no half-open window of the configured length holds more accepted attempts than the maximum |
| UploadLimiter.RefusedIffFull | src/extensions/upload-link.ts:269-280 | after any run an attempt is refused exactly when the window ending at it already holds the maximum |
| UploadLimiter.TrackExact | src/extensions/upload-link.ts:269-280 | the same for one attempt from any good state, although the bucket forgets old attempts |
| UploadLimiter.UploadLinkStore.TrackAttempt | src/extensions/upload-link.ts:269-280 | one client's attempt is accounted as specified and no other client's bucket changes |
| CappedBackoff.DelayGrows | src/executor.ts:395 | a later attempt waits at least as long, and never longer than the cap |
| CappedBackoff.DelayExact | src/executor.ts:395 | the k-th delay is the base times k - 1 twos multiplied out, or the cap if that is less |
| JobLoop.RunsBounded | src/executor.ts:372-437 | a job runs at most maxJobAttempts times, plus once for each executor that died holding it or let go of it while it ran; it ends at most once, exactly when its row is terminal |
| JobDrain.LastRunEnds | src/executor.ts:372-437 | with no job in hand, a job that has not ended has a run left; so after its last allowed run it has ended |
| JobDrain.Drains | src/executor.ts:342-437 | whatever happened before, once nothing is enqueued and executors no longer die, as many claims as runs are left end every job |
| JobDrain.EveryJobEnds | src/executor.ts:342-437 | and there always are such claims: however each run ends, no more rounds than runs are left end every job |
| JobDrain.RoundEnds | src/executor.ts:379-437 | how one round leaves its job and the outbox, for each way its run may end; what the sandbox has written stands |
| JobDrain.RoundShrinks | src/executor.ts:372-437 | a claim and what follows it use up a run of that job and touch no other |
| JobDrain.SomeOldest | src/store/db.ts:1167-1188 | past gates and leases there is an oldest claimable job as long as some job has not ended |
| JobLoop.OutboxExact | src/executor.ts:404-429 | a job has its outbox row if and only if it completed, is not just being posted, and no executor died between completing and posting, or the row is a stray one of a failed job |
| JobLoop.StrayExactly | src/executor.ts:404-429 | a run that returns a state posts its row whatever completing the job came to: stray if and only if the job had failed by then |
| JobLoop.DelaysOrdered | src/executor.ts:395-396 | the delays of a job's requeues never decrease and never exceed the cap |
| JobGates.ThrowGates | src/store/db.ts:1190-1207 | after a throw below the limit the job is queued again and claimable exactly from now plus that delay, the power of two multiplied out; one at the limit fails the job |
| JobGates.ClaimLeases | src/store/db.ts:1167-1188 | a claimed job runs with one more attempt, and nobody else claims it before its lease ends |
| JobGates.EnqueuedFree | src/store/db.ts:1149-1165 | a new job is queued and claimable at once |
| JobGates.ClaimsTheFirst | src/store/db.ts:1167-1188 | a claim takes the job that comes first among all that are due |
| JobGates.EndsGate | src/store/db.ts:1209-1244 | a job that has ended is never claimable again |
| JobGates.SweepExact | src/store/db.ts:1246-1263 | the sweep fails a job if and only if it is queued, past its gate and older than its time to live, and changes no other |
| JobGates.DroppedExactly | src/executor.ts:379-437 | a running job is dropped exactly by an executor that dies on it or believes a report that was not written |
| JobLoop.EndedStays | src/store/db.ts:1167-1244 | an ended job is never claimed, completed, failed or requeued again |
| JobLoop.StepKeeps | src/executor.ts:342-437 | every event of the loop keeps the job invariant, late and repeated ones included |
| JobLoop.DyingRunsForever | src/store/db.ts:1167-1188 | a run, for every n, in which a job is claimed n times because its executor dies each time |
| JobLoop.Executor.ClaimNextJob | src/store/db.ts:1167-1188 | the oldest claimable job is claimed; none only if none is claimable |
| JobLoop.Executor.ProcessOutcome | src/executor.ts:379-437 | the rest of processJob reaches exactly the specified state for every outcome, also on a row that is no longer running |
| JobLoop.Executor.SweepUnclaimed | src/store/db.ts:1246-1263 | exactly the queued jobs past their time to live and backoff gate are failed |

## Left out

General:

- Characters are Dafny characters, not UTF-16 code units; lengths and cuts of astral characters differ.
- Network, files, SQLite, vault, broker, proxy and model are inputs that succeed or fail; SQL is modelled by what the statements say on tables as maps and sets.
- Audit rows matter only as calls that may fail (`Lifecycle`); their payloads and the audit rows of the job loop are not modelled.
- OAuth, Slack, Docker, HTTP servers, tool bridges, egress templates, manifests and scripts.

By area:

- YAML: a `__proto__` key and JavaScript's reordering of integer-like keys; mappings are ordered pairs, and the names every object inherits are a parameter. A sequence in a sequence, an empty sequence and an empty mapping as an item have no spelling.
- YAML printing prints scalars without newlines; multi-line scalars are covered by the literal blocks of `YamlRoundTrip`.
- Lifecycle: connection names, identity keys, provider names and the policy decision are reduced to what the branches test. `Lifecycle` and `LifecycleRuns` run one call after the other and to its end; `LifecycleOverlap` interleaves calls and lets them die anywhere, and leaves out the audits and the checks before a call's first step. Every provisioning makes a fresh authority.
- The file steps of `prepareReplacement` and `disconnect` in src/extensions/boundary.ts: whether preparing an authority succeeds is an input, also for a revoked one.
- Secret boundary: rendered entry text, secret resolution, time-outs and caller aborts (a call may end at any point), and the temporary sibling file of an atomic write. A file write that fails writes nothing.
- Reactive: the periodic sweep of a behavior, an event name listed twice, the memory storage (it keeps no dead letters), and the completion order inside a batch.
- Reactive.NothingDropped: one row in flight and one consistent read; the other cases are the if-and-only-if lemmas of `ReactiveBatches` and `ReactiveBatchRuns`.
- Polling loop: what an unhandled rejection does to the process, and that several behaviors share one tick, so that one behavior's failure ends the tick for those after it.
- Schema search: the surrounding capability discovery.
- Chunker: HTML stripping and entity decoding; the model starts at plain text. Characters inside a word are tracked as words, so that words are neither lost nor joined.
- Graph walk: how the edge table is built, and the final filtering of the full projection, whose edge set differs from the walk's. Non-integer depths.
- Consolidation: parsing of the model's answer into actions, and the prompt. Row ids are never reused except in `ConsolidationRuns.ReusedRowIdSeen`. Rows are not edited between a read and its commit, but may be inserted or removed.
- Burst buffer: the flush callback does not re-enter the buffer. A flush that fails makes a drain throw before the others have settled; `BurstBuffer.DrainWaits` is about a drain that returns. Fact parsing and secret filtering.
- Replay guard: the clock does not go backwards. Signature checks and event gating of the route.
- Upload limiter: the clock does not go backwards. Windows are half-open, as the comparison in the source is; token minting and consuming are not modelled.
- Job loop: one executor at a time, with crashes; a lease that expires under a live executor is not modelled. A crash of a sandbox between its own completion and its own outbox row. Delays are exact integers, where the source's powers of two become floating point for very large attempt counts. Outbox payloads.
