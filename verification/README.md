# Verified models of lebro's protocols and mappings

lebro is an agent framework in Go. This project models the parts of it whose correctness is a
property of whole runs or of all inputs, and proves those properties in Dafny 4.11. It verifies
with `dafny verify dfyconfig.toml`.

| part | files | what is proved |
|---|---|---|
| Task records shared by several instances (`mcp/tasks.go`) | `TaskProtocol`, `TaskSafety`, `TaskTheorems`, `TaskProgress`, `TaskOutage`, `TaskService` | safety of every interleaving of claim, lease renewal, finish and cancel over a store with optimistic versions, when each call succeeds, and how it fails with the store |
| Delivery deduplication (`channels/`) | `LengthPrefix`, `MemoryDedup`, `StoreDedup`, `ChannelHandler`, `ChannelRoutes` | at most one run per message, and exactly when there is one; bounded memory; unambiguous keys and routes |
| Server-sent event streams (`httpapi/`) | `SseFormat`, `SseEvents`, `SseReader`, `SseRoundTrip`, `SseRewrap`, `SseServer` | what a client may conclude from every truncation of every stream a server writes; when everything arrives |
| Trace export and feedback (`obsv/observer.go`) | `Observer`, `ObserverFates`, `TraceIndex` | what becomes of every span in every schedule; when the trace index keeps its two halves in step |
| Anthropic streaming (`anthropic/adapter.go`) | `AnthropicStream`, `AnthropicEquivalence`, `AnthropicFrames`, `AnthropicOverlap`, `AnthropicOrder`, `AnthropicAgreement`, `AnthropicContents`, `AnthropicMeaning` | open blocks do not disturb each other; what a stream folds to, and when that is the message that not streaming gives |
| Evaluation runs (`evals/`) | `Experiment`, `ExperimentCounts`, `ExperimentPool`, `DeltaOrder`, `Comparison` | schedule independence, conservation of counts, antisymmetry of comparisons |
| Schema locations (`jsonschema/compiler.go`) | `JsonPointer` | RFC 6901 escaping, and exactly when tokens survive the trip through a URL fragment |
| Decision answers (`decisions/openai.go`) | `OpenAiAnswers` | when an answer array is accepted, and that its order does not matter |

`Wrappers` and `Rearranged` hold the option type and the facts about repetitions and rearranged
sequences.

## How the code is modelled

Concurrent code is a deterministic `Step` over moves, and a run is any sequence of moves; a move
that is not enabled changes nothing, so a statement about all sequences is a statement about all
interleavings. The store, the clock, the context, the network and the hooks take part as moves or
as fields of moves: a store call can fail, can land and still report failure, or can lose a version
race, and time can pass between any two steps of a call. The methods of `TaskService.Deployment`
and `ChannelHandler.Channel` are the source's retry loops; each is proved to be such a run, with
arbitrary moves of other instances between its own, so the theorems apply to it.

Objects that the source updates in place are classes whose methods are proved against functions on
values. Byte strings are strings with one char per byte. Times are natural numbers, zero being
Go's zero time. Scores and probabilities are reals. JSON encoding, hashing, targets, scorers,
redaction and adapters are function parameters, with the few facts assumed of them spelled out in
named predicates (`SseFormat.JsonLike`, `StoreDedup.CollisionFree`).

## Exact conditions

These hold only under a condition. Each is proved to hold if and only if the condition does, except
where the text below says less, and the inputs on which it fails are given or are exactly those
outside the condition.

- The trace index keeps a list and a map that are meant to hold the same occurrences. They do if
  and only if no call ever evicted an occurrence of the very run it was recording
  (`TraceIndex.IndexHistory`); the map then exceeds the list by exactly the number of such calls
  (`TraceIndex.MapOutgrowsList`). `TraceIndex.SameRunDisagrees` gives the failing inputs for every limit,
  on which the map grows without bound, so the comment that both are bounded by the limit
  (obsv/observer.go:128-129) does not hold.
- A stream of overlapping blocks folds to the finished message under conditions on the order of its
  events: text arrives block after block, calls and details stop in block order. The condition on
  text is exact for an order of events: the text agrees for every choice of contents if and only if
  it holds and no block of an unknown kind carries text (`AnthropicContents.OrderDecides`). For one stream, each condition is necessary where its
  contents tell blocks apart (`AnthropicAgreement.OverlapAgrees`);
  `AnthropicAgreement.OverlapScrambles` gives two overlapping text blocks that fold to "ba" for "ab".
- Blocks of kinds the adapter does not know are skipped by both mappings, but the stream still passes
  on text or thinking inside one. The text agrees only if there is none
  (`AnthropicAgreement.TextAgrees`), with one block open at a time exactly then
  (`AnthropicEquivalence.SequentialAgrees`); `AnthropicEquivalence.StrayTextStreams` gives the
  failing input.
- A caller that was told "seen" leaves a message that nobody runs if and only if the marker was there
  before, another thread has its name, or the create that brought it lost its reply
  (`StoreDedup.RunByOrigin`). `StoreDedup.LostReplyDrops` gives one delivery that is dropped this
  way, against the comment that exactly one caller observes "not seen" (channels/dedup.go:86-88).
- A client reads a whole stream back if and only if no frame up to the terminal one reaches the
  client's line bound, which the server does not have (`SseRoundTrip.RoundTrip`,
  `SseRoundTrip.BoundIsExact`).
- Schema location tokens come back from a fragment if and only if none contains a percent sign
  (`JsonPointer.RoundTrip`, `JsonPointer.PercentLost`).
- A scorer's scored and failed cases add up to the cases whose target succeeded if and only if no
  target error has an empty message (`ExperimentCounts.Conservation`, `ExperimentCounts.MuteUncounted`).
- With one block open at a time the stream folds to the whole message if and only if moreover no
  thinking block is both empty and unsigned (`AnthropicEquivalence.DetailsAgree`,
  `AnthropicEquivalence.EmptyThinkingLost`).
- Spans ended, and spans filtered, dropped and exported, agree if and only if the observer has a
  destination or nothing was sampled (`ObserverFates.NothingLost`, `Observer.NowhereToGo`).

Where code and comment differ the model follows the code. The comment on `Config.Dispatch`
(channels/server.go:33-41) says a message is recorded before it is dispatched; the code records it
when the job runs (channels/handler.go:61-64, 116-133). Two claims of one record are a lease apart
measured by the clock readings their deadlines were computed from; the writes themselves can land
later than that.

Constructors, and methods that only carry out one step of a specification function (such as
`AnthropicStream.Stream.OnDelta`, `SseReader.FlushFrame` or `TraceIndex.TraceMemory.RememberTrace`), are
proved against it and not listed below.

## Model

| member | source | states |
|---|---|---|
| TaskSafety.StepKeeps | mcp/tasks.go:389-675 | every single step of every call keeps the invariant, never moves the clock back and only ever replaces a record by a descendant of it |
| TaskSafety.NewWin | mcp/tasks.go:405-413 | a claim whose write lands was computed no earlier than every earlier winner's deadline for that record |
| TaskSafety.WriteStore | mcp/tasks.go:91-98 | a versioned write lands only on the copy it was computed from, and then leaves a well-formed record |
| TaskTheorems.ExecKeeps | mcp/tasks.go:389-675 | the invariant and the descent of every stored record hold over every run |
| TaskTheorems.RecordHistory | mcp/tasks.go:546-594 | between any two instants of any run a record keeps its origin, leaves working at most once, never changes once terminal, never moves its time stamp back nor, while working, its deadline, and expiry is permanent |
| TaskTheorems.RecordOrigin | mcp/tasks.go:252-276 | every record of every run has the entry, arguments, identity, time to live and poll interval some creation of the run was given, and that creation's time |
| TaskTheorems.DeadlineProtects | mcp/tasks.go:489-522 | whether a claim or a renewal wrote it, the deadline stored at any instant of any run is a lower bound on the clock reading of every claim of that record that wins later |
| TaskTheorems.ClaimsSpaced | mcp/tasks.go:405-413 | any two won claims of one record are at least one lease apart, however many renewals lie between |
| TaskTheorems.WinnersSpaced | mcp/tasks.go:389-419 | the same for any two calls that returned true |
| TaskTheorems.AcknowledgedIsTerminal | mcp/tasks.go:636-675 | a cancel is acknowledged only for a record that is terminal, and only if the record had not expired when the call began |
| TaskTheorems.FinishOutcome | mcp/tasks.go:546-594 | a returned finish, by its reply: with at most two foreign writes, one that blames no store call leaves the record terminal; otherwise it is reported, exactly once when a hook is configured; a persisted finish left the record ended as the run ended |
| TaskTheorems.OneClaimWins | mcp/tasks.go:284-419 | at any instant of any run, of any number of new contenders for a working record whose deadline is past or was never set exactly one claim returns true and all others false despite the cap of three attempts, with calls on all other records going on freely |
| TaskProgress.ClaimSucceeds | mcp/tasks.go:389-419 | a won claim read the clock after it began and holds a lease for one lease from then at least; without store failures a claim wins or loses, loses only to a record that is over or leased or after three foreign writes, and loses a working record with a past deadline only to somebody else's write |
| TaskProgress.FinishSucceeds | mcp/tasks.go:546-594 | if no store call of a finish fails but by a version conflict, on a record that existed: it never blames the store, leaves the record terminal after at most two foreign writes, and else leaves it terminal or reports the conflict, once with a hook |
| TaskProgress.CancelSucceeds | mcp/tasks.go:636-675 | if moreover it is authorized and its hook does not fail, a cancel with at most two foreign writes is acknowledged unless the record's time to live is over |
| TaskProgress.RenewalSucceeds | mcp/tasks.go:489-522 | a renewed lease lasts one lease from the beginning of the call at least; a renewal none of whose store calls fails, with at most two foreign writes, renews the lease or finds the record terminal |
| TaskProgress.BarredCancel | mcp/tasks.go:636-675 | a cancel that is never authorized is never acknowledged and writes nothing |
| TaskProgress.FailingHookRefuses | mcp/tasks.go:667-671 | a cancel of a working record that nobody else writes is not acknowledged if its hook fails |
| TaskOutage.UnreadableStore | mcp/tasks.go:389-675 | a call that can read nothing writes and reports nothing: a claim fails, or gives up with its context, a renewal is unreachable, a finish returns, a cancel is refused |
| TaskOutage.UnwritableStore | mcp/tasks.go:389-675 | a call whose writes fail tries once and never wins, renews or persists; a claim fails or loses to a taken record, a finish is reported once with a hook or finds the record terminal |
| TaskService.ReplyKinds | mcp/tasks.go:389-675 | every reply is one its call can give and is true of the record |
| TaskService.ForeignMoves | mcp/tasks.go:389-675 | other instances cannot touch the local state of a call |
| TaskService.Deployment.Claim | mcp/tasks.go:389-419 | the retry loop is a run of the protocol with any interference and returns true exactly when it won, with a lease of one lease from its beginning at least; without store failures a working record with a past deadline is lost only to somebody else's write |
| TaskService.Deployment.ExtendLease | mcp/tasks.go:489-522 | the renewal loop is such a run; renewed means that the stored deadline is one lease from its beginning at least, terminal that the record is, and in an environment without store failures it is unreachable only after three foreign writes |
| TaskService.Deployment.Finish | mcp/tasks.go:546-594 | the completion loop is such a run, with its number of conflict reports; in an environment without store failures the record is terminal after at most two foreign writes, and else terminal or reported |
| TaskService.Deployment.Cancel | mcp/tasks.go:636-675 | the cancel loop is such a run and acknowledges only a terminal record that had not expired; authorized, with a working hook and without store failures, it is acknowledged unless the record expired or was written three times |
| LengthPrefix.LengthPrefixed | channels/dedup.go:182-190 | the loop builds the encoding of the field list |
| LengthPrefix.RoundTrip | channels/dedup.go:182-190 | a reader of lengths and contents gives back any field list |
| LengthPrefix.Injective | channels/dedup.go:182-190 | two field lists have the same encoding only if they are the same list |
| MemoryDedup.Redelivery | channels/dedup.go:66-79 | for every delivery sequence, a key is accepted again only after at least capacity other acceptances, the last of them pairwise distinct |
| MemoryDedup.WindowDistinct | channels/dedup.go:66-79 | the remembered window never holds a key twice |
| MemoryDedup.MemoryDeduplicator.Seen | channels/dedup.go:66-79 | reports a duplicate exactly for the last capacity accepted keys; list and map stay in step and bounded |
| StoreDedup.KeyInjective | channels/server.go:80-82 | a deduplication key determines agent, platform and message |
| StoreDedup.MarkersDistinct | channels/dedup.go:137-140 | under a collision-free hash different messages have different markers, all with the documented prefix |
| StoreDedup.AtMostOneRuns | channels/dedup.go:145-177 | in every interleaving with any store failures no two callers are told "not seen" for one message |
| StoreDedup.ExactlyOneRuns | channels/dedup.go:145-177 | for each message by itself: if no store call for it fails but by uniqueness and nobody else takes its marker, exactly one caller of it runs and every other answered one was told "seen", whatever the store does for other messages |
| StoreDedup.RunByOrigin | channels/dedup.go:145-177 | in every interleaving with any store failures a message is run exactly if its marker came from an answered create; a caller told "seen" leaves it unrun exactly if the marker was there before, is another thread, or came from a create that lost its reply |
| StoreDedup.LostReplyDrops | channels/dedup.go:157-177 | one delivery whose create lands and loses its reply is told "seen" and nobody runs it |
| StoreDedup.UnreadableErrs | channels/dedup.go:145-156 | a caller whose first read is never answered neither runs nor is told "seen" |
| StoreDedup.UnconfirmedErrs | channels/dedup.go:169-177 | nor is a caller whose create failed and whose second read is never answered |
| ChannelHandler.Channel.Seen | channels/dedup.go:145-177 | get, create and the second get are a run of the protocol and return where that run leaves the caller |
| ChannelHandler.Channel.Deliver | channels/handler.go:92-133 | a message without an ID always runs; any other caller that runs is the only one for its message |
| StoreDedup.ExecExclusive | channels/dedup.go:145-177 | exclusion holds in every state of every run |
| ChannelRoutes.PathsUnique | channels/server.go:204-206 | arbitrary agent and platform strings lead to a registered pair's path only if they are that pair |
| ChannelRoutes.Server.ExposeAgent | channels/server.go:133-193 | succeeds exactly under the documented conditions, and then registers every adapter; otherwise registers none and changes nothing |
| ChannelRoutes.Server.Validate | channels/server.go:133-193 | accepts exactly the adapter lists that can all be registered, with their paths |
| ChannelRoutes.Server.Handler | channels/server.go:212-230 | closes registration and serves the routes of that moment |
| ChannelRoutes.Server.Lookup | channels/handler.go:116-133 | a dispatched job's strings find exactly their own registered pair |
| SseReader.Read | httpapi/client_stream.go:176-301 | the line loop gives the events and the outcome of the reader's specification, and always an outcome |
| SseReader.Settles | httpapi/client_stream.go:282-300 | reading any body in any way ends with an outcome |
| SseReader.GoingAway | httpapi/client_stream.go:195-235 | a consumer that leaves after n events got the first n a patient one gets |
| SseRoundTrip.Truncated | httpapi/client_stream.go:237-300 | for every frame list, frames too long for the reader included, and every byte count, the events and the outcome are those computed from the frames alone |
| SseRoundTrip.ExpectedHonest | httpapi/client_stream.go:282-300 | that computation gives a prefix of the deltas, and a terminal event exactly if its whole payload arrived and no frame up to it is too long |
| SseRoundTrip.StreamSafety | httpapi/client_stream.go:176-301 | for every truncation: deltas are a prefix, a terminal outcome comes exactly with its whole payload and after all deltas, a line at the bound is a read error that loses the outcome, anything else is malformed or incomplete |
| SseRoundTrip.RoundTrip | httpapi/stream.go:251-259 | the uncut stream gives back the written events up to the first terminal one if and only if no frame up to it is too long, and otherwise those before that frame and a read error |
| SseRoundTrip.BoundIsExact | httpapi/client_stream.go:237-277 | the outcome of a whole stream is told exactly if there is one and every frame up to it is below the bound |
| SseRewrap.Rewrapped | httpapi/client_stream.go:195-277 | however a payload is spread over data lines, with comments and unknown fields between, the client reads the event of the lines joined by newlines, named after its frame if it has no name |
| SseEvents.TotalIsSum | httpapi/stream.go:109-115 | the running usage is, count by count, the sum over all deltas |
| SseEvents.ProjectedTells | httpapi/stream.go:162-227 | the projected events tell, field by field and in order, of exactly the redacted deltas whose event would hold more than its type |
| SseEvents.EndTold | httpapi/stream.go:117-159 | the terminal event is cancelled, failed or succeeded as the error code or else the status says, with the run's content or its public error and the usage summed over all deltas |
| SseServer.Response.WriteFrame | httpapi/stream.go:251-259 | a frame adds exactly its text unless the connection fails |
| SseServer.Response.WriteEvent | httpapi/stream.go:231-247 | writes the event, or a terminal failure in its place when it cannot be encoded, and false always ends the stream |
| SseServer.Response.HandleAgentStream | httpapi/stream.go:84-159 | deltas first and in order, at most one terminal frame and last, the internal failure only in place of the first event that cannot be encoded; if no write fails everything before that event is written, and if everything encodes exactly the projected deltas and the run's own end; deltas and end tell what SseEvents states of them, usage sums included |
| SseServer.EndToEnd | httpapi/stream.go:84-159 | client and server together, for frames of any length: events tell of the first deltas; a terminal event tells of the run's own end, usage sums included, after every delta, or is the internal failure in place of an event that cannot be encoded; if all was written, fits and arrived, the client has every delta and the run's own end; a read error means a broken connection or a frame too long |
| Observer.NowhereToGo | obsv/observer.go:307-314 | without a destination one kept span is ended but neither filtered, dropped nor exported |
| ObserverFates.Fates | obsv/observer.go:233-302 | at every instant of every run spans are dropped exactly by the calls that met a full queue or a closed observer, one each, and the queue received, in order, what the filter kept for all other calls that got to send |
| ObserverFates.NothingLost | obsv/observer.go:233-314 | once closed and returned, exported batches are exactly the queued spans in order, and the counts add up exactly when there is a destination or nothing was sampled; if no call met a full queue or a closed observer nothing is dropped and the batches hold every span the filter kept, each once |
| Observer.DrainerNeverStuck | obsv/observer.go:268-302 | once the observer is marked closed, some move of the drainer is enabled until it has stopped |
| Observer.DrainerShrinks | obsv/observer.go:423-435 | each such move leaves less to do and no other move adds to it, so Close returns |
| Observer.BatchesInOrder | obsv/observer.go:268-302 | at every instant batches respect the bound, come out in queue order, and the queue respects its capacity |
| Observer.Collect | obsv/observer.go:290-302 | the drain loop takes from the front and stops only at the bound or on an empty channel |
| Observer.ExecKeeps | obsv/observer.go:233-435 | the lock, accounting, order and mode invariants hold in every schedule of emitters, exporter and Close |
| TraceIndex.AgreeStep | obsv/observer.go:505-537 | one call keeps list and map in agreement exactly if it evicts nobody of its own run |
| TraceIndex.IndexHistory | obsv/observer.go:505-537 | over every call sequence the list is bounded, unique and within the map, and both agree if and only if no call hit its own run |
| TraceIndex.LatestKept | obsv/observer.go:505-537 | over every call sequence the list holds the latest recordings, oldest first, as many as the limit allows |
| TraceIndex.Remembered | obsv/observer.go:505-537 | a call's occurrence is in the index afterwards exactly if it names a run and a trace |
| TraceIndex.SameRunDisagrees | obsv/observer.go:505-537 | one run that occurs n times, for every limit and every n above it: the list stays at the limit while the map holds all n |
| TraceIndex.MapOutgrowsList | obsv/observer.go:505-537 | over every call sequence the map holds exactly as many occurrences more than the list as calls hit their own run |
| TraceIndex.MatchesDecide | obsv/observer.go:548-575 | there is an only match exactly if the collected matches have one element |
| TraceIndex.TraceMemory.ResolveFeedbackRef | obsv/observer.go:548-575 | gives a record both identifiers of the only consistent occurrence, and leaves it alone with none or several |
| TraceIndex.Prune | obsv/observer.go:505-537 | the prune loop removes the evicted occurrence and nothing else |
| TraceIndex.Match | obsv/observer.go:548-575 | the match loop collects the consistent occurrences in order |
| AnthropicStream.Stream.Start | anthropic/adapter.go:570-685 | the event loop sends what the assembler's specification sends, then the terminal delta, or the transport error, unless it failed |
| AnthropicStream.TotalAdds | anthropic/adapter.go:467-476 | for every event sequence the total is input + cache write + cache read + output |
| AnthropicEquivalence.MapMessage | anthropic/adapter.go:424-443 | the content loop and reasoningText compute text, reasoning text, details and calls of the finished blocks |
| AnthropicEquivalence.RunStrip | anthropic/adapter.go:582-677 | message-level events anywhere in a stream do not affect what its blocks send |
| AnthropicEquivalence.SequentialAgrees | anthropic/adapter.go:424-685 | a stream with one block of any kind open at a time, at any indexes, fails exactly when some call's pieces are not JSON; otherwise calls and details are those of the finished message, empty unsigned thinking aside, and so is all else if and only if no block of an unknown kind carries text or thinking |
| AnthropicEquivalence.DetailsAgree | anthropic/adapter.go:635-670 | such a stream folds to the whole message if and only if no thinking block is empty and unsigned and no block of an unknown kind carries text or thinking |
| AnthropicEquivalence.EmptyThinkingLost | anthropic/adapter.go:653-663 | one empty unsigned thinking block is a detail of the finished message and not of the stream |
| AnthropicEquivalence.StrayTextStreams | anthropic/adapter.go:587-612 | text in a block of an unknown kind is streamed and missing from the finished message |
| AnthropicEquivalence.HeardSpoken | anthropic/adapter.go:431-442 | what is streamed of a list of blocks is never shorter than the message's text, and is that text if and only if no block of an unknown kind carries any; likewise for reasoning |
| AnthropicEquivalence.TerminalAgrees | anthropic/adapter.go:467-496 | the terminal delta carries, count by count, the last message_start with the output counts of the last message_delta, and the finish reason for its stop reason |
| AnthropicMeaning.MessageSays | anthropic/adapter.go:424-443 | a finished message maps to the texts of its text blocks, the thinking of its thinking blocks, a detail per thinking or redacted block and a call per tool block, all in order and field by field |
| AnthropicMeaning.ArgumentsSay | anthropic/adapter.go:630-643 | a call's arguments are its pieces put together, or the empty object if there is nothing in them |
| AnthropicMeaning.OneEnd | anthropic/adapter.go:570-685 | every stream is content and one last delta, the terminal one exactly if neither the assembler failed nor the transport broke, an error otherwise |
| AnthropicMeaning.MixedFails | anthropic/adapter.go:597-601 | a delta with both text and thinking ends the stream with that error, whatever follows |
| AnthropicFrames.FrameStep | anthropic/adapter.go:573-670 | an event sends, and changes, what the assembler of its own index alone would; nothing held for other indexes changes |
| AnthropicOverlap.IndexAlone | anthropic/adapter.go:573-670 | in any stream that does not fail, the events of each index send what they would send on their own |
| AnthropicOverlap.Independent | anthropic/adapter.go:573-670 | however blocks overlap, the stream fails exactly if some call is not JSON, and otherwise the events of each index send exactly what its blocks send |
| AnthropicOrder.ArrivalFolds | anthropic/adapter.go:600-634 | text and reasoning fold in the order they arrive, in every stream that does not fail |
| AnthropicOrder.StopsOrder | anthropic/adapter.go:635-670 | calls and details are sent in the order of the block stops |
| AnthropicOrder.OverlapFolds | anthropic/adapter.go:570-685 | what a stream of overlapping blocks folds to: arrived text and reasoning, and the calls and details of the blocks in stop order |
| AnthropicAgreement.TextAgrees | anthropic/adapter.go:424-685 | the streamed text, or reasoning text, of overlapping blocks is the finished one if it arrives block after block and no block of an unknown kind carries any; the latter is always necessary, the former where no character occurs twice |
| AnthropicAgreement.OverlapAgrees | anthropic/adapter.go:424-685 | part by part, when that is the finished message: text and reasoning as above, calls and details if their blocks stop in order, and only if, where no call or detail occurs twice |
| AnthropicAgreement.StreamingAgrees | anthropic/adapter.go:424-685 | overlapping blocks in order fold to the finished message if and only if no block of an unknown kind carries text or thinking, and to all of its details if and only if moreover no thinking block is empty and unsigned |
| AnthropicContents.OrderDecides | anthropic/adapter.go:600-634 | for every order of events: the streamed text, or reasoning text, is the finished one for every filling of each block with a character of its own, all lengths kept, if and only if it arrives block after block and no block of an unknown kind carries any |
| AnthropicContents.PaintBraided | anthropic/adapter.go:570-685 | refilling a stream event by event gives a stream of the refilled blocks, with the same indexes and the same valid calls |
| AnthropicAgreement.OverlapScrambles | anthropic/adapter.go:600-634 | two overlapping text blocks, the second speaking first, fold to "ba" while the message says "ab" |
| Experiment.CheckScorers | evals/experiment.go:188-206 | accepts exactly non-empty lists of scorers, none of them nil, with distinct, non-empty names |
| Experiment.EvaluateCase | evals/experiment.go:330-391 | the scorer loop gives the case's result: scores and failures in scorer order, none for a failed target |
| Experiment.Summarize | evals/experiment.go:397-438 | the nested loops give each scorer's tally of the results, whatever names the results carry |
| Experiment.Average | evals/experiment.go:431-436 | means and pass rates are set exactly for scorers that measured something |
| ExperimentCounts.OneEntryEach | evals/experiment.go:349-356 | each scorer leaves exactly one entry on an answered case, a score or a failure |
| ExperimentCounts.ResultSays | evals/experiment.go:330-391 | a result holds its case's identity, the target's output and error, a status, and the judgement of every scorer field by field and in order, or none for a failed target |
| ExperimentCounts.AggregateSays | evals/experiment.go:397-438 | an aggregate counts its scorer's scores, those that passed and its failures; the mean is their sum of values over their number, the pass rate that of the passed ones |
| ExperimentCounts.Conservation | evals/experiment.go:397-438 | Scored + Failures + silent target errors = Cases − TargetFailures per scorer, the plain equation exactly if there are no silent errors, and Passed ≤ Scored |
| ExperimentCounts.MuteUncounted | evals/experiment.go:337-344 | one target error with an empty message breaks the plain equation |
| ExperimentCounts.FailuresConserved | evals/experiment.go:397-438 | the record's scorer failures are the sum of the scorers' own |
| ExperimentPool.StepKeeps | evals/experiment.go:289-316 | every move keeps each handed-out index with exactly one worker or evaluated once, and every slot right or blank |
| ExperimentPool.EverySchedule | evals/experiment.go:289-327 | in every schedule each dispatched case is evaluated exactly once, and uncancelled results are the sequential ones in dataset order |
| ExperimentPool.SameRecord | evals/experiment.go:245-269 | any two uncancelled schedules give the same aggregates and failure counts |
| ExperimentPool.CancelledRun | evals/experiment.go:317-326 | after a cancellation every result still names its case and index, and an undispatched one carries nothing else but the start time |
| ExperimentPool.StampMissing | evals/experiment.go:317-326 | the stamping loop touches exactly the slots with a zero start time |
| ExperimentPool.StepShrinks | evals/experiment.go:289-316 | every effective move other than a cancellation leaves one unit less to do, so every schedule ends |
| ExperimentPool.NeverStuck | evals/experiment.go:289-316 | until the wait is over some such move is enabled |
| DeltaOrder.SortCaseDeltas | evals/compare.go:193-200 | the in-place sort gives the specified arrangement |
| DeltaOrder.SortOrdered | evals/compare.go:193-200 | the arrangement is by case, then scorer, smaller at the first difference |
| DeltaOrder.SortElements | evals/compare.go:193-200 | it is a permutation |
| DeltaOrder.SortStable | evals/compare.go:193-200 | it is stable |
| DeltaOrder.StableUnique | evals/compare.go:193-200 | two ordered arrangements that agree key by key are the same |
| DeltaOrder.AnyStableSort | evals/compare.go:193-200 | so whatever stable sort is used gives the specified arrangement |
| DeltaOrder.IncreasingUnique | evals/compare.go:193-200 | a set of keys has only one increasing arrangement |
| Comparison.CompareCases | evals/compare.go:148-189 | the map-filling and pairing loops give the sorted changes, for all inputs, and for runs that pair up exactly the pairs of scores whose state flipped |
| Comparison.ComparisonReports | evals/compare.go:148-189 | exactly the pairs whose state flipped are reported, each once, in order, with the baseline's and the candidate's value and state, candidate minus baseline, and the candidate's reason |
| Comparison.RunsAreUnique | evals/experiment.go:188-206 | every run under distinctly named scorers and distinct case IDs has unique pairs, so the statements below apply to it |
| Comparison.OrderIrrelevant | evals/compare.go:191-200 | the report does not depend on the order results and scores are stored in |
| Comparison.SwapMirrors | evals/compare.go:148-189 | swapping the runs turns regressions into improvements place by place with negated deltas, and vice versa |
| Comparison.Disjoint | evals/compare.go:148-189 | no pair is both a regression and an improvement |
| Comparison.SelfUnchanged | evals/compare.go:148-189 | a run compared with itself shows nothing |
| JsonPointer.WritePointer | jsonschema/compiler.go:306-316 | the loop writes the escaped, slash-led pointer |
| JsonPointer.ReadTokens | jsonschema/compiler.go:286-298 | the loop reads the fragment's tokens |
| JsonPointer.EscapePasses | jsonschema/compiler.go:306-316 | the two replacements in order are the one-pass escape of RFC 6901, for every string |
| JsonPointer.UnescapePasses | jsonschema/compiler.go:286-298 | the two replacements in order are the one-pass unescape of RFC 6901, for every string |
| JsonPointer.PointerRoundTrip | jsonschema/compiler.go:286-316 | tokens come back from their own pointer |
| JsonPointer.RoundTrip | jsonschema/compiler.go:286-316 | through a URL fragment they come back if and only if none contains a percent sign |
| JsonPointer.PercentLost | jsonschema/compiler.go:286-298 | a token with a percent-encoded byte does not come back |
| OpenAiAnswers.MapDistribution | decisions/openai.go:801-912 | the loop accepts exactly the distributions with one fitting entry per requested outcome and a total near one |
| OpenAiAnswers.AcceptedDistribution | decisions/openai.go:931-937 | an accepted distribution covers exactly the requested outcomes, with values in [0, 1] and a sum within 0.005·n + 1e-9 of one |
| OpenAiAnswers.DistributionExactly | decisions/openai.go:801-912 | a distribution is accepted as a map exactly if its entries report that map, one entry per outcome, and the map covers what was requested |
| OpenAiAnswers.AcceptedAnswer | decisions/openai.go:706-871 | an answer is accepted as a value exactly if that value is what was reported, the probability, option, score, confidence or reason, and fits the question |
| OpenAiAnswers.MapAnswer | decisions/openai.go:706-737 | one answer maps as its kind and question demand, or fails |
| OpenAiAnswers.MapAnswers | decisions/openai.go:677-703 | succeeds exactly if the names are the question IDs, each once, and each answer fits, and then holds each question's own answer |
| OpenAiAnswers.Reordered | decisions/openai.go:677-703 | rearranging the answers changes neither success nor any question's answer |

## Left out

- `internal/runtime` and the root package: agent loop, workflows and scheduler are not part of this model.
- Mutual exclusion of task handlers: a lease has no owner in the code, so nothing is stated about who is running.
- The renewal ticker, HTTP handlers, authentication, TLS and timers: they appear only as moves, or not at all.
- `ensureThread` and the reply loop after deduplication (`channels/handler.go`): effects on external services only.
- Error texts: errors are told apart by kind, and in the decision answers not at all.
- The 64-bit range of token counts and times: both are unbounded here.
- AnthropicStream.Stream.Start: a consumer that leaves early, who gets a prefix of what is sent here, and the structured output and accounting of the terminal delta are not part of this model.
- AnthropicEquivalence.MapMessage: structured output, the encoding of tool calls and the final validation of the response, which can still turn it into an error, are not part of this model.
- AnthropicOrder.OverlapFolds: each index is used by one block, as the API does; a reused index is covered by AnthropicOverlap.Independent and AnthropicEquivalence.SequentialAgrees.
- DeltaOrder.SortCaseDeltas: the library sort is represented by an in-place insertion sort, which AnyStableSort shows to be no choice.
- `compareAggregates` (`evals/compare.go`), repositories and experiment IDs: easy members.
- ExperimentPool.EverySchedule: the target and the scorers answer as functions of the case, so a target whose answer depends on timing is outside the statement.
- Floating-point rounding: sums, means and tolerances are exact reals.
- System One and the other decision providers, schema compilation and dialects: not part of this model.
