# MCPTracer, modelled and proved

MCPTracer sits between an MCP client and its server, forwards their JSON-RPC traffic, and keeps a redacted record of it. This project
models the parts of it whose correctness does not show in any single function, and proves what they promise.

| module | models |
|---|---|
| `Json`, `Sorting`, `Protocol` | JSON values with the text `serde_json` prints, the stable sort, message directions and derived columns |
| `Policy`, `Redact`, `Walks` | redaction policies, what redaction and its checker mean, and the loops that do both |
| `Tracker` | the bounded tracker that decides which responses may keep tool-schema names |
| `Artifact` | export, validation and import of portable documents |
| `Pairing`, `Session` | pairing requests with responses, the session view, its totals and its integrity verdict |
| `Removal`, `Dedup` | leaving repeated calls out of a merge, and what that does to the pairing |
| `Sse` | the Server-Sent Events decoder and the line parser it stands for |
| `Quota` | replaying token debits against a token bucket |
| `Budget`, `Recorder`, `Writer`, `Capture` | the queue budget under concurrency, the bounded queue, the storage writer, and the way from the wire to a valid artifact |
| `Pointers`, `Divergence` | structural comparison by pointer, alignment of two sessions, and their first point of divergence |
| `Mock`, `Eval` | the one-shot mock server and the scorer of expected calls |
| `Schema`, `SchemaMoves`, `SchemaMeaning` | the bounded schema-change analyzer, where it stops, and what its silence says about accepted values |

How to read it. Code that works step by step (decoder, tracker, bucket, writer, pairing pass, recursive walks with an output list) is a
class or a method with the source's loops, proved equal to a function of its input or of its old state; the theorems are about those
functions. The pairing, removal and writer theories speak of classified messages or of an arbitrary tracker and redactor, so they hold
whatever the payloads are; the concrete classification is tied in by the methods and by the last lemmas of each chain.

Where the code does less than its documentation says, or less than one would like, the code is modelled as it is:

- Checker and redactor agree for normalized policies only; `Redact.AgreementIff` gives the exact condition.
- A masked array among a schema's dependencies becomes `[]` under type-preserving redaction, which the checker takes for an empty
  dependency list; `Redact.TypedAcceptedIff` covers it.
- Deduplication does not always commute with pairing; `Dedup.DedupCommutesIff` says exactly when, `Dedup.CancelledRepeat` and
  `Dedup.ReusedId` show the two ways it fails.
- The decoder ignores a bare `data` line and drops leading empty values; `Sse.StandardIff` says exactly when this matters.
- Unordered scoring is greedy and incomplete; `Eval.CompleteIff` says exactly for which lists of expectations.
- `docs/spec/schema-change-explanations.md` leaves schema-valued `additionalProperties` unclassified and promises an explicit limit
  finding; the code takes any two such schemas for equal (`SchemaMeaning.SilentButConstrained`) and adds no marker when the cap is reached
  inside one node (`SchemaMoves.UnmarkedIff` says exactly when, `Schema.ManyRequired` is a case).
- The analyzer does not read `unevaluatedProperties`, which depends on the declared names; `SchemaMeaning.SilentButUnevaluated`.
- Normalizing twice may drop more than once, when ignored array items make others move up; `Divergence.NormalizeIdempotentIff`.
- The number of quota violations may grow with the bucket; `Quota.CountMonotoneIff` says exactly for which debit sizes.
- The export redacts once more what was stored redacted, and may then mask names of a tool list, if its policy hides list requests from
  it; `Redact.SecondRedactionIff`, `Capture.RowsExportIff`.

Modelling choices: objects are maps, printed and walked in key order; a float is the text `serde_json` prints for it, so that 0.0 and -0.0,
equal to `serde_json`, are two values here, in comparisons and call keys too; a stored payload is
the value it parses to, or none; rates, levels, times and percentages are real numbers; numbers that the source keeps in 64 bits are
unbounded except where a wrap, a saturation or a range check is part of the behaviour.

## Model

| member | source | states |
|---|---|---|
| `Json.TextInjective` | crates/mcptracer-storage/src/lib.rs:2013-2044 | two JSON values print the same canonical text exactly when they are the same value, so text can stand for equality |
| `Policy.NormalizeIdempotent` | crates/mcptracer-redact/src/lib.rs:511-516 | key normalization is idempotent |
| `Policy.SensitiveByNormalForm` | crates/mcptracer-redact/src/lib.rs:519-535 | a key is sensitive exactly when its normal form is, under any custom list |
| `Policy.FromCliNormal` | crates/mcptracer-redact/src/lib.rs:70-94 | every policy built from a name and keys has its key list in one normal form: normalized, non-empty, sorted, distinct |
| `Policy.StorageRoundTrip` | crates/mcptracer-redact/src/lib.rs:98-144 | storing a policy name and its keys and reading them back gives the policy, for exactly the policies in normal form |
| `Policy.StoredKeysFixpoint` | crates/mcptracer-redact/src/lib.rs:109-135 | a stored key list that survives reading unchanged names a policy in normal form |
| `Policy.SameKeysIff` | crates/mcptracer-redact/src/lib.rs:157-171 | redactor and checker treat every key alike exactly when each custom key is covered by its normal form |
| `Redact.CleanIffFixpoint` | crates/mcptracer-redact/src/lib.rs:545-650 | under every role of the walk, the checker finds nothing in a tree exactly when plain redaction leaves it unchanged |
| `Redact.RewriteClean` | crates/mcptracer-redact/src/lib.rs:217-374 | the redacted tree has no finding left, in every role, schema positions included |
| `Redact.AgreementIff` | crates/mcptracer-redact/src/lib.rs:541-568 | over all contexts and payloads, checker and redactor are one relation exactly when every custom key is covered |
| `Redact.UncoveredKeyEscapes` | crates/mcptracer-redact/src/lib.rs:561-568 | an uncovered custom key is masked by the redactor and never looked for by the checker: the concrete payload where they part |
| `Redact.CheckerMirrorsRedactor` | crates/mcptracer-redact/src/lib.rs:545-559 | for normalized policies: no finding exactly on fixpoints of redaction, redacted payloads always pass, redaction is idempotent |
| `Redact.TypedAcceptedIff` | crates/mcptracer-redact/src/lib.rs:233-413 | type-preserving redaction passes the checker exactly when every masked value is a string, or an array the mask turns into an empty dependency list |
| `Walks.WalkMessage` | crates/mcptracer-redact/src/lib.rs:217-327 | the redactor's loops over message, result, tool list and tool definition, with their own branches, compute the role-driven rewrite |
| `Walks.CollectMessage` | crates/mcptracer-redact/src/lib.rs:570-650 | the checker's collectors over the same places, with branches of their own, gather the role-driven findings |
| `Walks.RedactWithContext` | crates/mcptracer-redact/src/lib.rs:191-196 | redaction of a whole payload is the rewrite its policy, style and context call for |
| `Walks.UnredactedSensitiveKeys` | crates/mcptracer-redact/src/lib.rs:545-559 | the report is the sorted list, without repetitions, of all keys found |
| `Walks.WalkSchema` | crates/mcptracer-redact/src/lib.rs:422-507 | the schema walk, shared by redactor and checker through its visitor, rewrites and reports as its role says |
| `Redact.SecondRedactionIff` | crates/mcptracer-redact/src/lib.rs:217-374 | redacting again, in whatever context, changes nothing, except when the first redaction took the payload for a tool list, the second does not, and a masked name stands among its schemas or dependencies |
| `Tracker.RedactionContextTracker.Observe` | crates/mcptracer-redact/src/context.rs:34-95 | one observation changes the three fields, and grants a context, as the pure step does |
| `Tracker.GrantedIffAnswers` | crates/mcptracer-redact/src/context.rs:34-95 | a response is granted schema context only if it answers an open list request; while no context is lost, exactly then |
| `Tracker.PendingBounded` | crates/mcptracer-redact/src/context.rs:34-95 | pending requests never exceed their bound on any trace |
| `Tracker.LostIff` | crates/mcptracer-redact/src/context.rs:30-32 | context is lost exactly when some list request could not be kept: id too long, or the bound reached |
| `Artifact.DerivedSurvivesIff` | crates/mcptracer-protocol/src/lib.rs:137-192 | whatever keys are masked: the columns derived from a payload are those of the redacted payload exactly when redaction finds nothing to change in their sources, key by key |
| `Artifact.TrackedAlikeIff` | crates/mcptracer-redact/src/context.rs:34-95 | whatever keys are masked: the tracker makes the same of a payload before and after redaction exactly when no masked key hides its id, its list request or its result |
| `Artifact.Validate` | crates/mcptracer-storage/src/mtrace.rs:249-326 | the validation loop reports the first fault of the document |
| `Artifact.ValidateMessage` | crates/mcptracer-storage/src/mtrace.rs:409-469 | the checks of one message, derived fields included, in their order |
| `Artifact.Export` | crates/mcptracer-storage/src/lib.rs:638-711 | the export builds the redacted document or reports the first reason not to |
| `Artifact.ExportedValidIff` | crates/mcptracer-storage/src/lib.rs:638-711 | whatever is exported from recorded rows, under any policy, validates exactly when the rows fit, increase, the drop count is no negative number, redaction leaves the sources of the columns alone and, if it masks the version, no row exported as a tool list keeps a masked name among its schemas and dependencies |
| `Artifact.StoredExportValid` | crates/mcptracer-storage/src/lib.rs:638-711 | under any policy, every export of rows stored under that policy, in order, validates |
| `Artifact.DefaultKeepsStructure` | crates/mcptracer-redact/src/lib.rs:519-535 | the default policy masks none of the keys the columns and the tracker read |
| `Artifact.DefaultExportValid` | crates/mcptracer-storage/src/lib.rs:638-711 | every default-policy export of recorded, increasing rows with scalar ids validates |
| `Artifact.Import` | crates/mcptracer-storage/src/lib.rs:721-783 | import validates first, then inserts every row or none |
| `Artifact.ReexportIsIdentity` | crates/mcptracer-storage/src/mtrace.rs:372-384 | importing any valid document and exporting it again gives the same canonical content, hence the same digest, and is valid |
| `Pairing.RunMeets` | crates/mcptracer-model/src/lib.rs:167-303 | after any number of messages the pass holds exactly the declared outcome of each started exchange, its pending map exactly the waiting requests |
| `Session.Correlate` | crates/mcptracer-model/src/lib.rs:167-314 | the loop over exchanges and pending map, then the stable sort, compute the declared pass; totals add up |
| `Session.ComputeStats` | crates/mcptracer-model/src/lib.rs:409-445 | every exchange is counted under exactly one of the five totals, tools by name, and the slowest latency is a maximum |
| `Session.OrderKept` | crates/mcptracer-model/src/lib.rs:305-306 | on increasing sequence numbers the sort changes nothing: the view is the declared outcomes in starting order |
| `Session.AnsweredIff` | crates/mcptracer-model/src/lib.rs:180-247 | a request holds a response exactly when it is the last earlier opposite request with that id and nothing for the id lies between |
| `Session.LandsOnce` | crates/mcptracer-model/src/lib.rs:180-247 | every request and response of a known direction lands in exactly one exchange |
| `Session.ValidateSession` | crates/mcptracer-model/src/lib.rs:319-407 | the integrity report lists exactly the issues of the log and of its exchanges |
| `Session.HealthyIff` | crates/mcptracer-model/src/lib.rs:319-407 | a log is healthy exactly when it is non-empty, loss-free, well formed and increasing, every request was settled and every response answers one |
| `Sorting.SortIsStable` | crates/mcptracer-model/src/lib.rs:306-306 | the sort orders by key and keeps the elements of each key in their order, which determines it |
| `Dedup.DeduplicateSourceMessages` | crates/mcptracer-storage/src/lib.rs:1945-1981 | the scan with its seen and pending tables removes exactly the marked messages |
| `Dedup.SameCallIff` | crates/mcptracer-storage/src/lib.rs:1983-2044 | two calls have the same key exactly when method, tool and parameters are equal |
| `Dedup.CallGoesIff` | crates/mcptracer-storage/src/lib.rs:1954-1964 | a call is removed exactly when the same call came before, here or in an earlier source |
| `Dedup.ScanConsistent` | crates/mcptracer-storage/src/lib.rs:1962-1971 | a response is removed exactly when the request last seen for its id was removed |
| `Removal.RemovalIff` | crates/mcptracer-model/src/lib.rs:167-314 | removing consistently marked messages commutes with pairing exactly when no dropped response belonged to a cancelled call and no kept message acts on a request that a removed one had displaced |
| `Dedup.RepeatsIff` | crates/mcptracer-storage/src/lib.rs:1945-1981 | the scan removes exactly the declared repeats: calls made before, and responses to the request last made under their id if that one goes |
| `Dedup.DedupCommutesIff` | crates/mcptracer-storage/src/lib.rs:1945-1981 | removing the declared repeats commutes with correlation exactly when none of them answers a cancelled call and no kept message acts on a request revived by the removal; notifications always stay the same |
| `Dedup.CalmDedupCommutes` | crates/mcptracer-storage/src/lib.rs:1945-1981 | without cancellations and in-flight id reuse, correlating the kept messages is correlating all and leaving out the exchanges of removed requests |
| `Dedup.CancelledRepeat` | crates/mcptracer-storage/src/lib.rs:1965-1971 | four concrete messages, a repeated call cancelled and answered all the same, on which the two views differ |
| `Dedup.ReusedId` | crates/mcptracer-storage/src/lib.rs:1954-1971 | four concrete messages, a repeated call under an id in flight and two answers, on which the two views differ |
| `Sse.SseDecoder.Push` | crates/mcptracer-protocol/src/sse.rs:30-72 | the fragment loop leaves the state and emits the events of feeding the bytes one by one |
| `Sse.SseDecoder.ProcessLine` | crates/mcptracer-protocol/src/sse.rs:90-130 | one complete line dispatches, extends the data, poisons the event, or does nothing |
| `Sse.SseDecoder.Finish` | crates/mcptracer-protocol/src/sse.rs:74-88 | end of stream reports an unfinished event and resets the decoder |
| `Sse.ChunkIndependence` | crates/mcptracer-protocol/src/sse.rs:30-72 | pushing two chunks is pushing their concatenation: same state, same events |
| `Sse.LinesSpell` | crates/mcptracer-protocol/src/sse.rs:34-70 | the line parser splits the stream at its newlines and nowhere else |
| `Sse.StreamMeaning` | crates/mcptracer-protocol/src/sse.rs:30-130 | for every byte stream the events are those of its blocks of lines, too long lines and too much data poisoning their event, and the state is the rest |
| `Sse.EndMeaning` | crates/mcptracer-protocol/src/sse.rs:74-88 | what end of stream reports, read off the unfinished lines |
| `Sse.StandardIff` | crates/mcptracer-protocol/src/sse.rs:90-130 | within the limits a block gives the event of section 9.2.6 of the HTML Living Standard exactly when it has no bare data line and its first data value, if any, is not empty |
| `Quota.TokenBucket.TryConsume` | crates/mcptracer-model/src/quota.rs:99-119 | refill and consumption change tokens and time as the pure step does, and admit exactly when the level covers the amount |
| `Quota.DualTokenBucket.TryConsume` | crates/mcptracer-model/src/quota.rs:137-146 | both buckets are refilled, and both are charged or neither |
| `Quota.SimulateEvents` | crates/mcptracer-model/src/quota.rs:297-364 | violations, the first violation, the verdict and the saturating token total of the replay |
| `Quota.ExtractedChronological` | crates/mcptracer-model/src/quota.rs:268-294 | extracted debits are in time order |
| `Quota.LevelIsLeastSlack` | crates/mcptracer-model/src/quota.rs:99-119 | as long as everything was admitted, the level is the least slack over all starting points |
| `Quota.OkIff` | crates/mcptracer-model/src/quota.rs:297-364 | the replay passes exactly when every window of debits is at most the capacity plus the rate times its duration |
| `Quota.FirstViolationIff` | crates/mcptracer-model/src/quota.rs:309-324 | the first violation is the least debit that ends a window above the arrival curve |
| `Quota.OkMonotone` | crates/mcptracer-model/src/quota.rs:297-364 | a passing replay still passes with a faster or larger bucket |
| `Quota.CountMonotoneIff` | crates/mcptracer-model/src/quota.rs:309-324 | over all traces in time order with debit sizes from a set, and all pairs of buckets the second of which is no slower and no smaller: the number of violations never grows, exactly when at most one size is positive; for buckets that may also drain, exactly when there is at most one size |
| `Quota.EqualDebitsMonotone` | crates/mcptracer-model/src/quota.rs:309-324 | for debits of one size a faster or larger bucket refuses no more of them, at any point of the trace |
| `Quota.ViolationsNotMonotone` | crates/mcptracer-model/src/quota.rs:309-324 | for any two positive sizes, a concrete trace of three debits with more violations in the larger bucket |
| `Quota.DualOkIff` | crates/mcptracer-model/src/quota.rs:124-147 | a run passes both buckets exactly when its tokens and its requests each fit under the arrival curve of their own bucket |
| `Quota.EstimateP429` | crates/mcptracer-model/src/quota.rs:377-386 | the loop computes the fraction of failing sessions |
| `Quota.P429Antitone` | crates/mcptracer-model/src/quota.rs:377-386 | the estimate never grows with rate or capacity, and is a probability |
| `Budget.StepSafe` | crates/mcptracer-proxy/src/session_writer.rs:70-103 | no atomic action wraps the counter, and each keeps counter, live reservations and maximum in step |
| `Budget.RunSafe` | crates/mcptracer-proxy/src/session_writer.rs:70-110 | in every interleaving of reserve loops, failed swaps and drops the counter is the sum of live reservations and within the maximum |
| `Budget.RefusalJustified` | crates/mcptracer-proxy/src/session_writer.rs:84-103 | a refusal is justified: the request exceeds the maximum, or at some moment of the call the live reservations left no room |
| `Budget.GrantFits` | crates/mcptracer-proxy/src/session_writer.rs:84-110 | a grant takes effect in one step in which the bytes fit beside the live reservations |
| `Writer.StorageWriter.HandleRound` | crates/mcptracer-proxy/src/session_writer.rs:215-304 | one turn of the loop: admit, drain, redact in context, write in chunks, with all loss accounting |
| `Writer.StorageWriter.Close` | crates/mcptracer-proxy/src/session_writer.rs:312-337 | the last round, the drop accounting and the verdict |
| `Writer.DrainBuffer` | crates/mcptracer-proxy/src/session_writer.rs:254-271 | the drain loop hands out, in order, exactly the messages the rule lets go |
| `Writer.AllHandedOnce` | crates/mcptracer-proxy/src/session_writer.rs:250-271 | whatever the order of arrival, at the close every admitted message has been handed out exactly once |
| `Writer.Conserved` | crates/mcptracer-proxy/src/session_writer.rs:250-271 | before the close every admitted message is either handed out or waiting, exactly once |
| `Writer.UnforcedInSequence` | crates/mcptracer-proxy/src/session_writer.rs:254-271 | while no round was forced past a gap, the numbers handed out are 0, 1, 2, and so on |
| `Writer.UnpressedInSequence` | crates/mcptracer-proxy/src/session_writer.rs:254-271 | while the buffer is never under pressure, the numbers handed out before the close are exactly 0, 1, 2, and so on |
| `Writer.AlwaysBalanced` | crates/mcptracer-proxy/src/session_writer.rs:254-304 | every message handed out is stored or counted as failed, a loss of context once more; without a failure the store is exactly the redacted trace |
| `Recorder.FrameRecorder.RecordFrame` | crates/mcptracer-proxy/src/session_writer.rs:449-473 | a forwarded frame is queued exactly when it is JSON, finds a slot, and finds bytes beside all messages still waiting or held by the writer; otherwise it is counted, and the byte counter stays the sum of the live reservations |
| `Recorder.EveryFrameAccounted` | crates/mcptracer-proxy/src/session_writer.rs:475-505 | in every interleaving of forwarding, receiving and releasing: queued and dropped are all frames, the writer receives the queued messages in order, and both bounds of the queue hold |
| `Recorder.NoneDroppedIff` | crates/mcptracer-proxy/src/session_writer.rs:449-505 | nothing was dropped exactly when every frame is JSON and came into the queue, in order |
| `Recorder.OkHoldsEveryFrame` | crates/mcptracer-proxy/src/session_writer.rs:250-337 | a capture that ends well has stored every forwarded frame once, ascending, redacted in contexts never lost, however the queue was batched and ordered |
| `Recorder.DropsCoverFrames` | crates/mcptracer-proxy/src/session_writer.rs:312-328 | however a capture ends, the recorded drops are the forwarded frames that are not in the store, and one more if a loss of context was reported |
| `Capture.OkCaptureExports` | crates/mcptracer-storage/src/lib.rs:638-711 | under any policy and in whatever order its messages arrived, a capture that ends well exports exactly if all messages are objects, and then to a valid document with every message once, ascending, its payload redacted in the context its predecessors give it |
| `Capture.OkFramesExport` | crates/mcptracer-storage/src/lib.rs:638-711 | the same from the forwarded frames on, through the bounded queue |
| `Capture.RowsExportIff` | crates/mcptracer-storage/src/lib.rs:577-608 | messages stored in order and without loss of context export under their own policy exactly if all are objects, and then to a valid document that carries each in its place, its payload as stored exactly unless the exporter no longer knows a tool list with a masked name for one; if the policy leaves version, method and id alone, always as stored |
| `Pointers.EscapeRoundTrip` | crates/mcptracer-model/src/diff.rs:729-731 | token escaping can be undone, so it is injective, and leaves no slash |
| `Pointers.PathRoundTrip` | crates/mcptracer-model/src/diff.rs:729-731 | a rendered pointer parses back to its path, as in section 4 of RFC 6901 |
| `Pointers.CompareValues` | crates/mcptracer-model/src/diff.rs:738-795 | the recursive loops push exactly the declared differences |
| `Pointers.PointersSound` | crates/mcptracer-model/src/diff.rs:738-795 | each reported pointer evaluates to the old value in the first tree and to the new one in the second |
| `Pointers.PointersDistinct` | crates/mcptracer-model/src/diff.rs:738-795 | no two reports have the same pointer |
| `Pointers.SilentIff` | crates/mcptracer-model/src/diff.rs:733-795 | nothing is reported exactly when masking one original in two ways gives both trees |
| `Divergence.AlignmentKeys` | crates/mcptracer-model/src/diff.rs:462-484 | the counting loop gives each exchange its base and ordinal |
| `Divergence.KeyTextInjective` | crates/mcptracer-model/src/diff.rs:478-480 | base, number sign and decimal ordinal determine base and ordinal |
| `Divergence.AlignmentDistinct` | crates/mcptracer-model/src/diff.rs:462-484 | alignment keys are pairwise distinct |
| `Divergence.NormalizeIdempotentIff` | crates/mcptracer-model/src/diff.rs:685-727 | normalization leaves no ignored name; normalizing again changes nothing exactly when every kept value, at the place it has moved to, is still one to keep |
| `Divergence.NormalKeeps` | crates/mcptracer-model/src/diff.rs:685-727 | normalization leaves a tree as it is exactly when nothing in it has an ignored name or place |
| `Divergence.IgnoredItemShifts` | crates/mcptracer-model/src/diff.rs:704-711 | the case where a second normalization drops more: the next item took the place of an ignored one |
| `Divergence.TokenTextIgnored` | crates/mcptracer-model/src/diff.rs:660-670 | requests that differ only in the text of the retry token normalize alike |
| `Divergence.CompareExchanges` | crates/mcptracer-model/src/diff.rs:562-637 | the deltas of two aligned exchanges, in their order |
| `Divergence.StepAgreesIff` | crates/mcptracer-model/src/diff.rs:318-413 | a step agrees exactly when its keys are equal and its exchanges differ in nothing but latency |
| `Divergence.ComputePointOfDivergence` | crates/mcptracer-model/src/diff.rs:310-441 | the loop finds the point where the runs part, or establishes that every step agrees and neither run is longer |
| `Divergence.PartOnce` | crates/mcptracer-model/src/diff.rs:310-441 | there is at most one point where two runs part, so it is the first difference |
| `Divergence.NoPointIff` | crates/mcptracer-model/src/diff.rs:310-441 | there is none exactly when the key sequences are equal and the aligned report holds no change but latency |
| `Divergence.DiffSessions` | crates/mcptracer-model/src/diff.rs:250-307 | changed, added and removed exchanges and the point of divergence of two logs |
| `Divergence.SessionsAgreeIff` | crates/mcptracer-model/src/diff.rs:250-307 | of any two logs: no point of divergence exactly when they align in order and differ in latency at most |
| `Mock.MockSession.MatchRequest` | crates/mcptracer-model/src/serve.rs:169-215 | the chosen exchange is marked used and its response returned; otherwise nothing changes |
| `Mock.FromMessages` | crates/mcptracer-model/src/serve.rs:96-162 | the inventory of the answered client requests, or the first error |
| `Mock.SameCallIff` | crates/mcptracer-model/src/serve.rs:218-246 | canonical parameter text matches exactly when tool and parameters are equal |
| `Mock.UnansweredIff` | crates/mcptracer-model/src/serve.rs:169-215 | a request goes unanswered exactly when it has no method or nothing unused matches |
| `Mock.NeverTwice` | crates/mcptracer-model/src/serve.rs:169-215 | over any run of requests no recorded exchange is served twice |
| `Mock.SelfReplay` | crates/mcptracer-model/src/serve.rs:169-215 | under each of the five strategies an inventory fed its own requests returns its own responses in order |
| `Mock.LogSelfReplay` | crates/mcptracer-model/src/serve.rs:96-162 | for the inventory of any log: each of its requests is answered with the payload the log holds for the response that answered it there |
| `Eval.Evaluate` | crates/mcptracer-model/src/eval.rs:93-170 | the nested loops over expectations and calls satisfy exactly what the greedy choice finds; accuracy is the fraction of checks that hold |
| `Eval.EvaluateLog` | crates/mcptracer-model/src/eval.rs:73-91 | the calls of a log, scored, with the accuracy |
| `Eval.PerfectIff` | crates/mcptracer-model/src/eval.rs:152-168 | accuracy is 1.0 exactly when every expectation found its call and no forbidden tool was called |
| `Eval.PositionsDistinct` | crates/mcptracer-model/src/eval.rs:98-150 | no call satisfies two expectations, in either mode |
| `Eval.OrderedIff` | crates/mcptracer-model/src/eval.rs:98-150 | in ordered mode every expectation is satisfied exactly when a strictly increasing embedding into the calls exists |
| `Eval.CompleteIff` | crates/mcptracer-model/src/eval.rs:98-150 | for any list of expectations: on every log unordered mode satisfies them all exactly when they can be given calls of their own, if and only if any two of them are nested, the earlier in the later, or apart |
| `Eval.UnorderedIff` | crates/mcptracer-model/src/eval.rs:98-150 | the same for one log: with expectations pairwise nested or apart, every expectation is satisfied exactly when they can be given calls of their own |
| `Eval.CrossingStarves` | crates/mcptracer-model/src/eval.rs:98-150 | two expectations that cross: a log on which one starves that could have a call of its own |
| `Eval.PairIff` | crates/mcptracer-model/src/eval.rs:98-150 | two expectations are scored completely on every log exactly when they are nested or apart |
| `Eval.NestedIff` | crates/mcptracer-model/src/eval.rs:101-121 | nesting, read off the tools and required arguments of the specification |
| `Schema.AnalyzeSchemaNode` | crates/mcptracer-model/src/diff.rs:1049-1416 | the bounded recursive walk with its three guards computes the declared bounded state |
| `Schema.ExplainToolSchemaChanges` | crates/mcptracer-model/src/diff.rs:943-1044 | catalog gate, tools in name order, stop at the first limit, status |
| `Schema.NodeExtends` | crates/mcptracer-model/src/diff.rs:1049-1416 | untruncated, a node adds the unbounded walk; truncated, a prefix of it and at most one limit marker; never above the cap |
| `Schema.AnalysisRefines` | crates/mcptracer-model/src/diff.rs:958-1025 | the same for a whole analysis over all tools |
| `Schema.CapLeavesNoMarkerIff` | crates/mcptracer-model/src/diff.rs:1591-1669 | a pair that differs in no property is truncated exactly when its explanations exceed the cap, and then without a limit finding |
| `Schema.ManyRequired` | crates/mcptracer-model/src/diff.rs:1166-1183 | such a pair: 101 properties newly required |
| `SchemaMoves.AllMade` | crates/mcptracer-model/src/diff.rs:958-1025 | the bounded analysis makes the visits and says the explanations of the unbounded one in their order, up to the first for which there is no room |
| `SchemaMoves.StopsIff` | crates/mcptracer-model/src/diff.rs:1049-1090 | an analysis is truncated exactly when a visit or an explanation of the unbounded walk finds no room; it keeps what was said before the first such move, and adds a limit finding exactly if the list was not full |
| `SchemaMoves.UnmarkedIff` | crates/mcptracer-model/src/diff.rs:1591-1669 | any analysis is truncated without a limit finding exactly when 100 explanations were said before the first move that found no room |
| `Schema.SilentPair` | crates/mcptracer-model/src/diff.rs:958-1043 | a complete analysis without an explanation for a schema means the unbounded walk found nothing |
| `SchemaMeaning.SilentSame` | crates/mcptracer-model/src/diff.rs:1049-1416 | silence about two schemas that are open and ask for no evaluated properties, or name the same properties under the same rule for others, means they accept the same values, whatever the unread keywords mean as long as they read no more of the read ones than that |
| `SchemaMeaning.CompleteSilenceSame` | crates/mcptracer-model/src/diff.rs:943-1044 | so a complete and silent analysis of a tool schema means both versions accept exactly the same values |
| `SchemaMeaning.OpenIsFair` | crates/mcptracer-model/src/diff.rs:1225-1275 | schemas open everywhere, by additional and by unevaluated properties, satisfy that condition |
| `SchemaMeaning.SilentButClosed` | crates/mcptracer-model/src/diff.rs:1332-1383 | a closed object that declares one more unconstrained property accepts more, in silence |
| `SchemaMeaning.SilentButConstrained` | crates/mcptracer-model/src/diff.rs:1227-1245 | two different schemas for undeclared properties count as equal, in silence, whatever they accept |
| `SchemaMeaning.StringsThenNulls` | crates/mcptracer-model/src/diff.rs:1227-1245 | such a pair: strings before, nulls after |
| `SchemaMeaning.SilentButUnevaluated` | crates/mcptracer-model/src/diff.rs:1332-1383 | an object that leaves no property unevaluated accepts more once it declares one more, in silence |

## Left out

- SQLite, migrations, file permissions, gzip and atomic file writing: a table is a sequence of rows, a transaction that succeeds or not.
- Mutation through `&mut Value` and shared references: the recursive walks return the rewritten tree or the longer list.
- SHA-256: the digest is a function of the canonical content, whose equality is proved.
- `serde_json` parsing: a payload is the value it parses to; printing is modelled and proved injective.
- tokio pumps, process spawning, signals, command-line parsing and report rendering: no logic beyond the modelled calls.
- `record_http`, `replay`, `vcr`, `graph`, `otel`, `plan`, `manifest`, `semantic`, `optimize`, `cache` and memory extraction: mappings with easy members.
- The sensitive-content lint: string heuristics without an invariant.
- Clocks and sequence counters: timestamps and numbers come with the messages; only their distinctness is used.
- Quota.SimulateEvents: burst factor, peak demand and token-source summaries are not computed; they summarize the modelled list of debits.
- Quota presets, baselines, assertions: tables of constants and one-branch rules.
- Session merging beyond deduplication: re-sequencing of the kept messages.
- Divergence.DiffSessions: the error rates and the notification and tool sections of the report are not computed.
- Schema.ExplainToolSchemaChanges: the two catalogs are inputs, not rebuilt from pages, and the explanations are in the order of the walk, before the final sort.
- Human-readable details, summaries and reasons: kind, key, index and pointer are kept.
- Carriage return as a line end of its own and the byte order mark in event streams: the decoder knows neither, so the comparison with the standard is per block of lines.
- Session.ComputeStats: latency percentiles are not computed, and tool counts are a map, without the order in which the report lists them.
- Sequence-number saturation in the writer: numbers are unbounded, so the last of 2^64 frames is not special.
- Budget memory orderings: actions are interleaved atomically, which is what a single atomic word gives.
- SchemaMeaning.SilentSame: one direction only, because what closed objects accept also depends on keywords the analyzer does not read; and one meaning serves both versions, so a reference is taken to resolve alike in both, as one into an unread keyword does.
- Json.TextInjective: 0.0 and -0.0 are told apart, because a float is modelled as its text.
- Recorder.FrameRecorder.RecordFrame: frames that are never forwarded, too long ones among them, stop their pump and are not part of the model; neither is a writer that dies before the close.
