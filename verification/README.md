# Models of the research agent service

This project models the parts of the service whose behaviour is a protocol, a state machine or a numeric
loop, and proves what they promise on every input, every run or every reachable state. Each module stands
for one component; objects that the service updates in place are classes whose methods are proved against
functions, and the theorems are about those functions and about runs of them.

- `SseReader` and `SseDelivery`: the incremental reader of server-sent events in the chat page, and what it hands
  over for streams of whole events.
- `Budget` and `TokenBucket`: the sliding-window budget breaker and the per-key rate limiter.
- `AuditChain` and `AuditTransactions`: the hash-chained audit log, its check, and concurrent appends as
  interleaved database statements.
- `Tickets`: single-use tickets over Redis with a fallback in memory.
- `WsLiveness` and `WsBroadcast`: liveness of WebSocket channels under an evicting background task, and the
  fan-out of trace events to all workers over a stream.
- `TraceStore` and `TraceCrashes`: the log of JSON lines with write-once sidecar files, on bytes; what crashes
  and failed flushes leave of it. `TraceContents` says what comes back of each record, and `Utf8` is the encoding
  of its text.
- `AgentLoop`, `AgentRules` and `AgentGate`: the main loop of the agent, its decisions, and the text that its
  grounding gate judges. `Checkpoints`: the numbered slots it writes.
- `ContextFold`: folding of the conversation context under a length bound.
- `Kernels`: the indicator kernels, over exact reals.
- `Grounding` and `Claims`: the evidence ledger and the extraction of claims from text.
- `Text` and `Wrappers`: string operations and optional values that several of them share.

What is outside a component is a parameter: digests and hashes are arbitrary functions, Redis calls, file
operations and database statements may fail at every point, clock readings are arguments, and the model
streams, tools and summarisers of the agent are arbitrary.

## What the proofs found

Some properties that the code or its comments suggest hold only under a condition. Each of these is stated
with the inputs on which it fails; where the condition is one that a caller can check, it is proved exact.

- The event reader gives the same payloads for every way of cutting a stream up exactly when nothing follows
  the end marker but text without a data line (`ChunkIndependentIff`, for texts without a CR directly before a
  CRLF). With such a CR at the end of a data line the place of the cut matters, whatever the payload
  (`CrBeforeCrLfMatters`).
- The budget breaker keeps its bound for all runs over a set of amounts exactly if the limit is not negative and
  either no amount is, or none lies above zero and up to the limit, so that none is let through
  (`BoundHoldsIff`).
- Drawdown is the worst pair of a value and a later one on all curves over a set of values exactly if none of
  them is negative, or at most one is positive (`PairsAgreeIff`).
- The head of the audit chain is not read when no covered row is left, and the user of a row is not hashed
  (`CutTailIsDetectedIff`, `UserIsNotCovered`). The canonical string determines a row that the table can hold
  exactly if no bar stands behind the first character of the action, nor in a column between action and detail;
  bars in the tenant or inside the JSON of the detail do no harm (`ColumnsDeterminedIff`, `JsonHasBarsInside`).
  Equal heads mean equal columns for tables without such bars (`SameHeadSameColumns`).
- Every open connection has a liveness entry all along a run exactly if no eviction ends whose channel came back
  and has gone stale while the old sockets were closing (`AlwaysWatchedIff`, `EntryLostIff`,
  `SlowCloseLosesEntry`).
- The comment at `src/hero_quant/api/ws.py:655-657` says that an entry whose forwarding failed stays pending
  and is delivered again. The consumer only ever asks its group for new entries, so it is not
  (`FailedForwardIsLost`). The fallback read of the stream from its start delivers entries twice
  (`FallbackRepeats`).
- The trace is written as UTF-8 and read back strictly, outside any exception handler. A write that breaks off
  inside a character, and whose rest is lost, makes every record unreadable for good; reading succeeds exactly
  if no break fell inside a character (`ReadableIff`, `TornForever`, `OneByteShort`). An append is safe from
  that wherever it breaks off exactly if its line is ASCII (`TearableIff`, `AsciiIsReadable`).
- A line of the trace that nobody completes costs the next record as well (`TornLineCostsTheNext`). That takes
  a writer that is gone, or a line too long for the file buffer: a living writer keeps the rest of a line whose
  flush failed and completes it at the next flush (`RoundTrip`).
- A spilled content comes back unchanged exactly if it has no carriage return, because sidecars are read in
  text mode (`RestoredMeans`); and when both ways of publishing a sidecar fail, the line that refers to it is
  written all the same (`BackedIff`, `SpilledComesBackIff`).
- After any run, a restart goes on to replace a stored checkpoint exactly if data was written beyond the slot
  named by the pointer (`RunOverwritesIff`): because a pointer write failed, the process stopped before it, or a
  run that could not read the pointer set it back, and no later checkpoint made up for it. Such a run rewrites
  the slots from 1 on (`FailedReadRewrites`). Names that differ in a character that is not allowed share their
  slots (`IllegalCharactersCollide`); clean names never do (`CleanNamesDiffer`).
- The exception of `assert_price` for ledgers that know one symbol only never applies
  (`OnlyFirstWithoutAuthorization`).
- The docstring at `src/hero_quant/api/ws.py:133-134` names the channel after the first 64 characters of the
  user; the code appends a hash to longer names and refuses names beyond 128 (`ChannelsSeparateUsers`).

## Model

| member | source | states |
|---|---|---|
| SseReader.DrainFrames | frontend/src/pages/Chat.tsx:373-388 | cutting frames off the buffer leaves exactly the state of the specification, with payloads, rest and end marker |
| SseReader.OneFrame | frontend/src/pages/Chat.tsx:376-385 | a frame with one data line hands over exactly its payload and leaves the rest of the buffer to the reader |
| SseReader.FetchFallback | frontend/src/pages/Chat.tsx:363-398 | the whole reader over any pieces, with its tail flush, gives the outcome of the specification |
| SseReader.NormSplit | frontend/src/pages/Chat.tsx:372 | replacing CRLF piece by piece equals replacing it in the joined text, up to a CR at the seam |
| SseReader.DrainConsumed | frontend/src/pages/Chat.tsx:373-389 | a reader that stopped did so on a prefix that alone is enough to stop it |
| SseReader.RunIsWhole | frontend/src/pages/Chat.tsx:367-389 | reading pieces agrees with reading the whole text, and a stop happens inside it |
| SseReader.ChunkingIsIrrelevant | frontend/src/pages/Chat.tsx:363-397 | for any two ways to cut a stream up the handler sees the same payloads, provided no CR precedes a CRLF and nothing with data follows the marker |
| SseReader.ChunkIndependentIff | frontend/src/pages/Chat.tsx:363-397 | that condition on what follows the marker is exact: all cuts agree if and only if it holds |
| SseReader.CrBeforeCrLfMatters | frontend/src/pages/Chat.tsx:371-374 | for every one-line payload, a CR before the CRLF that ends its data line makes the payload depend on the place of the cut |
| SseReader.DeliversWhatWasSent | frontend/src/pages/Chat.tsx:363-397 | payloads encoded as frames and cut up anyhow come out as they were sent |
| SseDelivery.EventsArrive | frontend/src/pages/Chat.tsx:363-397 | each complete event with data gives one payload of its data lines, in order, whatever other lines it has and however the stream is cut |
| SseDelivery.LastEventArrives | frontend/src/pages/Chat.tsx:388-397 | a last event that no blank line ends arrives trimmed, even if the decoder still held part of it, and closes the stream if it is the marker |
| SseDelivery.RefusedIsLast | frontend/src/pages/Chat.tsx:367-387 | a payload on which the handler raises is the last one, whatever follows |
| Budget.BudgetBreaker.PruneLocked | src/hero_quant/agent/policies.py:200-208 | the costs in the window are kept in order, older ones go |
| Budget.BudgetBreaker.AddCost | src/hero_quant/agent/policies.py:210-221 | prunes, then books the cost at its own time |
| Budget.BudgetBreaker.ShouldFallback | src/hero_quant/agent/policies.py:228-245 | answers whether the cost alone or with the window exceeds the limit, and books nothing |
| Budget.BudgetBreaker.CheckAndAdd | src/hero_quant/agent/policies.py:247-260 | answers the same question and books the cost in any case |
| Budget.PrunedIsHistory | src/hero_quant/agent/policies.py:200-221 | over every run with a clock that does not go back, the pruned list is the full history cut at the last pruning |
| Budget.AnswersForHistory | src/hero_quant/agent/policies.py:228-260 | every answer is about the true spending of the window that ends now |
| Budget.GrantedStaysWithinLimit | src/hero_quant/agent/policies.py:247-260 | in every window of time, however placed, the costs let through sum to at most the daily limit |
| Budget.NegativeCostBreaksBound | src/hero_quant/agent/policies.py:210-260 | for every negative cost and every cost above zero and up to the limit there is a run over the two that breaks the bound |
| Budget.BoundHoldsIff | src/hero_quant/agent/policies.py:210-260 | over a set of amounts the bound holds for every run exactly if the limit is not negative and no amount is negative, or none lies above zero and up to the limit |
| TokenBucket.Limiter.Call | skills/fastapi-agent-module-skill/references/rate_limiter.py:56-70 | refills the bucket of the key, takes one token if there is one, and leaves other keys alone |
| TokenBucket.LevelStaysInRange | skills/fastapi-agent-module-skill/references/rate_limiter.py:56-65 | after every run each level lies between 0 and the rate |
| TokenBucket.PotentialHolds | skills/fastapi-agent-module-skill/references/rate_limiter.py:56-65 | admissions plus level never exceed what the bucket held plus what has flowed in |
| TokenBucket.AdmissionBound | skills/fastapi-agent-module-skill/references/rate_limiter.py:49-72 | in every interval from s to t a key gets at most rate + (t - s) * rate / per admissions |
| TokenBucket.NothingWasted | skills/fastapi-agent-module-skill/references/rate_limiter.py:56-65 | some interval that ends at the last call of a key is spent in full, so the bound is tight |
| TokenBucket.RefusalIsJustified | skills/fastapi-agent-module-skill/references/rate_limiter.py:64-70 | a refusal happens only when some interval has less than one token to spare under that bound |
| AuditChain.Verify | src/hero_quant/audit/chain.py:282-380 | ok exactly if the scanned rows are linked, nothing was cut off and the head matches; otherwise the first break, its reason and the degraded cases; the count of entries and the last hash that holds |
| AuditChain.ScannedMeans | src/hero_quant/audit/chain.py:322-345 | a limit below one counts as one, above 10000 as 10000, and shows the first rows only |
| AuditChain.AcceptsIff | src/hero_quant/audit/chain.py:152-367 | the unlimited check accepts exactly rows linked back to 64 zeros, each with the digest of its own columns, and a head with id, digest and number of the last |
| AuditChain.TipDeterminesContent | src/hero_quant/audit/chain.py:152-162 | equal last hashes of two chains of one length mean equal canonical contents, or a collision in plain sight |
| AuditChain.SameHeadSameContent | src/hero_quant/audit/chain.py:331-367 | two tables accepted against the same head hold the same sequence of canonical strings |
| AuditChain.TamperingIsDetected | src/hero_quant/audit/chain.py:282-367 | any change to what an accepted table says makes the check fail while a covered row remains |
| AuditChain.CutTailIsDetectedIff | src/hero_quant/audit/chain.py:351-367 | cutting the tail goes unseen exactly when no covered row remains |
| AuditChain.UserIsNotCovered | src/hero_quant/audit/chain.py:152-162 | changing the user of a row leaves an accepted table accepted |
| AuditChain.JsonHasBarsInside | src/hero_quant/audit/chain.py:122-131 | no text of a kind whose quotes pair up and whose bars stand inside of strings, like JSON, is left behind a bar of another one |
| AuditChain.BarsAreAmbiguous | src/hero_quant/audit/chain.py:122-162 | every bar behind the first character of the action, or between action and detail, gives another row that the table can hold with the same canonical string |
| AuditChain.ColumnsDeterminedIff | src/hero_quant/audit/chain.py:122-162 | among the rows of a tenant that the table can hold, the canonical string determines the column texts, null and empty being the same, exactly if there is no such bar |
| AuditChain.SameHeadSameColumns | src/hero_quant/audit/chain.py:122-367 | two tables of a tenant accepted against one head agree in every hashed column if one of them has no such bar, or there is a collision |
| AuditTransactions.OneWriter | src/hero_quant/audit/chain.py:235-241 | at most one append of a tenant is past its locks at a time, first writes included |
| AuditTransactions.StepKeeps | src/hero_quant/audit/chain.py:235-268 | every statement, commit and abort keeps the invariant, and the chain only grows at its end |
| AuditTransactions.RunKeeps | src/hero_quant/audit/chain.py:235-268 | the invariant holds after every interleaving |
| AuditTransactions.EveryRunVerifies | src/hero_quant/audit/chain.py:235-367 | whatever appends race, abort or write first, the unlimited check accepts the committed rows and head |
| AuditTransactions.CommittedIsAppended | src/hero_quant/audit/chain.py:222-268 | over every run the committed chain holds, in the order of the commits, exactly the users and columns with which the committing appends were begun |
| AuditTransactions.AppendCommits | src/hero_quant/audit/chain.py:235-268 | an append that no lock of others stands in the way of is committed after six statements at most, with its own content |
| AuditTransactions.NoDeadlock | src/hero_quant/audit/chain.py:68-79 | no cycle of waiting transactions is reachable, and no chain of waits is longer than three |
| AuditTransactions.SomeoneCanStep | src/hero_quant/audit/chain.py:235-268 | while an append is unfinished some append can go on |
| Tickets.TicketService.Purge | src/hero_quant/api/security.py:60-69 | drops exactly the expired tickets |
| Tickets.TicketService.IssueMemory | src/hero_quant/api/security.py:180-195 | purges, drops the oldest ticket if the store is full, and stores the new one |
| Tickets.TicketService.Issue | src/hero_quant/api/security.py:233-280 | binds user, scope and bounded lifetime; the returned ticket is new and in a store: in Redis at the first or second token, in memory when a call fails or both tokens are taken; nothing is stored when the lifetime is not positive |
| Tickets.TicketService.ConsumeMemory | src/hero_quant/api/security.py:197-225 | takes the ticket out and accepts it exactly if it is live and its scope allows |
| Tickets.TicketService.TakeRedis | src/hero_quant/api/security.py:296-326 | one atomic read-and-delete and its verdict |
| Tickets.TicketService.Consume | src/hero_quant/api/security.py:283-385 | both attempts on Redis and the fallback; accepted exactly if the ticket is alive, of an allowed scope, and in memory or handed over by one of the two calls |
| Tickets.StepKeeps | src/hero_quant/api/security.py:180-385 | every step of every issuer and consumer keeps the invariant |
| Tickets.EveryRunIsSafe | src/hero_quant/api/security.py:180-385 | over every run with arbitrary Redis failures a ticket is in one store at most, is accepted at most once, before its expiry and for the user bound at issue, and memory stays bounded |
| Tickets.GoneStaysGone | src/hero_quant/api/security.py:283-385 | a ticket that has left the stores never comes back and is never accepted again |
| Tickets.WrongScopeBurns | src/hero_quant/api/security.py:139-151 | a consumer with the wrong scope burns the ticket for everybody |
| Tickets.FoundIsAcceptedIff | src/hero_quant/api/security.py:139-151 | a live ticket that is found is accepted exactly if no scope is asked for, or it has none, or one of those asked for |
| Tickets.BindMeans | src/hero_quant/api/security.py:233-256 | user without surrounding blanks, one of three scopes or none, an hour at most |
| Tickets.IssueKeepsOthers | src/hero_quant/api/security.py:180-195 | a ticket that goes to memory leaves all live ones there but the oldest of 10000 |
| Tickets.FindIsIssued | src/hero_quant/api/security.py:283-333 | a lookup finds just the live tickets, as they were issued |
| WsLiveness.HeartbeatMonitor.Record | src/hero_quant/api/ws.py:333-336 | client traffic renews the entry and resets the keepalive budget |
| WsLiveness.HeartbeatMonitor.RecordKeepalive | src/hero_quant/api/ws.py:338-348 | a server pong renews the entry while the budget lasts and reports whether it did |
| WsLiveness.HeartbeatMonitor.Remove | src/hero_quant/api/ws.py:350-354 | both entries of the channel go |
| WsLiveness.HeartbeatMonitor.Expired | src/hero_quant/api/ws.py:364-365 | lists exactly the channels silent for longer than the timeout, each once |
| WsLiveness.WSManager.Connect | src/hero_quant/api/ws.py:255-258 | adds the socket to its channel |
| WsLiveness.WSManager.Disconnect | src/hero_quant/api/ws.py:260-266 | takes the socket out, and the channel with its last socket |
| WsLiveness.WSManager.EvictIfStale | src/hero_quant/api/ws.py:372-376 | takes the connections of a channel out exactly if it is still stale at the snapshot |
| WsLiveness.WSManager.FinishEviction | src/hero_quant/api/ws.py:385-387 | forgets the channel unless somebody has been heard within the timeout |
| WsLiveness.WSManager.CleanUp | src/hero_quant/api/ws.py:463-466 | the last connection to leave takes the liveness entry along |
| WsLiveness.StepKeeps | src/hero_quant/api/ws.py:255-466 | every step between two awaits keeps the invariant, if evicted sockets close within the timeout |
| WsLiveness.SocketsAreTracked | src/hero_quant/api/ws.py:255-376 | over every run a channel holds exactly the sockets that have connected and neither left nor been taken out since |
| WsLiveness.EntryIff | src/hero_quant/api/ws.py:333-466 | over every run, exactly when a channel has a liveness entry |
| WsLiveness.RenewalMeans | src/hero_quant/api/ws.py:333-348 | client traffic renews entry and budget, a pong renews the entry while the budget of three lasts |
| WsLiveness.SweepTakesSilent | src/hero_quant/api/ws.py:363-387 | an undisturbed sweep ends and takes exactly the listed channels that were silent for a minute |
| WsLiveness.OpenMeansWatched | src/hero_quant/api/ws.py:333-466 | in every interleaving with prompt closing a channel with an open connection has a liveness entry |
| WsLiveness.EntryLostIff | src/hero_quant/api/ws.py:377-387 | a step loses the entry of an open connection exactly if it ends an eviction whose channel came back and has gone stale since |
| WsLiveness.AlwaysWatchedIff | src/hero_quant/api/ws.py:333-466 | over every run, however long closing takes, open connections have an entry all along exactly if no eviction ends with its channel back and stale |
| WsLiveness.SlowCloseLosesEntry | src/hero_quant/api/ws.py:377-387 | a run without prompt closing in which that happens |
| WsLiveness.EntryIsLastHeard | src/hero_quant/api/ws.py:333-348 | over every run the entry of a channel is its last sign of life |
| WsLiveness.EvictedWasSilent | src/hero_quant/api/ws.py:363-376 | an eviction only takes channels whose last sign of life, those after the snapshot included, is older than the timeout |
| WsLiveness.KeepalivesAreBounded | src/hero_quant/api/ws.py:338-348 | between two messages of the client at most three server pongs renew an open channel |
| WsLiveness.SpentBudgetExpires | src/hero_quant/api/ws.py:338-348 | once the budget is spent the entry does not move any more, and the channel becomes evictable |
| WsLiveness.ListedAndUnheardIsEvicted | src/hero_quant/api/ws.py:363-387 | a stale channel on the list of the evictor that stays unheard has no connection left after its turn |
| WsLiveness.SilentIsEvicted | src/hero_quant/api/ws.py:338-387 | once its keepalives are spent, a channel whose client stays silent is on the first snapshot that comes more than the timeout after its last renewal, whatever pongs are sent, and has no connection left once its turn is over |
| WsBroadcast.WrittenAreRelayed | src/hero_quant/api/ws.py:617-663 | on what workers publish the loop over a batch relays exactly the wanted entries, in order |
| WsBroadcast.ForwardBatch | src/hero_quant/api/ws.py:590-663 | what cannot be parsed or forwarded, and only that, stays unacknowledged; an ID that cannot be parsed counts as new; without failure the batch is relayed as the protocol steps do |
| WsBroadcast.GoingMeans | src/hero_quant/api/ws.py:623-653 | the deliveries of a batch are those of its wanted entries in order, each on its own channel, or on trace if it names none |
| WsBroadcast.ArrivesOnItsChannel | src/hero_quant/api/ws.py:543-663 | over every run an event arrives on the channel it was published for and no other, directly on its publisher and through the stream elsewhere |
| WsBroadcast.StepKeeps | src/hero_quant/api/ws.py:543-663 | every publish, local delivery, group read and forward, failing or not, keeps the invariant of all workers |
| WsBroadcast.AtMostOnce | src/hero_quant/api/ws.py:543-663 | in every run without the fallback read no worker hears an event twice, the origin only directly, the others only through the stream and in order |
| WsBroadcast.FailedForwardIsLost | src/hero_quant/api/ws.py:653-663 | an entry whose forwarding failed is never relayed to that worker later |
| WsBroadcast.ExactlyOnce | src/hero_quant/api/ws.py:543-663 | when nothing fails a caught-up worker has heard each event once if it is the origin or its consumer started no later than the entry, and not at all otherwise |
| WsBroadcast.CatchesUp | src/hero_quant/api/ws.py:580-663 | however far behind a consumer is, one read for every twenty entries begun and the forwarding of what they hand out make its worker hear every event as often as it should |
| WsBroadcast.NewIsHeardOldIsNot | src/hero_quant/api/ws.py:579-623 | with agreeing clocks everything published after a consumer started is heard once, and nothing of an earlier millisecond is replayed |
| WsBroadcast.FallbackRepeats | src/hero_quant/infra/redis.py:910-920 | a fallback read makes a caught-up worker hear exactly the wanted ones of the first twenty entries twice |
| WsBroadcast.ChannelsSeparateUsers | src/hero_quant/api/ws.py:121-144 | a user has an own channel exactly up to 128 characters, and two users share one only if equal but for blanks or alike in 64 characters and hash |
| TraceStore.TraceWriter.WriteSidecar | src/hero_quant/agent/trace.py:476-540 | a file is created only where there is none, and only a failed temporary file ends the append |
| TraceStore.TraceWriter.Spill | src/hero_quant/agent/trace.py:321-339 | the name is the digest unless a different content holds it, then one with a suffix |
| TraceStore.TraceWriter.AppendObject | src/hero_quant/agent/trace.py:293-381 | one append changes the directory, the log and what is still to be flushed as the specification says; a closed writer changes nothing |
| TraceStore.TraceWriter.WriteLine | src/hero_quant/agent/trace.py:383-390 | a flush gets out a part of the bytes; the rest stays for the next flush or, of a long line, is lost |
| TraceStore.TraceWriter.Close | src/hero_quant/agent/trace.py:392-410 | what cannot be flushed when the writer closes is lost |
| TraceStore.TraceWriter.ReadResolved | src/hero_quant/agent/trace.py:424-474 | the records of the lines that parse, in order, with their sidecars put back; an exception exactly if the log is not UTF-8 |
| TraceStore.UniversalIff | src/hero_quant/agent/trace.py:450 | a sidecar read in text mode equals its content exactly if that has no carriage return |
| TraceContents.UniversalMeans | src/hero_quant/agent/trace.py:450 | text mode turns each line ending into one line feed and changes nothing else |
| TraceStore.SidecarsAreWriteOnce | src/hero_quant/agent/trace.py:476-540 | a published sidecar keeps its content through every later append, failure and crash |
| TraceStore.BackedIff | src/hero_quant/agent/trace.py:308-381 | a line is backed by its sidecar exactly if that was published, or its name already holds the same payload |
| TraceStore.LinesAreBacked | src/hero_quant/agent/trace.py:308-390 | while no publication is lost and random suffixes are new, at every crash point each complete line refers only to a sidecar published before it, with the full payload |
| TraceStore.ReadableIff | src/hero_quant/agent/trace.py:430-435 | after any run of appends, failed flushes and crashes a read succeeds exactly if no break has fallen inside a character |
| TraceStore.TornForever | src/hero_quant/agent/trace.py:383-435 | a log that has lost part of a character is never readable again |
| TraceStore.ReadsBack | src/hero_quant/agent/trace.py:308-474 | while no publication is lost, and unless a break fell inside a character, a read gives the surviving records in order, restored, and at most one more for an unended last line |
| Utf8.DecodeCut | src/hero_quant/agent/trace.py:430-435 | the first bytes of an encoded text decode to its whole characters, or not at all if the cut is inside one |
| Utf8.DecodeIsEncoded | src/hero_quant/agent/trace.py:430-435 | strict decoding succeeds only on encoded texts |
| TraceCrashes.RestoredMeans | src/hero_quant/agent/trace.py:441-471 | spilled tool results get content, path and preview, all other records are as before; the content is unchanged exactly if it has no carriage return |
| TraceCrashes.AsciiIsReadable | src/hero_quant/agent/trace.py:308-435 | while all lines are ASCII every read succeeds, wherever writes break off |
| TraceCrashes.TearableIff | src/hero_quant/agent/trace.py:342-390 | some break of an append makes the log unreadable for good exactly if its line is not ASCII |
| TraceCrashes.OneByteShort | src/hero_quant/agent/trace.py:371-435 | a record with one Chinese character, cut one byte short of it, makes all records unreadable, whatever follows |
| TraceCrashes.RoundTrip | src/hero_quant/agent/trace.py:308-474 | once a living writer has got everything out, all its appends are read back record by record, wherever earlier flushes failed, for any thresholds and any digest |
| TraceContents.ContentsComeBack | src/hero_quant/agent/trace.py:308-474 | over those runs a tool result beyond the threshold comes back with its text, or its serialised form if it is no text, its preview and all other keys; every other record comes back as it was |
| TraceContents.AppendFiles | src/hero_quant/agent/trace.py:308-381 | which file an append writes, under which name, and what its line refers to |
| TraceContents.ResolveMeans | src/hero_quant/agent/trace.py:441-471 | which records are put back from their files, and how |
| TraceCrashes.CrashLeavesOldOrNew | src/hero_quant/agent/trace.py:308-390 | a crash in an append makes the log unreadable exactly if it falls inside a character; else the earlier records stay and nothing or exactly the new one is added |
| TraceCrashes.TornLineCostsTheNext | src/hero_quant/agent/trace.py:383-390 | behind an unended line that no living writer will complete, the next complete record is lost too, and the rest stays |
| TraceCrashes.SpilledComesBackIff | src/hero_quant/agent/trace.py:507-537 | a record spilled to a new name comes back exactly if link or rename worked |
| AgentLoop.AcquireStream | src/hero_quant/agent/loop.py:1138-1178 | attempts go on until one succeeds, is not retryable or is the last, and are counted |
| AgentLoop.Acquire | src/hero_quant/agent/loop.py:1138-1178 | never more attempts than max_attempts |
| AgentLoop.AcquireMeans | src/hero_quant/agent/loop.py:1138-1178 | an acquisition that fails for good ends at an attempt whose exception is not retryable or which is the last, after attempts that all failed and could be retried |
| AgentRules.AcquireGets | src/hero_quant/agent/loop.py:1138-1178 | the stream is the first that an attempt yields, after attempts that failed and could be retried, and all are counted |
| AgentRules.DrinkCounts | src/hero_quant/agent/loop.py:1212-1281 | all that the chunks read have reported is counted, and all that can be read is billed |
| AgentRules.BrokenStreamIff | src/hero_quant/agent/loop.py:1331-1400 | when a broken stream is tried again and when it ends the run, with which text and reason |
| AgentLoop.Accumulate | src/hero_quant/agent/loop.py:1211-1319 | text, usage, billing and tool calls of a stream up to its end or the token limit |
| AgentLoop.DrinkBalance | src/hero_quant/agent/loop.py:1212-1316 | over any stream the local counters grow by what was billed or leaked, the cut at the token limit included |
| AgentLoop.RunTools | src/hero_quant/agent/loop.py:1607-1685 | echoes are appended in order and remembered, and one success is enough |
| AgentLoop.CheckGate | src/hero_quant/agent/loop.py:1761-1858 | blanks out the echoes and verifies exactly if there is no price claim or some claim is accepted for a named or the first symbol |
| AgentLoop.Agent.Digest | src/hero_quant/agent/loop.py:1203-1400 | a stream is accumulated in place; a retry takes back buffer and usage, a fault or the limit ends the run |
| AgentLoop.ConcludeMeans | src/hero_quant/agent/loop.py:1916-2033 | a reason given at the end of an iteration is the condition that holds: the limit reached by the text, the budget, the failed gate at the last iteration, or a verified text or tool result |
| AgentRules.HeadIff | src/hero_quant/agent/loop.py:1059-1115 | the four checks at the head in their order, and that without them nothing changes |
| AgentRules.FoldIff | src/hero_quant/agent/loop.py:1876-1914 | when the context is folded, and the banner that marks the text once |
| AgentRules.DecisionIff | src/hero_quant/agent/loop.py:1916-2033 | exactly when a run goes on, is completed, fails grounding, or ends by budget or limit, in terms of text, tools and verdict |
| AgentLoop.Agent.Iterate | src/hero_quant/agent/loop.py:1116-2033 | one iteration as specified |
| AgentLoop.Agent.Go | src/hero_quant/agent/loop.py:1059-2043 | the whole loop as specified, with its final checkpoint |
| AgentLoop.RunEnds | src/hero_quant/agent/loop.py:1059-1198 | every run ends, with at most max_iterations iterations and max_iterations * max_attempts acquisitions |
| AgentLoop.ReasonMeans | src/hero_quant/agent/loop.py:1059-2033 | every reason a run gives is the condition that ended it: which check, which exception with its kind, or where text or context reached the token limit before the cut |
| AgentLoop.CompletedIsGrounded | src/hero_quant/agent/loop.py:1761-2033 | with a ledger, a run that ends as completed had no price claim in the model's own text of its last iteration, or an accepted one |
| AgentGate.ReplaceFirst | src/hero_quant/agent/loop.py:1776-1778 | the first place of an echo gives way to a blank, and the rest is treated alike |
| AgentGate.PeelMeans | src/hero_quant/agent/loop.py:1776-1778 | of model texts and echoes that stand nowhere else the model texts are left, with one blank for each echo |
| AgentGate.GateIff | src/hero_quant/agent/loop.py:1780-1858 | the gate in terms of claims, symbols and what the ledger accepts |
| AgentGate.OnlyModelTextIsJudged | src/hero_quant/agent/loop.py:1607-1858 | a completed run without a token limit consists of model texts and the echoes of its tools, and if these stand nowhere else, the gate has seen the model texts alone |
| AgentLoop.RetryLeavesNoTrace | src/hero_quant/agent/loop.py:1331-1372 | a retried stream leaves buffer, usage, echoes and verdict as they were |
| AgentLoop.LoopTranscript | src/hero_quant/agent/loop.py:1203-1372 | without a token limit the final text is what each iteration keeps, in order, with nothing of a retried attempt |
| AgentLoop.UsageIsConserved | src/hero_quant/agent/loop.py:1239-1281 | over a whole run billed plus unbilled usage equals local counters plus rolled-back amounts |
| AgentLoop.HonestUsageIsConserved | src/hero_quant/agent/loop.py:1239-1281 | with well-formed reports what record_usage was given equals local counters plus rolled-back amounts |
| AgentLoop.LastCheckpointIsFinal | src/hero_quant/agent/loop.py:1993-2043 | one checkpoint per settled iteration at most, and exactly the last one says that the run is over and why |
| Checkpoints.SegmentIsClean | src/hero_quant/agent/loop.py:771-777 | a cleaned segment has only allowed characters and is not empty |
| Checkpoints.SqueezeMeans | src/hero_quant/agent/loop.py:771-777 | a run of characters that are not allowed becomes one underscore, all others stay |
| Checkpoints.SegmentMeans | src/hero_quant/agent/loop.py:771-777 | a name without ink gives way to the default |
| Checkpoints.KeyReads | src/hero_quant/agent/loop.py:779-783 | a key reads as workflow, number and tenant |
| Checkpoints.KeysDiffer | src/hero_quant/agent/loop.py:779-783 | different slots or different threads never share a key |
| Checkpoints.IllegalCharactersCollide | src/hero_quant/agent/loop.py:771-777 | names that differ in one character that is not allowed, anywhere inside, share their slots |
| Checkpoints.CleanIsKept | src/hero_quant/agent/loop.py:771-777 | a clean name is its own segment |
| Checkpoints.CleanNamesDiffer | src/hero_quant/agent/loop.py:771-783 | different clean names of workspace and thread never share a slot |
| Checkpoints.Checkpointer.ResumeSeq | src/hero_quant/agent/loop.py:785-806 | the sequence starts from the pointer, or from zero when it cannot be read |
| Checkpoints.Checkpointer.PutNext | src/hero_quant/agent/loop.py:808-845 | data first, then the pointer, each failure counted |
| Checkpoints.StepIsSafe | src/hero_quant/agent/loop.py:785-845 | every step without the excluded faults keeps all stored slots and the pointer rule |
| Checkpoints.HistoryIsKept | src/hero_quant/agent/loop.py:785-845 | over runs and restarts no stored slot changes, slot 0 is only the pointer, the pointer never decreases and names the largest slot |
| Checkpoints.RestartOverwritesIff | src/hero_quant/agent/loop.py:821-845 | directly after a complete checkpoint and one more write, a restart replaces a slot with its next write exactly if data was written without its pointer |
| Checkpoints.RunIsTallied | src/hero_quant/agent/loop.py:785-845 | over every run, failed reads included, the events alone tell the largest stored slot and the slot named by the pointer |
| Checkpoints.RunOverwritesIff | src/hero_quant/agent/loop.py:785-845 | after every run a restart followed by some number of complete checkpoints replaces a stored slot exactly if the largest slot with data lies beyond the pointer |
| Checkpoints.EvenTallyIsSafe | src/hero_quant/agent/loop.py:785-845 | if it does not, no stored slot ever changes after the restart while no further fault happens |
| Checkpoints.FailedReadRewrites | src/hero_quant/agent/loop.py:785-806 | a run that cannot read the pointer rewrites the slots from 1 on |
| Checkpoints.ErrorsAreCounted | src/hero_quant/agent/loop.py:796-845 | every failed read or incomplete checkpoint is counted |
| ContextFold.ToolPositions | src/hero_quant/agent/context.py:128 | the indices of exactly the tool results, in order |
| ContextFold.DropSurplus | src/hero_quant/agent/context.py:133-142 | the loop over the messages skips exactly the first tool results and leaves one marker |
| ContextFold.Microcompact | src/hero_quant/agent/context.py:125-143 | the list with all but the last three tool results replaced by one marker |
| ContextFold.MicrocompactMeans | src/hero_quant/agent/context.py:125-143 | the last three tool results and every other message stay in order, with one marker at the first folded place |
| ContextFold.RenderMeans | src/hero_quant/agent/context.py:120-124 | messages are shown one below the other with their roles |
| ContextFold.FitWindows | src/hero_quant/agent/context.py:213-229 | the shrinking loop ends with the first windows that fit, or none |
| ContextFold.ShrinkIsEven | src/hero_quant/agent/context.py:220-229 | the tail is only cut when the head is not longer, and nothing is given away that would have fitted |
| ContextFold.FirstWindowsFit | src/hero_quant/agent/context.py:213-217 | the first windows never overlap, and neither is empty for more than one character |
| ContextFold.Collapse | src/hero_quant/agent/context.py:189-242 | the cut text for every budget; its last fallback is unreachable |
| ContextFold.CollapsedFits | src/hero_quant/agent/context.py:189-242 | never longer than the budget: the text, two windows without overlap around the note, or the note cut |
| ContextFold.CollapsedShows | src/hero_quant/agent/context.py:213-242 | the text shows its beginning and its end, as long as the windows say, around a note with their lengths |
| ContextFold.EmbeddedMeans | src/hero_quant/agent/context.py:145-187 | the summary alone or between the first two and last two messages, cut to the room that is left |
| ContextFold.ContextManager.Add | src/hero_quant/agent/context.py:110-119 | appends a message of an allowed role, refuses others |
| ContextFold.EmbeddedFits | src/hero_quant/agent/context.py:145-187 | the summary stage never exceeds the bound, whatever the summary |
| ContextFold.ContextManager.Compact | src/hero_quant/agent/context.py:244-277 | within the bound, messages unchanged, complete unless marked as truncated, with the banner of the stage that gave the text |
| ContextFold.CompactedFits | src/hero_quant/agent/context.py:244-277 | for every history and every summary or exception the text is at most max_chars long, the complete rendering unless marked, and each banner implies the length or the folding that calls for it |
| Kernels.Sma | crates/quantlib/src/lib.rs:63-79 | the running sum gives the mean of each full window and nothing before |
| Kernels.MeanWithin | crates/quantlib/src/lib.rs:63-79 | a mean lies within the bounds of its window |
| Kernels.EmaVec | crates/quantlib/src/lib.rs:84-98 | each value is the exponential average so far |
| Kernels.EmaWithin | crates/quantlib/src/lib.rs:84-98 | the average stays within the range of the values seen |
| Kernels.EmaIsWeightedMean | crates/quantlib/src/lib.rs:84-98 | the recursion equals the weighted mean in closed form, with weights that sum to one |
| Kernels.AlphaMeans | crates/quantlib/src/lib.rs:84-98 | the smoothing factor gives the values the mean age that a simple mean of the period has |
| Kernels.RsiVec | crates/quantlib/src/lib.rs:106-138 | each value is the score of the smoothed gains and losses; the clamp changes nothing |
| Kernels.ScoreIsShare | crates/quantlib/src/lib.rs:125-135 | the score is 100 times the share of the gains, and swapping gains and losses complements it |
| Kernels.AverageMeans | crates/quantlib/src/lib.rs:106-138 | n times the new average is n - 1 times the old one and the new gain, or loss |
| Kernels.RsiIsSymmetric | crates/quantlib/src/lib.rs:106-138 | RSI lies in [0, 100], and negating the series maps it to 100 minus itself |
| Kernels.MaxDrawdown | crates/quantlib/src/lib.rs:145-165 | the least fall below the running peak, or zero |
| Kernels.DrawdownIsWorstPair | crates/quantlib/src/lib.rs:145-165 | on a curve without negative values it is the least v[j]/v[i] - 1 over i <= j |
| Kernels.DrawdownFromOnePeak | crates/quantlib/src/lib.rs:145-165 | the same on curves with at most one positive value |
| Kernels.NegativeValuesBreakPairs | crates/quantlib/src/lib.rs:145-165 | a negative value after two different positive ones makes the fall and the worst pair differ |
| Kernels.PairsAgreeIff | crates/quantlib/src/lib.rs:145-165 | over a set of values the drawdown of every curve is its worst pair exactly if none is negative, or at most one is positive |
| Kernels.Bollinger | crates/quantlib/src/lib.rs:229-275 | mean and bands at every position, none before the first full window, errors for bad parameters |
| Kernels.SpreadOf | crates/quantlib/src/lib.rs:259-266 | the inner loop gives the sample standard deviation of the window |
| Kernels.BandsEncloseMean | crates/quantlib/src/lib.rs:259-268 | lower <= mid <= upper, and the squared half width is the sample variance |
| Kernels.TwoPassesAreOne | crates/quantlib/src/lib.rs:236-266 | over exact reals the two passes equal the one-pass formula they replace |
| Kernels.MacdOf | crates/quantlib/src/lib.rs:283-303 | line, signal and histogram, errors for zero parameters |
| Kernels.MacdIgnoresLevel | crates/quantlib/src/lib.rs:283-303 | adding a constant to the series changes nothing |
| Kernels.MacdOfJump | crates/quantlib/src/lib.rs:283-303 | a jump after equal values shows by the difference of the two factors, upwards for a shorter fast period |
| Grounding.GroundingLedger.IngestBars | src/hero_quant/agent/grounding.py:84-133 | admitted exactly with good provenance and good bars; a raising ingest changes nothing |
| Grounding.LedgerIsHistory | src/hero_quant/agent/grounding.py:84-133 | the frozen set is that of the first admitted ingest, its symbol stays in evidence, and evidence is that of the latest ingest |
| Grounding.OnlyFirstWithoutAuthorization | src/hero_quant/agent/grounding.py:158-172 | without authorization only the first admitted symbol is ever accepted |
| Grounding.AcceptedIff | src/hero_quant/agent/grounding.py:135-193 | accepted exactly if the symbol is authorized and the price is near a close or between a low and a high of its latest bars |
| Claims.ExtractClaims | src/hero_quant/agent/grounding.py:234-355 | the seven passes and the sort give the greedy selection in order |
| Claims.KeptIff | src/hero_quant/agent/grounding.py:242-350 | a match is kept exactly if it is usable and overlaps no claim of an earlier pass or earlier in its pass |
| Claims.PriorityIff | src/hero_quant/agent/grounding.py:242-350 | in terms of the result alone: a usable match is a claim exactly if no claim of an earlier pass overlaps it |
| Claims.Maximal | src/hero_quant/agent/grounding.py:242-350 | every usable match is a claim or overlaps one |
| Claims.OverlapIff | src/hero_quant/agent/grounding.py:242-350 | two spans overlap exactly if they share a position |
| Claims.ResultInOrder | src/hero_quant/agent/grounding.py:242-355 | the claims are pairwise disjoint, sorted by position, and exactly the kept ones |

## Left out

- HTTP routes, sockets, EventSource, React components, SQL text, connection pools and the file system: only the atomic step each call stands for, and its failure.
- SHA-1, SHA-256, JSON, regular expressions, ISO dates and random tokens: arbitrary functions, given matches, numbers and fresh names.
- Floating-point rounding: budget, bucket, kernels and the context thresholds use exact arithmetic.
- The payload parser and the handler of the chat page: a handler that throws is a parameter of the reader.
- Tickets: the JSON payload of a ticket, host normalisation, and a drawn token that equals one no longer stored.
- AuditChain.Verify: counts of uncovered rows and the start of the chain are not part of the report; previous hashes are taken as lower case, and tables are smaller than the scan limit of 2147483647 rows.
- AuditChain.JsonHasBarsInside: JSON itself is not modelled, only that it pairs its quotes and has backslashes and bars inside of strings alone; timestamps are texts without bars.
- AgentLoop: waiting between attempts and the length of the backoff.
- SseReader.ChunkIndependentIff: texts with a CR directly before a CRLF are outside, except for the family of CrBeforeCrLfMatters.
- Presence keys, the registry of online channels and the single-machine fallback channels of connections without a user.
- WsBroadcast.ExactlyOnce: trimming of the stream to 10000 entries is not modelled, so a consumer that lags behind it is not covered.
- TraceStore.ReadsBack: directory and file syncs and the loss of power are not modelled, nor is a second writer of the same directory whose digest collides between the check and the link; a random suffix that is already taken is excluded.
- TraceStore: the size of the file buffer, which is a choice at each write, and text with lone surrogates, which UTF-8 cannot hold.
- TraceStore: records that use the keys sidecar or result_path themselves, the redaction before the append, and the check of sidecar paths on reading.
- AgentLoop.Agent.Go: replay of recorded runs, delegation to a graph, KeyboardInterrupt and SystemExit, memory injection, metrics and trace records are not part of the loop; a wall time that runs out after the loop, or a checkpoint error, only changes the reported reason.
- AgentGate.OnlyModelTextIsJudged: stated without a token limit, and for echoes that stand nowhere else in the text when their turn comes; a shortened echo, or a text that repeats one, leaves what the replacement leaves.
- AgentLoop.LoopTranscript: with a token limit the buffer may be cut and marked, and an earlier folding disables the later cut, so no clean statement about the text is made there.
- AgentLoop.RunTools: which tools run concurrently, their timeouts and the parsing of their arguments; results arrive in the order in which the loop writes them.
- Checkpoints.HistoryIsKept: expiry of slots counts as a failed read of the pointer.
- ContextFold: skills and system prompts; the summariser is arbitrary.
- Kernels: non-finite inputs.
- Grounding: normalisation of price strings and the rendered evidence block.
- Claims: values and units of the claims, and the patterns themselves.
