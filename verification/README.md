# Clustara: a verified model of its core

Clustara is a Kubernetes operations hub. This project models, in Dafny, the parts of it whose
correctness cannot be read off one function body, and proves what its code and documentation
promise about them:

- **Store-and-forward delivery** from the in-cluster agent to the server (`Agent`, `AgentRunner`,
  `Delivery`, `Collector`, `CollectorProofs`, `CounterProofs`, `EventKeys`, `EndToEnd`,
  `WatchStream`). The agent is a transition system; every result of the network and of the disk is
  an input, so each theorem holds for every schedule. A posted batch is acknowledged, received with
  the reply lost, or not received.
- **Full-sync snapshots** (`Snapshot`, `SnapshotProofs`): collecting, upserting and pruning.
- **RBAC permission diff** (`Rbac`, `RbacProofs`, `RbacKeys`, `Sorting`): the wildcard coverage relation
  against the set of concrete requests that rules allow.
- **Command text** (`Text`, `Shell`, `PosixQuoting`, `CommandRisk`, `OperatorProofs`,
  `InvocationProofs`, `FindingProofs`, `RiskOfSequence`, `TokenAgreement`): the two splitters against a quoting grammar, that grammar against section 2.2
  of the POSIX.1-2017 Shell Command Language, the risk tokenizer, the invocation parser and the
  risk verdict.
- **Exec over WebSocket** (`WebSocket`, `FrameProofs`, `WireProofs`, `ExecStream`): the framing of sections 5.2
  and 5.3 of RFC 6455 and the bounded demultiplexer.
- **Structural diff** (`JsonDiff`, `DiffProofs`) and **bounded-radius search** (`ResourceGraph`).
- **Pod Security level** against the admission rule (`PodSecurity`, `PodReading`,
  `PodSecurityGate`), **image references** (`ImageReference`) and **nearest-rank percentiles**
  (`Percentile`).

Code that works by updating things is modelled by methods and classes and tied to specification
functions (`Runner`, `CollectorStore`, `OffsetTable`, `InventoryTable`, `Report`, `ByteReader`, the
sorters and splitters); the theorems are about those functions. Loops over Go maps run in an
arbitrary order.
`dafny verify dfyconfig.toml` checks everything.

Where code and comments disagree, the model follows the code:

- The comment on `restrictedProfileViolations` (internal/analyzer/security.go:468-472) says that
  the report and the admission gate cannot disagree about whether a pod meets the Restricted
  standard. They can: `PodSecurityGate.GateOverlooksHostPorts` is a pod the gate admits and the
  report calls privileged, and `PodSecurityGate.RestrictedAgainstGate` is the exact difference.
- The risk of `a;b` is not always at least the risk of `a`: a blank `a` is itself rated high.
  `RiskOfSequence.MonotoneExactlyWhenNonBlank` gives the exact condition.
- A stream cut between two fields of a frame is reported as a clean end, not as a broken frame
  (`FrameProofs.CutFrameFails`).
- The event key is written before the inventory row, so a row change that fails in between is
  never made up for (`CollectorProofs.FailedChangeIsLost`). What always holds is at most once;
  `CollectorProofs.RetryMakesUpExactlyWhen` says for which failures a retry restores exactly once.
- Event keys join their parts with bars and escape nothing, so different events can share a key
  (`EventKeys.KeysCollide`, with the exact condition in `EventKeys.OnlyReadingExactlyWhen`).
- The comments on the splitters say that quoting follows POSIX. Both keep a backslash-newline that
  the standard removes (`PosixQuoting.ContinuationIsKept`, with the exact condition beside it).
- A command that fails can be reported with exit code zero, when its output reaches the limit
  before the status frame (`ExecStream.FailureLeftUnread`, `ExecStream.ReportedCodeExactlyWhen`).
- A permission on an object whose name contains a bar is never called risky, whatever it grants
  (`RbacKeys.BarHidesRisk`, with the exact condition in `RbacKeys.RiskyExactlyWhen`).
- The two image parsers differ on some references that neither documents;
  `ImageReference.ParsersAgreeExactlyWhen` says on which, `ImageReference.ParsersDiffer` names two.

## Model

| member | source | states |
|---|---|---|
| `Delivery.FlushKeepsInv` | internal/agent/runner.go:363-384 | one flush, whatever the network and disk do, keeps the delivery invariant: queue in build order, first arrivals in order, nothing queued is overtaken, every batch acknowledged, queued or dropped |
| `Delivery.NoneOvertakenNoneForgotten` | internal/agent/runner.go:363-384 | in every run, batches arrive for the first time in build order and each is acknowledged, queued, or was refused by the disk |
| `Delivery.QueueIsSuffixDeliveryIsPrefix` | internal/agent/runner.go:489-559 | in every run whose flushes meet no loss condition, the queue file is a suffix of the build order holding every unacknowledged batch, and what the server received, repeats removed, is a prefix covering everything before that suffix |
| `Delivery.LossCondition` | internal/agent/runner.go:544-559 | a flush loses its batch if and only if the batch must be queued (the replay did not finish or the post was not acknowledged) and there is no queue file or the append fails; it loses nothing else |
| `Delivery.RunLossCondition` | internal/agent/runner.go:363-384 | a whole run loses nothing if and only if none of its flushes meets that condition |
| `Delivery.AppendsPreventLoss` | internal/agent/runner.go:544-559 | with a queue file that accepts every append no flush meets it, whatever the network does |
| `Delivery.ReplayIsExact` | internal/agent/runner.go:489-542 | a replay that can read the file posts up to the first failure; exactly the acknowledged entries leave the file unless it cannot be rewritten, the failed one and everything behind it stay, and only an entry whose reply was lost has reached the server besides |
| `Delivery.StaysQueuedExactlyWhen` | internal/agent/runner.go:503-524 | an entry stays queued if and only if its post or one before it was not acknowledged |
| `Delivery.NewBatchIsSettled` | internal/agent/runner.go:363-384 | the new batch reaches the server if and only if the replay finished and its post arrived, and is queued, last, if and only if it was not acknowledged and the file takes it |
| `Delivery.AcknowledgedLeavesQueue` | internal/agent/runner.go:489-542 | when every rewrite succeeds, no reachable state still queues an acknowledged batch |
| `Agent.BuildBatch` | internal/agent/runner.go:386-435 | the batch holds exactly the named object changes and the non-blank, non-deleted Kubernetes events of the group, each kind in order, stamped with the time, and the last resource version that is not empty |
| `Agent.StepKeepsInv` | internal/agent/runner.go:288-361 | every step of the flush loop conserves the events in order, bounds the batch and keeps the delivery invariant |
| `Agent.RunLossCondition` | internal/agent/runner.go:288-361 | a run of the agent loses no batch if and only if none of its steps meets the loss condition |
| `Agent.AppendsPreventLoss` | internal/agent/runner.go:288-361 | with a queue file that accepts every append a run of the agent loses none |
| `Agent.StepsAccomplish` | internal/agent/runner.go:288-361 | an event gets on a channel with room, a positive batch size takes effect, a tick hands over all that is pending, every heartbeat replays, and an event taken off the channel is handed over or pending |
| `Agent.NothingLostInOrder` | internal/agent/runner.go:288-361 | in every run, flushed groups, pending and channel are the enqueue order; each group is within the largest batch size in force since it was started; a finished drain has handed over all that was buffered when it began |
| `AgentRunner.Runner.ReplayQueued` | internal/agent/runner.go:489-542 | the method takes the replay step of the link, whose effect on queue, acknowledgements and arrivals `Delivery.ReplayIsExact` fixes |
| `AgentRunner.Runner.QueueBatch` | internal/agent/runner.go:544-559 | appends, or records the loss |
| `AgentRunner.Runner.FlushEvents` | internal/agent/runner.go:363-384 | the object's flush is the transition system's flush |
| `AgentRunner.Runner.Enqueue` | internal/agent/runner.go:437-450 | refines the enqueue step |
| `AgentRunner.Runner.ApplyRuntimeConfig` | internal/agent/runner.go:297-308 | refines the configuration step |
| `AgentRunner.Runner.TakeEvent` | internal/agent/runner.go:309-314 | refines the step that takes an event off the channel |
| `AgentRunner.Runner.OnBatchTick` | internal/agent/runner.go:315-319 | refines the batch tick |
| `AgentRunner.Runner.OnHeartbeatTick` | internal/agent/runner.go:320-326 | refines the heartbeat tick |
| `AgentRunner.Runner.Shutdown` | internal/agent/runner.go:327-358 | the shutdown branch is a run of the transition system that ends stopped with channel and pending empty |
| `Collector.CollectorStore.ApplyAgentBatch` | internal/collector/agent.go:84-189 | the event loop, with any of its store calls failing before or after taking effect, computes the store, change log, counters and result of the fold, whose counters `CounterProofs.CountersCount` and whose rows `WatchStream` fix |
| `CollectorProofs.AtMostOnce` | internal/collector/agent.go:106-189 | over any arrivals of any batches with any store failures, each event key changes the inventory at most once and the inventory is the logged changes applied in order |
| `CollectorProofs.SuccessIsDelivery` | internal/collector/agent.go:106-189 | a batch that reports success did exactly what an undisturbed delivery does |
| `CollectorProofs.RedeliveryIsNoOp` | internal/collector/agent.go:275-286 | delivering a batch again, at any later time, changes nothing |
| `CollectorProofs.DistinctDeltasAllApply` | internal/collector/agent.go:127-188 | with fresh and distinct keys, deduplication is invisible: the inventory is every delta applied in order |
| `CollectorProofs.FailedChangeIsLost` | internal/collector/agent.go:127-188 | the witness: a one-event batch whose row change fails after its key was recorded is not made up for by a redelivery |
| `CollectorProofs.RetryMakesUpExactlyWhen` | internal/collector/agent.go:106-189 | for every batch and every pattern of store failures, a retry ends with exactly the changes of an undisturbed delivery if and only if no event with a new key was stopped between recording its key and changing its row; the inventory is then the same too |
| `CollectorProofs.CountersAddUp` | internal/collector/agent.go:106-189 | on success skipped, duplicate and applied add up to the events, upserted and deleted to applied, and the per-kind counters to the totals |
| `CounterProofs.CountersCount` | internal/collector/agent.go:106-189 | on success skipped, applied and duplicates are the numbers of events that are no delta, that have a new key and that have a known key, the last two also kind by kind; upserted is the number of rows the batch put and deleted the number it removed |
| `CollectorProofs.PodDeletions` | internal/collector/agent.go:151-156 | the pod table is told of exactly the deletions of pods |
| `CollectorProofs.OffsetTable.WriteOffsets` | internal/collector/agent.go:243-271 | one offset row per kind with that kind's counts, in any map order, and the columns sum to the totals |
| `EventKeys.EventKeySeparates` | internal/collector/agent.go:275-286 | equal keys mean equal cluster, agent, version, verb, kind, namespace and name when no part before the name contains a bar |
| `EventKeys.OnlyReadingExactlyWhen` | internal/collector/agent.go:275-286 | a key can be read back into its parts in one way only if and only if no part contains a bar |
| `EventKeys.KeysCollide` | internal/collector/agent.go:275-286 | two different objects with one key |
| `EndToEnd.RepeatsAreInvisible` | internal/collector/agent.go:106-189 | the server's store depends only on the order of first arrivals, whatever repeats and whenever |
| `EndToEnd.ExactlyOnceInOrder` | internal/agent/runner.go:489-542 | in every run of the agent whose steps meet no loss condition, the server's store is that of delivering a prefix of the batches exactly once in order, and all of them when the queue is empty |
| `EndToEnd.NeverOutOfOrder` | internal/agent/runner.go:363-384 | even with lost batches the store is that of delivering an increasing selection once each |
| `WatchStream.InventoryFollowsWatchStream` | internal/collector/agent.go:106-189 | from the watch stream to the inventory: in a run without loss that has handed everything over, with distinguishable versioned events, the server's inventory is the old one changed by what the observed events mean, each once and in the order of observation |
| `WatchStream.LastEventDecides` | internal/collector/agent.go:150-188 | after the observed events a row is gone if the last event about it was a deletion and otherwise holds what that event said |
| `WatchStream.OtherRowsStay` | internal/collector/agent.go:150-188 | a row no observed event is about stays as it was |
| `Snapshot.Collect` | internal/kube/client.go:135-166 | fails exactly when a required list call fails; otherwise the kinds offered for pruning are exactly those read, the skipped kinds exactly the others, and the resources those of the successful calls in order, with the kind that was asked for |
| `Snapshot.InventoryTable.PruneMissingInventory` | internal/collector/snapshot.go:159-185 | deletes exactly the stale rows of the cluster and kinds, in any kind order, and counts them |
| `Snapshot.InventoryTable.ApplySnapshot` | internal/collector/snapshot.go:38-107 | rejects a blank cluster, otherwise upserts every usable resource and prunes |
| `SnapshotProofs.NothingElseIsLost` | internal/collector/snapshot.go:38-107 | every snapshot row is present with its values; every other row of another cluster or of a kind that is not synced keeps its values |
| `SnapshotProofs.FullSyncIsExact` | internal/collector/snapshot.go:159-199 | after a full sync the cluster's rows of the synced kinds are exactly the snapshot's |
| `SnapshotProofs.LastResourceDecides` | internal/collector/snapshot.go:55-66 | the last resource for a row gives it its identifier, its own time or else that of the snapshot, and its spec |
| `SnapshotProofs.ReapplyChangesNothing` | internal/collector/snapshot.go:38-107 | applying a snapshot twice is applying it once |
| `SnapshotProofs.CollectAndSync` | internal/kube/client.go:135-166 | collect, then sync: rows of a kind whose list call failed keep their values, the rows of every kind that was read are exactly those of its listing, and a failed collection changes nothing |
| `Sorting.SortStrings` | internal/analyzer/security.go:728-734 | the in-place insertion sort yields a sorted permutation |
| `Sorting.SortedDistinctIsStrict` | internal/analyzer/security.go:698-704 | sorting distinct keys lists their set strictly increasing, so the output does not depend on the order of collection |
| `Rbac.RbacGrants` | internal/analyzer/security.go:602-632 | the flattened list holds exactly the grants the rules confer |
| `Rbac.RBACDiffExpansions` | internal/analyzer/security.go:672-705 | the reported keys are exactly those of uncovered grant and object pairs, strictly sorted, for any order of object names; `RbacKeys` says what a key spells |
| `RbacProofs.RuleAllowsThroughGrants` | internal/analyzer/security.go:602-632 | a rule allows a request if and only if one of its grants does |
| `RbacProofs.CoverageIsSound` | internal/analyzer/security.go:638-660 | what a covered grant allows on an object the covering grant allows too, wildcards, subresources, names and URL prefixes included |
| `RbacProofs.EmptyDiffIsSound` | internal/analyzer/security.go:672-705 | an empty report means every request the new rules allow was allowed before |
| `RbacProofs.ReportIsComplete` | internal/analyzer/security.go:672-705 | every reported resource permission has a request on the reported object that is allowed now and was not before |
| `RbacProofs.UrlReportIsComplete` | internal/analyzer/security.go:672-705 | the same for URL permissions, given a character the old URL patterns do not use |
| `RbacProofs.DiffIsExact` | internal/analyzer/security.go:672-705 | the report is empty if and only if nothing new is allowed |
| `RbacProofs.PermissionDiff` | internal/analyzer/security.go:672-705 | the diff as called: strictly sorted, empty only if nothing is new, and for resource rules exactly then |
| `RbacKeys.KeyReadsBack` | internal/analyzer/security.go:593-599 | split at its bars, a key of bar-free parts is group, resource, verb and, if any, name |
| `RbacKeys.KeysSeparate` | internal/analyzer/security.go:593-599 | keys of different group, resource, verb or name differ |
| `RbacKeys.RiskyExactlyWhen` | internal/analyzer/security.go:709-726 | a key is called risky if and only if its grant is dangerous and the object name has no bar in it |
| `RbacKeys.BarHidesRisk` | internal/analyzer/security.go:709-726 | a full wildcard on an object with a bar in its name is not called risky |
| `RbacKeys.ReportedKeyReadsBack` | internal/analyzer/security.go:672-726 | every reported key, split, names an uncovered grant of the new rules and its object, and is risky if and only if that grant is dangerous |
| `Shell.ShellWords` | internal/analyzer/shellwords.go:27-83 | the loop computes the scanner's words and whether a quote is open |
| `Shell.SplitCommandLine` | internal/kube/exec.go:626-686 | the executor's loop computes the scanner's words of the trimmed line and refuses an open quote |
| `Shell.GateAndExecutorAgree` | internal/kube/exec.go:626-686 | both splitters refuse the same lines, those with no spelling in the quoting grammar, and otherwise return the words of any such spelling |
| `Shell.ScanInvertsPrint` | internal/analyzer/shellwords.go:27-83 | every valid spelling scans to exactly the words it denotes |
| `Shell.AcceptsExactlyTheGrammar` | internal/analyzer/shellwords.go:27-83 | a line is accepted if and only if the grammar produces it |
| `Shell.RenderRoundTrip` | internal/analyzer/shellwords.go:27-83 | every word list, single-quoted and joined by spaces, parses back to itself, for both splitters |
| `PosixQuoting.PosixExactlyWhen` | internal/analyzer/shellwords.go:19-22 | the splitters read a line as section 2.2 of POSIX.1-2017 does if and only if no line continuation (an unescaped backslash before a newline, outside single quotes) occurs |
| `PosixQuoting.ContinuationIsKept` | internal/analyzer/shellwords.go:19-22 | a line on which they differ |
| `PosixQuoting.SeparatorsExactly` | internal/analyzer/shellwords.go:71-72 | between unquoted words exactly space, tab, newline and carriage return separate |
| `PosixQuoting.EscapesExactly` | internal/analyzer/shellwords.go:49-59 | inside double quotes a backslash escapes exactly dollar sign, backquote, double quote and backslash |
| `CommandRisk.CommandTokens` | internal/analyzer/commandrisk.go:201-232 | the loops compute the specified tokens: operators set off, fields dequoted, empty ones dropped |
| `OperatorProofs.TokensAround` | internal/analyzer/commandrisk.go:201-232 | every operator is a token of its own, spaced or not, and the text on either side is read as if the other were not there, unless a neighbouring character doubles the operator |
| `OperatorProofs.PlainWordsAreTokens` | internal/analyzer/commandrisk.go:201-220 | plain words separated by spaces are the tokens |
| `CommandRisk.CommandInvocations` | internal/analyzer/commandrisk.go:281-311 | the index loops compute the invocation parse, which `InvocationProofs.InvocationsByPosition` fixes by positions |
| `InvocationProofs.ArgumentsAreUpToEnd` | internal/analyzer/commandrisk.go:300-307 | the arguments are the tokens up to the first operator, `-c` or `-lc`, or the end |
| `InvocationProofs.InvocationsByPosition` | internal/analyzer/commandrisk.go:281-311 | the invocations are, in order, exactly the programs by position: name, the tokens up to the next end as arguments, and whether a pipe leads into it |
| `InvocationProofs.PathsDoNotMatter` | internal/analyzer/terminalmode.go:41-46 | a directory in front of a program does not change its name |
| `InvocationProofs.SkippedExactly` | internal/analyzer/commandrisk.go:184-192 | stepped over in command position are exactly the operators, assignments to an identifier, and the wrapper programs with or without a directory |
| `CommandRisk.DestructiveInvocationFindings` | internal/analyzer/commandrisk.go:393-432 | a finding is reported if and only if some invocation warrants it: "rm -rf /" for a recursive rm with the root among its arguments, "rm -rf" and "rm -r" for one without, with and without force, "chmod 777 /" when the first two arguments that are no options are an open mode and the root, "chmod -r" and "chown -r" when recursive; in the order of the invocations |
| `CommandRisk.WarrantedExactly` | internal/analyzer/commandrisk.go:365-432 | the case analysis over filtered targets reports exactly what is warranted by the arguments themselves |
| `CommandRisk.ParseCommandRisk` | internal/analyzer/commandrisk.go:108-174 | the findings in order and a risk equal to the worst severity among them; `FindingProofs.FindingsExactly` says which findings |
| `FindingProofs.FindingsExactly` | internal/analyzer/commandrisk.go:108-174 | a finding is reported on a non-blank command if and only if it is due, signal by signal, with programs and arguments by their positions among the tokens |
| `FindingProofs.WipeIsFoundExactlyWhen` | internal/analyzer/commandrisk.go:393-432 | the root wipe is found if and only if some rm in command position has a recursive flag and the root before the next operator, `-c` or `-lc` |
| `FindingProofs.WipingRootIsCritical` | internal/analyzer/commandrisk.go:108-174 | every command whose tokens wipe the root is critical, under any tables |
| `FindingProofs.PlainWipeIsCritical` | internal/analyzer/commandrisk.go:108-174 | "rm -rf /" is critical |
| `FindingProofs.CaseDoesNotMatter` | internal/analyzer/commandrisk.go:108-110 | the findings do not depend on letter case |
| `CommandRisk.TokensOfSequence` | internal/analyzer/commandrisk.go:201-220 | tokens of `a;b` are those of `a`, the separator and those of `b`, whatever is quoted |
| `CommandRisk.InvocationsOfSequence` | internal/analyzer/commandrisk.go:281-311 | invocations are a homomorphism over `;` |
| `RiskOfSequence.RankOfSequence` | internal/analyzer/commandrisk.go:108-174 | the exact rank of `a;b`: critical when a fetch and a pipe into a shell meet, else the worst of both parts and of chaining |
| `RiskOfSequence.SequencingIsMonotone` | internal/analyzer/commandrisk.go:108-174 | for non-blank `a` and `b` the rank of `a;b` is at least that of each part |
| `RiskOfSequence.MonotoneExactlyWhenNonBlank` | internal/analyzer/commandrisk.go:108-118 | sequencing keeps the verdict on `a` for every `b` if and only if `a` is not blank |
| `RiskOfSequence.ShippedRulesAreSolid` | internal/analyzer/commandrisk.go:41-106 | the phrase tables satisfy the condition the sequence theorems need |
| `TokenAgreement.TokensAreArgv` | internal/analyzer/commandrisk.go:201-220 | without operators and with white space only between words, the risk tokens are the executor's argv without empty words, and the executor accepts the line |
| `WebSocket.WriteWebSocketFrame` | internal/kube/exec.go:530-558 | appends exactly the frame's encoding, whose bytes `WireProofs.WireBytes` gives |
| `WebSocket.ReadWebSocketFrame` | internal/kube/exec.go:487-528 | reads what the recursive frame reader reads, unmasking in place, and leaves the rest; on written frames that is the frame (`FrameProofs.ReadInvertsEncode`) |
| `WebSocket.UnmaskInPlace` | internal/kube/exec.go:522-526 | the in-place loop combines every payload byte with the key byte of its place, by the exclusive or of `WireProofs.XorOfBytes` |
| `WireProofs.XorOfBytes` | internal/kube/exec.go:551 | a combined byte has each bit set if and only if the two bits differ; zero changes nothing and a byte cancels itself |
| `WireProofs.WireBytes` | internal/kube/exec.go:530-558 | every byte of a written frame: final bit and opcode, mask bit and length in one, two or eight bytes by place value, the key, and each payload byte combined with the key byte of its place |
| `FrameProofs.ReadInvertsEncode` | internal/kube/exec.go:487-558 | a written frame reads back unchanged with the rest untouched if it is within 16 MiB, and is refused otherwise |
| `FrameProofs.StreamRoundTrip` | internal/kube/exec.go:487-558 | any frames with any masks, concatenated, read back as exactly those frames |
| `FrameProofs.EncodingIsShortest` | internal/kube/exec.go:530-558 | no byte string that reads as the frame is shorter than the encoding |
| `FrameProofs.CutFrameFails` | internal/kube/exec.go:487-528 | a frame cut short never reads as a frame; the error is the clean end if and only if the cut is at a field boundary |
| `ExecStream.WriteLimited` | internal/kube/exec.go:560-569 | the buffer is the concatenation so far, truncated at the limit |
| `ExecStream.ReadExecWebSocket` | internal/kube/exec.go:446-485 | stdout is the in-order concatenation of channel 1, stderr that of channels 2 and 3, each truncated at the limit, with the exit code, pongs and reason for stopping |
| `ExecStream.OutputIsBounded` | internal/kube/exec.go:446-485 | for every byte stream both outputs together stay within 2 * limit - 1 |
| `ExecStream.LimitIsCapped` | internal/kube/exec.go:607-612 | the limit in force is the one asked for if that is within a megabyte, and a megabyte otherwise |
| `ExecStream.FrameContributes` | internal/kube/exec.go:459-480 | text and binary frames contribute by the channel in their first byte, pings their payload as a pong, everything else nothing |
| `ExecStream.BoundIsReached` | internal/kube/exec.go:446-485 | for every limit some session yields exactly 2 * limit - 1 bytes |
| `ExecStream.SmallSessionIsComplete` | internal/kube/exec.go:446-485 | a session whose output stays below the limit is delivered whole up to its close frame: both outputs, the exit code and the pongs |
| `ExecStream.ZeroMeansNoFailure` | internal/kube/exec.go:474-480 | among the frames read, the exit code is zero if and only if no status frame reported anything |
| `ExecStream.ReportedCodeExactlyWhen` | internal/kube/exec.go:446-485 | of a whole session exactly the frames up to the limit are read, and the reported exit code is that of the session if and only if the unread status frames carry no other code and no first failure |
| `ExecStream.FailureLeftUnread` | internal/kube/exec.go:446-485 | for every limit and every failing status frame, a session that fails and is reported with exit code zero |
| `JsonDiff.DiffValue` | internal/analyzer/diff.go:70-120 | the appending recursion yields the specified changes in order |
| `JsonDiff.EmptyDiff` | internal/analyzer/diff.go:70-120 | nothing is reported if and only if the trees are equal after dropping null entries and trailing nulls |
| `DiffProofs.PatchReachesTarget` | internal/analyzer/diff.go:70-120 | writing the new values into the old tree, in any order of the changes, yields the new tree up to that normal form |
| `DiffProofs.ChangesAreTruthful` | internal/analyzer/diff.go:70-120 | each change names a place where the trees differ, with their values there and the right kind |
| `DiffProofs.DiffReverses` | internal/analyzer/diff.go:70-120 | swapping the arguments swaps old and new, added and removed, and nothing else |
| `DiffProofs.ReverseUndoes` | internal/analyzer/diff.go:70-120 | the reversed changes lead back to the old tree |
| `ResourceGraph.AddEdges` | internal/analyzer/resource_graph.go:78-206 | exactly the edges with known, different ends are admitted, the first of each identifier |
| `ResourceGraph.NodeIdIsJoin` | internal/analyzer/resource_graph.go:208-210 | a node identifier joins cluster, kind, namespace and name with bars |
| `ResourceGraph.ParallelEdgesAreKept` | internal/analyzer/resource_graph.go:104-121 | edges share an identifier only if they agree in both ends, relation and reason, so parallel edges with other evidence are kept |
| `ResourceGraph.BallIsDistance` | internal/analyzer/resource_graph.go:398-454 | the layers of the search are exactly the nodes at undirected distance r or less |
| `ResourceGraph.Search` | internal/analyzer/resource_graph.go:398-454 | the frontier loop, early exit included and for any edge order, computes that ball |
| `ResourceGraph.MaterializeGraph` | internal/analyzer/resource_graph.go:398-469 | exactly the nodes within the radius of a known focus, and exactly the edges with both ends included; also without a focus and with an unknown one |
| `PodSecurity.ContainerProfileViolations` | internal/analyzer/security.go:421-466 | lists exactly the profile controls some container breaks |
| `PodSecurity.ClassifyPodSecurity` | internal/analyzer/security.go:274-382 | lists exactly the broken controls, worst first, and the level is the strongest declarative profile that admits the pod |
| `PodSecurity.BaselineByViolations` | internal/analyzer/security.go:373-380 | a pod meets the Baseline profile if and only if it breaks no control of the Baseline tiers |
| `PodSecurity.RestrictedByViolations` | internal/analyzer/security.go:373-380 | a pod meets the Restricted profile if and only if it breaks no control |
| `PodReading.AllContainersCount` | internal/analyzer/security.go:220-224 | exactly the regular, init and ephemeral containers count |
| `PodReading.ContainerUserWins` | internal/analyzer/security.go:247-254 | the container's own user wins, then the pod's; an explicit null is unset |
| `PodReading.RootIsReported` | internal/analyzer/security.go:329-334 | root is reported under the container's own user or as inherited, exactly when the user in force is 0 |
| `PodReading.ContainerProfileWins` | internal/analyzer/security.go:444-450 | the container's own seccomp profile wins over the pod's |
| `PodReading.ContainerPromiseWins` | internal/analyzer/security.go:431-437 | the container's own runAsNonRoot wins over the pod's |
| `PodReading.NumbersAreTruncated` | internal/analyzer/workload.go:177-192 | numbers lose their fraction toward zero |
| `PodSecurityGate.EvalPssRule` | internal/analyzer/policy.go:163-189 | the rule's loops fire exactly under the declarative condition |
| `PodSecurityGate.RestrictedAgainstGate` | internal/analyzer/policy.go:163-189 | "restricted" if and only if the gate is silent and no container is UID 0, adds a further capability or takes a host port |
| `PodSecurityGate.RestrictedPassesTheGate` | internal/analyzer/policy.go:163-189 | a "restricted" pod trips neither rule |
| `PodSecurityGate.GateOverlooksHostPorts` | internal/analyzer/policy.go:163-189 | a concrete pod on which gate and report disagree |
| `PodSecurityGate.GrowingNeverHelps` | internal/analyzer/security.go:274-382 | a pod with more containers or volumes is never closer to restricted, and a rule that fired still fires |
| `PodSecurityGate.AddingExtends` | internal/analyzer/security.go:220-224 | appending to any of the three container lists or to the volumes is such a growth |
| `ImageReference.ParseInvertsPrint` | internal/analyzer/imageusage.go:28-58 | parsing a printed reference gives back host, repository, and tag or digest, the digest winning, and the policy parser reads the same tag and digest also when the host carries a port |
| `ImageReference.PrintedForm` | internal/harbor/harbor.go:130-148 | the printed text: host, project unless the repository is under it already, repository, then the digest with its algorithm or else the tag |
| `ImageReference.QualifyingTwiceIsOnce` | internal/harbor/harbor.go:130-148 | a repository already under its project is left alone |
| `ImageReference.ParsersAgreeExactlyWhen` | internal/analyzer/policy.go:288-302 | on every trimmed text both parsers find the same digest, and the same tag if and only if a condition on the last colon holds |
| `ImageReference.ParsersDiffer` | internal/analyzer/imageusage.go:28-58 | two references the parsers read differently |
| `Percentile.NearestRankPercentile` | internal/analyzer/collectslo.go:191-211 | returns the smallest sample that at least the needed number of samples do not exceed, and 0 for no samples |
| `Percentile.NeededIsCeiling` | internal/analyzer/collectslo.go:203-210 | for 0 < p < 100 the needed number is the ceiling of p/100 of the sample and always in range |
| `Percentile.PercentileIsMonotone` | internal/analyzer/collectslo.go:191-211 | the result is the same for every order of the samples and never falls as p grows |
| `Percentile.ExtremesAreMinAndMax` | internal/analyzer/collectslo.go:197-202 | at p <= 0 and p >= 100 it is the least and the greatest sample |

## Left out

- HTTP, TLS, kubeconfig, SQL and JSON encoding: only their outcomes appear, as inputs.
- The watch and list loop and the resource-version state file (internal/agent/runner.go:114-286, 796-869): they depend on API-server behaviour that is not in the code.
- Corrupt lines in the queue file, which the agent drops, a rewrite that fails after truncating the file, and a crash in the middle of a flush: a failed rewrite is taken to leave the old content.
- The telemetry fields of a batch, its `__batch__` offset row, the collector status row, Kubernetes event rows, row identifiers, risk scores, revision and pod-lifecycle tables.
- Snapshot.InventoryTable.ApplySnapshot: store calls do not fail in this model, and the metric, event and finding rows it also writes are not part of it.
- SnapshotProofs.FullSyncIsExact: needs explicit kinds in canonical spelling and trimmed namespaces, because identities are compared trimmed and in lower case while rows are keyed as spelled.
- SnapshotProofs.CollectAndSync: needs the listed kinds to differ in more than case, as the table of list calls does; exactness of the kinds read is for plainly spelled rows and resources.
- WatchStream.InventoryFollowsWatchStream: object events carry a resource version, as the API server sends them, and differ in version, verb, kind, namespace or name; a version that only the object's metadata carries counts as the event's.
- RbacProofs.CoverageIsSound: rules have at most one slash in a resource, non-empty resource names and a URL star only at the end, as the API server demands.
- RbacProofs.UrlReportIsComplete: needs a character that the old URL patterns do not use, since a list of patterns could otherwise cover every URL below a prefix one by one.
- Decoding of RBAC rules from a revision's JSON; the rules arrive as lists of strings.
- RiskOfSequence.RankOfSequence: stated for any phrase tables without blanks at their ends and without separators in them; the tables in the code qualify.
- CommandRisk.ParseCommandRisk: the reason texts of findings and the verdict's display fields are not modelled; case mapping is that of ASCII and of the few letters that map into it.
- WebSocket.WriteWebSocketFrame: the random key is an input, and a write error of the connection is not modelled.
- ExecStream.ReadExecWebSocket: how a status payload yields an exit code is a parameter (internal/kube/exec.go:571-600 is library parsing).
- Rendering of diff paths and values as text and the final sort of the change list (internal/analyzer/diff.go:39-68, 122-171): paths are segment lists.
- How graph edges are derived from specs, and the display order of nodes and edges: the graph is a set of nodes and a map of edges.
- PodSecurity.ClassifyPodSecurity: violations are named by container and control instead of by message text; a capability's case mapping is exact as far as it can reach an ASCII name.
- Finding the pod spec inside a workload (internal/analyzer/security.go:194-205) and the other policy rules: one-branch readings.
- ImageReference.ParseInvertsPrint: takes the registry host itself; extracting it from a URL is library parsing.
- Percentile.NearestRankPercentile: the product p * n is not bounded to 64 bits.
- Regex masking and redaction, the scoring and message-building analyzers, forecasts and cost rollups, manifest templates, the HTTP handlers, command-line tools and configuration: easy readings, rounding, or library behaviour.
