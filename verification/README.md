# Verified model of the distributed counter

A cluster of replicas serves named PN-Counters. Each replica keeps a positive map, a negative map and a vector
clock, exchanges changes by delta gossip, logs mutations to a write-ahead log, elects a leader with the Bully
algorithm, tracks its peers with SWIM and gossiped statuses, and limits requests with a token bucket. This project
models these state machines in Dafny and proves what they guarantee over every run, and where an expected guarantee
fails, the exact condition under which it holds.

`dafny verify dfyconfig.toml` checks everything.

## Layout

| file | content |
|---|---|
| `GoMaps.dfy`, `Keys.dfy` | maps read with a zero default, max-merge, finite sums; counter keys |
| `Replica.dfy` | a replica's state, updates, deltas, sums over operation logs |
| `GossipCluster.dfy` | delta gossip as a transition system and its invariant |
| `GossipSafety.dfy` | causal prefixes; refinement of full-state gossip |
| `GossipConvergence.dfy` | progress, silence, convergence through a hub |
| `GossipFaults.dfy` | lost replies, torn pushes, repair, negative deltas: exact conditions |
| `GossipLoss.dfy` | lost replies and resent requests over whole runs |
| `GossipResets.dfy` | what a peer's full state and delta reply do to a reset |
| `AnyNetwork.dfy` | arbitrary loss, duplication, reordering and torn reads |
| `NetworkRepair.dfy` | what full states repair on such a network |
| `FineGrained.dfy` | lock-sized steps of operations, merges and replies |
| `Naming.dfy` | many counters in one pair of maps |
| `Crdt.dfy` | the counter, clock and delta helpers as mutable objects and loops |
| `Recovery.dfy` | snapshot, write-ahead log, crash and replay |
| `Nodes.dfy` | counter service, gossip engine and log as objects |
| `Election.dfy`, `Bully.dfy` | election as a message-passing cluster; one node's election object |
| `Membership.dfy`, `MembershipGossip.dfy`, `Members.dfy` | one table over its runs; gossip across tables; the table and SWIM objects |
| `RateLimiter.dfy` | token bucket |

Objects and loops are proved against functions, and the theorems are about runs of those functions. Time, probe
outcomes, message delivery and loss are inputs. In the gossip cluster at most one round per ordered pair is in
flight, requests may be lost, and every reply that is built is delivered; `GossipLoss.dfy`,
`AnyNetwork.dfy`, `NetworkRepair.dfy` and `GossipFaults.dfy` drop these assumptions. Deltas in gossip runs are above
zero, since only zero is rewritten by the service and `GossipFaults.IncrementVisibleIff` shows that a negative delta is
invisible to peers. Node ids are free of `:`; counter names need not be, and the naming theorems say what happens when
they are not.

An election probes first and claims in a later step, with anything in between; which probes are handled and which
answers come back is part of the step. Elections start where the code starts them: once at start-up, on a tick without
a healthy leader, and when a lower-priority node's probe arrives. After the leader is gone, a survivor whose record is
still stale keeps probing the top survivor, and each probe makes that one claim a newer term; that is how the claims
counted in `Election.FailoverBound` come about. Where a theorem asks for answers it does so for every election that has
a peer to probe. The code does not always deliver that: an election started by a probe runs on the context of that
request (`internal/election/bully.go:298-300`), which ends with the request, so its own probes and broadcasts can fail
while every peer is alive. `Election.OnlyTopClaimsIff` says what exactly depends on it.

## Where the code and its comments disagree

The model follows the code in each case.

- `internal/election/bully.go:309-314` says that a lower-priority node can never displace a healthy leader. A leader
  does not refresh its own record when it announces itself, so it can; `Election.LeaderKeptIff` gives the condition
  and `Election.HealthyLeaderDisplaced` a run.
- `internal/persistence/wal.go:13-15` says that a mutation is logged before it is applied; the service applies first and
  logs afterwards.
- `internal/service/counter_service.go:580-583` says that a reply carries what the sender does not yet know. The
  record is advanced before the reply is sent, so after a lost reply it may not; `GossipFaults.ReplyMergesLikeFullIff`
  gives the condition.
- `internal/cluster/membership.go:167-170` calls Left terminal; `Membership.LeftStaysIff` says when it is.
- `internal/persistence/wal.go:130-146` restarts the sequence numbers on truncation, so they increase within one log,
  not over the life of the node; `Recovery.NumberingContinuesIff`.
- `internal/crdt/pn_counter.go:101-102` says that resetting a counter leaves every other counter untouched; it also
  empties the counters whose names extend it across a colon: `Naming.ResetSparesIff`.

## Model

Handlers that only set a field carry contracts in the same files and have no row.

| member | source | states |
|---|---|---|
| `Replica.JoinHoldsPrefix` | internal/crdt/pn_counter.go:187-205 | Joining two states that are exact prefixes of the same operation logs gives the exact prefix at the pointwise larger clock: nothing lost, nothing counted twice |
| `Replica.SameClockSameState` | internal/crdt/pn_counter.go:187-205 | Two prefix states with equal clocks are equal map for map |
| `Replica.FilteredMergesLikeFull` | internal/crdt/delta.go:16-34 | An update that leaves out only keys the receiver's clock covers merges exactly like the sender's whole state |
| `Replica.DeltaIsFiltered` | internal/crdt/delta.go:16-34 | DeltaFrom against a base within the receiver's clock leaves out only such keys |
| `GossipCluster.StepInv` | internal/gossip/engine.go:276-434 | Every operation, push, answer, delivery and lost request keeps the cluster invariant (prefix states, bounded baselines, filtered messages in flight) |
| `GossipCluster.RunInv` | internal/gossip/engine.go:276-434 | So does every run |
| `GossipCluster.AnswerState` | internal/service/counter_service.go:545-551 | The responder's merge of the filtered request equals the join with the pusher's whole snapshot and is again a prefix state |
| `GossipCluster.DeliverState` | internal/gossip/engine.go:438-444 | The pusher's merge of the filtered reply equals the join with the responder's whole state and is again a prefix state |
| `GossipSafety.LogIsHistory` | internal/service/counter_service.go:113-114 | The log the proofs use is the sequence of operations the run itself issues on each key |
| `GossipSafety.Reachable` | internal/gossip/engine.go:276-434 | Every state reachable from start-up satisfies the cluster invariant that the other gossip theorems assume |
| `GossipSafety.CountsAreCausalPrefixes` | internal/gossip/engine.go:276-434 | Prefix invariant: in every run, each replica's counts at each key are the sums over exactly the first clock[key] operations issued there, and over all of them at the writer |
| `GossipSafety.PushAgreesWithFullState` | internal/gossip/engine.go:296-353 | In every reachable state the push baseline is never stale, the filtered push gives the peer the same state as the full state, and a skipped push would have changed nothing |
| `GossipSafety.ReplyAgreesWithFullState` | internal/service/counter_service.go:584-609 | Reply baseline: whenever a request is answered the recorded reply clock is within the request's clock, and the filtered reply merges exactly like a full one |
| `GossipSafety.SkippedIff` | internal/gossip/engine.go:306-342 | For all states a push is skipped iff it is not the periodic one and clock and baseline read the same at every key |
| `GossipSafety.StaleBaselineSendsAll` | internal/gossip/engine.go:302-324 | Whenever the baseline exceeds the clock at some key the push is sent and carries everything the node holds |
| `GossipSafety.NoEchoIff` | internal/gossip/engine.go:422-428 | After a round is delivered the next push to that peer would be skipped iff nothing had reached the pusher since its snapshot that the peer's answer lacks |
| `GossipSafety.StepRefines` | internal/gossip/engine.go:296-353 | Each step of delta gossip is a step of full-state gossip, or nothing when the push is skipped |
| `GossipSafety.DeltaGossipRefinesFullGossip` | internal/gossip/engine.go:276-434 | Refinement over whole runs: every replica ends in the state it would have if all messages carried whole states and skipped pushes were left out |
| `GossipConvergence.CompleteValue` | internal/crdt/pn_counter.go:169-184 | A replica that has every operation reports total increments minus total decrements of the history |
| `GossipConvergence.SilenceMeansConvergence` | internal/gossip/engine.go:329-342 | If no round is in flight and every engine would skip every push, all replicas hold equal maps, those of the whole history, and report its value |
| `GossipConvergence.StepShrinksLag` | internal/gossip/engine.go:422-428 | Without new operations total clock lag plus baseline lag never grows, and each completed non-empty delta round strictly shrinks it |
| `GossipConvergence.DeltaRoundsAreBounded` | internal/gossip/engine.go:276-434 | Hence any operation-free run completes at most that many non-empty delta rounds, under any schedule and request loss |
| `GossipConvergence.ReachedPeerCatchesUp` | internal/gossip/engine.go:276-434 | After a push that is answered or skipped the peer's clock covers what the pusher had at the start, whatever other rounds overlap |
| `GossipConvergence.HubSweepConverges` | internal/gossip/engine.go:276-434 | Quiescent convergence: from any reachable state, rounds in flight included, once every node reached the hub and then the hub reached every node, all replicas equal the join of the starting states and report increments minus decrements |
| `GossipFaults.DeltaMergesLikeFullIff` | internal/crdt/delta.go:16-34 | For all states and any base: the delta merges like the full state iff the sender has no larger count at any key whose clock entry the base covers |
| `GossipFaults.PrefixDeltaIff` | internal/crdt/delta.go:16-34 | Between prefix states: iff the base covers no key on which the receiver's clock is behind |
| `GossipFaults.ReplyMergesLikeFullIff` | internal/service/counter_service.go:584-609 | For all states and any recorded reply clock, so after any losses and whatever they left behind: the filtered reply merges like the full one iff the responder has no larger count at any key whose clock entry the record or the request covers |
| `GossipFaults.PrefixReplyIff` | internal/service/counter_service.go:584-609 | Between prefix states: iff no key on which the sender is behind is covered by the record or the request |
| `GossipLoss.PrefixesIffRepliesShow` | internal/service/counter_service.go:584-609 | In every run from start-up with requests and replies lost and requests sent again within a round: all replicas hold causal prefixes at every point iff no delivered reply left out a key on which its receiver was behind |
| `GossipLoss.LosingFullRepliesIsHarmless` | internal/service/counter_service.go:566-577 | In every run from start-up in which every lost reply answered a full request, all replicas hold causal prefixes at every point: a full reply is not recorded |
| `GossipLoss.ReplyShowsIff` | internal/service/counter_service.go:588-597 | A reply leaves out no such key iff it is a full one, or the record and the request cover no key on which the receiver's clock is behind |
| `GossipLoss.MoveKeeps` | internal/gossip/engine.go:372-400 | Every move that delivers no such reply keeps prefixes, push baselines within both clocks and sound requests in flight |
| `GossipFaults.LostReplyHidesKey` | internal/service/counter_service.go:588-590 | A recorded reply the sender never got makes the next reply raise the sender's clock at that key without its counts |
| `GossipFaults.LostReplyRun` | internal/service/counter_service.go:584-609 | The concrete run in which one lost reply leaves a replica claiming an operation it does not count |
| `GossipFaults.FullStateRepairsKey` | internal/service/counter_service.go:611-624 | At any key where the source's clock is not behind, merging its full state gives the receiver that clock entry and at least the counts it claims, and exactly those iff the receiver's own counts were not above them, in particular if they lagged |
| `GossipFaults.TornPushIsExactIff` | internal/gossip/engine.go:292-294 | A push snapshot torn between its three reads is exact at a key iff no increment followed the first and no decrement the second read before the clock was read |
| `GossipFaults.TornPushLags` | internal/gossip/engine.go:292-294 | However torn, the counts sent only lag behind the clock sent with them |
| `GossipFaults.TornPushBreaks` | internal/gossip/engine.go:292-294 | A concrete torn snapshot that claims an operation it does not carry |
| `GossipFaults.IncrementVisibleIff` | internal/service/counter_service.go:99-102 | A peer sees an increment by d through max-merge iff d is not negative |
| `GossipResets.ResetSurvivesIff` | internal/service/counter_service.go:172-174 | For all states: after resetting a counter, merging a peer's full state leaves it empty iff the peer's view of that counter has no count and no clock entry above zero |
| `GossipResets.ResetUndoneInRuns` | internal/service/counter_service.go:172-174 | In every run a replica that resets a counter and merges a peer's full state holds for it exactly what the peer holds, so the reset survives iff the peer has heard of no operation on it |
| `GossipResets.ResetUndone` | internal/crdt/pn_counter.go:103-132 | A reachable input: one increment, one answered push, a reset and a merge of the full state, and the counter is back |
| `GossipResets.DeltaReplyAfterReset` | internal/service/counter_service.go:584-609 | After a reset a delta reply gives the replica the peer's clock entry in any case and its counts iff the peer's record and the request do not cover the entry, so it holds a prefix at that key iff they do not, or there is nothing |
| `GossipResets.DeltaReplyBreaksIff` | internal/service/counter_service.go:584-609 | In every run: the delta reply leaves the reset replica with prefixes at all keys of the counter iff record and request cover none of the peer's entries there |
| `GossipResets.ResetNodeClaimsWithoutCounts` | internal/service/counter_service.go:584-609 | A reachable input: after one increment, one answered push and a reset, every delta reply makes the reset replica claim an operation it does not count |
| `AnyNetwork.EventOk` | internal/crdt/pn_counter.go:187-205 | Every event of a network that loses, repeats, reorders and tears keeps the invariant that stored and travelling counts are ones their writer held, and only grows states |
| `AnyNetwork.CountsWereOnceHeld` | internal/crdt/pn_counter.go:187-205 | In every such run each stored count is a value its writer once held, and no count exceeds the writer's total |
| `AnyNetwork.BaselinesWithinClocks` | internal/gossip/engine.go:422-428 | In every such run a push baseline is within both ends' clocks |
| `AnyNetwork.IncrementOnlyValuesNeverFall` | internal/crdt/pn_counter.go:187-205 | With increments only, over any such network a replica's value never falls and never exceeds the increments issued |
| `AnyNetwork.UninterruptedAnswer` | internal/service/counter_service.go:545-609 | A request received and answered without interruption gives the cluster model's responder state and reply |
| `NetworkRepair.FullStateRepairs` | internal/service/counter_service.go:611-624 | In every run over any network, merging a full state from a prefix-holding source repairs every key where its clock is not behind: the clock entry is the source's, the counts are at least what it claims and never more than was issued, and exact iff they were not above the source's |
| `NetworkRepair.DeliveredPeerCatchesUp` | internal/gossip/engine.go:308-324 | A full push that is read, sent and received within a run brings the receiver's counts and clock to at least what the sender had at the start, whatever else the network does |
| `NetworkRepair.FullSyncHeals` | internal/gossip/engine.go:308-324 | After any faults: once every replica's full push has reached the hub and then the hub's has reached every replica, with no further operations, all replicas hold every operation exactly once, equal maps, and report increments minus decrements |
| `FineGrained.MoveInv` | internal/service/counter_service.go:585-597 | Every lock-sized step of operations, merges and reply construction, in any interleaving, keeps the freshness invariant |
| `FineGrained.CountsNeverOlderThanClock` | internal/service/counter_service.go:113-114 | In every interleaving a replica's counts include at least the operations its clock entry claims and nothing that was not issued; they are exact once the clock covers the history |
| `FineGrained.RepliesNeverOlderThanClock` | internal/service/counter_service.go:585-597 | Every reply on its way carries counts at least as new as its clock entry, or an entry the receiver already has |
| `FineGrained.UninterruptedRound` | internal/service/counter_service.go:545-609 | Seven lock-sized steps without interruption do what the cluster model's push, answer and delivery do |
| `Keys.OwnerOfKey` | internal/crdt/pn_counter.go:64-69 | The replica id can be read back from every key built from a colon-free id |
| `Naming.BelongsIff` | internal/crdt/pn_counter.go:75-80 | For all names, colons or not: a key belongs to a counter iff it was built for that counter or for one whose name extends it across a colon |
| `Naming.KeyInjective` | internal/crdt/pn_counter.go:64-69 | For all names: two (name, replica) pairs share a key iff they are the same counter and replica |
| `Naming.SharedSimulatesSeparateCounters` | internal/crdt/pn_counter.go:46-205 | Over any run of increments, decrements, resets and merges on any names, the shared maps seen through one name are an independent PN-Counter that saw that name's actions and the resets of names it extends |
| `Naming.ResetSparesIff` | internal/crdt/pn_counter.go:101-132 | Resetting one name leaves another counter alone iff that one does not extend it or is empty; for colon-free names, iff they differ or it is empty |
| `Naming.ResetReachesExtension` | internal/crdt/pn_counter.go:125-132 | Resetting "a" empties the counter "a:b" |
| `Naming.ValueNameReadsView` | internal/crdt/pn_counter.go:83-99 | For all maps and names ValueName is the value of the name's own counter plus the entries of counters whose names extend it |
| `Naming.ForeignIff` | internal/crdt/pn_counter.go:75-80 | Those extra entries are exactly the ones built for a different name that extends the one read |
| `Naming.ValueNameIsOwnValue` | internal/crdt/pn_counter.go:83-99 | With colon-free names there are none, so ValueName is the value of the name's own counter |
| `Naming.RunsKeepKeysWell` | internal/crdt/pn_counter.go:46-205 | Runs over colon-free names and ids keep every key well formed, as those readings need |
| `Naming.NamesAccountForTotal` | internal/crdt/pn_counter.go:136-184 | For arbitrary maps: default plus the sum of ValueName over Names is Value, less the entries under keys that start with a colon, plus the default counter once more if Names lists it |
| `Naming.ValueSplitsOverNames` | internal/crdt/pn_counter.go:136-184 | On well-formed keys Value equals ValueName(default) plus the sum of ValueName over Names |
| `Crdt.MergeInto` | internal/crdt/delta.go:37-50 | The merge loop computes the max-merge in whatever order the map is visited |
| `Crdt.ClockNewerThan` | internal/crdt/delta.go:4-11 | True iff some clock entry exceeds the base |
| `Crdt.DeltaFrom` | internal/crdt/delta.go:16-34 | Selects exactly the entries whose clock entry exceeds the base; empty iff the clock is not newer |
| `Crdt.MaxClock` | internal/crdt/delta.go:53-61 | The largest version, or zero when none is above zero |
| `Crdt.PNCounter.IncrementName` | internal/crdt/pn_counter.go:46-51 | Adds to this replica's key of the named counter and to nothing else |
| `Crdt.PNCounter.DecrementName` | internal/crdt/pn_counter.go:54-59 | Likewise in the negative map |
| `Crdt.PNCounter.ValueName` | internal/crdt/pn_counter.go:83-99 | Returns the name's positive minus negative sum, which is the value of the name's own counter |
| `Crdt.PNCounter.ResetName` | internal/crdt/pn_counter.go:103-132 | Removes exactly the entries of the named counter |
| `Crdt.PNCounter.Names` | internal/crdt/pn_counter.go:136-158 | Returns, in strictly ascending order, exactly the non-empty texts before a first colon, over both maps |
| `Crdt.BeforeIff` | internal/crdt/pn_counter.go:156-157 | The order of that list is the lexicographic one: the first difference decides, and a prefix comes first |
| `Crdt.PNCounter.Value` | internal/crdt/pn_counter.go:169-184 | Returns the positive minus the negative total |
| `Crdt.PNCounter.Merge` | internal/crdt/pn_counter.go:187-205 | Max-merges the other counter's maps into this one's |
| `Recovery.RestoreExactIff` | internal/service/counter_service.go:668-693 | Restoring a stored state is exact iff every stored entry is above zero |
| `Recovery.RecoveryEqualsLiveState` | internal/service/counter_service.go:668-804 | After any run of increments, decrements, resets, merges, atomic snapshots and restarts, restoring and replaying gives exactly the live maps, and the numbers in the log increase strictly |
| `Recovery.NumberingContinuesIff` | internal/persistence/wal.go:94-146 | Numbers continue across restart-then-replay; across Truncate they keep increasing iff the log was empty |
| `Recovery.DurableAppend` | internal/persistence/wal.go:61-91 | A mutation that is applied and appended under the next number stays recoverable, whatever it is |
| `Recovery.MutationsAreOperations` | internal/service/counter_service.go:113-114 | The logged mutations are the operations and merges of the gossip model |
| `Recovery.ReplayIsKeywise` | internal/service/counter_service.go:731-769 | Replaying a log acts on each key separately |
| `Recovery.CrashBeforeTruncate` | internal/service/counter_service.go:785-801 | After a crash between Save and Truncate a key whose counter the log resets comes back exactly; any other comes back with exactly the log's own deltas and ticks once more; never less |
| `Recovery.SnapshotExactIff` | internal/service/counter_service.go:785-801 | For whole mutations between the three reads of a snapshot and up to Truncate, resets included: recovery equals the live state iff none of them disturbs a map after it was read |
| `Recovery.OverlappedSnapshotIff` | internal/service/counter_service.go:773-804 | For every interleaving, a mutation's counts and tick on different sides of the reads and entries logged after Truncate included: recovery equals the live state iff, map by map and key by key, replaying the late entries does to the value read what really happened to it |
| `Recovery.SplitSnapshotExactIff` | internal/service/counter_service.go:113-114 | With nothing logged late: iff no map is disturbed by the mutations that moved it after its read |
| `Recovery.IncrementAfterSaveIsLost` | internal/service/counter_service.go:785-801 | An increment or decrement between Save and Truncate without a reset of its counter there is lost on recovery |
| `Recovery.LateEntriesExactIff` | internal/service/counter_service.go:113-119 | For mutations that Save has seen but whose entries are logged after Truncate: recovery is exact iff every key they add to is also reset by them; otherwise they are counted twice |
| `Nodes.WALStore.AppendCounter` | internal/persistence/wal.go:61-91 | Appends one entry under the next number, or leaves the log alone when opening or writing fails; older entries stay and numbers stay strictly increasing |
| `Nodes.WALStore.Replay` | internal/persistence/wal.go:94-127 | Returns all entries in order, or fails at the first unreadable one; the number moves up to the largest read |
| `Nodes.CounterService.Increment` | internal/service/counter_service.go:95-125 | Applies and then logs the increment, a zero delta meaning one; what the disk can recover stays equal to the live state when the write succeeds |
| `Nodes.CounterService.Decrement` | internal/service/counter_service.go:127-157 | Likewise for a decrement |
| `Nodes.CounterService.Reset` | internal/service/counter_service.go:159-194 | Removes the counter, drops all reply baselines and the registered engine's push baselines, and logs the reset, staying recoverable |
| `Nodes.CounterService.SyncState` | internal/service/counter_service.go:545-577 | Merges and logs a request, applies its membership reports and answers it: exactly the responder step of the cluster model, staying recoverable |
| `Nodes.CounterService.BuildDeltaReply` | internal/service/counter_service.go:584-609 | Builds the model's filtered reply and advances the reply baseline before it is sent |
| `Nodes.CounterService.Restore` | internal/service/counter_service.go:668-693 | Joins the stored state into the live one |
| `Nodes.CounterService.ReplayWAL` | internal/service/counter_service.go:731-769 | The loop computes the replay function and numbering resumes from the largest logged number; an unreadable log changes nothing |
| `Nodes.CounterService.Snapshot` | internal/service/counter_service.go:773-804 | Stores the live state and empties the log, staying recoverable; a failed save changes nothing, a failed removal keeps the log |
| `Nodes.RestartNode` | internal/service/counter_service.go:668-769 | A new service over an existing disk ends in the recovered state that RecoveryEqualsLiveState is about |
| `Nodes.CrashAndRestart` | internal/service/counter_service.go:668-769 | A node whose disk can recover its live state restarts in exactly that state, and can be recovered again |
| `Nodes.GossipEngine.TryAcquire` | internal/gossip/engine.go:215-225 | A round starts iff none is in flight for the peer |
| `Nodes.GossipEngine.PrepareUpdate` | internal/gossip/engine.go:292-354 | Produces exactly the model's push with the node's membership reports: skipped, filtered, or full on the periodic round or a stale baseline |
| `Nodes.GossipEngine.FinishRound` | internal/gossip/engine.go:419-454 | Merges and logs the reply, applies its membership reports and sets the new baseline: exactly the pusher step of the cluster model, staying recoverable |
| `Nodes.GossipEngine.InvalidateBaselines` | internal/gossip/engine.go:171-175 | Forgets all baselines, so no push is skipped while the node has any clock entry |
| `Election.LeaderKeptIff` | internal/election/bully.go:305-339 | A leader facing lower-priority claims still considers itself leader iff every claim of a newer term came within the timeout of its own election |
| `Election.WinnerKeptIff` | internal/election/bully.go:262-269 | A node that won at some time keeps its place against lower-priority claims iff each of newer term came within the timeout of that time |
| `Election.HealthyLeaderDisplaced` | internal/election/bully.go:291-303 | A run from start-up in which a leader has just announced itself and been heard, a third node's probe makes the runner-up hold an election whose own probes fail, and the leader is displaced |
| `Election.SplitBrainResolves` | internal/election/bully.go:315-339 | Competing claims in any order and multiplicity within the timeout, the top one reaching every node once: everybody follows the top claimant whatever the terms, and only it considers itself leader |
| `Election.OnlyTopClaimsIff` | internal/election/bully.go:214-226 | In every run, whatever the probe outcomes: nobody but the top node ever comes to claim iff every election with a peer to probe got an answer |
| `Election.ElectionSafety` | internal/election/bully.go:194-303 | In every run from start-up whose opposed elections get an answer, with Coordinator messages lost, repeated or reordered: only the top-priority node ever claims, every known leader is that node, every recorded or travelling term is at most its term, and every recipient follows it |
| `Election.AnnouncementsKeepQuiet` | internal/election/bully.go:159-164 | An announcement goes out to every other node with the leader's term, and whoever receives it decides on nothing until exactly the timeout later |
| `Election.FailoverStep` | internal/election/bully.go:262-286 | After the leader is gone no step makes a survivor leave the top survivor, and whoever hears a convincing claim follows it |
| `Election.HearFailover` | internal/election/bully.go:315-329 | A survivor with a stale record follows the top survivor on its Coordinator message iff the message outranks that record |
| `Election.FailoverBound` | internal/election/bully.go:194-286 | After (largest survivor term - its own term) claims, the top survivor's next claim goes out to everyone, and once every survivor has received that one, everyone follows it |
| `Election.FailoverIsPossible` | internal/election/bully.go:148-244 | From every orphaned cluster at rest there is a run of ticks, probes and deliveries, with answered elections, after which everyone follows the top survivor |
| `Election.ElectsIff` | internal/election/bully.go:154-170 | A tick starts an election iff the node is not the leader and either knows none or has not heard of it for longer than the timeout |
| `Election.FailoverNeedsElections` | internal/election/bully.go:319-321 | The bound is tight: a survivor that remembers a higher-priority leader does not follow the top survivor before that one has claimed more often than its term was behind |
| `Election.FailoverSafety` | internal/election/bully.go:194-303 | Meanwhile no other survivor ever comes to claim or considers itself leader |
| `Bully.BullyElection.HandleCoordinator` | internal/election/bully.go:315-339 | The new record is the cluster model's answer to the claim |
| `Bully.BullyElection.BecomeLeader` | internal/election/bully.go:262-286 | Claims the next term and sends it to every listed peer but itself, and to nobody else |
| `Bully.BullyElection.HigherPriorityLivePeers` | internal/election/bully.go:248-259 | Returns exactly the listed peers, other than itself, of higher priority |
| `Bully.BullyElection.StartElection` | internal/election/bully.go:194-244 | Claims iff no election is running and no listed peer of higher priority answers; otherwise leaves the record alone |
| `Bully.ElectionIsCampaign` | internal/election/bully.go:214-226 | With complete membership knowledge the object's election comes to claim iff the cluster model's campaign with the same answers does, and sends exactly the model's broadcast |
| `Bully.BullyElection.HandleElection` | internal/election/bully.go:291-303 | Always answers, and starts an election exactly when the cluster model's probe step says so |
| `Bully.BullyElection.Tick` | internal/election/bully.go:148-174 | Announces iff the node is the leader; elects iff it is not and knows none, or last heard of it more than the timeout ago |
| `Membership.FailureEscalation` | internal/cluster/membership.go:84-235 | In every run of a table from start-up: active iff Alive, Alive means no suspicion, the node itself stays Alive, and a Dead member was Suspect (or first heard of as Dead) after it was last Alive |
| `Membership.LeftStaysIff` | internal/cluster/membership.go:382-412 | A member that left stays so throughout a run iff no heartbeat or join revives it and, when it was under suspicion, no peer reports it Dead |
| `Membership.LeftBecomesDead` | internal/cluster/membership.go:396-403 | A reachable member that joined, missed a heartbeat and was removed is Left, and one Dead report makes it Dead |
| `Membership.DeadStaysIff` | internal/cluster/membership.go:162-177 | A dead member stays dead throughout a run iff no join or heartbeat revives it and nobody says that it left; failed heartbeats do not demote it |
| `Membership.SweepMovesIff` | internal/cluster/membership.go:206-235 | In every run a sweep moves a member iff it is another one, Alive or Suspect, and its last sign of life in the run is more than the threshold ago |
| `Membership.PunctualIsNeverSwept` | internal/cluster/membership.go:218-221 | A member whose signs of life never lie further back than the threshold is never moved by a sweep |
| `Membership.SilentIsSuspectThenDead` | internal/cluster/membership.go:223-231 | An Alive member silent for longer than the threshold is Suspect after one sweep and Dead after a second, whatever else happens that is not news of it |
| `Membership.HeartbeatIsLastSign` | internal/cluster/membership.go:115-149 | The heartbeat time of an entry is the time of the member's last join, heartbeat or answered probe in the run |
| `Membership.LastWordsAreKept` | internal/cluster/membership.go:115-160 | A member is listed under the address and priority last learned for it |
| `Membership.ReportsNeedConfirmation` | internal/cluster/membership.go:379-408 | Reports alone declare an Alive member Dead iff one that accuses it is followed by one that says Dead, and suspect it iff it was accused without that |
| `Membership.SwimNeedsConsecutiveFailures` | internal/cluster/swim.go:86-121 | SWIM alone declares an Alive member Dead iff max(2, threshold) consecutive probes of it failed, and otherwise suspects it iff the latest one failed |
| `MembershipGossip.GossipOnlyEscalates` | internal/cluster/membership.go:365-412 | Cluster-wide, however reports are lost, repeated and reordered, gossip never moves a status back towards Alive and nobody says Dead or Left of a member unless somebody already did |
| `MembershipGossip.GossipSpreads` | internal/cluster/membership.go:365-412 | A node that hears another's gossip still believes a third member Alive iff it did and the other does not say otherwise; Left and confirmed Dead are taken over |
| `MembershipGossip.EntriesChangeAtMostTwice` | internal/cluster/membership.go:382-412 | While nobody is said to have left, the number of changes of an entry is its rise along Alive, Suspect, Dead, so at most two |
| `MembershipGossip.LeftAndDeadAlternate` | internal/cluster/membership.go:396-411 | With Left reports there is no bound: an entry that left under suspicion changes n times in some run, for every n |
| `MembershipGossip.AlternationIsReachable` | internal/cluster/membership.go:365-411 | Three tables reached from start-up give such a world once two of them have gossiped |
| `Members.MemberTable.AddOrUpdateMemberStatus` | internal/cluster/membership.go:115-138 | An unknown member is added as reported; of a known one only Alive is believed |
| `Members.MemberTable.MarkStale` | internal/cluster/membership.go:206-235 | The sweep escalates every stale member but the node itself by one step and returns exactly the ids whose status changed, each once |
| `Members.MemberTable.GossipMembership` | internal/cluster/membership.go:365-377 | Returns the status of every member but the node itself |
| `Members.MemberTable.ApplyMembership` | internal/cluster/membership.go:382-412 | Applies every report once, to known members other than the node itself, in whatever order |
| `Members.MemberTable.GetRandomProbeTarget` | internal/cluster/membership.go:313-337 | Returns some Alive or Suspect member other than the node, or none iff there is none |
| `Members.SwimDetector.Round` | internal/cluster/swim.go:86-121 | One round is the table model's probe step on its target, and nothing when there is no target |
| `RateLimiter.TokenBucketBound` | internal/server/middleware.go:115-133 | In any trace with non-decreasing times at most perSecond * (1 + elapsed seconds) of the calls from one call to another are allowed, and tokens stay within [0, capacity] |
| `RateLimiter.AllowedIff` | internal/server/middleware.go:115-133 | The exact law: a call is allowed iff, counted back to every earlier call, the calls allowed since plus this one stay within perSecond * (1 + elapsed seconds) |
| `RateLimiter.SpacedCallsAllowed` | internal/server/middleware.go:115-133 | Calls at least 1/perSecond apart are all allowed |
| `RateLimiter.UnlimitedAllowsAll` | internal/server/middleware.go:102-105 | A rate of zero or less allows every call |
| `RateLimiter.Limiter.Allow` | internal/server/middleware.go:115-133 | Refills by elapsed time up to the capacity, and takes one token iff it answers yes on at least one |

## Left out

- gRPC streams, dialing, connection cache, retries, timeouts and the circuit breaker: they appear as delivery, loss
  or the outcome of a probe.
- The fields of a state update other than type, counts and clock: LastSyncVersion, timestamps and tracing; the
  membership field is modelled on its own.
- Protocol buffers, JSON, Redis, file handles and fsync: the store is a cell and the log a sequence.
- Nodes without a store or a log: both are configured.
- Gateway, dashboard, metrics, tracing, configuration and command-line wiring; seed recovery, which merges without a
  log entry and so lies outside the recovery theorem.
- Authentication, sharding, tags, counter listing, node discovery and seed rotation.
- Overflow of 64-bit integers, and rounding in the rate limiter, which is modelled over the reals.
- Negative deltas in gossip runs, and node ids that contain `:`.
- Resets inside cluster gossip runs: `GossipResets.dfy` says what the first merge after a reset does; resets are part
  of the naming and recovery models.
- Torn push snapshots in the cluster and fine-grained models, where a push snapshot is atomic; `GossipFaults.dfy` and
  `AnyNetwork.dfy` have them.
- Merges split between counts and clock in `AnyNetwork.dfy`, where a merge is one step; `FineGrained.dfy` splits them.
- Snapshots that overlap with mutations in `Recovery.RecoveryEqualsLiveState`; `Recovery.OverlappedSnapshotIff` gives
  the exact condition for those.
- SWIM rounds that overlap with other changes of the same member: a round is atomic.
- A leader that loses its place between the Run loop's check and the announcement: the two are one step.
- Wall-clock waiting for a Coordinator message after a lost election: it changes no state.
- Election.ElectionSafety: assumes that elections with a peer to probe get an answer, because the property fails
  without it; `Election.OnlyTopClaimsIff` is the unconditional statement.
- Election.FailoverSafety: assumes the same for the survivors' elections.
- Bully.BullyElection.HandleElection: reports that an election is due; the goroutine that runs it is a later step.
- Nodes.WALStore.AppendCounter: a partly written line is not modelled; it shows up as an unreadable line in Replay.
- Members.MemberTable.GetRandomProbeTarget: any candidate may be returned; the distribution is not modelled.
