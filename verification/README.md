# HuddleCluster, verified

A Dafny model of the parts of HuddleCluster whose correctness is not visible from any single function:
the leader election of the masters, the two server rings and their rotation, the node lifecycle with
flap detection, rate limiting and scheduling, service discovery over DNS, the request-hedging budget,
adaptive thresholds and percentiles, the hourly limit and the quarantine of the self-healer, and the
export buffer.

Each component has the same shape. A module of functions says what each locked section of the source
does to its fields; a class runs the same sections on fields updated in place and is proved to do
exactly that; a `…Laws` module proves what holds over whole runs. Where threads interleave between locked
sections (elections, overlapping picks, hedging, exports, remediations), the runs are those of the single
sections in any order. Floats are modelled as reals, clock readings and network replies are arguments, and
node and server ids are numbers.

| files | what they hold |
|---|---|
| `ElectionNode`, `ClusterHA` | one master: its locked sections as functions, and the object |
| `Election`, `ElectionSafety`, `ElectionProgress`, `ElectionBallots`, `ElectionWitness` | all masters over a lossy network with crashes |
| `HeapQueue`, `Rings`, `HuddleCluster` | the binary heap of `heapq`, the two rings, and the object |
| `RingLaws`, `RingOrder`, `RotationGates`, `RotationLaws` | conservation, heap order over runs, who leaves and who returns, bouncing |
| `RoutingLaws`, `SessionLaws`, `RetryLaws` | fairness, sticky sessions, retries |
| `Lifecycle`, `LifecycleHistory`, `LifecycleLaws` | node records and their history, flap window, quarantine |
| `RateLimiter`, `RateLimiterLaws`, `Scheduler`, `SchedulerLaws`, `PlacementLaws`, `PickRaces` | token buckets, placements, overlapping picks |
| `Dns`, `DnsLaws`, `AddressText`, `ResponseLaws`, `DnsMessages` | the responder, the query client, address text, and a standard reader |
| `Remediator`, `RemediatorLaws`, `RemediatorHistory`, `ExportBuffer`, `ExportLaws` | the self-healer, the export buffer |
| `Quarantine`, `QuarantineLaws`, `Healing`, `HealingLaws`, `HealingReports` | the rings and the remediator together, and the whole rotation |
| `Hedging`, `Percentiles`, `AdaptiveThresholds`, `AdaptiveLaws` | budget, percentiles, thresholds |

## Where the code does not keep a promise

The model keeps the code as it is. Where a promise fails, a lemma shows an input and another says exactly
when the promise holds.

- **Election.** Three places act on a term captured before the lock was released: a win
  (`huddle_cluster_pkg/cluster_ha.py:606-618`) and two step-downs (`:597-600`, `:669-671`). The intended
  meaning (`:18-21`) needs each to compare with the current term. `Election.Fresh` is that comparison, step
  by step; it also asks that a restart finds its state file (`:110-115` warns about running without one).
  The safety invariant holds all along a run if and only if every step is fresh; by itself, vote-once holds
  if and only if every step except wins is fresh. For each of the four there is a run in which it is the
  only step that is not fresh and which ends with two leaders of one term.
- **Rotation.** A server evicted for heat can return in the same cycle unless the thresholds are separated
  for its weight, the two ring sizes are equal, or the cool threshold is negative; the constructor's check
  (cool below heat) is not enough for weights below one. A dwell time helps only in cycles shorter than it:
  the gate reads the clock again (`huddle_cluster.py:1875`) after callbacks that may take any time
  (`:2012-2017`). All of this is for temperatures that stand still during the cycle: `update_temperature`
  takes the server's lock only (`:637`), so another thread may cool an evicted server before the gate, and
  then separated thresholds prevent nothing.
- **Quarantine.** A server in quarantine is meant to get no live traffic
  (`huddle_cluster_pkg/cluster_remediator.py:100-103`), but only step 2 of a rotation asks
  (`huddle_cluster.py:1885`). One gets into the inner ring, or stays there, in three ways: a remediation
  triggered while it is there, a refill to the minimum size, and a registration straight into the inner
  ring. Over a run these are the only ones. Besides triggers by hand, step 4 of the rotation itself
  (`:1920-1927`) does the first: it scans a list that a server leaves only when it returns cool, so one
  pulled back warm is quarantined, minutes later, in the inner ring; a rotation is safe if and only if its
  scan meets no such server that is under its hourly limit. From outside the inner ring, a quarantined
  server is chosen for a request or a retry exactly as the emergency choice of an empty ring, and for the
  backup of a hedged request exactly as the coolest other outer server when the primary is alone inside.
- **Cold start.** A new server is to rest outside for its cold start (`huddle_cluster.py:1013-1024`). Every rotation
  waits for that, but the refill after a removal does not ask (`:2101-2111`) and may take it at once; it is
  the only way in.
- **Remediation.** A server can be recorded as healing and yet not be in the quarantine set, exactly when
  an action succeeds whose quarantine was lifted while it ran.
- **Scheduling.** The rate-limit filter runs before the lock is taken, and the charge ignores whether a
  token was left. With at most c picks under way at once, all placements obey the token bucket if and only
  if c is at most one or the bucket never holds a token; what they always obey is a full bucket, 2 (c - 1)
  more, and c times the inflow. At one instant, floor(capacity) + c - 1 placements are possible, and no more.
- **Query names.** A name with an empty label (a trailing dot, say) is understood and answered by the
  responder, and the client then misreads the answer.
- **Answers.** Client and responder receive at most 512 octets, and the sixteen octets of each answer are
  not counted: a service with more valid addresses than fit beside its query cannot be looked up.
- **Hedging.** Documented: backups never exceed the budget share of the traffic. The first backup does;
  what holds is the share plus the number of requests that passed the check concurrently, or nine. For every
  budget below one, one less than that is reached; a budget of one is never exceeded.
- **Export.** A successful round skips events if the buffer was trimmed while it was sending.
- **Recovery count.** With a configured recovery count below two, a quarantined node still needs two signs
  of life.

## Model

The methods without a loop or a case distinction of their own (the constructors, `PersistBallot`,
`StepDownTo`, `EnterReadonlyMode`, `ExitReadonlyMode`, `ForceEvictServer`, `FinishEviction`,
`MoveRootToInner`, `HandleLeave`, `RecordRecovery`, `CheckBudget` and the like) are proved to do what their
functions say, and have no rows.

| member | source | states |
|---|---|---|
| ClusterHAObject.ClusterHA.HandleVoteRequest | huddle_cluster_pkg/cluster_ha.py:451-477 | Reply and new state of every case of a vote request |
| ClusterHAObject.ClusterHA.HandleAppendEntries | huddle_cluster_pkg/cluster_ha.py:479-498 | Reply and new state of a leader's message, healing included |
| ClusterHAObject.ClusterHA.StartElection | huddle_cluster_pkg/cluster_ha.py:570-618 | An election whose replies arrive undisturbed: the loop equals the fold of its single-reply steps |
| ClusterHAObject.ClusterHA.HeartbeatRound | huddle_cluster_pkg/cluster_ha.py:647-707 | A heartbeat round: step-down on a higher term, else quorum evaluation over the peers that answered |
| Election.ElectKeeps | huddle_cluster_pkg/cluster_ha.py:570-581 | Standing for election keeps the safety invariant of the whole cluster |
| Election.VoteReqKeeps | huddle_cluster_pkg/cluster_ha.py:451-477 | So does answering any vote request, however late or repeated |
| Election.AppendKeeps | huddle_cluster_pkg/cluster_ha.py:479-498 | So does hearing from any leader |
| Election.PushKeeps | huddle_cluster_pkg/cluster_ha.py:613-641 | So do the pushes of a new leader and of the sync thread |
| Election.GuardKeeps | huddle_cluster_pkg/cluster_ha.py:682-707 | So does quorum evaluation and the read-only guard |
| Election.StepDownExact | huddle_cluster_pkg/cluster_ha.py:742-754 | A step-down keeps the invariant if and only if it goes to a higher term, or to the same one with no vote cast |
| Election.VoteReplyExact | huddle_cluster_pkg/cluster_ha.py:591-604 | A vote reply keeps it if and only if its step-down, if any, is one of those |
| Election.CountOne | huddle_cluster_pkg/cluster_ha.py:588-604 | The vote counter never exceeds the distinct voters really won so far |
| Election.WinExact | huddle_cluster_pkg/cluster_ha.py:606-618 | A win keeps the invariant if and only if the term is still the one the votes were counted in |
| Election.CrashExact | huddle_cluster_pkg/cluster_ha.py:218-228 | A crash keeps it if and only if the ballot was saved, or was still fresh |
| Election.VoteReqCrashExact | huddle_cluster_pkg/cluster_ha.py:459-469 | The same for a crash between the two writes of one vote |
| Election.BeatReplyExact | huddle_cluster_pkg/cluster_ha.py:661-675 | A heartbeat reply keeps it if and only if its step-down does |
| ElectionProgress.VoteRequestExactly | huddle_cluster_pkg/cluster_ha.py:451-477 | Any delivered vote request: granted and recorded exactly if its term is later than the receiver's, or the same with its vote free or already for that candidate; otherwise the ballot stands. A later term leaves a follower of nobody |
| ElectionProgress.AppendExactly | huddle_cluster_pkg/cluster_ha.py:479-498 | Any delivered append of the receiver's term or a later one leaves it a follower of that leader in that term, its vote kept if the term was, its guard healed if that is on; one of an earlier term is refused and changes nothing |
| ElectionProgress.RoundVerdict | huddle_cluster_pkg/cluster_ha.py:682-707 | A leader goes on exactly while it reaches more than half of the cluster, itself included, or its quorum timeout has not passed; then it is a read-only follower of nobody |
| ElectionProgress.KeepsFollowing | huddle_cluster_pkg/cluster_ha.py:479-498 | Over runs of fresh steps: whoever follows a leader of a term keeps following it until it stands, restarts, wins or hears of a higher term |
| ElectionProgress.DeliveredIsFollowed | huddle_cluster_pkg/cluster_ha.py:491-493 | After an append of its own or a later term is delivered, and until one of these, the receiver follows its sender |
| ElectionProgress.AllFollow | huddle_cluster_pkg/cluster_ha.py:613-641 | Once a leader's append has been delivered to each of a set of nodes, none of which is unsettled since, they all follow it |
| ElectionProgress.ElectionSucceeds | huddle_cluster_pkg/cluster_ha.py:570-641 | From every state of every fresh run: if nobody's term is ahead of it, a node that neither leads nor is in an election can be elected: the run goes on, fresh, until it leads the next term and all others follow it |
| ElectionSafety.RunIsSafeIffFresh | huddle_cluster_pkg/cluster_ha.py:570-622 | Over every run of every cluster, with loss, delay, reordering, repetition and crashes: the invariant holds throughout if and only if no step acts on stale data |
| ElectionSafety.OneWinner | huddle_cluster_pkg/cluster_ha.py:588-607 | Two majorities of one term intersect, so they elected the same candidate |
| ElectionSafety.OneWinnerEver | huddle_cluster_pkg/cluster_ha.py:588-607 | The same for majorities reached at different moments of a run |
| ElectionSafety.ElectionSafety | huddle_cluster_pkg/cluster_ha.py:606-622 | At most one node is ever leader in a given term |
| ElectionSafety.LeaderAgreement | huddle_cluster_pkg/cluster_ha.py:491-493 | All who know a leader of a term know the same one |
| ElectionSafety.VoteOnce | huddle_cluster_pkg/cluster_ha.py:459-475 | Between any two moments: terms never go back, and a vote stands while its term lasts, across crashes |
| ElectionBallots.StepKeepsExactly | huddle_cluster_pkg/cluster_ha.py:238-259 | In any state, safe or not, a step keeps every ballot if and only if it is a win or fresh |
| ElectionBallots.VoteOnceExactly | huddle_cluster_pkg/cluster_ha.py:742-750 | Over a run: no term goes back and no vote changes within its term if and only if every step-down and restart was fresh |
| ElectionWitness.StaleWinElectsTwoLeaders | huddle_cluster_pkg/cluster_ha.py:606-618 | A run of eight steps, all fresh but the last, a win, ending with two leaders of one term |
| ElectionWitness.RestartElectsTwoLeaders | huddle_cluster_pkg/cluster_ha.py:218-228 | A run whose only stale step is a restart without a state file, ending with two leaders of one term |
| ElectionWitness.StaleVoteReplyElectsTwoLeaders | huddle_cluster_pkg/cluster_ha.py:597-600 | The same where it is a step-down on a late vote reply |
| ElectionWitness.StaleBeatReplyElectsTwoLeaders | huddle_cluster_pkg/cluster_ha.py:669-671 | The same where it is a step-down on a late heartbeat reply |
| HeapQueue.PushHeap | huddle_cluster.py:2002-2002 | `heappush` keeps a binary heap, and the bag of elements plus one |
| HeapQueue.PopHeap | huddle_cluster.py:1889-1889 | `heappop` keeps the heap, and the bag minus the root |
| HeapQueue.HeapifyIsHeap | huddle_cluster.py:1058-1058 | `heapify` makes a heap of any list whatsoever |
| HeapQueue.RootIsMin | huddle_cluster.py:1874-1874 | The root of a heap is no greater than anything in it |
| RingOrder.OuterRemovalRestoresHeap | huddle_cluster.py:1055-1060 | Removing a server of the outer ring leaves a heap of exactly the others, whatever the order was before |
| RingOrder.HeapSince | huddle_cluster.py:1047-1063 | In every run: from the start, and from any such removal, the outer ring is a heap, through all operations, until somebody writes a new temperature into one of its servers |
| RingOrder.CoolestIsNext | huddle_cluster.py:1085-1096 | So what a refill or promotion takes then, and what the emergency choice answers, is a coolest server of the outer ring |
| RingOrder.RefillSize | huddle_cluster.py:2101-2111 | A refill adds until the minimum size is reached or nobody is outside, and never more |
| HuddleClusterObject.HuddleCluster.AddServer | huddle_cluster.py:993-1032 | The rings after registering a server, cold start and full ring included |
| HuddleClusterObject.HuddleCluster.RemoveServer | huddle_cluster.py:1034-1063 | The rings after removing one, and whether it was found |
| HuddleClusterObject.HuddleCluster.EvictServer | huddle_cluster.py:1953-1991 | A server leaves the inner ring, its bindings go with it, and it drains or rests |
| HuddleClusterObject.HuddleCluster.MaybePullFromOuter | huddle_cluster.py:2101-2111 | The inner ring refills to its minimum |
| HuddleClusterObject.HuddleCluster.RotateRings | huddle_cluster.py:1829-1909 | The rings after steps 1 to 3 of a cycle, whatever its clock readings, and whether anything moved |
| HuddleClusterObject.HuddleCluster.CheckDrainingServers | huddle_cluster.py:2260-2301 | Every drain that is over, by connections or by time, completes |
| HuddleClusterObject.HuddleCluster.NextServer | huddle_cluster.py:1104-1144 | Round robin, sticky routing and the emergency choice |
| HuddleClusterObject.HuddleCluster.NextServerExcluding | huddle_cluster.py:1604-1632 | The scan past the servers already tried |
| HuddleClusterObject.HuddleCluster.RequestWithRetry | huddle_cluster.py:1634-1778 | The attempts of one request and its verdict, for every pattern of failures |
| HuddleClusterObject.HuddleCluster.BackupServer | huddle_cluster.py:2669-2676 | The second server of a hedged request |
| RingLaws.ToEvictIsDue | huddle_cluster.py:1842-1863 | Step 1 evicts distinct inner servers that are due, at most a third (or one), never below the minimum |
| RingLaws.RotateKeeps | huddle_cluster.py:1842-1909 | A cycle conserves servers, keeps both ring bounds, and ends at the minimum size or with only healthy, untripped inner servers |
| RingLaws.RemoveKeeps | huddle_cluster.py:1047-1063 | A removal forgets the server everywhere and refills the inner ring to its minimum while the outer one lasts |
| RingLaws.RunsConserve | huddle_cluster.py:1013-1062 | In every state of every run of all operations: each registered server is in exactly one ring, where its position says; every binding names an inner or a removed server; the inner ring is within its maximum |
| RotationGates.StepOneExactly | huddle_cluster.py:1842-1867 | Step 1 evicts only inner servers that are too slow or too hot and may move, for that reason; it leaves one inside only if its cap is reached, by others before it |
| RotationGates.EvictedServer | huddle_cluster.py:1953-1991 | An eviction changes position, time stamp and, for a slow server, the temperature, and nothing else of any server |
| RotationGates.EvictedPlace | huddle_cluster.py:1953-2002 | It goes to the end of the draining list or into the outer ring; the others keep their order; exactly its own bindings go |
| RotationGates.CompletedExactly | huddle_cluster.py:2275-2285 | The drains that complete are exactly those without open connections or out of time |
| RotationGates.PromotedPassed | huddle_cluster.py:1873-1893 | Every server that step 2 brings in was past its cold start, had dwelled for the minimum, was not blocked and was cool, at readings of its own |
| RotationGates.StepTwoStops | huddle_cluster.py:1869-1888 | Step 2 stops only when nobody is outside, the inner ring is full, or the root of the outer ring fails one of these four tests |
| RotationGates.StepThreeExactly | huddle_cluster.py:1895-1908 | Step 3 evicts the failing servers (unhealthy, or at the breaker's error rate) of the inner ring in its order, all of them unless the minimum size stops it |
| RotationGates.RotationAdmits | huddle_cluster.py:1842-1909 | The same for a whole cycle: whoever is inside after it and was not before passed the gate |
| RotationGates.ColdStartHolds | huddle_cluster.py:1013-1024 | Over runs: within its cold start a server enters the inner ring only by the refill after a removal; no cycle whose readings lie before its end brings it in |
| RotationGates.RefillIgnoresColdStart | huddle_cluster.py:2101-2111 | A removal whose refill takes a server in its cold start |
| RotationLaws.PromotesCoolestFirst | huddle_cluster.py:1869-1893 | From a heap, step 2 promotes in order of temperature, and nothing left outside is cooler than anything promoted |
| RotationLaws.RotateKeepsHeap | huddle_cluster.py:1842-1909 | The outer ring stays a heap through all three steps |
| RotationLaws.DefaultsAreSeparated | huddle_cluster.py:605-605 | Weights of one or more with thresholds in order are separated |
| RotationLaws.NoBounce | huddle_cluster.py:1865-1893 | While temperatures stand still, no server evicted in step 1 is promoted in step 2 of the cycle if the thresholds are separated, the ring sizes equal, the cool threshold negative, or the cycle shorter than the dwell time |
| RotationLaws.NoBounceExact | huddle_cluster.py:1842-1893 | For rings of one weight and temperatures within [0, 1]: no cycle of at most a given length bounces a server if and only if one of these holds |
| RotationLaws.NoBounceWhateverItTakes | huddle_cluster.py:1993-2017 | Without a limit on the length (callbacks run in between; temperatures stand still): if and only if one of the first three holds; a dwell time alone prevents nothing |
| RotationLaws.HalfWeightNeedsDwell | huddle_cluster.py:597-605 | With the default thresholds and a dwell time of ten seconds, weight 0.5 is bounce-free exactly for cycles under ten seconds |
| RotationLaws.LateGateBounces | huddle_cluster.py:1875-1882 | Such a ring, callbacks that take fifteen seconds, and a server that is evicted and back in one cycle |
| RoutingLaws.RoundRobinIsFair | huddle_cluster.py:1123-1130 | Any k picks give each of n servers floor(k/n), and one more to those the last lap reached |
| RoutingLaws.ExcludingFindsUntried | huddle_cluster.py:1618-1632 | The pick is an untried inner server whenever there is one |
| RoutingLaws.RetriesAreDistinct | huddle_cluster.py:1700-1714 | The first n attempts of a request on n servers go to pairwise distinct servers |
| RoutingLaws.BackupIsCoolest | huddle_cluster.py:2669-2676 | The backup is a coolest inner server other than the primary; if there is none, a coolest outer one; nobody only if the primary is alone in both rings |
| SessionLaws.RotationUnbinds | huddle_cluster.py:1953-1962 | A cycle ends exactly the sessions of the servers it evicts |
| SessionLaws.SessionSticks | huddle_cluster.py:1119-1144 | In every run: once answered from the inner ring, a session gets the same server each time, until that is taken out, the session is forgotten, or the server is unhealthy when the session asks |
| SessionLaws.SessionMoves | huddle_cluster.py:1123-1144 | A session whose server is outside or unhealthy is bound to the front server, and no other session notices |
| RetryLaws.RetryTakesFirst | huddle_cluster.py:1618-1632 | A retry goes to the first untried server from the front, which is last afterwards |
| RetryLaws.RequestEndsExactly | huddle_cluster.py:1700-1778 | The first success returns, the first fatal failure raises, and with neither the request goes on until its attempts are used up, each with the server it was sent to |
| RetryLaws.PenaltiesAreExact | huddle_cluster.py:1729-1745 | A request leaves its mark on exactly the servers whose attempts failed and were retried: after n failures the error rate is 1 - (1 - e) 0.9^n, and the server unhealthy once that exceeds one half |
| RetryLaws.SeventhFailureTells | huddle_cluster.py:1729-1733 | A server without errors stands six failures and is unhealthy after the seventh |
| MasterNodeObject.MasterNode.HandleJoin | huddle_cluster_pkg/cluster_master.py:2583-2622 | The registry after a join: new record, refresh, recovery or quarantine |
| MasterNodeObject.MasterNode.HandleHeartbeat | huddle_cluster_pkg/cluster_master.py:2653-2692 | The registry after a heartbeat, unknown nodes included |
| MasterNodeObject.MasterNode.CheckHeartbeats | huddle_cluster_pkg/cluster_master.py:2447-2467 | The monitor pass, whatever the order in which it meets the records |
| MasterNodeObject.Prune | huddle_cluster_pkg/cluster_master.py:2498-2499 | The pruning loop keeps, in order, the times from the cutoff on |
| LifecycleLaws.RecoveryDecision | huddle_cluster_pkg/cluster_master.py:2667-2679 | The pruned window equals the full death history filtered, so a sign of life from a dead node restores trust if and only if the full count is below the threshold |
| LifecycleLaws.FlapWindowIsExact | huddle_cluster_pkg/cluster_master.py:2595-2606 | The same at every revival of every run |
| LifecycleLaws.QuarantineHolds | huddle_cluster_pkg/cluster_master.py:2670-2685 | A quarantined record holds enough recent deaths, and its streak is the evidence since the last death, short of what is required |
| LifecycleLaws.TrustIsEarned | huddle_cluster_pkg/cluster_master.py:2681-2685 | It becomes alive if and only if a heartbeat completes the required evidence since its last death |
| LifecycleLaws.RunsAreSound | huddle_cluster_pkg/cluster_master.py:2447-2500 | The invariant behind these, in every state of every run of joins, heartbeats, leaves and monitor passes, however long before its lock a pass has read the clock |
| LifecycleLaws.LogsOnlyWatch | huddle_cluster_pkg/cluster_master.py:2447-2726 | Without the ghost logs, a run is what the registry object does |
| LifecycleHistory.JoinServes | huddle_cluster_pkg/cluster_master.py:2583-2622 | After a join the node serves, whatever it was before, and was heard of just now |
| LifecycleHistory.PassExactly | huddle_cluster_pkg/cluster_master.py:2447-2467 | After a monitor pass no alive or quarantined record has been silent for longer than the timeout; those that had are dead, with one death more and no streak; dead ones are purged when due; all others are untouched |
| LifecycleHistory.RegistryIsHistory | huddle_cluster_pkg/cluster_master.py:2447-2726 | In every run each record is what the signs and silences of its node alone tell, its deaths being the passes that found it serving and silent |
| LifecycleHistory.NobodySilentServes | huddle_cluster_pkg/cluster_master.py:2447-2467 | A node that serves at a moment of a run was heard of within the timeout before the last pass |
| LifecycleHistory.TrustNeedsUnbrokenSigns | huddle_cluster_pkg/cluster_master.py:2670-2685 | No pass finds a node silent between the pieces of evidence that end its quarantine |
| RateLimiterObject.ClusterRateLimiter.ConsumeTokens | huddle_cluster_pkg/cluster_rate_limiter.py:197-212 | The same per node, the bucket created on first use and all others untouched |
| RateLimiterObject.ClusterRateLimiter.IsRateLimited | huddle_cluster_pkg/cluster_rate_limiter.py:214-219 | The query, and the refill it performs |
| RateLimiterLaws.RefillTwice | huddle_cluster_pkg/cluster_rate_limiter.py:102-110 | Refilling twice is refilling once at the later time |
| RateLimiterLaws.ConsumeBoundsExact | huddle_cluster_pkg/cluster_rate_limiter.py:66-77 | Tokens stay within [0, capacity] if and only if the amount does not overfill; every amount from zero on qualifies |
| RateLimiterLaws.LongRunBound | huddle_cluster_pkg/cluster_rate_limiter.py:66-110 | In any stretch of any run, a node consumes at most one capacity, plus rate times length, plus a capacity per reset |
| RateLimiterLaws.ReadsDoNotMatter | huddle_cluster_pkg/cluster_rate_limiter.py:214-238 | Inserting or erasing queries anywhere changes no consume outcome of a run |
| RateLimiterLaws.NothingIsLost | huddle_cluster_pkg/cluster_rate_limiter.py:102-110 | In any stretch a bucket holds at least what an untouched one would, less what was granted |
| RateLimiterLaws.RefusedOnlyWhenShort | huddle_cluster_pkg/cluster_rate_limiter.py:66-77 | After any stretch of any run, an amount within what dripped in, up to the capacity, less what was granted, is never refused |
| SchedulerObject.ClusterScheduler.PickNode | huddle_cluster_pkg/cluster_scheduler.py:160-248 | The scheduler after a pick that no other overlaps, and the node chosen |
| SchedulerLaws.SelectPrefersAlive | huddle_cluster_pkg/cluster_scheduler.py:311-345 | The best alive node; a quarantined one only if no alive node fits; none only if neither does |
| SchedulerLaws.PickServes | huddle_cluster_pkg/cluster_scheduler.py:181-232 | Whoever is picked is serving with its circuit closed; a placement could pay when asked |
| SchedulerLaws.PickPaysOneToken | huddle_cluster_pkg/cluster_scheduler.py:234-242 | In a pick that no other overlaps, a placement costs its node exactly one token and counts once; a sticky or failed pick costs nobody anything |
| SchedulerLaws.WorkloadObeysTheBucket | huddle_cluster_pkg/cluster_scheduler.py:195-242 | Over any stretch of any run of picks one after the other, a node's workload count obeys the token-bucket bound |
| PlacementLaws.PoolExactly | huddle_cluster_pkg/cluster_scheduler.py:181-222 | The pool is exactly the nodes that pass every filter, the region only where somebody of it is left |
| PlacementLaws.PlacedIsBest | huddle_cluster_pkg/cluster_scheduler.py:328-341 | Preferring alive nodes: a placed node n is fit, and for any other m of its status in the pool fitness(n) (1 + heat(m)) >= fitness(m) (1 + heat(n)); a quarantined one only if no alive one is fit, nobody only if neither |
| PlacementLaws.PlacedIsBestOfAll | huddle_cluster_pkg/cluster_scheduler.py:342-345 | The same over the whole pool when no status is preferred |
| PlacementLaws.KeysStick | huddle_cluster_pkg/cluster_scheduler.py:212-245 | A key keeps its node while that is in the pool, and is bound to the node of its next placement |
| PlacementLaws.HeatIsPlacements | huddle_cluster_pkg/cluster_scheduler.py:291-308 | In every run a node's heat is the sum over its placements of how far each has cooled since |
| PlacementLaws.SharesAreFair | huddle_cluster_pkg/cluster_scheduler.py:311-345 | Over runs without cooling, k placements on n equally fit, unlimited nodes give each of them floor(k/n) or ceil(k/n) |
| PickRaces.OverlappingPicks | huddle_cluster_pkg/cluster_scheduler.py:195-242 | With each question to the limiter and each charge a step of its own, and at most c picks under way: over any stretch of any run a node is placed on at most a full bucket, 2 (c - 1), c times the inflow, and once for each pick under way at the start |
| PickRaces.BucketBoundExactly | huddle_cluster_pkg/cluster_scheduler.py:195-242 | For every capacity, rate and c: all runs obey the bucket bound from every moment with no pick under way, if and only if c is at most one or the capacity is below one token |
| PickRaces.AtOneInstant | huddle_cluster_pkg/cluster_scheduler.py:195-242 | While the clock stands still a node gets at most its whole tokens and c - 1 placements more |
| PickRaces.MostAtOnce | huddle_cluster_pkg/cluster_scheduler.py:241-242 | For every capacity from one and every c, a run that places that many times at one instant |
| Dns.DecodeQname | huddle_cluster_pkg/cluster_service_discovery.py:376-387 | The responder's name loop, on every octet string, terminates and reads what the specification reads |
| Dns.BuildDnsResponse | huddle_cluster_pkg/cluster_service_discovery.py:54-81 | The response loop, its two errors included |
| Dns.ParseARecordsLoop | demos/dns_query.py:29-47 | The client's two loops, on every octet string and count |
| DnsLaws.NameRoundTrip | demos/dns_query.py:18-26 | A query can be built if and only if no label exceeds 255 characters; the responder then reads the name back in lower case if and only if every label is non-empty ASCII (or the name is empty); section 3.1 of RFC 1035 |
| DnsLaws.ReadsBackLabels | huddle_cluster_pkg/cluster_service_discovery.py:376-387 | What the responder reads from any labels: up to the first empty one, or an error at the first outside ASCII |
| ResponseLaws.PlainRoundTrip | demos/dns_query.py:29-47 | After any query that ends in its question, any list of fewer than 65536 plain addresses comes back as the very strings registered, in order; sections 4.1.1 to 4.1.4 of RFC 1035 |
| ResponseLaws.ResponseRoundTrip | huddle_cluster_pkg/cluster_service_discovery.py:54-81 | The same for any accepted addresses, spelled as dotted quads of what `inet_aton` makes of them |
| ResponseLaws.PlainRoundTripsExactly | huddle_cluster_pkg/cluster_service_discovery.py:54-81 | For every ASCII name: all lists of plain addresses come back as registered if and only if no label is empty |
| ResponseLaws.RoundTripsExactly | demos/dns_query.py:34-36 | The same for all accepted lists, up to spelling |
| ResponseLaws.FitsExactly | demos/dns_query.py:57-57 | Received as at most 512 octets, the addresses come back right if and only if the response fits |
| ResponseLaws.LookupEndToEnd | huddle_cluster_pkg/cluster_service_discovery.py:370-408 | A lookup as both sides receive it, 512 octets each, in any case of letters: it yields exactly the valid addresses of the service's alive nodes if and only if there are some and the query plus sixteen octets for each fits |
| ResponseLaws.LongQueryIsLost | demos/dns_query.py:56-57 | A query that does not itself fit never yields an address list |
| ResponseLaws.ForeignNamesGetNoReply | huddle_cluster_pkg/cluster_service_discovery.py:386-386 | A query for a name outside ASCII is dropped |
| DnsMessages.QueryIsStandard | demos/dns_query.py:18-26 | For every name of labels of 1 to 63 ASCII characters, a standard reader of section 4.1 of RFC 1035 reads the query as one question for that name, type A, class IN, recursion desired, with nothing after it |
| DnsMessages.ResponseIsStandard | huddle_cluster_pkg/cluster_service_discovery.py:54-81 | To any message that asks one question, it reads the response as an authoritative answer with the identifier and question of the query and, for each address in order, one record of the name asked for, type A, class IN, ten seconds to live |
| DnsMessages.LookupIsStandard | huddle_cluster_pkg/cluster_service_discovery.py:54-81 | The two together |
| AddressText.DottedIsPlain | demos/dns_query.py:43-45 | What the client prints for four octets is four decimal numbers below 256 without leading zeros, and reads as those octets |
| AddressText.PlainIsDotted | demos/dns_query.py:43-45 | Any such text is what the client prints for the octets it reads as |
| ResponseLaws.PlainAddressesSurvive | demos/dns_query.py:43-45 | Accepted addresses keep their spelling if and only if they all are such text |
| RemediatorObject.ClusterRemediator.CheckHourlyRateLimit | huddle_cluster_pkg/cluster_remediator.py:188-197 | The filter loop, what it stores and its answer |
| RemediatorObject.ClusterRemediator.TriggerRemediation | huddle_cluster_pkg/cluster_remediator.py:199-263 | A whole remediation: disabled, dead-lettered, successful or failed |
| RemediatorObject.ClusterRemediator.NoteEviction | huddle_cluster_pkg/cluster_remediator.py:110-132 | The list and the count after an eviction, and the first policy that it sets off |
| RemediatorObject.ClusterRemediator.CheckStaleCoolingRing | huddle_cluster_pkg/cluster_remediator.py:169-186 | The two loops of the scan |
| RemediatorLaws.HourlyLimitIsExact | huddle_cluster_pkg/cluster_remediator.py:188-215 | However remediations interleave, an attempt runs if and only if the full log holds fewer than the limit in the last hour |
| RemediatorLaws.AtMostLimitPerHour | huddle_cluster_pkg/cluster_remediator.py:188-234 | Any half-open hour, open at either end, of a server's full attempt log holds at most the largest limit applied to it |
| RemediatorLaws.RunsBalance | huddle_cluster_pkg/cluster_remediator.py:230-263 | Admitted equals successful plus failed plus under way; the history is the newest hundred of all entries |
| RemediatorLaws.AgreeThroughoutExactly | huddle_cluster_pkg/cluster_remediator.py:230-252 | Over a run: every server recorded as quarantined or healing is in the quarantine set at every moment, if and only if no action succeeds whose quarantine was lifted meanwhile |
| RemediatorLaws.ClearedThenHealed | huddle_cluster_pkg/cluster_remediator.py:244-252 | A run of three steps after which a healing server is not in the set |
| RemediatorHistory.BooksTellTheStory | huddle_cluster_pkg/cluster_remediator.py:110-152 | In every run, the books on a server agree with its own story: its attempts, its evictions since the last recovery, release or success, the time of its first eviction since the last recovery or release, its health and its quarantine |
| RemediatorHistory.MatchIsFirst | huddle_cluster_pkg/cluster_remediator.py:124-131 | The answer is the first enabled policy for the cause whose count is reached, in the order of the list, and none only if none qualifies |
| RemediatorHistory.PolicyAnswersTheStory | huddle_cluster_pkg/cluster_remediator.py:110-132 | In every run, an eviction is answered with the first policy whose count the evictions since the last recovery, release or success have reached with it |
| QuarantineLaws.MoveSheltersExactly | huddle_cluster.py:1885-1886 | Of every move of rings and remediator, from a state without quarantined servers in the inner ring: it keeps them out if and only if it is none of an admitted trigger on an inner server, a refill with a quarantined one that does not recover, and a registration of one into the ring |
| QuarantineLaws.ShelteredExactly | huddle_cluster_pkg/cluster_remediator.py:100-103 | Over a run: no server in quarantine is ever in the inner ring if and only if none of these moves occurs |
| QuarantineLaws.RoutedExactly | huddle_cluster.py:1119-1144 | While they are out of it, a request or a retry goes to one if and only if the inner ring is empty and the emergency choice is in quarantine; the backup of a hedged request if and only if nobody but the primary is inside and the coolest other outer server is in quarantine |
| HealingLaws.RotationSheltersExactly | huddle_cluster.py:1842-1927 | A whole rotation, with the remediations that its evictions, open circuits and scan start, keeps quarantined servers out of the inner ring if and only if the scan meets no inner server under its hourly limit |
| HealingLaws.ThreeStepsAreSafe | huddle_cluster.py:1842-1918 | Steps 1 to 3 are guarded moves, and on the rings they are the cycle of `Rings`, with the quarantine as step 1 leaves it |
| HealingLaws.OnlyLingeringAreStruck | huddle_cluster.py:2041-2069 | The scan can meet an inner server only if one was inside and on the list before the cycle: a rotation puts nobody into that position |
| HealingLaws.OverdueForAllFinds | huddle_cluster_pkg/cluster_remediator.py:176-184 | The scan finds a server for a policy exactly if it has been on the list for as long as that policy says, whatever ring it is in |
| HealingLaws.RotationIsMoves | huddle_cluster.py:1842-1927 | A whole rotation is a sequence of the moves above, so run results cover it |
| HealingReports.EvictionIsReported | huddle_cluster.py:2041-2057 | An eviction that is complete lists its server and begins one remediation exactly if a policy is due; one that waits for connections leaves the remediator alone |
| HealingReports.TripIsReported | huddle_cluster.py:1899-1918 | An open circuit begins one more exactly if a policy watches circuits |
| HealingReports.ListThroughRotation | huddle_cluster.py:1842-1927 | Through a whole rotation: steps 1 and 3 put on the list exactly the servers they evict that need not drain, step 2 takes off exactly those it brings in, whose evictions count from zero again, and step 4 leaves it |
| HealingLaws.ScanExposes | huddle_cluster.py:1920-1927 | A run of six moves, a server evicted and pulled back warm among them, after which a rotation that moves nobody quarantines the only inner server |
| QuarantineLaws.RemoveIsMoves | huddle_cluster.py:1034-1063 | A removal is a withdrawal and unchecked refills |
| QuarantineLaws.ManualTriggerExposes | huddle_cluster.py:2845-2865 | A run of two moves after which the next request goes to a server triggered by hand |
| QuarantineLaws.RefillExposes | huddle_cluster.py:2101-2111 | A run of five moves in which a refill brings a quarantined server into the ring |
| QuarantineLaws.RegistrationExposes | huddle_cluster.py:1025-1028 | A run in which a quarantined server is removed, registered again and served from at once |
| QuarantineLaws.EmergencyExposes | huddle_cluster.py:1085-1100 | A run in which nothing is in the inner ring and the next request goes to a server in quarantine |
| QuarantineLaws.BackupExposes | huddle_cluster.py:2671-2690 | A run with a server inside, no exposed request, and a backup that goes to the quarantined server outside |
| ExportBufferObject.ClusterObservability.RecordEvent | huddle_cluster_pkg/cluster_observability.py:350-356 | The buffer after recording and trimming |
| ExportBufferObject.ClusterObservability.ExportOnce | huddle_cluster_pkg/cluster_observability.py:426-448 | An undisturbed export round, successful or not |
| ExportLaws.EachEventOnce | huddle_cluster_pkg/cluster_observability.py:426-446 | In a sound state exactly one of these holds of each event ever recorded: exported (once), pending (and the next round sends it), or trimmed unexported |
| ExportLaws.SuccessExactly | huddle_cluster_pkg/cluster_observability.py:444-446 | A successful round keeps that if and only if the buffer had room for what was recorded while it was sending |
| ExportLaws.DisturbedSkips | huddle_cluster_pkg/cluster_observability.py:350-356 | Otherwise it skips as many unsent events as were trimmed |
| ExportLaws.RunIsSoundExactly | huddle_cluster_pkg/cluster_observability.py:426-446 | Over a run: every event is in its place at every moment if and only if no successful round was disturbed |
| ExportLaws.AtomicRoundsAreUndisturbed | huddle_cluster_pkg/cluster_observability.py:427-446 | Rounds during which nothing is recorded are undisturbed |
| ExportLaws.BusyRoundLosesAnEvent | huddle_cluster_pkg/cluster_observability.py:444-446 | A run of four steps that never exports a buffered event |
| ExportLaws.BufferIsNewest | huddle_cluster_pkg/cluster_observability.py:350-356 | In every run the buffer is exactly the newest events it has room for, and the counters tell how many were recorded and how many rounds failed |
| HedgingLaws.BudgetHolds | huddle_cluster.py:2632-2688 | With at most c requests between check and counter, backups are nine or fewer, or less than the budget share plus c |
| HedgingLaws.BurstReaches | huddle_cluster.py:2632-2688 | From any state the check allows, c requests that check together add c backups |
| HedgingLaws.BoundIsReached | huddle_cluster.py:2632-2688 | For every budget below one and every c, a run from the start reaches the share plus c - 1, and more than nine: the bound cannot be lowered by one |
| HedgingLaws.WholeBudgetHolds | huddle_cluster.py:2632-2688 | With a budget of one the documented ceiling holds |
| HedgingLaws.FirstBackupExceedsTheShare | huddle_cluster.py:2580-2581 | A reachable state above the documented share |
| HedgingLaws.CountersTell | huddle_cluster.py:2632-2688 | In every run the counters are the arrivals, the backups launched, and the requests refused, each by a share really used up; every other checked request was cleared |
| Percentiles.PercentileGrows | huddle_cluster.py:275-295 | A higher percentile of any window is never smaller |
| Percentiles.PercentileIsWithin | huddle_cluster.py:275-295 | The 0th and 100th are the smallest and largest sample, and all others lie between |
| Percentiles.PercentileOfBag | huddle_cluster.py:285-285 | The order of arrival does not matter |
| Percentiles.PercentileOfSample | huddle_cluster.py:291-295 | At the ranks of samples nothing is interpolated: the percentile is that order statistic |
| Percentiles.PercentileIsLinear | huddle_cluster.py:288-295 | Between the ranks of neighbouring samples it runs along the straight line from one to the other |
| Percentiles.MedianIsFiftieth | huddle_cluster.py:4073-4074 | The median the controller uses is the 50th percentile |
| Percentiles.MedianRises | huddle_cluster.py:4073-4074 | When no sample falls, the median does not |
| AdaptiveThresholdObject.AdaptiveThresholdController.MaybeAdapt | huddle_cluster.py:4060-4098 | The controller after an adaptation, or unchanged, and the thresholds returned |
| AdaptiveLaws.ThresholdsStayInRange | huddle_cluster.py:4085-4096 | In every run: the configured thresholds until the first adaptation, then heat in [0.35, 0.85] and cool in [0.10, heat - 0.15] |
| AdaptiveLaws.LoosensWithStress | huddle_cluster.py:4077-4086 | A higher trend never tightens a threshold, and the adjustment is at most max_delta |
| AdaptiveLaws.NeutralTrend | huddle_cluster.py:4081-4083 | The adjustment vanishes at a trend of 1.1 and nowhere else |
| AdaptiveLaws.TrendFollows | huddle_cluster.py:4070-4075 | The trend rises with the newest quarter of the window (three samples at least), falls with the oldest half, and depends on nothing else |
| AdaptiveLaws.TrendOfLevels | huddle_cluster.py:4070-4075 | Between a level baseline and a level end it is the new level over the old one, which counts as one at least |
| AdaptiveLaws.AdaptsExactly | huddle_cluster.py:4060-4098 | In every run a cycle moves the thresholds exactly when the interval has passed and a window of samples was recorded, as near as their ranges allow to the configured ones plus a straight-line adjustment by the trend of the newest samples |
| AdaptiveLaws.AdaptedDoNotBounce | huddle_cluster.py:605-605 | Adapted thresholds are separated for every weight of at least 0.83 |

## Left out

- ClusterHAObject.ClusterHA.StartElection: replies arrive with nothing in between; interleaving is what `Election.Apply` models, one reply at a time.
- ClusterHAObject.ClusterHA.HeartbeatRound: one undisturbed round, likewise.
- ClusterHAObject.ClusterHA.PersistBallot: a write that fails, or a corrupt state file, is not modelled; the file is replaced atomically.
- Election.Fresh: a solo master, duplicate peers and changes of membership are not modelled; each of two or more masters has every other as a peer, once.
- Election.Apply: a round sends all its requests at once. A request sent later is one the network delays, so no behaviour is lost.
- ElectionProgress.ElectionSucceeds: that an election can always be completed, not that the network lets it.
- The state snapshots leaders send (`_apply_snapshot`) and registry snapshots restored at start (`huddle_cluster_pkg/cluster_master.py:565`) rebuild records without their death history; the lifecycle results are for a master that takes neither.
- `auto_heal` and election timeouts: any node may stand at any time, and the read-only guard may be lifted at any time.
- MasterNodeObject.MasterNode.HandleLeave: one step, although the source releases the lock between marking and removing the record. Request validation and callbacks are left out.
- LifecycleLaws.RunsAreSound: joins and heartbeats read a clock that does not run backwards, and the heartbeat timeout is not negative, which the source does not check.
- HuddleClusterObject.HuddleCluster.AddServer: an id that is already registered, which the source accepts; its rings would then hold two servers of one id.
- HuddleClusterObject.HuddleCluster.RotateRings: servers are values in a map of the object, not shared objects; hardware fusion, alerts, what callbacks do (they only take time) and dwell statistics are left out. The object does not hold the remediator: the quarantined servers are an argument, and `Healing` joins rings and remediator, step 4 included, as values.
- HuddleClusterObject.HuddleCluster.CheckDrainingServers: one uninterrupted operation, although the source runs it without the lock.
- RotationLaws.PromotesCoolestFirst: heap order is a precondition of a cycle. The daemon loop updates temperatures in place without restoring it (`huddle_cluster.py:2247-2249`).
- RotationLaws.NoBounce: no other thread changes temperatures during the cycle, likewise for NoBounceExact and NoBounceWhateverItTakes.
- QuarantineLaws.RoutedExactly: the three choices of a server for a request. The kernel's forwarding table (`huddle_cluster.py:1943-1947`), a copy of the inner ring as of the last rotation that moved something, requests already sent and synthetic probes are left out.
- HealingLaws.RotationSheltersExactly: remediation actions do not call back into the cluster, and nobody lifts a quarantine while the cycle runs.
- HuddleClusterObject.HuddleCluster.RemoveServer: as in the source, a draining server is not found.
- HuddleClusterObject.HuddleCluster.NextServer: weighted selection during traffic ramps is random and is left out.
- HuddleClusterObject.HuddleCluster.RequestWithRetry: latency recording and temperature updates after each attempt are left out.
- SchedulerObject.ClusterScheduler.PickNode: one uninterrupted pick (`PickRaces` takes it apart); a rate limiter is attached; circuit breaker, canary pool, region match, fitness and heat decay are arguments.
- SchedulerLaws.WorkloadObeysTheBucket: sequential picks, as is PickPaysOneToken; overlapping ones break the bound, and PickRaces states exactly when and what they keep.
- RateLimiterLaws.LongRunBound: the clock does not run backwards and no negative amount is consumed, likewise for NothingIsLost and RefusedOnlyWhenShort.
- Dns.BuildDnsResponse: `inet_aton` is an argument (of which the plain-address results assume that it reads plain addresses right), as are the alive nodes of a service; sockets are left out, and characters outside Unicode's scalar values do not occur.
- DnsMessages.QueryIsStandard: labels the standard does not allow (empty, over 63 octets, outside ASCII) are left to `DnsLaws.NameRoundTrip`; the standard's limit of 255 octets for a whole name is not checked by the reader.
- ResponseLaws.LookupEndToEnd: the configured domain is lower-cased as ASCII.
- RemediatorObject.ClusterRemediator.TriggerRemediation: commands, webhooks and callbacks are an argument (their outcome); the wall clock does not run backwards in the laws.
- ExportBufferObject.ClusterObservability.ExportOnce: the payload, trace contexts, log filtering and HTTP are left out; one exporter thread runs at a time.
- HedgingObject.HedgingBudget.CheckBudget: executing the requests and delays are left out.
- Percentiles.PercentileGrows: float rounding; p lies in [0, 100] as documented.
- AdaptiveThresholdObject.AdaptiveThresholdController.MaybeAdapt: a window size of zero, on which the source raises, is excluded by the constructor.
- Autoscaling, rolling updates, multi-region, webhooks, gossip, agents, gRPC, Redis, Kubernetes, dashboards, HTTP, TLS and the command line: I/O, or easy members.
- `huddle_cluster_pkg/core.py` is an older copy of the ring logic.
