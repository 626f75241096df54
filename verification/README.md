# A verified model of rapid-rs

`rapid-rs` is a membership protocol: K-ring monitoring, an H/L cut detector that turns edge
reports into a proposed set of joins and failures, one Fast Paxos instance with classic fallback
per configuration that decides the proposal, and a view change that applies it. The project models
these pieces and the shard directory derived from view changes, and proves what they promise over
all runs. `dafny verify dfyconfig.toml` checks everything.

## How it is laid out

| files | what they model |
|---|---|
| `Types`, `SetFacts`, `Listings`, `KeyOrder` | endpoints and ranks; counting, hash sets read out as lists, ordered maps read as lists and cycles |
| `CoordinatorRule`, `Messages`, `ClassicPaxos`, `FastConsensus` | the consensus objects, each handler equal to a transition function |
| `Protocol`, `ProtocolInvariant`, `ProtocolSteps`, `Agreement` | N nodes and a network that loses, delays, reorders and repeats; the inductive invariant; agreement |
| `DisagreementRuns`, `AgreementExactly`, `FastTally`, `InstanceRuns`, `AcceptorRuns` | constructed runs that disagree, the exact condition for agreement; the fast tally against its history; how often one instance decides, and that it keeps its promises, whatever it is fed |
| `BusStorm`, `BusProtocol`, `BusProgress`, `PaxosBus` | the in-memory bus as a value: every message storm ends, from any states; that it only does protocol steps; that it gets decisions done; the bus object |
| `DetectorState`, `DetectorSweep`, `CutDetector` | one report, runs of reports, implicit invalidation, the detector object |
| `Hashing`, `RingOrder`, `Membership`, `ObserverCache`, `ViewRings`, `MembershipView` | ring keys and configuration ids over an uninterpreted hash, one ring, the meaning of a view, its cache, K rings with and without collisions, the view object |
| `ViewChange`, `ViewDelta`, `ShardTags`, `ShardIndex` | applying decisions, what they report and settle, the shards a tag announces, the derived index |
| `Alerts`, `Joiners`, `CanonicalVote`, `Service` | batches of alerts, parked callers, the order of votes, the actor |
| `Convergence`, `Deployment`, `ActorRuns` | all replicas over all configurations; a whole deployment as a state machine; the actors in it |
| `Base64` | the codec of the trace files |

Every object of the source that is changed in place is a class whose methods are proved equal to
functions on its abstract state; the lemmas are about those functions.

## What the code needs, and where code and comments differ

- Agreement needs two things of the environment, and `AgreementIffSafe` says exactly when, for every
  membership and all node indices. A node may call `propose` after it joined a classic round: the
  acceptor then refuses the vote, but the vote is broadcast and counted all the same
  (crates/rapid/src/consensus/fast_paxos.rs:99-109, crates/rapid/src/consensus/paxos.rs:248). With
  five nodes or more such late votes can split the decision. Repeated delivery of one Phase1b splits
  it with three nodes or more, because promises are counted without looking at their senders
  (crates/rapid/src/consensus/paxos.rs:177).
- `stable_node_index` folds a hash to 32 bits (crates/rapid/src/consensus/paxos.rs:342-348), so two
  members can share a rank. That does no harm while promises arrive once: their majorities would share
  an acceptor, which promises a rank once and to one of them (`SameOrderer`). With repeated promises
  even two nodes of one index disagree (`SameRankDisagrees`), since acceptances are bucketed by rank
  and the last one's value is decided.
- Proposals are non-empty, as the actor guarantees; each instance proposes at most once, which
  `Service` proves.
- An instance can emit two decisions, since a fast decision does not stop the inner Paxos
  (crates/rapid/src/consensus/fast_paxos.rs:158-202). `DecisionsCounted` says exactly when, for
  anything it may be fed: when it heard of a fast quorum first and of a majority of acceptors at one
  rank later; never three times. `LoneMemberDecidesTwice` is such a run. A caller that lets go of the
  instance once it has decided, as the actor does, sees exactly one (`OneUntilDecided`), and in a safe
  environment both carry the same value. In the runs with repeated promises the node that decided first
  takes no step afterwards, so they are also runs of actors.
- Replicas stay equal only if they know enough of the joiners: one that missed the alert about a joiner
  skips it without a word (crates/rapid/src/service/view_change.rs:43-45) and is left behind
  (`MissedAlertDiverges`). `StayEqualIff`, `InStepIff` and `ConvergeIff` say exactly what must be known:
  enough to admit the same joiners, with the same identifiers all in all. `Deployment` asks this of a
  replica that applies a decision another one applied before.
- Directories of one configuration need not have the identical `by_shard` contents that
  crates/rapid-shard/src/lib.rs:150-152 promises: a bucket lists members in the order in which they
  were heard of (`BucketOrderDiffers`). As sets they agree if and only if the replicas' metadata
  announces the same shards of every member (`SameConfigurationIff`), which holds when the replicas knew
  the same tags of every joiner (`DirectoriesAgree`).
- The comment at crates/rapid/src/service/alert_handler.rs:77-80 speaks of the ring-zero order; the
  code sorts by the unsigned hash, and ring 0 by the signed one. `RingOrderIffOneSided` says when
  the two agree, and `StraddlingVote` gives the votes on which they differ.
- Cache eviction does not wrap around (crates/rapid/src/view.rs:183, crates/rapid/src/view.rs:212),
  so a cached observer list can be out of date; `CoherentAfterAdd`, `CoherentAfterDelete` and
  `StaleEntry` say exactly when.
- xxh64 is an uninterpreted function. The view's operations are specified for any hashing
  (`RawAdd`, `RawDelete`, `RawBooted`); that its rings are those of its members is proved while no
  two endpoints of a finite universe collide on a ring. What that buys is exact: a ring is
  independent of the order in which a set was inserted if and only if no two of its endpoints share a
  key there (`OneRingIffCollisionFree`), and an add that is accepted reaches all K rings if and only
  if the newcomer collides with no member (`AddReachesAllRingsIff`); on ring 0 a collision is a
  rejection. Nothing is claimed about different views having different configuration ids.
- The detector takes ring numbers as bytes and needs no bound by K: a byte count of 256 reports wraps
  to 0, which is not a watermark. The lookups in `endpoint_objs` never miss (`Inv`).

## Model

| member | source | states |
|---|---|---|
| CoordinatorRule.SelectProposalFromMessages | crates/rapid/src/consensus/paxos.rs:271-317 | the loops and filters compute the coordinator rule `Select`, which `SelectIff` characterises |
| CoordinatorRule.SelectIff | crates/rapid/src/consensus/paxos.rs:271-317 | the rule returns exactly the value that the promises determine by position and number: the only vote at the highest rank; else, of the votes there, the first that occurs more than N/4 times up to its place; else the first vote in any promise; else nothing |
| CoordinatorRule.SelectsNothingIff | crates/rapid/src/consensus/paxos.rs:275-316 | nothing is chosen if and only if no promise carries a rank or none carries a vote |
| CoordinatorRule.SelectsFallback | crates/rapid/src/consensus/paxos.rs:311-316 | when the votes at the highest rank differ and none occurs more than N/4 times, the choice is the vote of the first promise that has one |
| CoordinatorRule.MaxVrndIsMax | crates/rapid/src/consensus/paxos.rs:278-284 | the rank the rule looks at is reported and no reported rank is higher |
| CoordinatorRule.SelectsReportedVote | crates/rapid/src/consensus/paxos.rs:285-317 | the rule returns nothing or a value some promise reported |
| CoordinatorRule.SelectsUnanimousVote | crates/rapid/src/consensus/paxos.rs:291-298 | when all votes at the highest rank agree, the rule returns that value: the case of a classic rank |
| CoordinatorRule.SelectsFastChosen | crates/rapid/src/consensus/paxos.rs:299-310 | for every N, after a fast quorum voted v, any majority of distinct promises in any order with the fast rank highest makes the rule return v |
| ClassicPaxos.Paxos.Start | crates/rapid/src/consensus/paxos.rs:115-132 | the new state and message of a round's start, refused when a later round is under way |
| ClassicPaxos.Paxos.HandlePhase1a | crates/rapid/src/consensus/paxos.rs:135-164 | promise strictly higher ranks only, answering with the last vote |
| ClassicPaxos.Paxos.HandlePhase1b | crates/rapid/src/consensus/paxos.rs:167-196 | collect promises for the current rank; order a value once past a majority |
| ClassicPaxos.Paxos.HandlePhase2a | crates/rapid/src/consensus/paxos.rs:199-222 | accept an order not below the promised rank, once per rank |
| ClassicPaxos.Paxos.HandlePhase2b | crates/rapid/src/consensus/paxos.rs:225-243 | count acceptances per rank and sender; decide once past a majority |
| ClassicPaxos.Paxos.RegisterVote | crates/rapid/src/consensus/paxos.rs:247-257 | the fast vote is refused after a classic rank was seen |
| FastConsensus.FastPaxos.ProposeValue | crates/rapid/src/consensus/fast_paxos.rs:98-112 | register the vote; among the effects are exactly one broadcast of it under the own address, and exactly one request for the fallback timer |
| FastConsensus.ProposeEffects | crates/rapid/src/consensus/fast_paxos.rs:98-112 | of a proposal come these two effects and nothing else, and the tally is left alone |
| FastConsensus.FastPaxos.HandleFastRoundProposal | crates/rapid/src/consensus/fast_paxos.rs:137-170 | count the first vote of each sender, decide at N minus floor((N-1)/4) |
| FastConsensus.FastPaxos.StartClassic | crates/rapid/src/consensus/fast_paxos.rs:175-181 | at most one classic round per instance, none after a decision |
| FastConsensus.StartsOnce | crates/rapid/src/consensus/fast_paxos.rs:175-181 | nothing is sent exactly after a decision, after an earlier start or when the coordinator is in a later round; else one prepare of round 2, and never again |
| FastConsensus.FastPaxos.HandleConsensusMessage | crates/rapid/src/consensus/fast_paxos.rs:185-204 | dispatch to the handlers; an inner decision latches the instance |
| ProtocolSteps.SameOrderer | crates/rapid/src/consensus/paxos.rs:135-164 | of coordinators that share a rank at most one orders, since their majorities would share an acceptor that promises a rank once |
| ProtocolSteps.OneOrderPerRank | crates/rapid/src/consensus/paxos.rs:182-195 | in every reachable state at most one value is ordered per rank, if promises arrive once or node indices differ |
| ProtocolSteps.StepKeeps | crates/rapid/src/consensus/fast_paxos.rs:98-204 | every step of every node keeps the protocol invariant |
| ProtocolSteps.RunKeeps | crates/rapid/src/consensus/fast_paxos.rs:98-204 | the invariant holds after every run |
| ProtocolSteps.TimersArmed | crates/rapid/src/consensus/fast_paxos.rs:108-111 | after every run exactly the nodes that proposed were given a fallback timer |
| ProtocolSteps.TimerStartsRound | crates/rapid/src/consensus/fast_paxos.rs:175-181 | the timer of a node can always go off, and unless the node has decided or started its round before it then sends the prepare of round 2 |
| Agreement.ClassicFixes | crates/rapid/src/consensus/paxos.rs:135-243 | once a majority accepted v at a rank, every order at that rank or above carries v, however late nodes vote |
| Agreement.FastFixes | crates/rapid/src/consensus/paxos.rs:271-317 | once a fast quorum voted v in time, every order carries v |
| Agreement.AllDecisionsAgree | crates/rapid/src/consensus/fast_paxos.rs:98-204 | any two decisions of a run, fast or classic, are equal and were proposed, in every safe environment |
| Agreement.ClassicRoundsAgree | crates/rapid/src/consensus/paxos.rs:135-257 | classic rounds alone agree over all runs with no constraint on when nodes propose |
| AgreementExactly.LateVotesDisagree | crates/rapid/src/consensus/paxos.rs:247-257 | for every configuration of five nodes or more, a run with late votes that decides two values |
| AgreementExactly.HigherRankDisagrees | crates/rapid/src/consensus/paxos.rs:177-196 | for three nodes or more, a run in which a repeated promise passes for a majority and overrides a decision |
| AgreementExactly.SameRankDisagrees | crates/rapid/src/consensus/paxos.rs:225-243 | for two nodes of one index, alone or among others, a run in which each decides the value it hears last at the rank they share |
| AgreementExactly.RepeatedPromisesDisagree | crates/rapid/src/consensus/paxos.rs:177-196 | so with repeated promises two values are decided among three nodes or more, and among two of one index |
| AgreementExactly.AgreementIffSafe | crates/rapid/src/consensus/fast_paxos.rs:98-204 | for every membership and all node indices, all runs agree if and only if late votes occur only among at most four nodes, and repeated promises only at one node or at two of different indices |
| InstanceRuns.DecisionsCounted | crates/rapid/src/consensus/fast_paxos.rs:158-202 | over any calls, with any messages: an instance decides if and only if it heard of a fast quorum or of a majority of acceptors at one rank; at most twice, and twice if and only if the quorum came first and the majority later, in that order |
| InstanceRuns.OneUntilDecided | crates/rapid/src/consensus/fast_paxos.rs:185-204 | a caller that lets go of an instance once it has decided sees exactly one decision |
| InstanceRuns.LoneMemberDecidesTwice | crates/rapid/src/consensus/fast_paxos.rs:98-204 | a run of one member, in which every message is one it sent before, that emits two decisions |
| AcceptorRuns.AcceptorKeepsWord | crates/rapid/src/consensus/paxos.rs:135-222 | from any state and over any calls, in rounds after the fast one: an acceptor promises a rank once and accepts at a rank once, in ascending order, nothing below what it promised, and a promise reports its last acceptance |
| AcceptorRuns.PrepareBinds | crates/rapid/src/consensus/paxos.rs:135-164 | once it was handed a prepare of its configuration, with a sender or without, an acceptor promises nothing at that rank or below and accepts nothing below, over any later calls |
| FastTally.TallyRefines | crates/rapid/src/consensus/fast_paxos.rs:137-170 | for every membership size, the empty one included, and over any stream of votes the counters are the senders whose first vote was that value, and one decision fires at the first vote that reaches the quorum |
| FastTally.OutvotedForever | crates/rapid/src/consensus/fast_paxos.rs:158-165 | more than floor((N-1)/4) first votes for other values rule a value out whatever follows |
| BusStorm.DeliveryWeight | crates/rapid/src/consensus/paxos.rs:135-243 | from any state, the answers to a message weigh less than the message: each handler emits at most one message of a later phase |
| BusStorm.FalloutIsLighter | crates/rapid/tests/common/direct_paxos_bus.rs:194-211 | from any states, what a broadcast or a unicast stirs up weighs less than it does |
| BusStorm.DeliveryShrinks | crates/rapid/tests/common/direct_paxos_bus.rs:192-213 | so every round of the loop makes the queue lighter, and draining any queue among any states ends |
| BusStorm.StormIsBounded | crates/rapid/tests/common/direct_paxos_bus.rs:192-213 | from any states a storm takes no more deliveries than its queue weighs |
| BusStorm.ClassicStormIsBounded | crates/rapid/tests/common/direct_paxos_bus.rs:159-163 | starting a classic round among N instances in any states takes at most 1 + N(N + 3) deliveries |
| BusProtocol.DrainedTracks | crates/rapid/tests/common/direct_paxos_bus.rs:192-213 | among nodes of a reachable protocol state, a storm ends in a reachable state that forgets nothing sent or decided and proposes nothing |
| BusProtocol.BusAgrees | crates/rapid/tests/common/direct_paxos_bus.rs:124-136 | whatever is proposed, started and dropped on a new bus, in any order, all decisions it recorded are equal and were proposed |
| BusProgress.BroadcastReachesEach | crates/rapid/tests/common/direct_paxos_bus.rs:194-203 | a broadcast is handled by every instance once, each in its own state, and the answers are queued in their order |
| BusProgress.FastRoundDecides | crates/rapid/src/consensus/fast_paxos.rs:158-165 | on a new bus all instances have recorded v once N minus floor((N-1)/4) of them proposed it, and none before |
| BusProgress.ClassicRoundDecides | crates/rapid/src/consensus/paxos.rs:115-243 | among instances that voted in any way, one at least, a classic round started at an instance that coordinated none makes all of them decide one value, and it is one that was voted for |
| BusProgress.RecoveryDecides | crates/rapid/tests/paxos_recovery_ported.rs:19-80 | on a new bus of any size, with the fast votes dropped or not and whatever was proposed, starting a classic round at any instance leaves all of them decided on one proposed value |
| BusProgress.DroppedVotesDecideNothing | crates/rapid/tests/common/direct_paxos_bus.rs:192-200 | while the votes of the fast round are dropped, proposals decide nothing |
| PaxosBus.DirectPaxosBus.Create | crates/rapid/tests/common/direct_paxos_bus.rs:68-105 | one new instance per endpoint, nothing queued or decided |
| PaxosBus.DirectPaxosBus.Enqueue | crates/rapid/tests/common/direct_paxos_bus.rs:174-190 | effects go to the end of the queue in order; the last decision is recorded; unknown targets are dropped |
| PaxosBus.DirectPaxosBus.Drain | crates/rapid/tests/common/direct_paxos_bus.rs:192-213 | from any states of the instances and any queue the loop ends with an empty queue, in the states `Drained` gives |
| PaxosBus.DirectPaxosBus.ProposeAt | crates/rapid/tests/common/direct_paxos_bus.rs:152-156 | from any states and with any value, proposing and draining ends quiescent in the states `Perform` gives |
| PaxosBus.DirectPaxosBus.StartClassicAt | crates/rapid/tests/common/direct_paxos_bus.rs:159-163 | the same for starting a classic round |
| PaxosBus.DirectPaxosBus.Inject | crates/rapid/tests/common/direct_paxos_bus.rs:168-172 | the same for handing one instance any message at all |
| PaxosBus.DirectPaxosBus.DropKind | crates/rapid/tests/common/direct_paxos_bus.rs:108-110 | messages of that kind are taken off the queue undelivered from now on |
| DetectorState.BytesDoNotWrapOntoAWatermark | crates/rapid/src/cut_detector.rs:126-134 | the byte-sized report count reaches a watermark exactly when the true count does |
| DetectorState.ReportKeeps | crates/rapid/src/cut_detector.rs:104-151 | a report keeps the run invariant; it emits exactly when its host reaches H with no other host in flux, and never a host emitted before |
| DetectorState.RunKeeps | crates/rapid/src/cut_detector.rs:104-151 | over any run: the counter is the number of hosts between L and H, pending and emitted hosts are those at H or above, disjointly, and no host is emitted twice |
| DetectorState.Confluence | crates/rapid/src/cut_detector.rs:87-151 | streams that report the same edges in any order and with any repeats leave the same tallies and hosts in flux, and have emitted the same hosts, those at H or above, whenever nothing is in flux |
| DetectorState.PermutedReportsAgree | crates/rapid/src/cut_detector.rs:87-102 | permuted reports are such streams |
| DetectorState.RunReporters | crates/rapid/src/cut_detector.rs:117-124 | the first to report a host on a ring stays its reporter there |
| DetectorState.OneHostRun | crates/rapid/src/cut_detector.rs:126-148 | reports about one host emit exactly when they take it to H with no other host in flux, and then all hosts at H or above not emitted before |
| DetectorSweep.VisitKeeps | crates/rapid/src/cut_detector.rs:169-192 | visiting one suspect charges it with exactly the implied rings and keeps the suspects, or emits all of them at once |
| DetectorSweep.VisitCharges | crates/rapid/src/cut_detector.rs:178-192 | a visit adds rings to the visited host only, each reported by the observer on that ring, and replaces no reporter |
| DetectorSweep.InvalidationClosedForm | crates/rapid/src/cut_detector.rs:156-195 | implicit invalidation emits all of U once if U is non-empty and every host in flux has H direct and implied rings, else nothing, for every iteration order |
| DetectorSweep.InvalidationKeeps | crates/rapid/src/cut_detector.rs:156-195 | a call emits at most one proposal, never a host emitted before, and otherwise charges every host in flux with its implied rings |
| CutDetector.MultiNodeCutDetector.New | crates/rapid/src/cut_detector.rs:59-77 | an error exactly for watermarks out of order; otherwise a new, empty detector that keeps them |
| CutDetector.MultiNodeCutDetector.AggregateOne | crates/rapid/src/cut_detector.rs:104-151 | the updates in place are one report's transition, and the result lists its cut, disjoint from everything emitted before |
| CutDetector.MultiNodeCutDetector.Aggregate | crates/rapid/src/cut_detector.rs:87-102 | an alert is the run of its reports; without source or target it does nothing; else the rings of its target, and of no other host, grow by exactly the alert's ring numbers as bytes, reported by its source, a failure is seen if it is one on any ring, and a cut comes exactly when its target reaches H with nobody else in flux |
| CutDetector.AlertRegisters | crates/rapid/src/cut_detector.rs:87-101 | what an alert adds to whose rings, as reported by whom, and when a failure was seen |
| CutDetector.AlertAnnounces | crates/rapid/src/cut_detector.rs:104-151 | when an alert emits a cut, and which hosts are in it |
| CutDetector.MultiNodeCutDetector.InvalidateFailingEdges | crates/rapid/src/cut_detector.rs:156-195 | over a real view with its cache, the nested loops emit the order-independent closed form |
| CutDetector.MultiNodeCutDetector.Clear | crates/rapid/src/cut_detector.rs:198-206 | back to a new detector |
| Hashing.WrapAtTheEnd | crates/rapid/src/view_hash.rs:67-79 | wrapping at every step is the exact polynomial modulo 2^64 |
| Hashing.ConfigurationIdFor | crates/rapid/src/view_hash.rs:62-82 | the two loops compute the signed residue of that polynomial over identifiers, then endpoints |
| Hashing.WordsOfParts | crates/rapid/src/view_hash.rs:67-79 | the words of a list are those of its parts, in order |
| Hashing.IdWordsOfOne | crates/rapid/src/view_hash.rs:68-71 | of an identifier the words are the hashes of its high and of its low half |
| Hashing.EndpointWordsOfOne | crates/rapid/src/view_hash.rs:72-79 | of an endpoint the hashes of its host and of its port |
| Hashing.LittleEndianAt | crates/rapid/src/view_hash.rs:27-36 | byte i of what is hashed of a number is its digit of weight 256^i, for negative numbers too |
| Hashing.LittleEndianSame | crates/rapid/src/view_hash.rs:27-36 | two numbers are hashed as the same n bytes if and only if they are equal modulo 256^n |
| Hashing.PortBytes | crates/rapid/src/view_hash.rs:34-36 | a port is hashed as its four low bytes, lowest first |
| Hashing.SameHost | crates/rapid/src/view_hash.rs:43-47 | endpoints on one host share a hash if and only if their port hashes agree |
| Hashing.SamePort | crates/rapid/src/view_hash.rs:43-47 | endpoints with one port share a hash if and only if their host hashes agree, since 31 is odd |
| KeyOrder.PrevOfNext | crates/rapid/src/ring.rs:70-92 | with two or more keys the wrapping successor moves, and the wrapping predecessor undoes it |
| RingOrder.InsertAddsMember | crates/rapid/src/ring.rs:48-55 | inserting into the ring of a set gives the ring of the larger set |
| RingOrder.RemoveDropsMember | crates/rapid/src/ring.rs:58-61 | removing likewise |
| RingOrder.OrderedLists | crates/rapid/src/ring.rs:100-102 | the snapshot lists each member once, by increasing signed hash |
| RingOrder.OrderedUnique | crates/rapid/src/ring.rs:100-102 | it is the only listing of the members by increasing hash |
| RingOrder.NeighboursInvert | crates/rapid/src/view.rs:244-292 | among two or more members successor and predecessor are inverse permutations without fixed points |
| RingOrder.RingReturns | crates/rapid/src/view.rs:244-256 | n successor steps return to the start |
| RingOrder.RingReaches | crates/rapid/src/view.rs:244-256 | every member is reached from every member after exactly one number of steps below n: a single cycle |
| RingOrder.OneRingIffCollisionFree | crates/rapid/src/ring.rs:46-55 | all orders of inserting a set give the same ring if and only if no two of its endpoints share a key |
| ViewRings.AddKeepsRings | crates/rapid/src/view.rs:180-194 | an add of an endpoint that collides with no member leaves the K rings of the larger set and exactly the surviving cache entries |
| ViewRings.DeleteKeepsRings | crates/rapid/src/view.rs:210-222 | a delete leaves the K rings of the smaller set and exactly the surviving cache entries |
| ViewRings.LookupsAreThoseOfMembers | crates/rapid/src/view.rs:231-292 | without collisions what is read off the K rings, one by one, is the members' successors and predecessors |
| ViewRings.AddReachesAllRingsIff | crates/rapid/src/view.rs:165-187 | an accepted add puts the newcomer on all K rings if and only if it collides with no member on any of them |
| Membership.IdentifiersListed | crates/rapid/src/view.rs:298-303 | the identifiers are listed exactly, in (high, low) order |
| Membership.IdentifierSpent | crates/rapid/src/view.rs:150-171 | an identifier once accepted is refused after any further adds and deletes |
| Membership.BootstrapRoundTrip | crates/rapid/src/view.rs:104-122 | bootstrapping from the identifier list and ring 0 rebuilds the view exactly |
| Membership.RingsPartition | crates/rapid/src/view.rs:326-343 | ring i of a member is watched by exactly one member, the i-th observer: the slots partition 0..K |
| Membership.NoSelfWatch | crates/rapid/src/view.rs:326-343 | nobody watches itself |
| Membership.FullTally | crates/rapid/src/service/fd_scheduler.rs:56-80 | once all observers of a member reported it, in any order and with repeats, a fresh detector holds exactly K reports of it, it is not in flux, and it alone was emitted |
| ObserverCache.CacheAfterAdd | crates/rapid/src/view.rs:180-190 | after an add, cached entries belong to members and are right on every ring on which the member has a larger element |
| ObserverCache.CacheAfterDelete | crates/rapid/src/view.rs:210-222 | after a delete likewise |
| ObserverCache.CoherentAfterAdd | crates/rapid/src/view.rs:180-190 | a coherent cache stays coherent if and only if no survivor is last on a ring on which the newcomer is first |
| ObserverCache.CoherentAfterDelete | crates/rapid/src/view.rs:210-222 | likewise with the member that left |
| ObserverCache.StaleEntry | crates/rapid/src/view.rs:180-190 | such a survivor exists: a member looked up alone keeps an empty entry although it has an observer on all K rings |
| MembershipView.View.Bootstrap | crates/rapid/src/view.rs:83-122 | an error exactly for no rings; otherwise every list inserted on all K rings, with any hashing, and the view of the lists if nothing collides |
| MembershipView.View.IsSafeToJoin | crates/rapid/src/view.rs:150-158 | safe exactly when an add would be accepted; host first, then identifier |
| MembershipView.View.RingAdd | crates/rapid/src/view.rs:165-195 | with any hashing: which adds are rejected and how, that rejection changes nothing, and what acceptance does to rings, cache, members and identifiers; without collisions the view of the larger set, with exactly the surviving cache entries |
| MembershipView.View.RingDelete | crates/rapid/src/view.rs:201-225 | the same for deletes, which keep the identifiers |
| MembershipView.View.GetObserversOf | crates/rapid/src/view.rs:231-242 | with any hashing the cached or computed observers; without collisions and away from the wrap point the true successors |
| MembershipView.View.GetSubjectsOf | crates/rapid/src/view.rs:262-270 | with any hashing the lower elements on the rings that have one; without collisions the predecessors on all rings, none for a lone member |
| MembershipView.View.GetExpectedObserversOf | crates/rapid/src/view.rs:276-281 | the same for endpoints not yet members |
| MembershipView.View.GetRing | crates/rapid/src/view.rs:309-317 | the elements of one ring in its order; without collisions the members |
| MembershipView.View.GetRingNumbers | crates/rapid/src/view.rs:326-343 | the positions of the subject among the observer's subjects |
| MembershipView.RingNumbersListed | crates/rapid/src/view.rs:326-343 | these are exactly the rings on which the observer watches the subject |
| MembershipView.RingNumbersAscend | crates/rapid/src/view.rs:335-342 | each once, in ascending order |
| MembershipView.View.CurrentConfigurationId | crates/rapid/src/view.rs:346-362 | with any hashing the id of the identifiers and ring 0, recomputed only after a change; without collisions always that of the current members and identifiers |
| MembershipView.View.HistoryIndependent | crates/rapid/src/view.rs:165-225 | views with the same members and identifiers have the same K rings and configuration id, however they got there |
| ViewChange.TogglesIffReady | crates/rapid/src/service/view_change.rs:28-59 | a duplicate-free proposal yields the symmetric difference if and only if each of its joiners is known by an identifier never seen and used once |
| ViewChange.SameDecision | crates/rapid/src/service/view_change.rs:28-59 | equal views that know the same identifiers for the joiners stay equal |
| ViewChange.DecideAdmits | crates/rapid/src/service/view_change.rs:28-59 | the view after a duplicate-free proposal in closed form: its members leave, the joiners that bring an identifier neither seen nor brought before enter, and those identifiers are spent |
| ViewChange.StayEqualIff | crates/rapid/src/service/view_change.rs:28-59 | equal views stay equal under a decision if and only if the replicas know enough to admit the same joiners with the same identifiers |
| ViewChange.InStepIff | crates/rapid/src/service/view_change.rs:25-74 | the same over any number of rounds: equal views after every round if and only if they admitted alike in each |
| ViewChange.MissedAlertDiverges | crates/rapid/src/service/view_change.rs:43-45 | a replica that knows nothing of a joiner is left without it |
| ViewChange.ReplicasAgree | crates/rapid/src/service/view_change.rs:25-74 | over any number of rounds, replicas with the same decisions and the same joiner identifiers have equal views |
| ViewChange.SpentForever | crates/rapid/src/view.rs:144-171 | an identifier seen once is spent in every later configuration: no decision admits an endpoint that comes with it, however often members left and joined since |
| Convergence.ReplicasConverge | crates/rapid/src/service/consensus_dispatch.rs:34-37 | over any number of configurations, each decided by its own protocol run, replicas that joined at any of them with the view another had there go through the same views |
| Convergence.ConvergeIff | crates/rapid/src/service/consensus_dispatch.rs:34-37 | replicas that applied what the same configurations decided have equal views after each if and only if they began with equal views and each time admitted alike |
| Convergence.SameConfigurations | crates/rapid/src/service/view_change.rs:25-74 | so every replica's configurations have the same members and ids, and a decision whose joiners are ready toggles the same members everywhere |
| ViewChange.MetadataStaysOk | crates/rapid/src/metadata.rs:53-66 | only members have metadata, after every decision |
| ViewDelta.DeltaExactly | crates/rapid/src/service/view_change.rs:28-59 | the delta of a duplicate-free proposal tells of every endpoint that changed sides, once, in the order of the proposal: down with the metadata it had, up with the tags it brought |
| ViewDelta.DecideSettles | crates/rapid/src/service/view_change.rs:28-59 | what becomes of each endpoint: a member leaves with its metadata, a joiner without identifier stays as it is, any other is forgotten and, if admitted, a member under its tags |
| ShardTags.CleanedAll | crates/rapid-shard/src/lib.rs:330-345 | of the pieces, exactly what trimming leaves of them, if anything, is kept |
| ShardTags.CleanedOnce | crates/rapid-shard/src/lib.rs:337-345 | each of them once |
| ShardTags.SplitLaws | crates/rapid-shard/src/lib.rs:339 | no piece holds the delimiter, the pieces joined with it give the text back, and there is one piece more than delimiters |
| ShardTags.SplitUnique | crates/rapid-shard/src/lib.rs:339 | there is no other way to split |
| ShardTags.TrimIsTrim | crates/rapid-shard/src/lib.rs:340 | trimming cuts white space at the ends and nothing else, and leaves none there |
| ShardTags.TrimUnique | crates/rapid-shard/src/lib.rs:340 | which leaves one result |
| ShardTags.ParsedExactly | crates/rapid-shard/src/lib.rs:330-345 | said of the text alone: announced is what trimming leaves of its maximal delimiter-free stretches, if anything, each once and in the order in which they are first seen; nothing without the tag or with bytes that are no text |
| ShardIndex.DeltaKeeps | crates/rapid-shard/src/lib.rs:291-328 | after any delta buckets are non-empty and duplicate-free and agree with the reverse index in both directions |
| ShardIndex.ReverseIndexDecides | crates/rapid-shard/src/lib.rs:69-77 | two such indices with the same reverse index have the same buckets as sets |
| ShardIndex.DecisionTracks | crates/rapid/src/service/view_change.rs:28-59 | folding a view change's delta takes the index of the old state to the index of the new one, for every proposal |
| ShardIndex.SnapshotPlusDeltas | crates/rapid-shard/src/lib.rs:350-372 | an index built once and folded over any run of view changes equals one rebuilt from the final member list and metadata: the reverse index exactly, the buckets as sets |
| ShardIndex.JoinTracksIff | crates/rapid/src/metadata.rs:53-59 | without the assumption on metadata, a join is indexed rightly if and only if no stale metadata of the joiner names other shards |
| ShardIndex.SameBucketsIff | crates/rapid-shard/src/lib.rs:150-157 | indices of services with the same members have the same buckets as sets if and only if the metadata announces the same shards of every member |
| ShardIndex.DirectoriesAgree | crates/rapid-shard/src/lib.rs:150-157 | directories built from any member lists and folded over the same decisions, about joiners of whom both replicas knew the same, have the same buckets as sets |
| ShardIndex.BucketOrderDiffers | crates/rapid-shard/src/lib.rs:150-157 | as lists they can differ: two members under one shard, heard of in either order |
| ShardIndex.ShardDirectory.Build | crates/rapid-shard/src/lib.rs:211-224 | a new directory reflects the configuration it was built in |
| ShardIndex.ShardDirectory.OnViewChange | crates/rapid-shard/src/lib.rs:234-246 | the forwarder takes the id and folds the delta: what reflected a configuration reflects the next |
| ShardIndex.ShardDirectory.SameConfigurationIff | crates/rapid-shard/src/lib.rs:150-157 | two directories at one configuration have the same buckets as sets if and only if their replicas' metadata announces the same shards |
| ShardIndex.ShardDirectory.DropEndpointFromBuckets | crates/rapid-shard/src/lib.rs:316-328 | the loop removes the endpoint from its buckets and drops buckets it empties |
| ShardIndex.ShardDirectory.Apply | crates/rapid-shard/src/lib.rs:291-314 | the loops compute the fold of the delta |
| ShardIndex.ShardDirectory.Resync | crates/rapid-shard/src/lib.rs:257-267 | start over from a member list, with a consistent index |
| ShardIndex.ShardDirectory.ReplicasOf | crates/rapid-shard/src/lib.rs:129-137 | exactly the endpoints indexed under the shard, each once |
| CanonicalVote.VoteIsSortedCut | crates/rapid/src/service/alert_handler.rs:73-81 | the vote is sorted and lists the cut exactly, each endpoint once |
| CanonicalVote.OneVoteIffNoTies | crates/rapid/src/service/alert_handler.rs:73-81 | all nodes that saw a cut vote alike, whatever order their hash sets yield, if and only if no two of its endpoints share a key |
| CanonicalVote.RingOrderIffOneSided | crates/rapid/src/service/alert_handler.rs:77-81 | a vote is in ring-0 order if and only if its hashes are all below 2^63 or all not |
| CanonicalVote.StraddlingVote | crates/rapid/src/service/alert_handler.rs:77-81 | two endpoints whose hashes lie on either side of 2^63 are voted for in the reverse of ring-0 order |
| Service.VoteKeyIsHash | crates/rapid/src/view_hash.rs:43-53 | the sort key of votes is the unsigned seed-0 hash |
| Service.SameCutSameVote | crates/rapid/src/service/alert_handler.rs:73-87 | nodes whose batches emitted the same endpoints vote with the identical list |
| Alerts.ValidAlertsPass | crates/rapid/src/service/alert_handler.rs:91-104 | exactly the alerts pass that are of this configuration and report a member down or a stranger up, in the order of the batch |
| Alerts.IdsOfAlerts | crates/rapid/src/service/alert_handler.rs:106-122 | of each endpoint the identifier in the last alert that brings one is learnt, and without one nothing |
| Alerts.LearntOfStrangers | crates/rapid/src/service/alert_handler.rs:36-45 | a batch teaches nothing new of members |
| Alerts.AlertsRegister | crates/rapid/src/service/alert_handler.rs:51-57 | after a batch every host is reported on the rings it was reported on before and on those the alerts tell |
| Alerts.BatchGrounds | crates/rapid/src/service/alert_handler.rs:36-57 | over batches the detector holds reports on exactly the hosts that accepted alerts told of, on at least the rings they told |
| Alerts.SweepGrounds | crates/rapid/src/cut_detector.rs:156-195 | implicit detection charges no host of which nobody told |
| Alerts.CutIsWarranted | crates/rapid/src/service/alert_handler.rs:47-65 | whatever a batch emits, at once or implicitly, was reported in this configuration, down if it is a member and up if not |
| Alerts.ObserversEvict | crates/rapid/src/service/fd_scheduler.rs:56-80 | a batch with the failure alerts of all observers of a member, and whatever does not count, makes a fresh detector emit that member and nothing else, with K reports and nothing left in flux |
| Service.ObserversVoteOut | crates/rapid/src/service/alert_handler.rs:47-87 | so the actor votes for that member alone |
| Service.VotedFor | crates/rapid/src/service/alert_handler.rs:51-65 | an endpoint is voted for if and only if an alert made the detector emit it, or a failure was seen, every host in flux tips over and it is suspected |
| Service.MembershipService.HandleBatchedAlerts | crates/rapid/src/service/alert_handler.rs:25-87 | what a batch of alerts leads to: exactly the acceptable alerts pass, what is learnt of joiners, the detector's state, the cut and the vote, all of which was reported in this configuration, down if a member and up if not; nothing while a proposal is pending |
| Service.MembershipService.OnEdgeFailure | crates/rapid/src/service/fd_scheduler.rs:56-80 | an alert about the subject on the rings on which we watch it, unless the notice is of another configuration |
| Service.MembershipService.OnJoin | crates/rapid/src/service/handlers.rs:40-79 | in this configuration the caller is parked, what it brings is learnt, and the alert about it is acceptable unless it is a member; else nothing changes |
| Service.MembershipService.ProposeVote | crates/rapid/src/service/consensus_dispatch.rs:78-88 | called at most once on each installed instance, whose vote then goes out once, and whose fallback timer is armed |
| Service.MembershipService.OnBatchedAlerts | crates/rapid/src/service/task.rs:150-156 | the same of the request as a whole; its vote is proposed exactly when it is announced, the lifecycle says so, the instance has made that one proposal and no other, and its fallback timer is armed |
| Service.MembershipService.DecideViewChange | crates/rapid/src/service/view_change.rs:25-102 | the loop applies the decision; the event carries the new id, all members and the delta; detector and lifecycle start afresh, the new instance is in its initial state with no timer armed; parked joiners are told |
| Service.MembershipService.RespondToJoiners | crates/rapid/src/service/view_change.rs:104-135 | the parked callers of the proposal's endpoints receive a reply from which the current view can be booted |
| Joiners.ToldIsAllTold | crates/rapid/src/service/view_change.rs:126-134 | each caller is told once for every time it is parked under an endpoint of the proposal, and exactly those endpoints are parked no more |
| Service.ViewOfReply | crates/rapid/src/cluster/bootstrap.rs:90 | the view a joiner boots from the reply has the sender's rings and the configuration id in the reply |
| Service.Join | crates/rapid/src/cluster/bootstrap.rs:80-115 | the joiner's actor: that view, the metadata of the reply and, unless the reply has an entry for it, its own, a new detector and an instance in its initial state |
| Service.MembershipService.ReinstateFastPaxos | crates/rapid/src/service/consensus_dispatch.rs:121-133 | a fresh instance in its initial state for the current configuration id and size |
| Service.MembershipService.Dispatch | crates/rapid/src/service/consensus_dispatch.rs:21-40 | decisions are applied in order, everything else is sent; a decision leaves an instance in its initial state, otherwise the instance stays |
| Service.MembershipService.OnConsensusMessage | crates/rapid/src/service/consensus_dispatch.rs:100-110 | a message takes the installed instance where the protocol says, and its decisions are applied, unless shutting down |
| Service.MembershipService.OnStartClassicRound | crates/rapid/src/service/consensus_dispatch.rs:91-97 | the fallback starts a classic round on the installed instance, if there is one, with its latch |
| ActorRuns.DeliverInRun | crates/rapid/src/service/consensus_dispatch.rs:100-110 | a message handed to an actor is a delivery step of its node; what it sends is on the network; a decision is recorded, applied, and leaves it a fresh node |
| ActorRuns.TimerInRun | crates/rapid/src/service/consensus_dispatch.rs:91-97 | the fallback timer is the step that starts the node's classic round |
| ActorRuns.VoteInRun | crates/rapid/src/service/task.rs:150-156 | a batch of alerts is no step, or the one proposal step of the actor's node, which then has its fallback timer, there and in the protocol |
| ActorRuns.StartsInRun | crates/rapid/src/service/consensus_dispatch.rs:121-133 | an actor at the start of a configuration is a node of its protocol's initial state |
| Deployment.ActionKeeps | crates/rapid/src/service/consensus_dispatch.rs:21-40 | every action of a deployment, a protocol step of a replica in its own configuration, its decision, or a joiner booting from a reply, keeps all configurations' protocol states, views and replicas consistent |
| Deployment.SameConfigurationSameView | crates/rapid/src/service/view_change.rs:25-74 | in every run of a deployment replicas in the same configuration have the same view, and each configuration decides one value |
| Deployment.ReplicasFollow | crates/rapid/src/service/consensus_dispatch.rs:34-37 | a deployment is a sequence of protocol runs, one a configuration, that every replica follows |
| Deployment.Elsewhere | crates/rapid/src/service/consensus_dispatch.rs:100-110 | what one replica or joiner does leaves every other one in its configuration, its node and its proposal as they were |
| ActorRuns.OthersAct | crates/rapid/src/service/consensus_dispatch.rs:100-110 | an actor stays the replica it is, whatever others do |
| ActorRuns.DeliverInDeployment | crates/rapid/src/service/consensus_dispatch.rs:100-110 | a message takes an actor where the deployment says: on in its configuration, or, when it decides and is still a member, to the next one as a replica there |
| ActorRuns.TimerInDeployment | crates/rapid/src/service/consensus_dispatch.rs:91-97 | so does its fallback timer |
| ActorRuns.VoteInDeployment | crates/rapid/src/service/task.rs:150-156 | so does a batch of alerts, whose vote is a possible step there |
| ActorRuns.JoinerPlays | crates/rapid/src/cluster/bootstrap.rs:80-115 | an actor that joined by a replica's reply is a replica of the same configuration |
| Base64.BuildTable | crates/rapid-compat-tests/src/ndjson.rs:179-182 | the table inverts the alphabet and marks every other byte |
| Base64.UnpackPack | crates/rapid-compat-tests/src/ndjson.rs:158-209 | unpacking six-bit values undoes packing bytes |
| Base64.EncodeLength | crates/rapid-compat-tests/src/ndjson.rs:157-175 | an encoding has 4 times ceil(n/3) characters |
| Base64.EncodeIsPack | crates/rapid-compat-tests/src/ndjson.rs:158-175 | up to padding it consists of alphabet letters, those of the packed values |
| Base64.EncodePadded | crates/rapid-compat-tests/src/ndjson.rs:158-175 | the encoding is those letters followed by as many padding characters as the last group lacks bytes |
| Base64.SameNumber | crates/rapid-compat-tests/src/ndjson.rs:160-173 | the four values are the digits to base 64 of the number whose digits to base 256 are the three bytes |
| Base64.RoundTrip | crates/rapid-compat-tests/src/ndjson.rs:156-213 | every text equal to an encoding up to white space and padding decodes to what was encoded |
| Base64.NoiseIsIgnored | crates/rapid-compat-tests/src/ndjson.rs:183-186 | white space and padding inserted anywhere change no result |
| Base64.DecodesIff | crates/rapid-compat-tests/src/ndjson.rs:183-200 | a text decodes if and only if what is neither white space nor padding are letters of the alphabet, not one more than a multiple of four |
| Base64.ReencodeIff | crates/rapid-compat-tests/src/ndjson.rs:178-213 | a decoded text re-encodes to itself, up to white space and padding, if and only if its unused trailing bits are zero |
| Base64.EncodeText | crates/rapid-compat-tests/src/ndjson.rs:156-176 | the loop over chunks computes the encoding |
| Base64.DecodeText | crates/rapid-compat-tests/src/ndjson.rs:178-213 | the loop with its reused buffer decodes, and fails exactly on length 1 modulo 4 or a character outside the alphabet |

## Left out

- BusProtocol.BusAgrees: forged messages put in by `inject` are not part of the agreeing runs, since they can say anything; the storm they cause ends all the same.
- Service.MembershipService.DecideViewChange: the actor and the sweep of its detector (`InvalidateFailingEdges`) are specified while the endpoints at hand do not collide on a ring, since what they publish is stated of the members; the view's own operations and lookups are specified for any hashing.
- Deployment.ActionKeeps: protocol steps are taken in configurations whose environment is safe; what can happen in the others is `AgreementExactly`.
- Service.Join: a reply about a view that the joiner is not in, for a joiner with metadata of its own.
- A ring is a value in the view's list of rings, not an object of its own; the map it holds is ordered by the queries rather than by a tree.
- `proposal_lookup` of the fast round is written and never read, and is omitted; the objects kept beside their keys (`identifier_objs`, `endpoint_objs`) are the keys themselves.
- Vectors of bytes and the hostname in an endpoint are sequences; ports and ranks are unbounded integers, which are only compared, hashed or copied.
- The delay of the fallback timer and its handle, of which it is kept whether one is armed; clocks, tasks, channels, broadcasting to subscribers and every network effect: a transition returns what is to be sent.
- The alert queue and its batching (an alert to be queued is returned), the failure detectors and their cumulative counters, the phase before a join request, and the reply on a configuration mismatch, which sends no identifiers.
- UTF-8 decoding and white space in `parse_shards` are parameters; how the directory orders its snapshot against its subscription, and lagging, are not modelled.
- Transports, protobuf, address parsing, the command line, the soak, fuzz and loom harnesses.
- That xxh64 spreads its inputs, or that different views have different configuration ids.
