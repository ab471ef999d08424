# Coordination cores of the locking library, modelled and proved

The library gives a fleet of operators in several Kubernetes clusters one leader, either through
leases held in every cluster or through raft, and runs work on that leader. This project models the
parts that coordinate and proves what they keep over every run. `dafny verify dfyconfig.toml` checks
it all.

A *run* is any sequence of moves; a move that is not enabled changes nothing, so a theorem about `Run`
holds for every schedule of any length and any number of participants.

## What is modelled

| file | subject |
|---|---|
| `leases.dfy` | what is assumed of one lease and of client-go's lock over it: reads refresh the cached version, creation fails if the lease exists and then leaves no usable version, updates compare and swap; requests and replies may be lost |
| `multilock.dfy` | the composite lock: one lease call as a step, a whole call as `Finish`, and the class with the loops of the source, proved to do exactly that |
| `multilock_laws.dfy` | undisturbed calls: what Get observes, what Create and Update leave, convergence |
| `multilock_faults.dfy` | calls nobody interferes with, under any faults: when each returns, with what, and what it has written |
| `lockprotocol.dfy` | any number of candidates interleaving lease calls under faults: exclusivity, self-recognition |
| `lockfencing.dfy` | what a deposed candidate's calls can still do |
| `lockcreation.dfy` | candidates racing to create the lock, and when a Create is ownership |
| `elector.dfy` | the callback filter over two shared atomics: what it decides, and what the user sees called |
| `raftloop.dfy` | leadership observations to callbacks and contexts, as written and with the flag reset |
| `leadermanager.dfy` | routine goroutines under those contexts |
| `messages.dfy` | sending the messages of one Ready |
| `leaderwalk.dfy` | health checks following published leaders while raft runs |
| `leaderhops.dfy` | when such a check makes one hop a term |
| `healthcheck.dfy` | one health check on a standing network |
| `standing.dfy` | the two together: checks on any cluster a run leads to, standing still |
| `restart.dfy` | the shared restart channel and its consumers |
| `peers.dfy` | the name hash and the id tables |
| `certificates.dfy` | validity windows |

Environments are contracts: client-go's leases as above; raft as terms that never fall, at most one
leader a term, and a leader adopted only from a message it sent in that term; the network as a function
giving the fate of each attempt.

## What turned out not to hold

- The raft loop as written is an edge detector only on the runs `Settled` describes; `SecondTermUnreported`
  gives a node that leads a second time without being told, because the follower branch
  (`raft/locker.go:242-249`) leaves `isLeader` set. `ResetDetectsEdges` proves the loop that clears it.
- The elector's filter decides starts and stops in alternation (`DecisionsAlternate`), but calls the user's
  hooks after the swaps that decide them, in steps of concurrent callbacks. A start can be overtaken by the
  stop that undoes it, and the user is left told of a start while leadership is off (`StopOvertakesStart`).
  The user is safe whatever the timing if and only if no swap decides a call while another decided call has
  not been made (`AlternatesAnywayIff`); and once all calls are made, the user has seen the alternation if and
  only if they were made in the order decided (`AlternatesIffInOrder`).
- A Create without error is not ownership (`CreateIsNotOwnership`), because leases that exist are passed over.
  It is ownership if and only if every lease it found existing named the caller: undisturbed
  (`CreateOwnsIff`), and in every interleaving of Creates and Gets (`CreateIsOwnershipIff`).
- Past the primary an Update is not fenced: `StragglerOverwrites` is a run in which a deposed candidate
  overwrites a lease of the new holder. `FencingIsExact` says exactly which Updates still can.
- One token of the restart channel wakes one consumer. With two runnables the other is left behind
  (`TokenTakenOnce`); `WakesAllIff` shows that one runnable is exactly the case in which all are woken.
- An intermediate authority whose configured lifetime is below 365 days by a second or more can outlive
  its issuer (`CoverageIsExact`), and with the default certificate lifetime, also 365 days, it can sign
  nothing except in the very instant it was made (`IntermediateCannotSignByDefault`, from the exact limit for
  every lifetime in `IntermediateSignsUntil`).
- A check does not make one hop a term. It loads the leader and the leader flag separately, so a node that steps
  down in between forwards it to itself: `TwoHopsInOneTerm` is such a run. The terms rise with every hop if and
  only if the check never finds, in the term it was followed in, a node that named itself and publishes
  leadership no longer (`OneHopATermIff`, with at most `bound` + 1 hops then); otherwise they rise in any two
  hops (`ForwardingTerminates`).

## Model

| member | source | states |
|---|---|---|
| MultiLock.NewMultiResourceLock | kube/multi.go:97-120 | there is no lock exactly if there are fewer than two configurations or one cannot be built, the failure reported being the first secondary's, else the primary's; otherwise the lock is new, over those leases, with no cached version of any |
| MultiLock.MultiResourceLock.Get | kube/multi.go:17-45 | the reading loop, with its early return, masking and raw-record reset, is the uninterrupted run of the step machine, under any faults |
| MultiLock.MultiResourceLock.Create | kube/multi.go:47-60 | likewise for creation, which goes on past leases that exist |
| MultiLock.MultiResourceLock.Overwrite | kube/multi.go:69-76 | one secondary is re-read, then created if missing (ending the call) or overwritten |
| MultiLock.MultiResourceLock.Update | kube/multi.go:62-80 | likewise for the whole update |
| MultiLockLaws.GetObserves | kube/multi.go:17-45 | undisturbed, Get answers exactly: all records in order when they agree, otherwise only the masked primary and the last secondary; NotFound on a missing primary, or on a missing secondary while the carried primary names the caller; and changes no lease |
| MultiLockLaws.ObservedRecord | kube/multi.go:33-41 | an answer carries the primary's record, with only the holder masked and only the primary and last copies kept when the leases disagree |
| MultiLockLaws.RawRecordDecides | kube/multi.go:23-42 | a unanimous state is determined by its raw record, which no split state shares |
| MultiLockLaws.SelfRecognition | kube/multi.go:17-45 | Get names the caller only if every lease exists and names it, under any faults; without faults, exactly then |
| MultiLockLaws.CreateFills | kube/multi.go:47-60 | undisturbed, Create fills every missing lease, touches no other and never fails |
| MultiLockLaws.CreateOwnsIff | kube/multi.go:47-60 | undisturbed, the caller then holds every lease if and only if every lease that existed before named it |
| MultiLockLaws.UpdateOverwrites | kube/multi.go:62-80 | with a current view of the primary, undisturbed, Update rewrites every lease up to the first missing one, creates that, and leaves the later ones |
| MultiLockLaws.UpdatesConverge | kube/multi.go:62-80 | with k leases missing, more than k Updates leave every lease holding the last record |
| MultiLockLaws.GetAfterUpdates | kube/multi.go:17-80 | and the next Get, by anyone, returns that record with every copy in the raw record |
| MultiLockFaults.UpdateLeaves | kube/multi.go:62-80 | under any faults, an Update that returned without error has written every lease up to the first missing one and created that; one that failed has written the leases before some lease, perhaps that one, and none after it |
| MultiLockFaults.UpdateReturnsIff | kube/multi.go:62-80 | under any faults, an Update returns without error if and only if the primary's version is current, its write is not lost, and for each lease up to the first missing one the write is not lost and either the re-read is not or the version cached before is current (for the missing one: re-read and creation are not lost) |
| MultiLockFaults.CreateExactly | kube/multi.go:47-60 | under any faults, a Create fills the missing leases up to its first faulty call, fails there, and fails nowhere else |
| MultiLockFaults.GetAnswers | kube/multi.go:17-45 | under any faults, a Get answers what it would observe without them, unless one meets it at or before the first missing lease; then it fails as unreachable |
| MultiLockFaults.ErrorsEndCalls | kube/multi.go:25-76 | the error of a lease call ends the call and is the one returned, except that Create goes on past a lease that exists, Update past any failed re-read, and Get answers on a missing secondary while it carries another holder |
| MultiLockFaults.CacheFollows | kube/multi.go:17-80 | a lease call without error leaves the caller with the current version of that lease, a failed creation with none, any other error with the one before; other leases' versions stay |
| LockProtocol.UpdatesExclusive | kube/multi.go:62-80 | in every run no two successful Updates replaced the same primary version, and each replaced exactly the primary its caller last saw |
| LockFencing.WriteDeposes | kube/multi.go:62-66 | a primary write by anyone else makes a candidate's cached version unusable |
| LockFencing.Fencing | kube/multi.go:62-77 | from another candidate's primary write until it next reads the primary (a read that is lost is none), every Update of a candidate that is at the primary, begun before that write or after it, fails there and changes no lease; one past the primary was past it, in the same call, at that write |
| LockFencing.FencingIsExact | kube/multi.go:62-77 | after such a write, some way of going on lets an Update of the candidate change a lease if and only if at that write it was past the primary and about to re-read a secondary, to create one that is missing, or to overwrite one it has the current version of |
| LockFencing.StragglerOverwrites | kube/multi.go:68-77 | over any existing leases there is a run in which one candidate stops past the primary, another reads and updates every lease, and the first, deposed, then overwrites a secondary of the holder |
| LockProtocol.ReadsWereHeld | kube/multi.go:17-45 | every record a Get has read was held by that lease since the call began |
| LockProtocol.SelfRecognised | kube/multi.go:17-45 | in every run a Get that names its caller found every lease existing and naming the caller at some moment of the call |
| LockCreation.CreatedOnce | kube/multi.go:47-60 | in creation runs under any faults a lease is created by at most one move, names the candidate that made it, and is never overwritten |
| LockCreation.SplitCreationIsNobodys | kube/multi.go:17-60 | once all leases exist, a later Get names a candidate exactly when that candidate created every lease, and otherwise answers the unknown marker |
| LockCreation.EmptyStart | kube/multi.go:97-120 | candidates over empty clusters meet what the previous row assumes of its start |
| LockCreation.CreateIsNotOwnership | kube/multi.go:47-60 | two racing Creates both succeed and each candidate ends up with one of two leases |
| LockCreation.CreateIsOwnershipIff | kube/multi.go:47-60 | in every creation run, over any leases and under any faults, a Create that returned without error leaves its caller holding every lease if and only if each lease it found existing named the caller |
| Elector.DecisionsAlternate | kube/locker.go:127-148 | for any callbacks, interleaved per atomic operation and hook call: `isLeader` implies `initialized`, starts less falling stops decided are one while leading and zero otherwise, at most one initial stop, and decisions alternate |
| Elector.CallsConserved | kube/locker.go:127-148 | of each kind, the calls decided are those made and those still to be made: none is lost, repeated or invented |
| Elector.StopOvertakesStart | kube/locker.go:130-138 | a run that decides start, stop and calls stop, start, with leadership off |
| Elector.AlternatesAnywayIff | kube/locker.go:127-148 | at every moment of a run the user sees the alternation however the outstanding calls are timed, if and only if no operation of the run decides a call while another decided call has not been made |
| Elector.AlternatesIffInOrder | kube/locker.go:127-148 | with no call outstanding, the user has seen the alternation if and only if the calls were made in the order decided |
| Elector.StopTakesEffect | kube/locker.go:135-148 | whichever operation ends a stop or new-leader callback's swaps, leadership is then off and a leader losing it there has its stop decided |
| Elector.StartTakesEffect | kube/locker.go:127-134 | right after a start callback's swap leadership is on, and a follower gaining it there has its start decided |
| Elector.NeverSilent | kube/locker.go:127-148 | once `initialized` is set and no start stands before its swap, a report has been decided |
| Elector.FirstOperationDecides | kube/locker.go:127-148 | the first atomic operation settles the first report: made by a stop or new-leader callback it is the initial stop, made by a start callback there is never an initial stop |
| Elector.Filter.Operation | kube/locker.go:127-148 | each atomic operation, and each hook call by itself, is the model's move |
| Elector.Filter.OnStartedLeading | kube/locker.go:127-134 | the callback alone is the model's two operations and the call they decide |
| Elector.Filter.OnStoppedLeading | kube/locker.go:135-148 | the short-circuiting callback alone is the model's one or two operations and the call they decide |
| RaftLoop.RaftNode.ObserveReady | raft/locker.go:214-250 | publishes the leader of the soft state, or of the status where there is none, and whether this node is that leader or in the leader state, and makes the loop's transition on just that |
| RaftLoop.RaftNode.RunRaft | raft/locker.go:198-250 | over any Ready events and the final cancellation the loop runs the transition function |
| RaftLoop.ResetDetectsEdges | raft/locker.go:234-250 | with the flag cleared: an initial report, then one start per rise and one stop per fall |
| RaftLoop.ResetHaltsRight | raft/locker.go:204-213 | with the flag cleared, cancellation reports a stop exactly for a leader |
| RaftLoop.AsWrittenAgreesIff | raft/locker.go:234-250 | as written, the calls are those of an edge detector if and only if every observation after the first true one is true, but for the last |
| RaftLoop.AsWrittenHaltsRightIff | raft/locker.go:204-250 | ended by cancellation, if and only if all observations after the first true one are true |
| RaftLoop.SecondTermUnreported | raft/locker.go:234-250 | leading, following and leading again is told as one start and one stop |
| RaftLoop.OneLiveContext | raft/locker.go:198-249 | of any two contexts handed to start callbacks the earlier is cancelled, and no context is handed out twice, as written and reset |
| RaftLoop.LiveUntilNextStop | raft/locker.go:234-250 | a context handed to a start callback is cancelled exactly if a stop has been reported since |
| RaftLoop.CancelledExactly | raft/locker.go:242-249 | exactly the contexts before the current one are cancelled, one for each stop |
| RaftLoop.HaltCancelsAll | raft/locker.go:204-213 | when the loop has ended, every context it handed out is cancelled |
| LeaderManager.LiveGoroutinesBounded | leader.go:70-96 | in every run at most one handed-out context is live; the goroutines under each context are the routines registered when its callback ran, one each; those under the live one, and no others, are live |
| LeaderManager.EndedOnlyWhenDone | leader.go:80-91 | a goroutine has ended only under a done context |
| LeaderManager.RoutinesRetry | leader.go:77-94 | four own steps bring a goroutine under a live context through an invocation and a wait back to where it stood; without the timer it goes on waiting |
| LeaderManager.EveryStartRuns | raft/locker.go:239-241 | each context handed out awaits its start callback or has had it, never both |
| LeaderManager.DoneEndsAll | raft/locker.go:204-213 | once the outer context is done no goroutine is live, and once the loop has ended it has cancelled every context it handed out |
| LeaderManager.RoutinesInOrder | leader.go:98-103 | routines stay registered in the order of registration |
| LeaderManager.GoroutinesEnd | leader.go:77-94 | each goroutine begins at most one invocation after its context is done, and each own step from then on brings it closer to its end |
| LeaderManager.Manager.RunLeaderRoutines | leader.go:70-96 | launches one goroutine per registered routine, in order, about to invoke it |
| LeaderManager.Manager.RegisterRoutine | leader.go:98-103 | appends the routine |
| LeaderManager.Manager.StoppedLeading | leader.go:60-62 | clears the leadership flag and nothing else: no goroutine is ended by it |
| Messages.ProcessReady | raft/locker.go:252-275 | entries are appended first and Advance comes last; between them every message is accounted for, in order |
| Messages.SendUntilDecided | raft/locker.go:259-272 | retries while the answer is "not applied" and stops at the first other outcome, reporting an error once |
| Messages.Conservation | raft/locker.go:252-273 | each message is exactly one of stepped locally, acknowledged, reported unreachable; acknowledged means the receiver stepped it once, reported at most once, an unknown peer never |
| Messages.FatesExplained | raft/transport.go:175-207 | for a known peer there is a first attempt that was taken in (node set, decoded, stepped) or left the sender without an answer; the receiver stepped the message exactly if it was taken in there, and it is reported unreachable exactly if the sender was left without an answer, else acknowledged |
| Messages.AcceptedInOrder | raft/transport.go:175-207 | receivers step the messages of a Ready in the order given |
| LeaderWalk.ClusterStep | raft/locker.go:214-273 | raft and the loops moving on takes nothing away from what a check in progress relies on: elections, sent messages and given-up terms stay |
| LeaderWalk.MovedInv | raft/locker.go:214-273 | what raft knows, the Ready in hand and what is published stay founded in elections and sent messages; a node has published a term at least as high before it sends a leader message of that term |
| LeaderWalk.PublishesReported | raft/locker.go:216-228 | a publication is the leader the Ready reports, or the status if it reports none, and leadership exactly if that is the node or raft is in the leader state |
| LeaderWalk.LoadStep | raft/transport.go:209-212 | after following a leader, the first load finds a later term, or in the same term the node itself or no leader |
| LeaderWalk.ForwardingTerminates | raft/transport.go:209-235 | in every run a check follows leaders through terms that never fall and rise in any two hops; with terms up to `bound`, at most 2 * bound + 2 hops |
| LeaderHops.ClimbsIff | raft/transport.go:209-235 | from any state the cluster and a check rising so far have got to, the terms go on rising with every hop if and only if the check is never forwarded from a node to itself in the term it was followed in, the node having named itself at the first load and stopped publishing leadership by the second |
| LeaderHops.OneHopATermIff | raft/transport.go:209-235 | so in every run from boot; and with terms up to `bound` such a check makes at most `bound` + 1 hops |
| LeaderHops.TwoHopsInOneTerm | raft/transport.go:210-228 | a run from boot in which a check is forwarded to a node and, in the same term, from that node to itself |
| HealthCheck.Transport.Check | raft/transport.go:209-235 | the answer is that of the node the chain of leaders ends at, an error exactly if a call of the chain fails; probes from a leader make no call; calls are the hops plus one per peer of an answering leader |
| HealthCheck.Transport.ProbePeers | raft/transport.go:215-222 | the leader lists exactly the peers whose probe failed or saw no leader, each once, with one call per peer |
| HealthCheck.LocationTransparent | raft/transport.go:223-229 | answers to checks at any nodes whose chains end at the same node agree up to the order of the list |
| HealthCheck.ChainUnique | raft/transport.go:223-229 | a node's chain of leaders is unique |
| HealthCheck.ChainVisitsOnce | raft/transport.go:223-229 | a chain visits no node twice |
| StandingNetwork.EveryNodeHasChain | raft/locker.go:214-273 | in every run, at every moment, every node has a chain of leaders ending in a node that answers, of at most one visit to each node |
| StandingNetwork.CheckAt | raft/transport.go:209-235 | so a check at any node of any reachable cluster, standing still, returns the answer of its chain's end or the error of a failed call, in one call per further node and one per peer, fewer than twice the number of nodes |
| StandingNetwork.OneLeaderOneAnswer | raft/transport.go:209-235 | on any reachable cluster, nodes that know of the same leader, the leader among them, give answers that agree up to the order of the list |
| Restart.NoLostWakeup | multicluster/manager.go:107-121 | with no producer between add and signal, an empty channel and no consumer woken or engaging, each cluster was engaged after its latest addition |
| Restart.AddedIsNotEngaged | multicluster/raft.go:315-323 | right after a cluster is added or replaced, no runnable has engaged it in its latest generation |
| Restart.WakesAllIff | multicluster/manager.go:137-157 | every runnable that has run is then up to date in all runs if and only if at most one runnable shares the channel |
| Restart.TokenTakenOnce | multicluster/raft.go:315-323 | a run with two runnables that leaves one behind |
| Restart.LeaderRunnable.Add | multicluster/manager.go:107-121 | a runnable with a Warmup is registered twice, Warmup first; every registered routine is of a registered runnable |
| Restart.LeaderRunnable.AddOrReplaceCluster | multicluster/raft.go:315-323 | adding without blocking on a full channel is the two moves of a producer |
| Restart.LeaderRunnable.DoEngage | multicluster/manager.go:108-113 | listing, looking up and engaging, with anything others do in between, is a run of the state machine, and engages the runnable with every cluster there was at the call, in no older a generation |
| Restart.LeaderRunnable.Turn | multicluster/manager.go:145-153 | one turn of the loop receives the token exactly if there is one, and has then engaged every cluster there was |
| Restart.LeaderRunnable.Listen | multicluster/manager.go:145-153 | so many turns, each receiving a token exactly if there is one and engaging until it listens again |
| Restart.LeaderRunnable.WrapStart | multicluster/manager.go:137-158 | a registered routine, interleaved with any others, engages at once, takes its turns and stops, as a run that starts consumers of registered runnables only, as the theorems above assume |
| Peers.StringToHash | multicluster/raft.go:29-33 | the id of a name is its 64-bit FNV-1a hash |
| Peers.KnownHashes | multicluster/raft.go:29-33 | the published hashes of "a" and of "fo" |
| Peers.XorAt | multicluster/raft.go:29-33 | mixing a byte into the state sets each bit exactly if the operands' bits differ |
| Peers.HashInjective | multicluster/raft.go:29-33 | different hash states stay different under any common suffix |
| Peers.OneByteApart | multicluster/raft.go:29-33 | names of equal length differing in one byte never share an id |
| PeerTables.BuildTables | multicluster/raft.go:159-168 | the node list keeps the order of the peers; the name table keeps the last name per id |
| PeerTables.PeersForNodes | raft/locker.go:80-86 | the address table keeps the last address per id |
| PeerTables.TablesAgree | multicluster/raft.go:159-168 | whatever ids collide, name and address of an id are those of the last peer configured with it |
| PeerTables.LookupInvertsIff | multicluster/raft.go:305-307 | leader lookup inverts the hashing if and only if no two names share an id |
| PeerTables.NumberedPeersAreFound | multicluster/raft.go:159-168 | for peers whose names differ pairwise in one byte the leader's name is always found |
| Certificates.CAConfiguration.FillDefaults | multicluster/bootstrap/certificates.go:214-225 | only fields left at zero get their defaults |
| Certificates.GenerateCA | multicluster/bootstrap/certificates.go:210-281 | the authority's window is that of its stored certificate, in whole seconds, for the durations the caller gave, or the defaults where it gave none |
| Certificates.LoadCA | multicluster/bootstrap/certificates.go:283-334 | a loaded authority keeps its certificate's window, and the durations the caller gave, or the defaults where it gave none |
| Certificates.SignExactly | multicluster/bootstrap/certificates.go:56-71 | with names given, signing passes exactly from NotBefore + grace to NotAfter - expiration, each refusal for its own reason; the issued window, in whole seconds, runs from the grace before now to the lifetime after now and lies inside the authority's |
| Certificates.IntermediateExactly | multicluster/bootstrap/certificates.go:127-188 | likewise for intermediates, whose window runs from the second clock reading to 365 days after the third, and which inherit the lifetimes but no grace |
| Certificates.IntermediateInside | multicluster/bootstrap/certificates.go:127-155 | an intermediate lies inside its issuer's window if the configured lifetime covers 365 days and the drift between clock readings |
| Certificates.CoverageIsExact | multicluster/bootstrap/certificates.go:127-155 | and for all issuers and readings only then, to within a second |
| Certificates.ChainNests | multicluster/bootstrap/certificates.go:126-188 | in chains of any length every window lies inside every earlier one |
| Certificates.LeafInsideChain | multicluster/bootstrap/certificates.go:56-71 | a certificate signed at the end of a chain lies inside every authority's window and is never refused for its beginning |
| Certificates.IntermediateSignsUntil | multicluster/bootstrap/certificates.go:61-71 | for every certificate lifetime an intermediate signs exactly until that lifetime before the whole second in which its own window ends |
| Certificates.IntermediateCannotSignByDefault | multicluster/bootstrap/certificates.go:179-187 | with the default certificate lifetime an intermediate signs at no later reading than the one its window was computed from |

## Left out

- client-go's elector, its clocks and lease expiry: no claim is made about time.
- Leases are never deleted or recreated by others, so a version is never reused.
- Marshalling of lease records: a raw record is a sequence of records, and marshalling does not fail.
- Default identities (`kube/locker.go:85-92`): a configured identity other than the unknown marker is assumed.
- `validate` and defaults of lock configurations, events and descriptions: easy members.
- Unset callbacks or hooks: both hooks are assumed set.
- raft itself (voting, log replication, snapshots, restarts): only the contract above is used.
- LeaderWalk.ForwardingTerminates: the two stores of one publication (`raft/locker.go:227-228`) are one step; between them a node could be forwarded to itself any number of times.
- HealthCheck.Transport.Check: takes the node's chain of leaders as a ghost argument; StandingNetwork.EveryNodeHasChain supplies it on every reachable cluster. On a network that no run publishes the call may not return.
- StandingNetwork.CheckAt: the cluster stands still during the check; while it moves, LeaderWalk.ForwardingTerminates bounds the hops and nothing is said of the answer.
- Messages.ProcessReady: the network is assumed to answer each message at some attempt with something other than "not applied"; without that the retry loop never ends. Sleeping between attempts and encoding are not modelled.
- The order in which `go` launches callbacks, and so the value of `LeaderManager.IsLeader` after several of them.
- Restart.NoLostWakeup: clusters are never removed, and an engagement counts once it is called, whatever it returns.
- LeaderManager: locking of the routine list is modelled as one step per registration and per start.
- Fetching kubeconfigs, TLS, gRPC servers, protobuf and signals of the transport's own shutdown.
- Signatures, keys, PEM, serial numbers and the split of names into addresses and host names; decoding errors of LoadCA.
- An absent certificate configuration, which is treated as one with every field zero.
- Flags, secrets, bootstrapping, test harnesses, charts: plumbing.
