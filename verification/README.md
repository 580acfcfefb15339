# Simi: a Dafny model and its proofs

Simi is a load generator for Hyperledger Fabric.  This project models the parts of
it that carry state or arithmetic and proves what they keep over whole runs:

- **Autoscaling** (`Topology`, `ScriptInvariant`, `ScaleJobs`, `Serial`, `Drift`,
  `Triggers`, `SteadyLoad`, `Limits`, `Detours`, `ClosedLoop`).  Scale jobs race for a
  Kubernetes Lease; the winner changes the FabricPeers and their CPU limits, the
  channel's `peersToJoin`, the chaincode replicas and the client profile one command
  at a time, and may stop or crash anywhere.  Prometheus samples start the jobs.
- **The start barrier** (`Registrations`, `Barrier`, `Rendezvous`).  Workers bind a start queue,
  initialise, register and wait; the consumer counts registrations and broadcasts.
- **The benchmark loop and the dial loop** (`Benchmark`, `Backoff`).
- **The write path** (`Writer`, `Numbering`, `Chaincode`, `Commit`, `Record`,
  `Base64`, `GoText`), from the client's counter through the command line, the
  chaincode and the JSON record to the committed ledger, and **sizes** (`ByteSize`).

Protocols are state machines: a step function on values, total because a step that
is not enabled leaves the state alone, so a statement about `Exec(steps)` for every
sequence of steps holds for every interleaving.  Code that updates variables in
place is a method or a class proved against the functions the lemmas are about.

## Hypotheses about the environment

- The API server serves each Lease POST and DELETE atomically.  Requests and replies
  may be lost or served after the sender is gone; nothing is served twice.
- A trigger's sample is the peer count and the summed CPU limits at the moment the job
  starts, and KEDA starts no job of a kind while one is live (`maxReplicaCount: 1`):
  `ScaleJobs.Allowed`.  A peer whose limit was not set counts with the operator's
  default, which is the same for all and zero if there is none.  Under an offered load
  the peers use all of it or, if it exceeds the limits, at least the limits
  (`Triggers.Offers`).
- `kubectl hlf inspect` lists every FabricPeer.  In a scale-up the pods listed are the
  FabricPeers; after a delete, the deleted peer's pod may still be listed
  (`ScriptInvariant.PodsListed`).  Creation timestamps order the peers as created.
- A profile that `kubectl get secret … | base64 --decode` cannot read comes out empty;
  the edit of an empty file may fail, which is a stop, or leave it without peers.
- A chaincode invocation commits before the CLI returns, or never.  The CLI collects
  repeated `-a value` pairs in order and takes what follows `--fcn=` as the function
  (`Writer.ReadOptions` models that parser).  exec refuses an argument that holds a NUL
  byte or exceeds the kernel's limit; such a call is one that is `NotStarted`.
- Only workers put `text/plain` messages on the `registrations` queue, each at most
  once; the queue is first in, first out.  A message whose unconfirmed Publish returned
  nil reaches the broker, and nobody else publishes to `amq.topic` with key `start`.
- The monotonic clock does not go back, and a sleep lasts at least as long as asked.

## Where the code does not meet its promise

- A lease is left for ever exactly when one of five things happens (`OrphanedIff`): the
  reply to an accepted POST is lost (`LostReply`); a POST is served after its sender is
  gone (`LatePost`); the creator crashes with no DELETE on the way (`HolderCrashes`);
  the DELETE of a creator that is gone is lost (`ReleaseLost`); the creator finishes
  after its DELETE was lost (`ReleaseLostFirst`).  Nothing is scaled afterwards
  (`OrphanFreezesScaling`).  `autoscaling/README.md:95-107` describes a duration, a
  renewal and a retry that no code has, and line 149 a poll; a job that is refused
  exits at once.
- `autoscaling/README.md:190` prunes the profile first.  The script prunes it last, so
  between the delete and the upload the profile lists a deleted peer, and a
  scale-down stopped there leaves an entry that later scale-downs keep and the next
  completed scale-up removes (`DownKeepsStale`, `UpRepairsProfile`).
- A scale-up sets its peer's CPU limit one command after it creates the peer, and both
  triggers divide by the sum of the limits.  A sample taken between the two, or after a
  script that stopped there, counts the operator's default.  The scaler then keeps to
  one direction and to its resting count in every run exactly if that default is tame
  (`TameIff`): with rest as the resting count and n peers at the start, a scale-up needs
  0.25 (rest - 1) + default < 5 load and 0.25 n + default (rest - n) > 1.25 load.  A
  default too high turns the count back even if every job completes (`TooHigh`), one
  too low takes it past the resting count (`TooLow`); from one peer under a load of 0.2
  a default of 0.75 and none at all do so (`ThreeDefaults`).
- `kubectl get secret … | base64 --decode` at `autoscaling/files/peer-scale-down.sh:43`
  runs without pipefail: if the read fails, the script goes on and may upload a profile
  without peers although it completes (`BlindRun`).  After completed jobs the copies
  agree exactly if no scale-down since the last scale-up failed to read
  (`AgreementIff`).
- A scale-down from two peers ends with zero chaincode replicas when the deleted pod
  is no longer listed at the count (`DownAgreesIff`).
- A stored number never falls exactly when its key has one writer, that writer does
  not restart, and the key starts without a record or with a number of at most zero
  (`NeverFallsIff`; `SharedKeyFalls`, `RestartFalls` and `HighStartFalls` are the runs).
  Nothing shown gives clients distinct ids, by default the job restarts on failure
  (`k8s/helm/simi/templates/simi-job.yaml:26-30`, `k8s/helm/simi/values.yaml:12`), and
  a second benchmark starts on the ledger that the first one left.
- The barrier is not the only way to start: `case <-startCommands` at
  `benchmark/worker/worker.go:215` does not ask whether the channel is closed, so a
  worker whose channel closes while it waits begins its benchmark at once, with nothing
  registered, no Start sent and no timeout (`ClosedChannelStarts`).  Before the
  broadcast a worker starts exactly by that or by its timeout
  (`StartsBeforeBroadcast`).
- A consumer that the broker cancels broadcasts with fewer registrations than expected,
  even with none (`EarlyEndBroadcasts`, with the condition in `StartNeedsRegistrations`):
  its channel is still open.  If the channel itself closed, the publish fails and
  `benchmark/consumer/network.go:70-72` returns the error (`FailToAnnounce`).
- A registration whose error text is empty counts as successful
  (`CountedSuccessful`); an operation period of zero panics (`BenchOperation`); an
  expectation of zero makes a run without failures fatal (`ZeroExpectation`).
- The size expression admits units that the table refuses (`PatternBeyondTable`).

## Model

| member | source | states |
|---|---|---|
| ScaleJobs.MutualExclusion | autoscaling/templates/scalejob.yaml:43-77 | over every interleaving of any number of jobs, with crashes, lost requests and lost replies, at most one job holds the lock, and its lease exists |
| ScaleJobs.OnlyHolderChangesTopology | autoscaling/templates/scalejob.yaml:72-77 | whatever step changes the topology is a script command of the job that holds the lock |
| ScaleJobs.OnlyCreatorDeletes | autoscaling/templates/scalejob.yaml:60-72 | a lease disappears only through the DELETE of the job whose POST created it, never through a loser's trap |
| ScaleJobs.LoserSendsNoDelete | autoscaling/templates/scalejob.yaml:60-69 | a job with LOCK_ACQUIRED false has no DELETE on the way |
| ScaleJobs.OneChance | autoscaling/templates/scalejob.yaml:48-70 | a job whose POST was refused or lost, or whose lease was released, never owns a lease and never holds the lock again in any continuation |
| ScaleJobs.ScriptEnds | autoscaling/templates/scalejob.yaml:60-77 | a script whose command fails, or that has none left, ends: the holder sends its DELETE and the topology stays |
| ScaleJobs.OrphanedNextIff | autoscaling/templates/scalejob.yaml:48-72 | in every reachable state whose lease is not orphaned, a step orphans it exactly if it is one of the five: reply to an accepted POST lost, POST served after its sender is gone, creator crashed with no DELETE on the way, DELETE of a gone creator lost, creator finished after its DELETE was lost |
| ScaleJobs.OrphanedIff | autoscaling/templates/scalejob.yaml:48-72 | a run ends with an orphaned lease exactly if some step of it was one of the five |
| ScaleJobs.LostReply | autoscaling/templates/scalejob.yaml:50-57 | a triggered run that ends with the first cause |
| ScaleJobs.LatePost | autoscaling/templates/scalejob.yaml:50-57 | a triggered run that ends with the second cause |
| ScaleJobs.HolderCrashes | autoscaling/templates/scalejob.yaml:72-77 | a triggered run that ends with the third cause |
| ScaleJobs.ReleaseLost | autoscaling/templates/scalejob.yaml:60-70 | a triggered run that ends with the fourth cause |
| ScaleJobs.ReleaseLostFirst | autoscaling/templates/scalejob.yaml:60-70 | a triggered run that ends with the fifth cause |
| ScaleJobs.OrphanFreezesScaling | autoscaling/templates/scalejob.yaml:54-57 | in every continuation an orphaned lease stays and the topology never changes again |
| ScaleJobs.NamesAndFloor | autoscaling/files/peer-scale-up.sh:27-49 | in every reachable state of triggered jobs, with stops and crashes anywhere: at least one peer, n peers are named peer0, peer2, ..., peer n, names are distinct, the next is fresh, and only existing peers are joined, once each |
| ScaleJobs.NoCommandClashes | autoscaling/files/peer-scale-down.sh:27-35 | no command of a running script finds its name taken or its peer gone |
| ScaleJobs.AgreementAtRest | autoscaling/files/peer-scale-up.sh:82-170 | if every job that held the lock completed and could read the profile, then while no script runs, and so whenever the lease is free, peers, peersToJoin and profile agree, every peer has its CPU limit and replicas trail by 0 or 1 (Drift.AgreementIff has the reads that fail) |
| ScaleJobs.AgreementInFlight | autoscaling/files/peer-scale-down.sh:27-67 | while a script runs after completed ones that could read the profile, the copies differ by its own peer only; in a scale-up profile <= joined <= created |
| Serial.Serialises | autoscaling/templates/scalejob.yaml:71-77 | every run the triggers allow, with any jobs interleaved, stopped and crashed, leaves the topology of its scripts run one after another in lock order, each alone and to where it stopped |
| Drift.DriftIs | autoscaling/files/peer-scale-down.sh:27-67 | at every moment of every such run, where the earlier scripts stopped and what they could read give exactly the peers missing from the channel, the stale profile entries, the peers missing from the profile and the peers without a limit |
| Drift.AgreementIff | autoscaling/files/peer-scale-down.sh:43-67 | if every script completed, channel, limits and replicas are right, and the profile agrees exactly if no scale-down since the last scale-up failed to read it |
| Detours.BlindRun | autoscaling/files/peer-scale-down.sh:43-67 | the run of two completed jobs after which the profile lists no peer |
| Topology.UpAgreesIff | autoscaling/files/peer-scale-up.sh:27-170 | a scale-up interrupted from agreement leaves agreement exactly if it stopped before the create or after the upload |
| Topology.DownAgreesIff | autoscaling/files/peer-scale-down.sh:27-67 | a scale-down interrupted from agreement leaves agreement exactly if it stopped before patching the channel, or after the upload of a profile it could read; when its replica count is right, and when it is zero |
| Topology.UpRepairsProfile | autoscaling/files/peer-scale-up.sh:99-170 | from any state a completed scale-up leaves a profile listing exactly the peers, and the same peers unjoined as before |
| Topology.DownKeepsStale | autoscaling/files/peer-scale-down.sh:43-67 | from any state a completed scale-down keeps every unjoined peer but its victim, and every stale entry of a profile it could read; otherwise the profile is lost |
| Topology.StackPop | autoscaling/files/peer-scale-down.sh:27-35 | with n peers the newest is peer n, and deleting it leaves the names of n-1 peers |
| Topology.Cluster.PeerScaleUp | autoscaling/files/peer-scale-up.sh:27-170 | the whole new state after any number of commands, and when the script completes |
| Topology.Cluster.PeerScaleDown | autoscaling/files/peer-scale-down.sh:27-67 | the whole new state after any number of commands, and when the script completes |
| Topology.UpAlone | autoscaling/files/peer-scale-up.sh:27-170 | the single commands that interleave, run undisturbed, reach the state of the whole script after each number of commands |
| Topology.DownAlone | autoscaling/files/peer-scale-down.sh:27-67 | the same for the scale-down |
| ScriptInvariant.UpKeeps | autoscaling/files/peer-scale-up.sh:27-170 | every command of a scale-up succeeds and keeps the invariant, whatever was interrupted before |
| ScriptInvariant.DownKeeps | autoscaling/files/peer-scale-down.sh:27-67 | every command of a scale-down succeeds and keeps the invariant, including the floor |
| ScriptInvariant.UpKeepsClean | autoscaling/files/peer-scale-up.sh:82-170 | every command keeps the exact relation of the copies and limits, after completed jobs |
| ScriptInvariant.DownKeepsClean | autoscaling/files/peer-scale-down.sh:30-67 | the same for the scale-down, unless it fails to read the profile |
| Triggers.DownNeedsTwo | autoscaling/values.yaml:21 | the clamp_max guard never fires with fewer than two peers |
| Triggers.UsageIs | autoscaling/values.yaml:15 | throttled peers use the most that neither the load nor their limits exceed |
| Triggers.UpFires | autoscaling/values.yaml:15 | throttled or not, the up trigger fires exactly from a load of 0.8 of the summed limits on |
| Triggers.DownFires | autoscaling/values.yaml:21 | the down trigger fires exactly with two peers or more and a load of at most 0.2 of the summed limits |
| Triggers.UpIff | autoscaling/values.yaml:15 | with equal limits, the up trigger in terms of the peer count and the demand |
| Triggers.DownIff | autoscaling/values.yaml:21 | with equal limits, the down trigger in terms of the peer count and the demand |
| Triggers.NoReversal | autoscaling/values.yaml:13-22 | with equal limits, a job never leaves a count at which the opposite trigger fires |
| Triggers.Converges | autoscaling/values.yaml:13-22 | with equal limits, every run of completed jobs goes one way, stays between its start and a closed-form resting count, and rests exactly there |
| SteadyLoad.SteadyRun | autoscaling/values.yaml:5-23 | from a quiet state, for every run of the interleaved jobs that the triggers allow under one load, with refusals, stops and crashes anywhere, and for every default limit, provided no trigger is sampled while a peer lacks its limit: one kind of job only is started, the peer count moves one way and never passes the closed-form resting count, and with every limit set no trigger fires exactly when it is there |
| SteadyLoad.SteadyTopology | autoscaling/values.yaml:5-23 | in such a run, if every job that held the lock completed and could read the profile, and no script runs, the copies agree, under the names of the resting count exactly when no trigger fires |
| Limits.TameRun | autoscaling/files/peer-scale-up.sh:35-66 | with a tame default limit the same direction and bound hold for every run, whenever the triggers are sampled and wherever scripts stop |
| Limits.PeerCpuIsTame | autoscaling/files/peer-scale-up.sh:51-66 | a default equal to the limit that the script sets is tame |
| Detours.TameIff | autoscaling/files/peer-scale-up.sh:35-66 | from a quiet state with the lock free and every limit set, all runs are direct exactly if the default limit is tame |
| Detours.TooHigh | autoscaling/values.yaml:21 | with a default too high, the run in which a sample between create and limit starts a scale-down and the count turns back, although every job that held the lock completes |
| Detours.TooLow | autoscaling/values.yaml:15 | with a default too low, the run of scale-ups stopped between create and limit that passes the resting count |
| Detours.ThreeDefaults | autoscaling/values.yaml:13-22 | one peer under a load of 0.2: defaults 0.75 and 0 are not tame, 0.25 is |
| ClosedLoop.LoopConverges | autoscaling/values.yaml:12-23 | for whole topologies changed by completed jobs one after another (SteadyRun has the interrupted ones): after every job the copies agree, and no trigger is enabled exactly at the resting count, under its names |
| ClosedLoop.ScaleJob.AcquireLock | autoscaling/templates/scalejob.yaml:48-58 | the flag is set exactly if the lease was free and the answer arrived; a served POST leaves a lease either way |
| ClosedLoop.ScaleJob.ReleaseLock | autoscaling/templates/scalejob.yaml:60-70 | the lease goes exactly if the flag is set and the DELETE arrives |
| ClosedLoop.ScaleJob.Run | autoscaling/templates/scalejob.yaml:72-77 | a job without the lock leaves the cluster alone and removes no lease; one with it runs its script and releases |
| ClosedLoop.AcquireIsSteps | autoscaling/templates/scalejob.yaml:48-58 | undisturbed, the interleaved POST steps of a job end as AcquireLock does |
| ClosedLoop.ReleaseIsSteps | autoscaling/templates/scalejob.yaml:60-72 | undisturbed, the interleaved exit and DELETE steps end as ReleaseLock does |
| Barrier.NoLostWakeUp | benchmark/worker/worker.go:129-222 | after the broadcast, every worker counted as successful has Start in its queue, has started, or is gone |
| Barrier.StartNeedsRegistrations | benchmark/consumer/network.go:58-69 | a start by command happens only after the broadcast, which needs the expected count or, with fewer, deliveries that ended early, and no fatal verdict |
| Barrier.EarlyEndBroadcasts | benchmark/consumer/network.go:54-76 | the run in which the consumer is cancelled with nothing counted, Start is broadcast all the same and a worker starts by command |
| Barrier.ConsumerEnds | benchmark/consumer/network.go:54-110 | in every run with a positive expectation: the consumer has left its loop exactly when the expected number was counted or its deliveries ended, has stopped exactly if all that were expected failed or its publish failed, and has announced exactly if its publish went out |
| Rendezvous.EveryoneStarts | benchmark/worker/worker.go:129-222 | for any number of workers, all expected, and any results of their InitFuncs with one success at least: after all register and all registrations are delivered, Start goes out, every worker whose InitFunc succeeded starts by command, and the others are gone |
| Rendezvous.ForeignArrives | benchmark/consumer/network.go:84-88 | a message of another content type is delivered and counts for nothing |
| Barrier.StartsIff | benchmark/worker/worker.go:211-222 | in every reachable state, before and after the broadcast, a step starts a worker exactly if it waits and its timeout fires, its channel closes, or it takes a Start that the broadcast put in its queue |
| Barrier.DeadStaysDead | benchmark/worker/worker.go:129-209 | a worker may die at any time before it starts, and then never starts |
| Barrier.StartsBeforeBroadcast | benchmark/worker/worker.go:211-222 | in every reachable state before the broadcast, a step starts a worker exactly if it waits and its timeout fires or its start channel closes |
| Barrier.StartedBeforeBroadcast | benchmark/worker/worker.go:211-222 | over whole runs: no worker has started by command before the broadcast |
| Barrier.ClosedChannelStarts | benchmark/worker/worker.go:213-217 | the run in which a worker starts with nothing counted, no Start sent and no timeout |
| Barrier.EveryoneInitialised | benchmark/consumer/network.go:79-102 | with N workers and N expected, deliveries not cut short, every InitFunc has returned before any benchmark started by command; starts by timeout or a closed channel are not covered, and need not wait |
| Barrier.FailedInitNeverStarts | benchmark/worker/worker.go:167-209 | a worker whose InitFunc failed never starts, whether by command, timeout or a closed channel |
| Barrier.CountedSuccessful | benchmark/worker/worker.go:183-202 | a registration is counted as successful exactly if InitFunc succeeded or its error text is empty |
| Barrier.FatalMeansAllFailed | benchmark/consumer/network.go:104-106 | the fatal exit wakes nobody and happens only when every worker's InitFunc failed |
| Barrier.LateWorkerNeverGetsStart | benchmark/worker/worker.go:142-222 | a worker with no queue at the broadcast never starts by command in any continuation: only its timeout or a closed channel can start it |
| Barrier.ConsumerRunsTheLoop | benchmark/consumer/network.go:84-102 | the consumer of the state machine stops exactly where the counting loop does |
| Barrier.Invariant | benchmark/worker/worker.go:121-223 | the invariant of workers, messages, consumer and wake-ups holds in every reachable state |
| Registrations.WaitForRegistrations | benchmark/consumer/network.go:79-110 | it consumes the shortest prefix with the expected registrations, or all, and returns the verdict on it, for every 32-bit expectation |
| Registrations.PositiveExpectation | benchmark/consumer/network.go:104-109 | with a positive expectation nothing wraps: the result is the number of empty bodies, at least one after an exit by count, and fatal means failures alone |
| Registrations.ZeroExpectation | benchmark/cmd/consumer.go:69-71 | why zero is rejected: it would make a run without failures fatal |
| Registrations.ForeignIgnored | benchmark/consumer/network.go:85-88 | deliveries of other content types do not change the verdict |
| Benchmark.BenchOperation | benchmark/worker/worker.go:228-326 | the loop ends with the clock and statistics of the specification, and panics exactly on a period that is not positive |
| Benchmark.Result.Measure | benchmark/worker/worker.go:266-290 | one operation updates the statistics and the clock as specified |
| Benchmark.StatsAreFolds | benchmark/worker/worker.go:262-319 | while the run fits in int64: Min, Max and AvgTotal are minimum with MaxDuration, maximum and sum of the successful durations, without overflow, and operations and sleeps fit in the elapsed time |
| Benchmark.TimeConserved | benchmark/worker/worker.go:287-318 | after a success in iteration i, AvgTotal + i * OperationPeriod <= Elapsed |
| Benchmark.ElapsedIs | benchmark/worker/worker.go:270-315 | while the run fits in int64, Elapsed is zero if nothing succeeded, and otherwise exactly the time from the start to the reading of the clock after the last recorded interval |
| Benchmark.FailuresLeaveNoTrace | benchmark/worker/worker.go:262-298 | an iteration in which both operations fail leaves everything but Err |
| Benchmark.ClockIs | benchmark/worker/worker.go:261-319 | every moment of the run is an operation's, its bookkeeping's or a sleep's |
| Benchmark.SinceIs | benchmark/worker/worker.go:270-289 | the difference of two clock readings is exact as long as it fits an int64, and the largest int64 from there on |
| Benchmark.IntervalsOrdered | benchmark/worker/worker.go:266-300 | recorded intervals are ordered and disjoint, and their lengths are the recorded durations |
| Benchmark.MinAverageMax | benchmark/worker/worker.go:273-313 | count * Min <= AvgTotal <= count * Max, and Min > Max exactly when nothing succeeded |
| Benchmark.ErrEmptyIff | benchmark/worker/worker.go:263-298 | with texts that are not empty, Err is empty exactly when the last write and read succeeded |
| Backoff.Dial | benchmark/worker/worker.go:54-69 | it connects exactly at the first success, having slept once per failure, each sleep in the upper half of a doubling delay, above its middle by the draw reduced below it |
| Backoff.TotalBounds | benchmark/worker/worker.go:60-68 | n failures sleep at least (2^n - 1)/2 and less than 2^n - 1 seconds |
| Backoff.NineFailures | benchmark/worker/worker.go:54-72 | giving up takes at least 255.5 and less than 511 seconds |
| Writer.BuildCommand | chaincodes/common.go:228-247 | a left-to-right parser of `--name=value` and `-a value` reads back from the command line the given peer and chaincode, the channel, the admin and its configuration, the function and every argument, whatever text they hold; what exec refuses never starts |
| Writer.InvokeChaincodeCli | chaincodes/common.go:209-271 | a run that starts makes one request, to the given peer and chaincode; success is reported only for a committed call; a failure may or may not have committed |
| Writer.CCWorker.WriteKey | chaincodes/write.go:65-91 | one request to the worker's chaincode; the counter advances exactly on reported success, the ledger exactly on a commit; a negative size panics |
| Writer.WriteIsStored | chaincodes/write.go:75-79 | a committed write is read back from the ledger as exactly the client's counter and as many bytes as the size says |
| Numbering.NumberIsLastCommit | chaincodes/write.go:75-79 | on any ledger and with any restarts, the number under a key with one writer is the one its writer committed last |
| Numbering.CountersAgree | chaincodes/write.go:79-90 | from any ledger, for a client that has its key to itself and started once: until its first commit the counter is zero and the key is as it was, then the stored number is the counter or one less |
| Numbering.StoredNeverFallsOrSkips | chaincodes/write.go:79-90 | for such a client each event leaves the stored number or raises it by one, except that its first commit stores zero |
| Numbering.NoNumberSkipped | chaincodes/write.go:79-90 | a client that started once has committed every number up to its latest |
| Numbering.EachIncarnation | k8s/helm/simi/templates/simi-job.yaml:26-30 | from each restart on, the run is one of a client that has just started on the ledger as it is then, so the three results hold of each incarnation |
| Numbering.NeverFallsIff | chaincodes/common.go:89-90 | from a given ledger, the stored number falls in no run exactly when the key has one writer, that writer does not restart, and the key starts absent or at most zero |
| Numbering.SharedKeyFalls | chaincodes/write.go:79-84 | the run of three acknowledged writes by two clients with one key in which the number falls |
| Numbering.RestartFalls | k8s/helm/simi/templates/simi-job.yaml:26-30 | the run of two acknowledged writes, a restart and a write in which the number of a single writer falls |
| Numbering.HighStartFalls | chaincodes/write.go:79-84 | one acknowledged write over a positive number left by an earlier benchmark makes it fall |
| Chaincode.Service.Invoke | fabric-chaincode/internal/chaincode/chaincode.go:32-71 | response, read set, write set and metrics are those of the effect function |
| Chaincode.ExperimentWrite | fabric-chaincode/internal/chaincode/experiment.go:26-65 | response and write set, with all error paths |
| Chaincode.ExperimentRead | fabric-chaincode/internal/chaincode/experiment.go:87-125 | response and read set, with all error paths |
| Chaincode.WriteAnswers | fabric-chaincode/internal/chaincode/experiment.go:26-85 | on every ledger and under every fault, a write succeeds exactly with three arguments, a counter that parses and a put that goes through, and exactly then it writes, its own key alone, a record that decodes to its arguments |
| Chaincode.ReadAnswers | fabric-chaincode/internal/chaincode/experiment.go:85-136 | a read succeeds exactly with one argument, a get that goes through and a stored value that decodes; it reads its own key and never writes |
| Chaincode.OtherAnswers | fabric-chaincode/internal/chaincode/chaincode.go:46-60 | ping always succeeds, an unsupported name always fails, and neither touches the ledger |
| Chaincode.LastWriteIsStored | fabric-chaincode/internal/chaincode/experiment.go:36-54 | after any history the ledger holds under a key the record of its latest successful write, argument for argument |
| Chaincode.ReadSucceedsIffWritten | fabric-chaincode/internal/chaincode/experiment.go:99-124 | after any history a read whose get goes through succeeds exactly when an earlier write on the key succeeded |
| Chaincode.MetricsCountCalls | fabric-chaincode/internal/chaincode/chaincode.go:46-70 | for each action and status there are as many metric records as supported calls that ended so, whatever puts and gets failed |
| Chaincode.OnlyWritesMatter | fabric-chaincode/internal/chaincode/chaincode.go:46-56 | after any history the ledger is the one that its successful writes alone produce: reads, refused calls and unsupported names leave no trace |
| Chaincode.KeysDistinct | fabric-chaincode/internal/chaincode/experiment.go:20-36 | distinct client ids have distinct ledger keys |
| Commit.CommitRefinesSequential | fabric-chaincode/internal/chaincode/experiment.go:26-65 | endorsing on any stale snapshots and committing in block order leaves the ledger of sequential execution |
| Commit.ReadsCurrentIff | fabric-chaincode/internal/chaincode/experiment.go:87-125 | a read endorsed on the state after the first j transactions is still current at the end of the block exactly if no later one wrote what it read |
| Commit.AppliesIff | fabric-chaincode/internal/chaincode/experiment.go:26-65 | a transaction sets the version of what it writes exactly if its endorsement succeeded and its reads are current |
| Commit.UnwrittenKeysKeepTheirValue | fabric-chaincode/internal/chaincode/experiment.go:87-125 | a block changes no key that it does not write, whatever it reads |
| Record.RoundTrip | fabric-chaincode/internal/chaincode/experiment.go:13-18 | decoding the stored JSON gives back the counter and the bytes |
| Record.UnmarshalIff | fabric-chaincode/internal/chaincode/experiment.go:13-18 | reading accepts exactly Marshal's layout around any base64 text of the bytes and the printed counter (or a negative zero) |
| Record.MarshalExample | fabric-chaincode/internal/chaincode/experiment.go:13-18 | the JSON text of one record, letter for letter |
| Record.MarshalInjective | fabric-chaincode/internal/chaincode/experiment.go:45-54 | distinct records never share a text |
| Base64.RoundTrip | fabric-chaincode/internal/chaincode/experiment.go:15 | base64 (section 4 of RFC 4648) gives back every byte string |
| Base64.GroupIs | fabric-chaincode/internal/chaincode/experiment.go:15 | three bytes are written as their 24 bits in base 64, most significant first, in the alphabet of RFC 4648 |
| Base64.LeftoverBits | fabric-chaincode/internal/chaincode/experiment.go:15 | a padded last group decodes to its one or two bytes whatever its leftover bits are |
| GoText.AtoiItoa | fabric-chaincode/internal/chaincode/experiment.go:77 | parsing printed decimals gives back every 64-bit integer |
| GoText.AtoiIff | fabric-chaincode/internal/chaincode/experiment.go:77 | what parses: digits with an optional sign that denote a 64-bit integer |
| GoText.WrapAddIff | benchmark/worker/worker.go:287-313 | an int64 sum is the one int64 that differs from the true sum by a multiple of 2^64 |
| ByteSize.WorkerConfig.LoadByteSize | config/loader.go:38-86 | the field is set exactly on acceptance, to the truncated product wherever numeral, unit and product are float64 values and it fits an int, and is untouched on each of the three errors |
| ByteSize.WorthIff | config/loader.go:54-81 | the table gives exactly the k-th decimal unit 10^(3k), the k-th binary unit up to EiB 2^(10k), and one to a lone b and to no unit, in either case |
| ByteSize.ErrorsIff | config/loader.go:38-81 | which of the three errors a text gets: by its form first, then by its numeral, then by its unit |
| ByteSize.ExactIff | config/loader.go:49-83 | the product is taken as exact exactly if numeral, unit and product are float64 values, or the numeral is zero |
| ByteSize.PatternIff | config/loader.go:41-45 | the unit of the expression is an optional size letter, an optional i and an optional b, in either case |
| ByteSize.Tabs | config/loader.go:38-48 | a tab between numeral and unit is skipped, and a vertical tab, which is trimmed in front, is refused there |
| ByteSize.DecimalExample | config/loader.go:54-83 | " 64 kB" loads as 64000 |
| ByteSize.BinaryExample | config/loader.go:54-83 | "1.5KiB" loads as 1536 |
| ByteSize.RepresentableIff | config/loader.go:49-83 | the test for a float64 value is the definition: a significand below 2^53 times a power of two not below 2^-1074 |
| ByteSize.FractionLoad | config/loader.go:49-83 | a binary fraction m / 2^p of the k-th binary unit is loaded as exactly m * 2^(10k - p) bytes |
| ByteSize.MatchIff | config/loader.go:41-45 | a text splits by the expression in at most one way, and the match finds it |
| ByteSize.DigitSplitIff | config/loader.go:48-52 | ParseFloat accepts exactly digits with at most one dot, and reads the one number they denote |
| ByteSize.LoadIff | config/loader.go:38-86 | acceptance, with its value, is exactly membership in the grammar |
| ByteSize.PatternBeyondTable | config/loader.go:55-81 | which units pass the expression and are refused by the table |
| ByteSize.PrintLoad | config/loader.go:40-83 | printing n with any unit, case and spacing and loading it yields n times what WorthIff says the unit is worth, if that fits an int and has a significand below 2^53 |
| ByteSize.PrintLoadSmall | config/loader.go:40-83 | in particular for every product up to 2^53 |

## Left out

- Manual jobs (`autoscaling/templates/job.yaml`) run the scripts without the lease, so mutual exclusion is not claimed for them.
- Lock liveness: a lease may be orphaned for ever, as proved; only safety holds.
- API calls of a pod that outlive the pod, other than Lease requests: a script command takes effect at once or not at all.
- Script steps without effect on the copies and the CPU limits: packages, CA enrolment, waits, chaincode packaging and installation. They may fail, which is a stop.
- A kubectl failure that the `wc -l` pipelines turn into a pod count of zero, and ties between creation timestamps. A failed listing at `autoscaling/files/peer-scale-down.sh:27` leaves an empty name, which the delete refuses.
- KEDA, Prometheus, AMQP, Kubernetes and CA internals, InfluxDB, Jaeger, logging, license metrics and label formatting.
- Worker pods that restart and register twice: the consumer counts messages, not identities.
- The id rewriting of readers in `chaincodes/common.go:145-153`, `randomPeer`'s choice, and the read/write choice in `cmd/simi.go`.
- Register, SyncRegistrations and the interleaved scale jobs are state machines on values, because their steps interleave with other processes; the single job, both scripts and the counting loop are also methods.
- ExperimentRead: reads records in the layout json.Marshal writes, which is all that ExperimentWrite puts under a key; other JSON spellings of a record, which json.Unmarshal would read, are refused here (Record.Unmarshal).
- LoadByteSize: where float64 rounds the numeral, the unit or their product, or the product does not fit an int, the value stored is a parameter; inputs are ASCII.
- LoopConverges: is about completed jobs one after another; refused, interleaved and interrupted ones are in SteadyRun and SteadyTopology.
- Dial: the delays are unbounded integers; the nine attempts of the source stay far below the int64 limit.
- Counter wrap-around: CountersAgree, StoredNeverFallsOrSkips, NoNumberSkipped and NeverFallsIff are about runs of at most 2^63 - 1 events; WriteKey itself models the wrap.
