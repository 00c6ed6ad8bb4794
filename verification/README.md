# Control-plane model of the marshal

This project models the stateful core of the marshal, the process that queues inference requests, routes
them to Ollama nodes, compares answers of several nodes, schedules benchmark jobs and keeps secrets, and
proves what that core promises over whole runs. `dafny verify dfyconfig.toml` checks everything.

`Common` holds what several components share. Each component has a specification on values (`...Spec`), theorems
about it (`...Safety`, `...Fairness`, `...Settings`, `...Protocol`, `...Effects`, `...Runs`, `...Policy`) and, where
the program updates objects in place, classes whose methods are proved to be steps of the specification.

- **Queue** (`QueueSpec`, `QueueFairness`, `QueueSettings`, `QueueScheduler`): slots, waiters, the weighted cyclic
  schedule, cancellation that races with dispatch, live reconfiguration. Every mutex-protected section is one step.
- **Proxy** (`ProxySpec`, `ProxySafety`, `Proxy`): fallback over upstreams and the streaming copy. Upstream
  results and client writes are arbitrary scripts; the log records contacts, status lines and body bytes.
- **Consensus** (`ConsensusEngine`, `ConsensusSpec`, `ConsensusSafety`, `Consensus`): the voting engine, and the
  fan-out collector whose answers arrive in any order and may be cut off.
- **Benchmark jobs** (`BenchmarkSpec`, `BenchmarkProtocol`, `BenchmarkEffects`, `BenchmarkRuns`, `BenchmarkJobs`):
  leases, retries, exhaustion. Each handler is one step, at an instant that is passed in.
- **Router** (`StableSort`, `RouterSpec`, `RouterSafety`, `RouterPolicy`, `Router`), the status page
  (`RoutingStatus`) and session affinity (`Session`).
- **Authentication limiter** (`AuthLimiter`).
- **DNS names and mDNS packets** (`DnsNames`, `MdnsPackets`), sections 3.1, 3.2.2, 4.1.3 and 4.1.4 of RFC 1035.
- **Secrets** (`SecretsSpec`, `SecretsSafety`, `SecretStore`): rekey with rollback, saving, legacy takeover, and
  the failover from the keychain to the encrypted file. Ciphertext is a key and the map it opens to.

Where the code promises less than one might expect, the exact condition is proved, with a concrete case:

- An unstreamed response is written with one call whose short count is not checked: it is reported as
  delivered although cut short exactly when that write is short without an error (`CopySends`). Go's writer
  contract forbids such a write (the case is `SilentShortWriteIsSuccess`); with a writer that keeps the contract
  success always means the whole body (`SuccessIsWhole`).
- A claim does not look at the attempt limit: it holds over every run in which subscribers hand a job back as
  queued only while it has an attempt left, and a claim after any other such answer exceeds it
  (`QueuedReportKeepsBound`, `QueuedReportNeedsAttempt`; the case is `QueuedReportBreaksBound`).
- The limiter keeps one fixed window per key; over sliding windows that still gives 2*max-3, and not less
  (`SlidingWindow`; the case is `SlidingWindowIsTight`).
- Names of more than 31 labels are encoded but not read back (`RoundTrip`, `QueryRoundTrip`; the case is
  `ThirtyTwoLabelsAreLost`).
- Affinity moves the selected node without recomputing the fallbacks, so a node is tried twice exactly when a
  strict or task session recorded a later candidate (`TriedOnceIffUnmoved`; the case is `HeldOnSecondNode`).
- A failed rekey that reached a rename is harmless exactly if its rollback writes held (`RekeyKeepsSecrets`; the
  case is `TornRollbackLosesSecrets`).

## Model

| member | source | states |
|---|---|---|
| QueueScheduler.Scheduler.constructor | internal/httpapi/queue.go:117-136 | a new scheduler is the initial state, and works by the numbers it was given: a positive capacity and positive weights as they are, else one slot and 3, 2, 1 |
| QueueScheduler.Scheduler.Configure | internal/httpapi/queue.go:117-136 | live reconfiguration is the Configure step, cursor kept in range, then slots filled; from then on the scheduler works by the numbers passed |
| QueueScheduler.Scheduler.Acquire | internal/httpapi/queue.go:138-153 | takes a slot exactly when one is free and nobody waits, else queues at the end |
| QueueScheduler.Scheduler.CancelWait | internal/httpapi/queue.go:154-167 | whoever wins the race, the caller is told it holds a slot exactly when it was granted one |
| QueueScheduler.Scheduler.Release | internal/httpapi/queue.go:169-176 | gives a slot back and dispatches |
| QueueScheduler.Scheduler.DispatchLocked | internal/httpapi/queue.go:190-199 | the loop grants until no slot is free or nobody waits |
| QueueScheduler.Scheduler.NextWaiterIndex | internal/httpapi/queue.go:201-215 | index and new cursor are those of the cyclic scan |
| QueueScheduler.Scheduler.ScanSchedule | internal/httpapi/queue.go:205-214 | one pass over the schedule from the cursor on |
| QueueSpec.RunKeepsInv | internal/httpapi/queue.go:117-199 | every run keeps: each request accounted for once, classes in arrival order, slots conserved, nobody waits while a slot is free |
| QueueSpec.StepKeepsInv | internal/httpapi/queue.go:117-199 | each locked section keeps that invariant |
| QueueFairness.StepRespectsCapacity | internal/httpapi/queue.go:169-199 | no step raises the used slots above the capacity; a state over capacity only shrinks |
| QueueFairness.SlotConservation | internal/httpapi/queue.go:138-199 | after every run used slots are grants minus releases, and waiters exist only when no slot is free |
| QueueFairness.OneFate | internal/httpapi/queue.go:138-199 | every request is granted once, cancelled once or waiting once, never two of these |
| QueueFairness.OrderPreserved | internal/httpapi/queue.go:138-215 | requests of one class are granted in arrival order across all reconfigurations and cancellations |
| QueueFairness.FifoOrder | internal/httpapi/queue.go:201-204 | under fifo the order holds across classes |
| QueueFairness.PickScans | internal/httpapi/queue.go:205-215 | with a waiter present the scan finds one; the fallback to the head is never taken |
| QueueFairness.SlotsOfPeriod | internal/httpapi/queue.go:205-215 | a whole period from any cursor returns to it and sees every slot once |
| QueueFairness.ScheduleCounts | internal/httpapi/queue.go:250-263 | the schedule holds each class as often as its weight |
| QueueFairness.PickProgress | internal/httpapi/queue.go:190-215 | each pick grants a given waiter or moves the cursor past as many of its slots as it comes nearer |
| QueueFairness.NoStarvation | internal/httpapi/queue.go:190-263 | a waiter with k of its class ahead is granted within ceil((k+1)/w)*T grants unless cancelled |
| QueueFairness.ProportionalShare | internal/httpapi/queue.go:190-263 | while all classes wait, any T consecutive grants serve each class exactly its weight |
| QueueSettings.SettingsInForce | internal/httpapi/queue.go:117-248 | over every run the capacity, policy and weights in force are the last ones passed, with 1 and 3, 2, 1 in place of numbers that are not positive |
| QueueSettings.LogIsArrivals | internal/httpapi/queue.go:138-153 | after every run the logged requests are exactly those made, with their classes, in order |
| QueueSettings.FreeSlotIsGiven | internal/httpapi/queue.go:138-153 | a request is granted at once exactly while grants not given back are fewer than the slots last configured; otherwise it queues up last |
| QueueSettings.CancelTakesOne | internal/httpapi/queue.go:154-167 | a request that ends while it waits leaves the list and nothing else changes |
| QueueSettings.SpareReleaseIsHarmless | internal/httpapi/queue.go:169-176 | giving back a slot nobody holds changes nothing |
| QueueSettings.CursorSurvives | internal/httpapi/queue.go:130-135 | new settings keep the cursor if the new schedule reaches that far, else set it back |
| QueueSettings.ServedInTurn | internal/httpapi/queue.go:190-263 | from the first dispatch on, while every class waits, each period serves high, then normal, then low, each as often as its weight |
| Proxy.UpstreamBody.ReadAll | internal/httpapi/server.go:1910-1974 | reads chunk after chunk to the end or the first error |
| Proxy.CopyUpstreamResponse | internal/httpapi/server.go:1910-1974 | the read and write loop leaves on the wire, and reports, what the copy specification says |
| Proxy.ForwardWithFallback | internal/httpapi/server.go:1835-1892 | the retry loop over nodes is the forwarding specification |
| Proxy.ServeSingleRoute | internal/httpapi/server.go:1798-1811 | an uncommitted, uncancelled failure becomes the gateway error |
| ProxySafety.CopySends | internal/httpapi/server.go:1910-1974 | one status line, then exactly the bytes the client takes of the pieces that were read; success exactly if the body ended cleanly and no write of it failed or, streamed, was short; and the way it failed |
| ProxySafety.ForwardShows | internal/httpapi/server.go:1835-1892 | nodes up to the first final attempt are contacted, only that attempt shows anything, and every reported field is what that attempt makes it |
| ProxySafety.SingleOrigin | internal/httpapi/server.go:1798-1892 | for every script: contacts first, then the response of the first final attempt if it has one, else the gateway error, else nothing for a client found gone; success, cancellation and partial output are reported exactly when the script says so |
| ProxySafety.SuccessIsWhole | internal/httpapi/server.go:1798-1974 | with a writer that reports every short write, success always means the whole body |
| ProxySafety.OnlyGivenNodes | internal/httpapi/server.go:1835-1892 | no other node than those handed in is ever contacted |
| ProxySafety.SilentShortWriteIsSuccess | internal/httpapi/server.go:1910-1974 | a connection that breaks the writer's contract, for which half a body is reported as success |
| Consensus.Collect | internal/httpapi/consensus.go:103-126 | the collect loop records exactly the answers that arrived before it ended |
| Consensus.ClassifyParticipants | internal/httpapi/consensus.go:127-152 | successes, failures and reason counts in rank order |
| Consensus.MissedFailure | internal/httpapi/consensus.go:274-289 | a missing participant fails with the reason the wait ended for |
| Consensus.ForwardConsensus | internal/httpapi/consensus.go:77-202 | collecting, classifying and committing is the settling specification |
| ConsensusSafety.ScheduleIndependence | internal/httpapi/consensus.go:103-202 | outcome and bytes sent depend on which answers arrived and how the wait ended, not on their order |
| ConsensusSafety.Partition | internal/httpapi/consensus.go:77-152 | the outcome lists every participant once, in rank order, as success exactly if it answered well in time; with fewer participants than required both lists are empty and nothing is sent |
| ConsensusSafety.CountsAddUp | internal/httpapi/consensus.go:127-152 | the outcome explains each failed participant in order: by what it reported, or as timeout, cancellation or connection error; each reason count is the number of its failures, and together they are all of them |
| ConsensusSafety.AllResponsesCounted | internal/httpapi/consensus.go:103-152 | no collected response is lost by the classification |
| ConsensusSafety.CommitsOnlyWinners | internal/httpapi/consensus.go:77-202 | gone and timed out are reported exactly if answers were missing and the wait ended so; a response goes out exactly if enough participants answered well and the client was not gone, and it is that of the winner of the vote; the error follows |
| ConsensusEngine.BuildGroups | internal/consensus/engine.go:86-125 | one group for every signature, in order of appearance |
| ConsensusEngine.ChooseGroup | internal/consensus/engine.go:86-150 | the loop keeps the best group of the four-key order |
| ConsensusEngine.ChooseMember | internal/consensus/engine.go:86-150 | the loop keeps the best member of the winning group |
| ConsensusEngine.Evaluate | internal/consensus/engine.go:86-150 | the whole evaluation is the verdict specification |
| ConsensusEngine.WinnerBeatsAll | internal/consensus/engine.go:86-163 | the winning response beats every other one by votes, then by a validated candidate, then by the highest rating or zero, then by coming first |
| ConsensusEngine.GroupSums | internal/consensus/engine.go:111-124 | a group is validated exactly if a member is, and its score is the highest of its members or zero |
| ConsensusEngine.WinnerIsBestMember | internal/consensus/engine.go:86-150 | among the candidates with the winning response the winner is validated before not validated, then rated higher, then ranked earlier |
| ConsensusEngine.VerdictReports | internal/consensus/engine.go:137-150 | agreement score is the share of votes, validation and rating are those of the winner itself, the strategy is that of the first candidate with its response |
| ConsensusEngine.Majority | internal/consensus/engine.go:86-150 | AgreementCount is the largest multiplicity; consensus exactly with at least two and more than half of the votes |
| ConsensusEngine.DisagreementMeansTwoAnswers | internal/consensus/engine.go:86-150 | disagreement is reported exactly when two candidates differ |
| ConsensusEngine.ReorderingIsHarmless | internal/consensus/engine.go:86-150 | reordering candidates changes no count, no flag, nor the winning signature of a consensus |
| ConsensusEngine.PlainVote | internal/consensus/engine.go:86-150 | without validator and evaluator the winner is the earliest candidate of the largest, earliest-seen group |
| BenchmarkSpec.BoundedInt | internal/config/config.go:384-395 | in range always, and unchanged when positive and already in range |
| BenchmarkSpec.Normalize | internal/config/config.go:347-357 | the policy is in range, and an in-range policy is a fixed point |
| BenchmarkSpec.NextDue | internal/httpapi/benchmark_jobs.go:279-287 | the first queued job that is due |
| BenchmarkSpec.FindJob | internal/httpapi/benchmark_jobs.go:289-297 | the first job with the id |
| BenchmarkJobs.EnsureDefaults | internal/httpapi/benchmark_jobs.go:489-510 | assignment by assignment, the normalized settings of the job |
| BenchmarkJobs.RetryOrExhaust | internal/httpapi/benchmark_jobs.go:467-487 | retry wait or exhausted, and which |
| BenchmarkJobs.ReconcileOne | internal/httpapi/benchmark_jobs.go:416-457 | one iteration of the reconcile loop with its counters |
| BenchmarkJobs.UpsertJob | internal/httpapi/benchmark_jobs.go:299-314 | the job to the front, others of that id dropped, eight kept |
| BenchmarkJobs.Node.ReconcileJobs | internal/httpapi/benchmark_jobs.go:406-465 | the loop over the list; the list is replaced only when something counted as a change |
| BenchmarkJobs.Node.CreateJob | internal/httpapi/benchmark_jobs.go:208-246 | a new queued job with normalized settings |
| BenchmarkJobs.Node.ClaimJob | internal/httpapi/benchmark_jobs.go:53-92 | reconcile, then lease the first due job |
| BenchmarkJobs.Node.ReportStatus | internal/httpapi/benchmark_jobs.go:142-186 | the status step, and exactly when a report is accepted |
| BenchmarkJobs.Node.CompleteWithResult | internal/httpapi/benchmark_jobs.go:248-277 | the result step |
| BenchmarkProtocol.ReconcileCounts | internal/httpapi/benchmark_jobs.go:406-465 | ids and order kept; retried plus exhausted is the number of jobs whose stored status changed |
| BenchmarkProtocol.ReconcileIdempotent | internal/httpapi/benchmark_jobs.go:406-465 | a second pass at the same instant changes nothing and reports an empty run, for every list |
| BenchmarkEffects.StoredInFront | internal/httpapi/benchmark_jobs.go:299-314 | a stored job comes to the front, every other one keeps its place behind it, and only those past the eighth place are dropped |
| BenchmarkEffects.CreationDropsTheEighth | internal/httpapi/benchmark_jobs.go:208-246 | a new job stands before all others, of which only the eighth is dropped; it is due at once with the configured settings |
| BenchmarkEffects.StaysAWhile | internal/httpapi/benchmark_jobs.go:299-314 | however full the list is, a job survives as many calls as there are places behind it among the first eight |
| BenchmarkEffects.PolicyMeans | internal/config/config.go:347-395 | 3 attempts, 600 and 60 seconds unless something positive is configured, and then the nearest number in range |
| BenchmarkEffects.RetryMeans | internal/httpapi/benchmark_jobs.go:467-487 | after a failed attempt a job with an attempt left is due again exactly one retry delay later, any other is exhausted and never due |
| BenchmarkEffects.ReportTakes | internal/httpapi/benchmark_jobs.go:112-186 | what each reported status stores; a job still running keeps its deadline; reports about other jobs or with other statuses change nothing |
| BenchmarkEffects.ResultTakes | internal/httpapi/benchmark_jobs.go:248-277 | a result ends its job, completed unless it says otherwise |
| BenchmarkEffects.SettledMeans | internal/httpapi/benchmark_jobs.go:406-465 | a pass fails late jobs, queues again those whose wait is over, and is stored exactly if it found something to do |
| BenchmarkEffects.PassCounts | internal/httpapi/benchmark_jobs.go:406-465 | the three counters are the late jobs, those retried and those given up, and the change flag is exact |
| BenchmarkEffects.ClaimTakesFirst | internal/httpapi/benchmark_jobs.go:53-92 | the first job that is queued and due after the pass is leased, with one attempt more and a deadline one lease away, and handed out as stored |
| BenchmarkProtocol.StepGet | internal/httpapi/benchmark_jobs.go:29-277 | what each step makes of each job that stays; only creation adds one; a leased job was queued and due |
| BenchmarkProtocol.OnlyCreateDrops | internal/httpapi/benchmark_jobs.go:299-314 | in a list of at most eight no step but a creation drops a job |
| BenchmarkRuns.ListStaysUnique | internal/httpapi/benchmark_jobs.go:299-314 | over every run the list stays unique by id and at most eight long |
| BenchmarkRuns.RunKeepsJobsOk | internal/httpapi/benchmark_jobs.go:53-92 | over orderly runs attempts stay within the maximum and queued jobs have one left |
| BenchmarkRuns.AttemptBound | internal/httpapi/benchmark_jobs.go:53-92 | a job is claimed at most as often as attempts are left, never more than ten times, as long as no job without an attempt left is handed back as queued |
| BenchmarkRuns.FromNothing | internal/httpapi/benchmark_jobs.go:29-277 | both, for every orderly run from an empty list |
| BenchmarkRuns.ClaimsSpaced | internal/httpapi/benchmark_jobs.go:467-487 | consecutive claims of a job are at least its retry delay apart |
| BenchmarkRuns.UnansweredClaimsSpaced | internal/httpapi/benchmark_jobs.go:416-442 | while nobody answers, at least a lease plus a retry delay apart |
| BenchmarkRuns.Exhaustion | internal/httpapi/benchmark_jobs.go:406-487 | every change of an unanswered job uses up 3*(max-attempt)+rank-1; it is exhausted exactly when nothing is left |
| BenchmarkRuns.NewJobCycles | internal/httpapi/benchmark_jobs.go:208-246 | the measure of a new job is 3*max_attempts-1 |
| BenchmarkRuns.LeaseStartsCycle | internal/httpapi/benchmark_jobs.go:67-81 | a leased job is in the unanswered cycle from its lease on |
| BenchmarkRuns.Progress | internal/httpapi/benchmark_jobs.go:416-453 | a claim or reconcile at or after its deadline moves a running or waiting job on, and one change nearer to its end |
| BenchmarkRuns.Absorbing | internal/httpapi/benchmark_jobs.go:279-287 | claims and reconciles of a list of at most eight keep exhausted, completed and cancelled jobs as they are |
| BenchmarkRuns.QueuedReportKeepsBound | internal/httpapi/benchmark_jobs.go:62-68 | over every run in which answers hand a job back as queued only while it has an attempt left, every job stays within its maximum and queued or waiting ones have an attempt left |
| BenchmarkRuns.QueuedReportNeedsAttempt | internal/httpapi/benchmark_jobs.go:142-182 | a job handed back as queued and claimed next is within its maximum exactly if it had an attempt left; when due it is the next one leased |
| BenchmarkRuns.QueuedReportBreaksBound | internal/httpapi/benchmark_jobs.go:62-68 | a concrete run: one job with one attempt, claimed twice |
| StableSort.SortOrdered | internal/routing/routing.go:111-118 | the modelled stable sort is sorted and keeps ties in their old order |
| StableSort.SortKeeps | internal/routing/routing.go:111-118 | and only rearranges |
| StableSort.OneStableSort | internal/routing/routing.go:111-118 | a list is sorted and keeps ties in their old order exactly if it is this one, so the choice of the sorting algorithm does not matter |
| StableSort.StringLessMeans | internal/routing/routing.go:117-117 | node ids are compared character by character: a proper prefix, or the smaller character at the first difference, comes first |
| RouterSpec.Bounds | internal/routing/routing.go:201-218 | 1 <= required <= limit <= 8, and bounds already in range are kept |
| Router.FindLatest | internal/routing/routing.go:376-400 | the loop over benchmark results |
| Router.CollectNodes | internal/routing/routing.go:91-110 | stored nodes, then the subscribers none of them stands for |
| Router.Consider | internal/routing/routing.go:123-142 | one node: candidate, recorded as rejected once, or passed over |
| Router.Gather | internal/routing/routing.go:122-142 | the loop over the ranked nodes for one wanted model |
| Router.FindServed | internal/routing/routing.go:120-162 | the loop over the wanted models |
| Router.Finish | internal/routing/routing.go:164-198 | consensus cut, minimum, selection and reasons |
| Router.Select | internal/routing/routing.go:53-199 | the whole selection is the decision specification, in every field |
| RouterSafety.EnumerationIrrelevant | internal/routing/routing.go:91-198 | the decision is the same for every enumeration order of the node map |
| RouterSafety.EveryStableSortRanks | internal/routing/routing.go:111-118 | every stable sort of any enumeration of the nodes gives the same ranked list |
| RouterSafety.DecisionSound | internal/routing/routing.go:120-198 | routed exactly when a wanted model is served, and by enough nodes for consensus; the first served model; all candidates passed the policy; a single route lists all of them, consensus as many as the limit allows, at most eight |
| RouterSafety.DecisionInOrder | internal/routing/routing.go:143-160 | candidates with a fresh benchmark first by rate, the others and ties by score and id |
| RouterSafety.SelectedIsBest | internal/routing/routing.go:111-160 | the selected node beats every eligible one: fresh benchmark and rate first, then score, then id |
| RouterSafety.CutAreNotPreferred | internal/routing/routing.go:164-177 | every node consensus takes is preferred to every fitting node it leaves out |
| RouterSafety.CandidatesDistinct | internal/routing/routing.go:143-160 | with distinct nodes no candidate is listed twice |
| RouterSafety.ExcludedAre | internal/routing/routing.go:120-131 | the decision excludes exactly the nodes that failed the policy, each id once, with the reasons; nobody for an alias without candidates |
| RouterSafety.LatestIsNewest | internal/routing/routing.go:376-400 | the placement uses the newest result about the model, the first of equally new ones |
| RouterSafety.PlacedByDecisiveResult | internal/routing/routing.go:329-374 | a node is placed exactly if the first of its newest results about the model is trusted, finished, at most a day old and has a rate; and by that rate |
| RouterSafety.ResultsAre | internal/routing/routing.go:376-420 | the results are those observed or, where there are none, the last one |
| RouterPolicy.PolicyAdmits | internal/routing/routing.go:278-327 | the policy admits exactly the nodes that are enabled, approved, fit, heard from within two minutes if they must report, not external, and for consensus managed and verified |
| RouterPolicy.RejectionGiven | internal/routing/routing.go:278-290 | a rejected node is told why, both if disabled and if not approved |
| RouterPolicy.PoolIs | internal/routing/routing.go:91-110 | the nodes considered are the stored ones and, for each subscriber without one, an approved managed node of the trusted network |
| RouterPolicy.WhatCounts | internal/routing/routing.go:224-266 | what one unit of load, models, tags, health, control and trust is worth in the score, and the score of a plain subscriber |
| RouterPolicy.BetterOffComesFirst | internal/routing/routing.go:111-160 | of two candidates that benchmarks do not tell apart and that differ in one thing, the less loaded, healthier, better equipped or more trusted one is tried first |
| RouterPolicy.DecisionAnswers | internal/routing/routing.go:53-90 | model, candidate models, strategy, mode, affinity and consensus bounds as request, alias and configuration say, in that order of precedence |
| RouterPolicy.DecisionExplains | internal/routing/routing.go:149-198 | the decision gives each of its own reasons exactly where it holds |
| RouterPolicy.CandidateDescribed | internal/routing/routing.go:135-142 | a candidate is described by its id, control, trust and capability source, why it was admitted and how it was placed |
| RoutingStatus.WarningsForNode | internal/httpapi/routing_policy_status.go:57-100 | the warnings appended one after another |
| RoutingStatus.SameReading | internal/httpapi/routing_policy_status.go:102-148 | the page's own readings of control, trust, approval and heartbeat are those of the router |
| RoutingStatus.Members | internal/httpapi/routing_policy_status.go:57-100 | exactly the warnings that apply are shown |
| RoutingStatus.PageAgreesWithRouter | internal/httpapi/routing_policy_status.go:57-100 | the router rejects a single route exactly with a routing_and_consensus warning, consensus exactly with that or a consensus warning |
| RoutingStatus.ReasonsAreShown | internal/routing/routing.go:278-327 | every reason the router rejects a node for is a warning code of the page |
| RoutingStatus.UnverifiedScoresLower | internal/httpapi/routing_policy_status.go:95-96 | a node the page calls de-prioritized scores lower than the same node with a trust that admits it to consensus |
| Session.Store.ApplyAffinity | internal/session/session.go:7-25 | the pinned node, and the session record written |
| Session.ContainsNode | internal/session/session.go:27-34 | membership |
| Session.ContactsEligible | internal/httpapi/server.go:1835-1838 | whatever a session recorded, every node to be tried passed the policy and serves the model |
| Session.OnlyEligibleContacted | internal/httpapi/server.go:1753-1892 | every node contacted on the wire passed the policy and serves the model, for every script of upstreams and client writes |
| Session.TriedOnceIffUnmoved | internal/httpapi/server.go:1835-1838 | a node is tried twice, and the first candidate never, exactly if affinity is strict or task and the recorded node is a later candidate |
| Session.HeldOnSecondNode | internal/httpapi/server.go:1835-1838 | a concrete configuration: of two candidates only the second is tried, twice |
| Session.StrictSessionsStick | internal/session/session.go:7-25 | a strict session stays on its node while that stays a candidate |
| AuthLimiter.Limiter.constructor | internal/httpapi/auth_limiter.go:35-52 | an empty table; five failures, a minute and half a minute in place of numbers that are not positive |
| AuthLimiter.Limiter.RegisterFailure | internal/httpapi/auth_limiter.go:54-78 | the counted or blocked answer and the record kept |
| AuthLimiter.Limiter.ResetKey | internal/httpapi/auth_limiter.go:80-87 | the record of the key is dropped |
| AuthLimiter.SlidingWindow | internal/httpapi/auth_limiter.go:54-78 | any closed interval of window length lets at most 2*max-3 failures through, none when max is 1 |
| AuthLimiter.SlidingWindowIsTight | internal/httpapi/auth_limiter.go:54-78 | for every configuration with max above 1 a run reaches that bound |
| AuthLimiter.CooldownHolds | internal/httpapi/auth_limiter.go:54-62 | a blocked key stays blocked until the instant set, which no failure moves, and is told the time left |
| AuthLimiter.FirstFailuresPass | internal/httpapi/auth_limiter.go:54-78 | within a window of its first failure exactly the first max-1 failures of a key are let through |
| AuthLimiter.OneTooManyBlocks | internal/httpapi/auth_limiter.go:71-75 | the failure that is one too many starts a whole cooldown |
| AuthLimiter.OldFailuresAreForgiven | internal/httpapi/auth_limiter.go:63-70 | once a window and a cooldown have passed since its last failure, a key starts a clean record and is let through |
| AuthLimiter.ResetForgives | internal/httpapi/auth_limiter.go:80-87 | after a reset a key is treated like one that never failed |
| AuthLimiter.OneKey | internal/httpapi/auth_limiter.go:54-87 | failures and resets of other keys do not matter |
| DnsNames.AppendDNSName | internal/httpapi/peer_discovery.go:194-207 | appends the encoding of the labels of the name |
| DnsNames.ReadDNSName | internal/httpapi/peer_discovery.go:273-309 | the reading loop is the name specification |
| DnsNames.WireReads | internal/httpapi/peer_discovery.go:273-309 | encoded labels are read back and the reader stops right after them, exactly when the steps suffice |
| DnsNames.RoundTrip | internal/httpapi/peer_discovery.go:194-309 | every name is read back in canonical form at any position, if and only if it has at most 31 labels |
| DnsNames.ProperNameRoundTrip | internal/httpapi/peer_discovery.go:194-309 | a dotted name of proper labels survives, with or without its final dot |
| DnsNames.LabelsAroundDot | internal/httpapi/peer_discovery.go:194-207 | the labels of a name are those before any dot and those after it, so empty pieces and a final dot are nothing |
| DnsNames.LabelsOfPiece | internal/httpapi/peer_discovery.go:194-207 | a piece without a dot is one label, cut at 63 bytes |
| DnsNames.RfcExample | internal/httpapi/peer_discovery.go:273-309 | the names of the example in section 4.1.4 of RFC 1035, byte for byte |
| DnsNames.PointerReads | internal/httpapi/peer_discovery.go:288-300 | a pointer yields the labels of its target, and reading goes on two bytes later |
| DnsNames.ThirtyTwoLabelsAreLost | internal/httpapi/peer_discovery.go:273-309 | a concrete name of 32 labels that is written but not read back |
| DnsNames.CompressionTransparent | internal/httpapi/peer_discovery.go:273-309 | labels ending in a pointer denote these labels and the target's, within the steps |
| DnsNames.CompressionBudget | internal/httpapi/peer_discovery.go:273-309 | and exactly within one step for each label, one for the pointer and those of the target |
| DnsNames.SelfPointerRefused | internal/httpapi/peer_discovery.go:273-309 | a pointer to itself is refused for every number of steps |
| MdnsPackets.BuildMDNSQuery | internal/httpapi/peer_discovery.go:183-192 | header and questions |
| MdnsPackets.QueryAsks | internal/httpapi/peer_discovery.go:183-192 | a built query is a header with the number of questions and nothing else set, then for each service its name, type 12 and class 1, and nothing else |
| MdnsPackets.ParseMDNSRecords | internal/httpapi/peer_discovery.go:209-271 | the parser, total on every packet |
| MdnsPackets.QueryRoundTrip | internal/httpapi/peer_discovery.go:183-271 | a built query of fewer than 65536 names is accepted and consumed exactly, if and only if every name has at most 31 labels |
| MdnsPackets.ResponseRoundTrip | internal/httpapi/peer_discovery.go:209-271 | a response of records with names written out is parsed into exactly what its records say, and consumed exactly |
| MdnsPackets.PacketMeans | internal/httpapi/peer_discovery.go:209-271 | a packet is accepted exactly if its questions read and it has the records it announces; the result is then what they say, in order, names compressed or not, and records the parser has no use for are passed over |
| MdnsPackets.LearnedAbout | internal/httpapi/peer_discovery.go:236-269 | for every name the parser ends with all addresses and all pointer targets given for it, in order, and the last service |
| MdnsPackets.TextRecordPassedOver | internal/httpapi/peer_discovery.go:240-268 | a packet with a text record is accepted, consumed exactly and teaches nothing |
| MdnsPackets.CompressedRoundTrip | internal/httpapi/peer_discovery.go:209-271 | an announcement whose name points back into the packet is parsed as if it were written out |
| SecretStore.Store.SaveLocked | internal/secrets/store.go:385-395 | written beside the file, then renamed over it |
| SecretStore.Store.LoadFiles | internal/secrets/store.go:294-322 | files and map in memory after loading, with the takeover of the legacy file, whatever step fails |
| SecretStore.Store.Get | internal/secrets/store.go:164-180 | the keychain while it is active, the map in memory otherwise |
| SecretStore.Store.Set | internal/secrets/store.go:182-201 | memory, file and keychain after a set, whatever fails |
| SecretStore.Store.Delete | internal/secrets/store.go:203-219 | the same for a delete |
| SecretStore.Store.MarkKeychainUnavailable | internal/secrets/store.go:481-490 | the keychain is given up and its status says so |
| SecretStore.Store.RollBack | internal/secrets/store.go:271-282 | the deferred rollback |
| SecretStore.Store.Rekey | internal/secrets/store.go:232-292 | files and key after a rekey, whatever step fails |
| SecretsSafety.SaveIsAtomic | internal/secrets/store.go:385-395 | the files open to the new map or to what they opened to before |
| SecretsSafety.GetDoes | internal/secrets/store.go:164-180 | a read gives the item of an active keychain, else the value in memory, else nothing, and gives the keychain up exactly if it fails |
| SecretsSafety.SetDoes | internal/secrets/store.go:182-201 | an empty value and the mask change nothing; any other is in memory at once, and in the keychain only once the file is saved |
| SecretsSafety.DeleteDoes | internal/secrets/store.go:203-219 | a delete takes the secret from the same places on the same conditions |
| SecretsSafety.LoadKeepsSecrets | internal/secrets/store.go:294-322 | no failing step of the takeover loses anything; a load that succeeds leaves no plain copy |
| SecretsSafety.RekeyKeepsSecrets | internal/secrets/store.go:232-292 | success opens with the new key to the map in memory; failure keeps the old key, and files and key still agree exactly if no rename was reached or the rollback writes held |
| SecretsSafety.NothingLeftBehind | internal/secrets/store.go:232-292 | no new key and no newly sealed file stays beside the old ones, unless a temporary file cannot be removed |
| SecretsSafety.TornRollbackLosesSecrets | internal/secrets/store.go:271-288 | a concrete rekey whose rollback tears the key file and leaves files that no longer open |
| SecretsSafety.RunKeepsInv | internal/secrets/store.go:164-292 | over every run files and key agree and open to the last saved map |
| SecretsSafety.BehavesLikeMap | internal/secrets/store.go:164-219 | a read, and a fresh read of the files, gives what a plain map would hold, for every keychain behaviour |
| SecretsSafety.GetAfterWrite | internal/secrets/store.go:164-219 | after a successful set that value, after a successful delete nothing, until the next write of the key |
| SecretsSafety.FailoverIsOneWay | internal/secrets/store.go:481-490 | the switch away from the keychain is never undone |
| SecretsSafety.KeychainLeftAlone | internal/secrets/store.go:164-219 | once given up, the keychain keeps its items, and no answer depends on it |

## Left out

- HTTP routing, JSON decoding, headers, CORS, telemetry, the web interface, audit and support bundles: plumbing
  or presentation.
- Goroutines and channels: wake-up, cancellation and arrival are arbitrary steps between locked sections, and a
  handler that reads a snapshot and stores a node is one step, which the code itself does not make atomic.
- Integer width: counters, weights and scores are unbounded integers; durations are exact and the clock is an
  integer passed in. Overflow of 64-bit values is not modelled.
- Floating point: evaluator scores and token rates are reals, without NaN.
- Response canonicalization, validators and evaluators: arbitrary functions of a candidate.
- Spelling of priorities, policies, statuses and levels: parsed values are datatypes, so trimming and lower-casing
  of their text is not modelled.
- Descriptive fields of benchmark jobs (reasons, error codes, `updated_at`, result metrics) and the summary the
  node shows beside its jobs (`benchmark_status`, `benchmark_id`): they decide nothing.
- Creation of the random part of job ids and keys: ids and new keys are parameters, taken as fresh where a
  theorem needs it.
- Node URLs and how a node id becomes one: an attempt without a URL is one of the scripted outcomes.
- MdnsPackets.ParseMDNSRecords: name normalization (lower case) is a function passed in and addresses stay bytes,
  because their text form decides nothing in the parser.
- Session.TriedOnceIffUnmoved: that each node is tried at most once is not claimed, because it does not hold when a
  session moves the request.
- BenchmarkRuns.ClaimsSpaced: is stated for runs in which no answer carries the status queued, because such an
  answer makes a leased job due at once.
- SecretsSafety.BehavesLikeMap: a keychain that answers "not found" to the deletion of an item it still holds, values
  left in the keychain from an earlier process, and a crash between two file operations are outside it; the code does
  not promise anything for them.
- Migration of the file's secrets into the keychain when the store is opened: values already in the keychain win
  there, so it makes no promise about them.
- The sorted page over all nodes and its summary counts: it concatenates the warnings of single nodes.
- Frontier escalation, model lifecycle actions, service plans and configuration defaults: simpler than what is modelled.
