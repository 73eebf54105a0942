# A verified model of OctoBot's stateful cores

OctoBot is a trading bot written in Python. This project models the parts of it whose correctness depends on
state, order and concurrency, and proves what they guarantee. `dafny verify dfyconfig.toml` checks everything.

**The optimizer's run queue.** A schedule row is turned into a start queue of run hashes; worker processes each
read the row (or the schedule the session has just generated) on their own, pop hashes, run backtestings and push
hashes to a bounded done queue; one of them drains it into the row from time to time; whoever finds nothing left
drops the row; the supervising process drains and discards what is left at the end. `RunQueue` is this protocol as a state machine with one step for
what a process does between two points where others can act, failures and killed processes included.
`RunQueueSafety` and `RunQueueInvariant` prove what every step keeps, `RunQueueTheorems` what follows for every
interleaving of any number of workers, `RunQueueProgress` that sessions end and never block, and
`RunQueueWitnesses` that the exceptions named are reachable. `OptimizerRuns` and `OptimizerSchedule` hold hashing
by normalised content, merging and draining; `OptimizerQueues` is the same operations as an object that updates
its queues and its row in place, proved against those functions; `RunGeneration` is how schedules come into being,
and `RunGenerationTheorems` which runs a configuration gives.

**The strategy optimizer.** `SubsetSearch` is the greedy search with a history that produces configurations,
`SubsetSearchExact` proves the exact set it enumerates, `SubsetSearchBound` the bound and what is missed, and
`StrategySearch` the nested search with its run counter, cancel and progress. A cancel can be seen at any check
of the loops, so what is proved about cancelled searches is proved about every moment of a search.

**The MQTT feed.** `MessageCache` relates the bounded cache of message ids to the unbounded history of accepted
ones: at-least-once delivery (section 4.3.2 of MQTT Version 3.1.1) becomes at-most-once within a window.
`MqttFeed` is the feed's state under its callbacks, as an event machine and as an object refining it, where every
SUBACK answers a pending request; `MqttFeedTheorems` is what holds over all sequences of events. Refused
subscriptions are the SUBACK failure code of section 3.9.3.

**Smaller cores.** `VersionedUrls` and `PackageReconciliation` (which tentacle packages to install and remove),
`PairLimits` (the plan's limit on pairs), `CachedCreation` with its two companions (double-checked creation of the
sync client and of sessions, with `stop` running beside it), `Automation` with its theorems and `ChannelTrigger`
(throttled triggers, conditions, actions), `Fitness` with its theorems (normalised scores), `ReferenceMarket`
and `PortfolioTotals`.

Conventions. Code that updates objects or loops over local variables is a class or a method proved against a
function; code that interleaves is a state machine whose behaviours are all sequences of enabled steps. Python
exceptions and early returns are results. What the operating system, the broker, the package manager, the
account or the exchanges answer are parameters. Time-frame and evaluator configurations are sets, as the source
compares sorted lists of distinct names. Where a property one could expect does not hold, a lemma shows a case,
and the condition for it is stated exactly wherever it can be checked beforehand.

What the proofs brought to light about the code:

- a finished run is run again by a next session exactly when a drain lost a finished run's hash, or when every run
  was finished and no worker dropped the row: a stop, or a failure, after the last run, as the last drain never writes
  an empty schedule;
- a run is lost when its worker fails before its backtesting or dies during it, and another one drops the row;
- the announced number of runs of a strategy search is only reached with at most three evaluators and three time
  frames, and the progress read just before a search resets its counter is that of the search before over the new
  total: negative before a first search of up to 100 runs, far above 100 after a longer search;
- the limit on sending refused subscriptions again is neither per topic nor per connection: one granted topic starts
  it over, so a refused topic is sent again on every connection that is granted another one;
- adapting urls to the bot's version twice changes some url for exactly the versions that can overlap the placeholder;
- stopping the feed while it connects leaves it with invalid authentication;
- the pair limit's message can list pairs of a currency that was disabled for its wildcard;
- the sync client is one for all wallets: a call for one address gets the client that was created for another;
- overlapping stops can forget a sync client without closing it;
- a stop during the registration of a trigger's consumers leaves them running, and an event triggered before a
  stop is still executed after it;
- scoring a result again divides its score, as the total weight is never reset;
- a backtesting of inverse futures alone keeps the linear contract type.

## Model

| member | source | states |
|---|---|---|
| RunQueueTheorems.EachRunIsInOnePlace | octobot/strategy_optimizer/strategy_design_optimizer.py:122-173 | In every interleaving of any number of workers, each scheduled hash is in exactly one of: start queue, a worker's hands, done queue, being drained, drained, failed before its start, killed during it, discarded at cleanup, forgotten; and no hash is started twice |
| RunQueueTheorems.NoUnpickedRunIsLost | octobot/strategy_optimizer/strategy_design_optimizer.py:298-359 | The schedule row still holds every hash that has not been picked, or it was dropped when the start queue was empty |
| RunQueueTheorems.PickFindsItsRun | octobot/strategy_optimizer/strategy_design_optimizer.py:591-603 | A worker that pops a hash always finds, in the dictionary it read on its own, the scheduled run with that hash |
| RunQueueTheorems.DoneQueueNeverBlocks | octobot/strategy_optimizer/strategy_design_optimizer.py:122-132 | A finished run's hash can always be put: the done queue, as large as the number of distinct runs, is never full then |
| RunQueueTheorems.CompleteSessionRunsEverything | octobot/strategy_optimizer/strategy_design_optimizer.py:298-327 | Without cancel and failure, all workers end only when every scheduled run was executed exactly once and the row is dropped |
| RunQueueTheorems.DroppedWhenAllPicked | octobot/strategy_optimizer/strategy_design_optimizer.py:355-359 | A worker about to drop the row can do so, and then every scheduled run has been picked: it was started, failed before its start, or is held by a worker |
| RunQueueTheorems.OnlyFirstWorkerDrains | octobot/strategy_optimizer/strategy_design_optimizer.py:318-353 | Only the first worker ever collects what is done and rewrites the row; other than that the row changes by a drop or by the supervising process |
| RunQueueTheorems.WhatIsRead | octobot/strategy_optimizer/strategy_design_optimizer.py:280-296 | A worker reads the whole generated schedule in a session that generated it, even when the row is gone, and otherwise the row without what was taken out of it |
| RunQueueTheorems.LostExactly | octobot/strategy_optimizer/strategy_design_optimizer.py:155-173 | After cleanup, an unfinished run is no longer scheduled if and only if the row was dropped and the run had failed before its backtesting or was killed in it |
| RunQueueTheorems.RowAfterSession | octobot/strategy_optimizer/strategy_design_optimizer.py:329-353 | A remaining row holds exactly the runs that no drain took, in their order (unfinished ones and those whose drain failed), or, when all were drained, drained ones only |
| RunQueueTheorems.RepeatedOnResumeExactly | octobot/strategy_optimizer/strategy_design_optimizer.py:329-359 | A next session repeats a finished run if and only if a drain lost the hash of a finished run, or every run was finished and no worker dropped the row |
| RunQueueWitnesses.StoppedAfterLastRun | octobot/strategy_optimizer/strategy_design_optimizer.py:345-353 | The second case is reachable without any failure: a stop just after the last run leaves the finished run scheduled |
| RunQueueWitnesses.FailedAfterLastRun | octobot/strategy_optimizer/strategy_design_optimizer.py:605-645 | It is reachable without a stop and with nothing forgotten too: a failure once the last run is reported ends the worker before it could drop the row |
| RunQueueWitnesses.DrainedDuringSession | octobot/strategy_optimizer/strategy_design_optimizer.py:318-320 | Between two runs the first worker takes the finished one out of the row and goes on, with nothing stopped and nothing failed |
| RunQueueWitnesses.KeptByFailedDrain | octobot/strategy_optimizer/strategy_design_optimizer.py:160-166 | The first case is reachable: a final drain that fails leaves a finished run scheduled next to one that was never picked |
| RunQueueWitnesses.LostWithItsWorker | octobot/strategy_optimizer/strategy_design_optimizer.py:355-359 | A run can be lost: its worker dies between picking and starting it, and another worker finds nothing more and drops the row |
| RunQueueWitnesses.EmptyRunLosesTheNext | octobot/strategy_optimizer/strategy_design_optimizer.py:614-637 | Why an empty run must be alone in a schedule: next to another run, picking it drops the row while the other run waits |
| RunQueueProgress.StepUsesUp | octobot/strategy_optimizer/strategy_design_optimizer.py:298-359 | Every step but a cancel lowers the number of steps a session can still take |
| RunQueueProgress.SessionIsBounded | octobot/strategy_optimizer/strategy_design_optimizer.py:122-173 | However its processes interleave, fail or are cancelled, a session has at most eight steps for each distinct run, four for each worker, three of the supervising process and one that cancels |
| RunQueueProgress.WorkerStepsEnabled | octobot/strategy_optimizer/strategy_design_optimizer.py:298-359 | A worker can take a step exactly in its place in the loop, the update by the first worker only and after an iteration, a put only with room in the done queue, the end of collecting only with that queue empty |
| RunQueueProgress.SupervisorStepsEnabled | octobot/strategy_optimizer/strategy_design_optimizer.py:155-173 | The supervising process cleans up once all workers have ended, writes once the done queue is empty and closes once both queues are |
| RunQueueProgress.WorkerNeverWaits | octobot/strategy_optimizer/strategy_design_optimizer.py:298-327 | A worker that has not ended can always take its own next step: it never waits for another process |
| RunQueueProgress.NoDeadlock | octobot/strategy_optimizer/strategy_design_optimizer.py:122-173 | Until a session is closed a step that is neither a failure nor a cancel is always enabled, so a session that cannot go on is closed |
| RunQueueProgress.ClosedIsAttainable | octobot/strategy_optimizer/strategy_design_optimizer.py:155-173 | From every reachable state the cleanup can be completed without a failure or a cancel |
| RunQueueProgress.SessionCanComplete | octobot/strategy_optimizer/strategy_design_optimizer.py:298-327 | From every reachable state without a failure or a cancel so far, steps of that kind alone lead to every scheduled run executed exactly once and the row dropped |
| RunQueueInvariant.StepKeepsInvariant | octobot/strategy_optimizer/strategy_design_optimizer.py:298-359 | Every step of any worker or of the supervising process (read, check, pick, start, finish, drain, rewrite, drop, fail, cancel, cleanup) keeps the whole invariant |
| RunQueueInvariant.WorkerStepFits | octobot/strategy_optimizer/strategy_design_optimizer.py:298-327 | A worker's dictionary covers the start queue at every point of its loop, and a worker that drops the row does so only for an empty start queue |
| RunQueueInvariant.StepKeepsRow | octobot/strategy_optimizer/strategy_design_optimizer.py:329-359 | The row is always the scheduled one without the hashes erased from it, which are the drained ones unless that would leave no run |
| RunQueueInvariant.InitialIsInvariant | octobot/strategy_optimizer/strategy_design_optimizer.py:122-132 | The queues created from any row satisfy the invariant before any worker has read that row |
| RunQueueSafety.StepKeeps | octobot/strategy_optimizer/strategy_design_optimizer.py:329-353 | Every step moves a hash between places without creating or losing it |
| OptimizerQueues.RunQueues.CreateRunQueues | octobot/strategy_optimizer/strategy_design_optimizer.py:122-132 | Start queue, done queue and their size become those the concurrent model starts from, of the generated schedule or else of the stored row; nothing changes when there is no run |
| OptimizerQueues.RunQueues.SynchronizedPickRun | octobot/strategy_optimizer/strategy_design_optimizer.py:591-603 | The oldest hash is popped and its run, if known, is taken out of the dictionary |
| OptimizerQueues.RunQueues.RunSingleIteration | octobot/strategy_optimizer/strategy_design_optimizer.py:605-637 | A picked run with inputs is executed and its hash reported, whatever its outcome; otherwise there is no more run |
| OptimizerQueues.RunQueues.UpdateRunsFromDoneQueue | octobot/strategy_optimizer/strategy_design_optimizer.py:329-353 | The done queue is emptied and the row becomes the drained one for the set of hashes it held |
| OptimizerQueues.RunQueues.SaveRunSchedule | octobot/strategy_optimizer/strategy_design_optimizer.py:873-900 | The row becomes the merge of the stored and the generated runs, or the generated ones when there was none, and the schedule kept in memory is that row |
| OptimizerQueues.SupervisorDrainIsOneUpdate | octobot/strategy_optimizer/strategy_design_optimizer.py:160-166 | The fine-grained collecting steps followed by the write do what the one sequential update does |
| OptimizerQueues.WorkerDrainIsOneUpdate | octobot/strategy_optimizer/strategy_design_optimizer.py:318-353 | Between two iterations the first worker can always drain; its fine-grained steps do what the one sequential update does, after which it goes on |
| OptimizerSchedule.DrainsCompose | octobot/strategy_optimizer/strategy_design_optimizer.py:329-353 | As long as a run remains, draining in any sequence of batches leaves the row one drain of their union leaves: the undrained runs in their order |
| OptimizerSchedule.FinalDrainLeavesRow | octobot/strategy_optimizer/strategy_design_optimizer.py:351-353 | From the batch on that would leave no run, the row is never written again |
| OptimizerSchedule.MergeIsUnion | octobot/strategy_optimizer/strategy_design_optimizer.py:873-900 | Saving over a schedule yields the union of hashes, none twice, the old ones first and the new ones behind them, each as they first come, new details winning and old ones elsewhere, no empty run |
| OptimizerSchedule.MergeIsIdempotent | octobot/strategy_optimizer/strategy_design_optimizer.py:880-894 | Saving the same runs over a merged row again changes nothing |
| OptimizerSchedule.FirstSaveRepeats | octobot/strategy_optimizer/strategy_design_optimizer.py:873-900 | After a first save, which does not merge, repeating it changes nothing if and only if the runs have distinct hashes and none is empty |
| OptimizerSchedule.RowStaysWellShaped | octobot/strategy_optimizer/strategy_design_optimizer.py:329-353 | Saves and drains keep a row free of empty runs, unless its only run is the empty one |
| OptimizerRuns.UpsertAllMerges | octobot/strategy_optimizer/strategy_design_optimizer.py:525-536 | Collecting runs by hash keeps each hash once at its first position, in order of first appearance, with its last details |
| OptimizerRuns.DetailsFitRow | octobot/strategy_optimizer/strategy_design_optimizer.py:290-296 | The dictionary a process builds from a row gives each hash of the row a run of the row with that hash |
| OptimizerRuns.SameHashExactly | octobot/strategy_optimizer/strategy_design_optimizer.py:525-536 | Two runs share a hash if and only if they agree on names, tentacles and values, equal numbers (booleans among them) counting as the same value however written |
| RunGeneration.GetAllPossibleValues | octobot/strategy_optimizer/strategy_design_optimizer.py:817-827 | For a positive step the loop yields exactly start + i * step for i up to floor((stop - start) / step) |
| RunGeneration.ProgressionMembers | octobot/strategy_optimizer/strategy_design_optimizer.py:817-827 | A value is generated if and only if it is start plus a whole number of steps and does not exceed the maximum |
| RunGeneration.ProductHasChoice | octobot/strategy_optimizer/strategy_design_optimizer.py:738-743 | Every choice of one value per input occurs in the cartesian product, at the position given by its rank |
| RunGeneration.RankIsInjective | octobot/strategy_optimizer/strategy_design_optimizer.py:738-743 | Different choices have different positions |
| RunGeneration.ProductIsChoices | octobot/strategy_optimizer/strategy_design_optimizer.py:738-743 | Every position of the product holds such a choice |
| RunGeneration.GeneratedRunsAreSelected | octobot/strategy_optimizer/strategy_design_optimizer.py:731-752 | For every outcome of the shuffle, run i is the allowed candidate with order[i] allowed ones before it in the product, as many as the smaller of queue size and allowed candidates (a negative size leaves out that many); an error if and only if none is allowed |
| RunGeneration.GeneratedIsWellShaped | octobot/strategy_optimizer/strategy_design_optimizer.py:738-752 | A generated schedule has no empty run, or only the empty run |
| RunGenerationTheorems.PossibleExactly | octobot/strategy_optimizer/strategy_design_optimizer.py:787-827 | An input takes a value if and only if it is enabled and its configuration allows the value: a listed option (wrapped) or flag, or the minimum plus a whole number of steps up to the maximum, whole numbers staying whole |
| RunGenerationTheorems.ValuesInOrder | octobot/strategy_optimizer/strategy_design_optimizer.py:787-827 | Options and flags come in configured order, each wrapped option a list, and the values of a range ascending |
| RunGenerationTheorems.CandidatesExactly | octobot/strategy_optimizer/strategy_design_optimizer.py:738-743 | The candidate runs are exactly the settings, in configured order, of each input that is enabled and has a possible value to one of its possible values |
| RunGenerationTheorems.RunsOfConfiguration | octobot/strategy_optimizer/strategy_design_optimizer.py:738-752 | Whatever the shuffle, only runs of the configuration that no filter rejects are generated, all of them when the queue is large enough, and there is an error if and only if there is none |
| SubsetSearch.ConfHistory.GetActivatedElement | octobot/strategy_optimizer/strategy_optimizer.py:290-317 | One call appends to the history the configuration it found, which the history lacked, or returns nothing and leaves it |
| SubsetSearch.AttemptOfOne | octobot/strategy_optimizer/strategy_optimizer.py:290-317 | A call of size one tries the forced element with the default one and nothing else |
| SubsetSearchExact.AttemptAddsFirst | octobot/strategy_optimizer/strategy_optimizer.py:290-317 | A call of size k adds the first candidate, core plus one more element, that the history lacks |
| SubsetSearchExact.EnumerationIsExact | octobot/strategy_optimizer/strategy_optimizer.py:139-169 | For distinct elements the three loops end with exactly the singletons and the sets {e} with the first k - 2 other elements and one more other element, each once |
| SubsetSearchBound.EnumerationIsSmall | octobot/strategy_optimizer/strategy_optimizer.py:139-169 | For any list of elements: no configuration twice and at most 2^n - 1 of them |
| SubsetSearchBound.MissedSubset | octobot/strategy_optimizer/strategy_optimizer.py:139-169 | With four or more elements the set of the second, third and fourth is never produced |
| SubsetSearchBound.CompleteUpToThree | octobot/strategy_optimizer/strategy_optimizer.py:117 | The number of configurations is the announced 2^n - 1 if and only if n is at most three |
| SubsetSearch.NonEmptySubsetsBound | octobot/strategy_optimizer/strategy_optimizer.py:117 | A duplicate-free list of non-empty subsets of n elements has at most 2^n - 1 entries |
| StrategySearch.StrategyOptimizer.RunOnConfig | octobot/strategy_optimizer/strategy_optimizer.py:171-183 | One run, and one more in the counter, exactly when there is a new time frame configuration |
| StrategySearch.StrategyOptimizer.RunTimeFrames | octobot/strategy_optimizer/strategy_optimizer.py:158-169 | The runs made for one evaluator configuration are those of the first time frame configurations, all of them without a cancel |
| StrategySearch.StrategyOptimizer.AttemptEvaluators | octobot/strategy_optimizer/strategy_optimizer.py:150-169 | A new evaluator configuration is run with every time frame configuration; on a cancel the runs are a prefix of the whole search |
| StrategySearch.StrategyOptimizer.IterateOnRisk | octobot/strategy_optimizer/strategy_optimizer.py:141-169 | One risk adds exactly its runs; on a cancel the runs are a prefix of the whole search |
| StrategySearch.StrategyOptimizer.IterateOnConfigs | octobot/strategy_optimizer/strategy_optimizer.py:139-169 | The runs are a prefix of risks x evaluator configurations x time frame configurations in order, no more than checks passed before a cancel was seen, and all of it when none was |
| StrategySearch.StrategyOptimizer.FindOptimalConfiguration | octobot/strategy_optimizer/strategy_optimizer.py:87-133 | The announced total, the runs of the whole search or as many of the first ones as a cancel allows, the run counter equal to their number plus one, and a progress within 0 and 100 afterwards |
| StrategySearch.SearchIsWithinTotal | octobot/strategy_optimizer/strategy_optimizer.py:117-123 | The whole search makes at most (number of risks) * (2^nTF - 1) * (2^nTA - 1) runs, for any lists |
| StrategySearch.ProgressOfSearch | octobot/strategy_optimizer/strategy_optimizer.py:257-258 | At every moment of a search the progress is the share of the announced runs that were made, in percent and rounded down: within 0 and 100, and 100 if and only if all were made |
| StrategySearch.ProgressIsTruncated | octobot/strategy_optimizer/strategy_optimizer.py:257-258 | For any counter and total the progress is the quotient truncated towards zero, and 0 without a total |
| StrategySearch.FullProgressExactly | octobot/strategy_optimizer/strategy_optimizer.py:257-258 | A search without cancel ends at 100 if and only if there are at most three evaluators and at most three time frames |
| StrategySearch.StaleProgress | octobot/strategy_optimizer/strategy_optimizer.py:117-123 | Between a new total and the reset of the counter, the progress read, from the counter of the search before, is within 0 and 100 if and only if that counter fits the new total |
| StrategySearch.StaleProgressOfSearches | octobot/strategy_optimizer/strategy_optimizer.py:117-123 | Before a first search that needs a total above 100; after a search of some runs, a total they do not exceed by a hundredth |
| StrategySearch.NoRunTwice | octobot/strategy_optimizer/strategy_optimizer.py:139-183 | With distinct risks no combination is run twice |
| StrategySearch.AllRunsExactly | octobot/strategy_optimizer/strategy_optimizer.py:139-183 | A search runs every risk with every evaluator configuration with every time frame configuration, and nothing else |
| MessageCache.RecordedIsWindow | octobot/community/feeds/community_mqtt_feed.py:227-242 | After each recording, cut to its second half beyond 100 ids, the cache is the window of the unbounded history |
| MessageCache.SameIdIsFarApart | octobot/community/feeds/community_mqtt_feed.py:227-242 | For every sequence of messages two acceptances of an id are at least 52 positions apart, that is 51 other acceptances lie between them |
| MessageCache.WindowHasNoDuplicate | octobot/community/feeds/community_mqtt_feed.py:227-242 | The cache never holds an id twice |
| MessageCache.FiftyTwoIsReached | octobot/community/feeds/community_mqtt_feed.py:64 | The distance is exact: an id is accepted again 52 positions later |
| MessageCache.Remembered | octobot/community/feeds/community_mqtt_feed.py:227-242 | The cache is at most 100 ids long and holds all ids or at least the last 51 |
| MqttFeed.CommunityMqttFeed.ShouldProcess | octobot/community/feeds/community_mqtt_feed.py:227-242 | A message is processed if and only if it has no id or one outside the window of the accepted history, which then grows by it |
| MqttFeed.CommunityMqttFeed.ProcessMessage | octobot/community/feeds/community_mqtt_feed.py:215-252 | An accepted message runs the default callbacks of its topic and then the registered ones, all of them when none raises, otherwise up to the first that does; the id stays remembered |
| MqttFeed.RunsUpToFailure | octobot/community/feeds/community_mqtt_feed.py:215-225 | The callbacks run are a prefix of those of the topic: all, or up to and including the first that raises |
| MqttFeed.CommunityMqttFeed.RegisterFeedCallback | octobot/community/feeds/community_mqtt_feed.py:187-200 | The new state is that of the event model: callback appended, a new topic remembered and requested when possible |
| MqttFeed.CommunityMqttFeed.HandleConnect | octobot/community/feeds/community_mqtt_feed.py:269-275 | The new state is that of the event model: every known and default topic requested, not subscribed yet |
| MqttFeed.CommunityMqttFeed.HandleDisconnect | octobot/community/feeds/community_mqtt_feed.py:277-327 | The new state is that of the event model: a reconnection started, or the pending connection cancelled, unless stopped |
| MqttFeed.CommunityMqttFeed.EndStopFeed | octobot/community/feeds/community_mqtt_feed.py:119-133 | The new state is that of the event model once the client is disconnected: the pending connection cancelled, attempts, authentication and connection flags reset, topics kept |
| MqttFeed.CommunityMqttFeed.HandleSuback | octobot/community/feeds/community_mqtt_feed.py:329-355 | The new state is that of the event model's recursive reading of the codes for the pending request that is answered, if there is one |
| MqttFeedTheorems.EveryConnectionSubscribes | octobot/community/feeds/community_mqtt_feed.py:269-275 | After any events, a connection requests exactly the topics with a registered callback and the default ones |
| MqttFeedTheorems.CallbacksAreRegistered | octobot/community/feeds/community_mqtt_feed.py:187-199 | Over any events, connections lost and stops included, a topic has exactly the callbacks ever registered for it, in order |
| MqttFeedTheorems.OnlyRequestedIsResent | octobot/community/feeds/community_mqtt_feed.py:329-342 | Over any events, only topics that were requested before are sent again |
| MqttFeedTheorems.ConnectedSince | octobot/community/feeds/community_mqtt_feed.py:269-322 | The feed counts as connected exactly from a connection on until it is lost or a stop ends |
| MqttFeedTheorems.HasClientSince | octobot/community/feeds/community_mqtt_feed.py:379-390 | There is a client exactly once a connection with a device has begun |
| MqttFeedTheorems.LinkFields | octobot/community/feeds/community_mqtt_feed.py:99-137 | Each flag and task of the connection is changed by exactly the named events: what sets and what resets the client, the stop, the authentication, the established connection, the reconnection and the cancelled connections |
| MqttFeedTheorems.FeedFields | octobot/community/feeds/community_mqtt_feed.py:99-137 | Outside of SUBACKs, connections and registrations the subscriptions are left alone, but for a new client that knows no request, a stop that gives the attempts back, and the default topics renewed with each connection |
| MqttFeedTheorems.StoppedStaysDown | octobot/community/feeds/community_mqtt_feed.py:316-321 | A connection lost after a stop is not replaced |
| MqttFeedTheorems.LostConnectionReconnects | octobot/community/feeds/community_mqtt_feed.py:316-327 | After an established connection every loss before a stop is followed by a reconnection and cancels no connection |
| MqttFeedTheorems.FirstConnectionFails | octobot/community/feeds/community_mqtt_feed.py:316-406 | A refused first connection is cancelled and makes the authentication invalid once it has seen that, as a missing device does; one that times out does not |
| MqttFeedTheorems.RefusedBatch | octobot/community/feeds/community_mqtt_feed.py:329-355 | A refused batch is sent again in order until five attempts per subscription of the batch are used up |
| MqttFeedTheorems.SentAgainAlone | octobot/community/feeds/community_mqtt_feed.py:340-342 | Each topic sent again becomes a pending request of its own |
| MqttFeedTheorems.RefusalsAreBounded | octobot/community/feeds/community_mqtt_feed.py:329-355 | Any stretch of events without a granted topic and without a stop sends at most 5 * (largest batch) subscriptions again, however many connections there are |
| MqttFeedTheorems.ResendsPerGrant | octobot/community/feeds/community_mqtt_feed.py:329-355 | Between stops at most c * (1 + granted topics) subscriptions are sent again, c being at least the starting attempts and five times every batch |
| MqttFeedTheorems.ResendsAreBounded | octobot/community/feeds/community_mqtt_feed.py:329-355 | Over any events at all at most c * (1 + subscriptions pending at the start or requested since + stops) are sent again, so sending again ends on every connection |
| MqttFeedTheorems.AgainOnEachConnection | octobot/community/feeds/community_mqtt_feed.py:269-275 | The number of connections counts: when each of n connections is granted one topic, a refused one is sent again n times and the attempts never reach their limit |
| MqttFeedTheorems.AgainFromTheStart | octobot/community/feeds/community_mqtt_feed.py:269-300 | This is reached from a new feed: started after a topic was registered, it sends that topic again once on each of any number of connections |
| MqttFeedTheorems.StopKeepsAuthentication | octobot/community/feeds/community_mqtt_feed.py:116-133 | After a stop and any events that neither cancel a connection, stop again nor find no device, authentication is valid if and only if no connection was pending or cancelled then, or none has seen its cancellation |
| MqttFeedTheorems.StopWhileConnecting | octobot/community/feeds/community_mqtt_feed.py:187-200 | Otherwise topics registered after the stop are remembered but not requested |
| MqttFeedTheorems.StopWhileConnectingIsReachable | octobot/community/feeds/community_mqtt_feed.py:379-406 | A first connection that is stopped is such a case |
| VersionedUrls.AdaptedOnce | octobot/community/tentacles_packages.py:50-53 | Adapting a url is idempotent for a version that cannot form a placeholder with its surroundings (or is the placeholder) |
| VersionedUrls.ReplacedExactly | octobot/community/tentacles_packages.py:50-53 | Adapting leaves a url without the placeholder alone, and otherwise puts the version in place of every occurrence from the left, keeping what is in between |
| VersionedUrls.ContainsExactly | octobot/community/tentacles_packages.py:123-124 | A url is a community url if and only if the identifier stands somewhere in it |
| VersionedUrls.NothingSharedIsProper | octobot/community/tentacles_packages.py:50-53 | Any non-empty version without a character of the placeholder is such a version |
| VersionedUrls.IdempotentExactly | octobot/community/tentacles_packages.py:50-53 | Adapting is idempotent for all urls if and only if the version is the placeholder or cannot be laid over it, at any offset, so that they agree |
| VersionedUrls.AdaptedStaysCommunity | octobot/community/tentacles_packages.py:50-53 | A community url stays one when adapted, whatever the version |
| VersionedUrls.EmptyVersionIsNotEnough | octobot/community/tentacles_packages.py:50-53 | The empty version is one that fails, with the url for which it does |
| PackageReconciliation.GetToInstallAndRemoveTentacles | octobot/community/tentacles_packages.py:56-115 | The urls to install, all tentacles of all packages of the urls to remove, and the forced refresh exactly when urls but no tentacle are to be removed |
| PackageReconciliation.UrlTentacle | octobot/community/tentacles_packages.py:95-104 | The accumulated tentacles are exactly those of some package of some url to remove |
| PackageReconciliation.RemovedTentacles | octobot/community/tentacles_packages.py:56-104 | The tentacles uninstalled are exactly those of packages of installed community urls that neither the environment nor a logged in account asks for, once packages were fetched, and none from a known account that is logged out |
| PackageReconciliation.AddedExactly | octobot/community/tentacles_packages.py:56-104 | Installed are exactly the adapted urls a logged in account has saved that no installed community package has, and nothing is both installed and removed |
| PackageReconciliation.InstalledAfterwards | octobot/community/tentacles_packages.py:56-115 | Once carried out, the installed community packages are those kept before and the account's community ones |
| PackageReconciliation.SecondComputation | octobot/community/tentacles_packages.py:56-115 | A second computation removes nothing and asks for nothing if and only if all adapted urls of the account are community urls |
| PackageReconciliation.CommunityAccountConverges | octobot/community/tentacles_packages.py:56-115 | It asks for nothing when the saved urls are community urls |
| PairLimits.TradingConfig.LimitPairs | octobot/limits.py:61-73 | The pairs kept for a currency are those in front of a wildcard, up to the room left; the flags say whether a wildcard or a cut occurred |
| PairLimits.TradingConfig.ApplySymbolsLimits | octobot/limits.py:47-77 | The configuration and the message become those of the specification, currency by currency |
| PairLimits.EnabledWithinLimit | octobot/limits.py:47-77 | Enabled currencies hold at most limit pairs in total, none of them a wildcard |
| PairLimits.OnlyCuts | octobot/limits.py:47-77 | Each kept list is a prefix of the original, and nothing gets enabled, renamed or moved |
| PairLimits.AppliedTwice | octobot/limits.py:47-77 | Applying the limit again changes nothing and gives no message, although wildcard currencies used up quota the first time |
| PairLimits.LimitIsUsedUp | octobot/limits.py:47-77 | When something was lost and no wildcard met, exactly limit pairs stay enabled |
| PairLimits.MessageOnlyForLosses | octobot/limits.py:74-77 | There is a message if and only if a currency was disabled or lost a pair |
| PairLimits.MessageListsTradedPairs | octobot/limits.py:74-77 | A message lists exactly the pairs that will be traded if and only if no currency lists a pair in front of a wildcard while quota is left; it names the limit |
| PairLimits.MessageNamesWildcard | octobot/limits.py:58-77 | A message names the last enabled currency that was reached with quota left and lists a wildcard, and none without one |
| PairLimits.EachCurrency | octobot/limits.py:51-73 | A disabled currency is left alone, one reached without quota is disabled, another keeps its pairs up to the quota or its wildcard, which disables it |
| CachedCreationSafety.ReachableIsInvariant | octobot/community/authentication.py:744-824 | The protocol invariant (lock held by whoever is inside, cache equal to the replayed history, creator sees none cached) in every interleaving |
| CachedCreationTheorems.OneCreationBetweenClears | octobot/community/authentication.py:744-824 | Between two successful creations for a key (the client, or an address's session) a stop has cleared the cache |
| CachedCreationTheorems.AllCallersSeeTheSame | octobot/community/authentication.py:744-824 | Calls that end with no clear between them get the same session when they are for the same address, and the same client whatever their addresses, whoever created it |
| CachedCreationTheorems.SessionsAreApart | octobot/community/authentication.py:744-766 | Calls for different addresses never get the same session, whatever interleaving and stops |
| CachedCreationTheorems.CallStepsInOrder | octobot/community/authentication.py:744-789 | A call takes its steps in order, each only in its place, waiting for the lock only to enter it, so at most six of them |
| CachedCreationTheorems.CachedAnswersAtOnce | octobot/community/authentication.py:750-771 | Once something is cached a call returns it without the lock |
| CachedCreationTheorems.WithoutWallet | octobot/community/authentication.py:791-824 | An initialiser that finds no wallet gives up with nothing changed, before the lock |
| CachedCreationTheorems.FailedCreation | octobot/community/authentication.py:757-789 | A failed creation leaves nothing and releases the lock |
| CachedCreationTheorems.StopSteps | octobot/community/authentication.py:604-620 | A stop does nothing when nothing is cached, otherwise closes what it finds and then forgets everything, but for sessions whose number has changed in between |
| CachedCreationTheorems.AnswerStaysCached | octobot/community/authentication.py:768-789 | Until the next clear, what a call has returned is what everyone finds |
| CachedCreationTheorems.NoDeadlock | octobot/community/authentication.py:772-824 | An unfinished call can always go on, or waits for a lock whose holder can: failing creations release it |
| CachedCreationTheorems.StopForgetsWhatItClosed | octobot/community/authentication.py:604-620 | A stop that completes forgets only what it closed if and only if no other stop has cleared since it began, or nothing is cached |
| CachedCreationTheorems.OverlappingStops | octobot/community/authentication.py:614-616 | Overlapping stops can forget a client nobody closed: a reachable state about to do so |
| Automation.RunningAutomation.RunAutomation | octobot/automation/automation.py:282-290 | Timestamp, yields, calls and outcome of the loops are those of the specification, turn by turn |
| Automation.RunningAutomation.CheckConditions | octobot/automation/automation.py:292-305 | Conditions are called in order up to the first that does not hold |
| Automation.RunningAutomation.ProcessActions | octobot/automation/automation.py:307-320 | Actions are called in order, those that raise are logged and the next one runs, and only an interruption of the task ends the loop |
| AutomationTheorems.ExecutionsAreApart | octobot/automation/bases/abstract_trigger_event.py:37-49 | With a clock that does not go back, any two executions are more than the maximum frequency apart |
| AutomationTheorems.ExecutedExactly | octobot/automation/bases/abstract_trigger_event.py:44-49 | An event is executed if and only if the automation still runs and is not stopped before it, a once-only trigger has not executed, and the execution before is further back than the maximum frequency if there is one; with the defaults that is every event reached |
| AutomationTheorems.OnceOnly | octobot/automation/bases/abstract_trigger_event.py:43-44 | A once-only trigger executes at most once with a positive clock; before its last execution the clock showed zero |
| AutomationTheorems.ActionsAreExactly | octobot/automation/automation.py:282-320 | The actions called are exactly all those of executed events whose conditions all hold, up to one that is interrupted |
| AutomationTheorems.ConditionsAreExactly | octobot/automation/automation.py:292-305 | The conditions called are exactly those of executed events up to the first that does not hold |
| AutomationTheorems.CallsAreInOrder | octobot/automation/automation.py:282-320 | Calls are made in order of events, conditions first, each at most once |
| AutomationTheorems.FailuresAreExactly | octobot/automation/automation.py:311-320 | The failures logged are exactly the actions that were called and raised |
| AutomationTheorems.FailuresChangeNothing | octobot/automation/automation.py:311-320 | Whether actions return or raise changes nothing but that log: not what is executed and called, nor how the automation ends |
| AutomationTheorems.TurnEnds | octobot/automation/automation.py:282-290 | One turn ends the automation with a given outcome if and only if it was stopped or done once, or the wait, the first condition not to hold, or an interrupted action of a due event says so |
| AutomationTheorems.WhyItEnds | octobot/automation/automation.py:282-290 | Every automation that has ended did so at one reached tick, in one of exactly those ways |
| ChannelTrigger.ChannelBasedTriggerEvent.BeginGetNextEvent | octobot/automation/bases/abstract_channel_based_trigger_event.py:94-100 | A wait replaces the future and registers consumers the first time; it raises once stopped |
| ChannelTrigger.ChannelBasedTriggerEvent.EndGetNextEvent | octobot/automation/bases/abstract_channel_based_trigger_event.py:101-108 | The future's description is returned, or, cancelled, everything is stopped and an error raised |
| ChannelTrigger.ChannelBasedTriggerEvent.TriggerEvent | octobot/automation/bases/abstract_channel_based_trigger_event.py:110-114 | Only a pending future takes a trigger; without a future it raises |
| ChannelTrigger.ChannelBasedTriggerEvent.StopAll | octobot/automation/bases/abstract_channel_based_trigger_event.py:80-87 | The pending future is cancelled and the listed consumers are stopped |
| ChannelTrigger.FirstTriggerWins | octobot/automation/bases/abstract_channel_based_trigger_event.py:94-118 | Whatever happens until the wake-up, the first trigger of a wait is the event delivered |
| ChannelTrigger.DeliveredWasTriggered | octobot/automation/bases/abstract_channel_based_trigger_event.py:94-114 | Over any operations, what is delivered is a subsequence of what was triggered: nothing twice, nothing left of an earlier wait |
| ChannelTrigger.EachWaitDelivers | octobot/automation/bases/abstract_channel_based_trigger_event.py:94-114 | Until a stop every wait can be served: the first one registers the consumers, a trigger is delivered by the wake-up, and the next wait can begin |
| ChannelTrigger.RegistersOnce | octobot/automation/bases/abstract_channel_based_trigger_event.py:96-100 | Over any operations consumers are registered at most once |
| ChannelTrigger.EndedIsStopped | octobot/automation/bases/abstract_channel_based_trigger_event.py:94-108 | When the loop has ended the trigger is stopped and its listed consumers too |
| ChannelTrigger.ClearingEndsWait | octobot/automation/bases/abstract_channel_based_trigger_event.py:101-118 | Clearing the future of a wait ends the loop at the wake-up whatever is triggered meanwhile, and changes nothing for a wait already triggered |
| ChannelTrigger.NoWaitAfterStop | octobot/automation/bases/abstract_channel_based_trigger_event.py:94-96 | After a stop no wait begins: it ends the loop and delivers nothing |
| ChannelTrigger.DeliveredAfterStop | octobot/automation/bases/abstract_channel_based_trigger_event.py:80-108 | Once stopped, exactly the event already triggered is still delivered, if the wait is woken up (after its registration, if that is under way), and nothing else ever is |
| ChannelTrigger.DeliveredThoughStopped | octobot/automation/bases/abstract_channel_based_trigger_event.py:80-114 | It can be delivered: a trigger, a stop and then the wake-up deliver the triggered event |
| ChannelTrigger.ConsumersAfterStop | octobot/automation/bases/abstract_channel_based_trigger_event.py:80-100 | After a stop no consumer is left if and only if no registration completed after it |
| ChannelTrigger.LateRegistration | octobot/automation/bases/abstract_channel_based_trigger_event.py:96-100 | A stop during the registration leaves its consumers running |
| Fitness.FitnessParameter.UpdateRatio | octobot/strategy_optimizer/fitness_parameter.py:45-52 | Minimum and maximum take in the result's value, if it has one |
| Fitness.RangeIsSeen | octobot/strategy_optimizer/fitness_parameter.py:45-52 | After any results the range bounds every value seen and both its ends occur; none was seen if and only if there is no range |
| Fitness.ScoredRunResult.ComputeScore | octobot/strategy_optimizer/scored_run_result.py:26-43 | Score, total weight and values become those of the specification, a division by zero ending the sum with score 0 |
| FitnessTheorems.SeenScoresAreFractions | octobot/strategy_optimizer/scored_run_result.py:26-43 | Once all results were seen, each fresh score on ratio parameters with non-negative weights is in [0, 1] |
| FitnessTheorems.ScoreGrows | octobot/strategy_optimizer/scored_run_result.py:26-43 | Without a degenerate range, raising values never lowers the score |
| FitnessTheorems.DegenerateRangeGivesZero | octobot/strategy_optimizer/fitness_parameter.py:36-40 | One range reduced to a value makes the whole score 0 |
| FitnessTheorems.ValueCounts | octobot/strategy_optimizer/fitness_parameter.py:30-43 | A ratio parameter counts for its share of the range times its weight, from nothing at the lower end to the whole weight at the upper one; another for the value times the weight, a hundredth of it for a percentage |
| FitnessTheorems.ScoreIsWeightedMean | octobot/strategy_optimizer/scored_run_result.py:26-43 | A score is the sum of what the parameters present count for, divided by their weights, and 0 when these are 0 |
| FitnessTheorems.ValuesAreRead | octobot/strategy_optimizer/scored_run_result.py:36-43 | The values kept beside a score are the result's own for the parameters scored, and those kept before |
| FitnessTheorems.ScoredAgain | octobot/strategy_optimizer/scored_run_result.py:26-43 | The k-th scoring of one object gives a k-th of the first score, so the same score again if and only if that is 0: the total weight is never reset |
| ReferenceMarket.IndependentBacktesting.FindReferenceMarket | octobot/backtesting/independent_backtesting.py:416-459 | Market and contract type are those of the specification over the exchanges looked at |
| ReferenceMarket.IndependentBacktesting.DecideForFutures | octobot/backtesting/independent_backtesting.py:425-446 | The market an exchange's first symbol decides alone, if any, and the contract type it sets |
| ReferenceMarket.CandidateIsFirstToReach | octobot/backtesting/independent_backtesting.py:448-458 | The candidate after all quotes has the highest count and was the first to reach it |
| ReferenceMarket.FirstToReachIsUnique | octobot/backtesting/independent_backtesting.py:448-458 | There is only one such quote |
| ReferenceMarket.MarketIsMostFrequentQuote | octobot/backtesting/independent_backtesting.py:416-459 | Without futures, or when no exchange names a settlement asset and no contract type is forced, the market is that quote, and the default only without symbols (or for an empty quote) |
| ReferenceMarket.FuturesMarket | octobot/backtesting/independent_backtesting.py:421-446 | For futures the first exchange that decides gives the settlement asset of its first symbol or, for a forced contract type, its base when inverse and perpetual and its quote otherwise |
| ReferenceMarket.ForcedContract | octobot/backtesting/independent_backtesting.py:442-446 | A forced contract type is taken over as soon as an exchange has a symbol; without futures the type stays |
| ReferenceMarket.ProfileContract | octobot/backtesting/independent_backtesting.py:427-437 | The profile's contract type is that of the first symbol of the last exchange that is not wholly inverse, and is left alone without one |
| ReferenceMarket.InverseOnlyWhenMixed | octobot/backtesting/independent_backtesting.py:427-437 | With the profile's futures the contract type becomes inverse if and only if the deciding exchange mixes inverse and other contracts; inverse ones alone leave it linear |
| PortfolioTotals.GetPortfolio | octobot/storage/trading_metadata.py:217-251 | Both portfolios are the totals of the prepared portfolios of the exchanges that are not skipped |
| PortfolioTotals.TotalIsSum | octobot/storage/trading_metadata.py:240-250 | Each total amount is the sum over the portfolios |
| PortfolioTotals.TotalHolds | octobot/storage/trading_metadata.py:240-250 | A currency, or a key of it, is in the total if and only if it is in one of the portfolios |
| PortfolioTotals.TotalsIgnoreOrder | octobot/storage/trading_metadata.py:217-251 | The totals do not depend on the order of the exchanges |
| PortfolioTotals.LastPositionStands | octobot/storage/trading_metadata.py:230-238 | Of several positions in a currency the last one counts, and nothing else changes |
| PortfolioTotals.AvailableIsZero | octobot/storage/trading_metadata.py:227-229 | Available amounts are never added up |
| PortfolioTotals.TotalsOfExchanges | octobot/storage/trading_metadata.py:217-251 | Each total is the sum over the exchanges of what they answer on that side, nothing of what is available, and the last position at the end of futures; an exchange without a portfolio adds nothing |

## Left out

- Process pools, pickling, database files and locks as operating system objects: a read or a locked
  read-modify-write of the schedule row is one step, queues are sequences, and taking from a queue fails only
  when it is empty.
- SHA-256 and JSON: a run's hash is its normalised content, so different contents have different hashes.
- Several optimizer ids in one session: the protocol is modelled for one of them, whose queues and row no other
  one touches. In a session that generated its own schedule, the queues of every other id would be made from that same
  schedule.
- A second session of the same optimizer object, which would read the schedule it once generated, not the row left.
- Runs handed over directly instead of read from the row (`run_data_by_optimizer_id`): no caller in the
  repository passes any.
- `update_run_queue`: an edit of the stored schedule by the user interface while no session runs.
- Recovery from a schedule file that is not valid JSON, and copies of schedules kept for display.
- Filter operators: whether a candidate run is allowed is a parameter of run generation, as is the shuffle.
- Steps that are not positive in a number input: the source's loop would not end, so positivity is required.
- Decimal and floating point rounding: number inputs, scores and portfolios are reals; the announced number of
  runs is an integer product where the source converts from floats.
- The sorting and reporting of the strategy optimizer's results, and the backtestings themselves.
- `_reconnect` between its attempts, client configuration and device creation: the feed model only has the
  events that begin and end a connection and a reconnection.
- The MQTT client's own bookkeeping: each subscription request is taken to be answered at most once, with a code for
  each of its subscriptions in the order sent, and a topic sent again to be a request of its own.
- The package manager's own bookkeeping: it is taken to forget a url when its adapted form is removed and to
  register urls as installed.
- Limits on exchanges and time frames: the first is a simpler case of the pair limit; the second does not keep its
  limit in all cases.
- The Python-level interleaving inside `create_sync_client` and between the two fields it sets: creating and
  storing are two steps, and the user id is stored with the client.
- Looping over sessions in `stop`: all are closed in one step, and the loop fails when their number has changed
  since, which is when Python notices.
- The authentication object as a class: its initialisers matter in their interleavings, so its client, sessions and
  locks are the shared part of a state machine rather than fields.
- A test suite that raises in the strategy optimizer, which ends the search where it is.
- What steps keep about their last execution beyond the trigger's timestamp.
- Registering consumers on several exchanges one after the other: it is one step, which a stop can overtake.
- Symbols without a quote in the reference market: traded pairs always have one.
- Candle filtering, configuration holders, market deltas, user inputs, updater, login and command line.
