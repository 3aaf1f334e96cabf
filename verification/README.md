# CommGuard: a verified model of its protocol, evidence gates and run control

CommGuard collects accelerator telemetry from node agents, decides from it whether a
distributed training job communicates, and runs the experiments that such decisions rest
on. This project models the algorithmic parts of it in Dafny and proves what they keep over
whole runs. It checks with `dafny verify dfyconfig.toml`.

## What is modelled

**Telemetry protocol** (`central_protocol`, `central_server`, `server_runs`, `ledgers`,
`acceptance`, `window_reports`, `node_agent`, `delivery`, `telemetry`, `delivery_progress`,
`delivery_skips`, `delivery_discipline`, `delivery_flush`). The central service is a class
with the fields of `CentralIngestionService`; the agent and the offline file transport are
classes too. Each method is proved equal to a function of the old state, and the theorems
are about runs of those functions. A *run of the service* is any list of messages with any
clock readings. A *world* adds one agent with its transport: batches are collected, sent,
lost before or after the service saw them, delivered late or twice, heartbeats are sent at
any moment, and any other traffic may arrive that does not carry a valid signature of this
agent. A signature is symbolic (a term over the secret and the content), a digest is
injective, time is an integer.

**Feature extraction** (`alignment`, `windows`, `usable_intervals`, `bursts`). Two-pointer
alignment, the window loop with the coverage gate's interval, and the burst scan, over
integer nanoseconds.

**Calibration** (`ranks`, `spearman`, `correlation_form`, `medians`, `calibration`,
`calibration_loops`, `calibration_laws`, `calibration_baseline`, `calibration_verdict`,
`calibration_reasons`, `payload_figures`). The rank loops write an array; the rank
correlation is kept as numerator and radicand, so that no square root is needed;
`analyze_calibration` is a method with the loops of `calibration.py`, proved equal to a
definition by counting and filtering.

**Splitting** (`splits`, `stratification`, `split_fractions`, `split_plans`, `split_checks`,
`diagnostic_splits`, `folds`). Shuffles return any arrangement, so every statement holds for
every seed.

**Run control** (`synchronization`, `averaging`, `durations`, `corpus`, `corpus_validity`,
`matrix_plan`, `matrix`, `matrix_runs`, `matrix_laws`, `matrix_inputs`, `matrix_conflicts`).
A `run_matrix` call takes everything the outside world decides as a parameter: the
calibration sweep, each launched experiment with its run id and result, and the point where
the call is cut short. Calls are then put one after another, any number of them.
Configurations stand for their own SHA-256.

Methods are proved against specification functions; beside these stand statements that determine
them by the raw inputs alone (`acceptance`, `telemetry`, `window_reports`, `usable_intervals`,
`split_fractions`, `matrix_inputs` and the others named after what they describe).

`ordering`, `lists`, `arithmetic` and `common` hold shared definitions.

## Results worth knowing

- Exactly-once and in-order delivery needs no assumption on the uniqueness of UUIDs, and the
  `complete` flag of a window needs a clock that does not go back only between two of its
  readings: the one for node health and the one for agent health right after it
  (`src/commguard/central/server.py:336-337`).
- The documentation calls accepted sequence numbers strictly increasing
  (`docs/central-monitoring-design.md:48`); the code demands consecutive ones
  (`src/commguard/central/server.py:219-226`). The model follows the code.
- A heartbeat sent before the first batch is delivered overtakes the batch for ever, and a
  refusal saved by the file transport hides every later acceptance. Both are proved on
  concrete runs. So is the commoner loss: a heartbeat that is lost or refused leaves a number
  nobody sends again, and no later batch is accepted. For an agent that sends heartbeats on an
  empty queue and gets them through, it is proved exactly when a flush empties the queue.
- A window shorter than one nanosecond becomes a window of length zero with a stride of one and
  contains nothing. The tried windows leave no gap exactly if the window is at least one
  nanosecond long or there are not even two of them.
- A run without a declared minimum duration can report an interval that ends before it
  starts; the launcher then refuses it. With a minimum that cannot happen.
- `run_matrix` compares the parsed final manifest (lists) with a dictionary that holds tuples
  (`src/commguard/orchestrator.py:1270-1272`), which never agree. A call on a fresh store that
  is cut short between final manifest and summary therefore leaves a matrix that no later call
  finishes. The same holds for a corpus whose calibration sweep was cut short.
- The check for calibration status in `src/commguard/orchestrator.py:1203-1210` cannot fire:
  for a profile other than `smoke` the reference check before it has already refused an
  unsupported calibration, also in negative-calibration mode.

## Model

| member | source | states |
|---|---|---|
| CentralServer.CentralIngestionService.Check | src/commguard/central/server.py:124-271 | the sequence of checks, with their order and error codes, computes the declarative verdict on every message |
| CentralServer.CentralIngestionService.Accept | src/commguard/central/server.py:273-287 | the updates of an accepted message, and no others |
| CentralServer.CentralIngestionService.Ingest | src/commguard/central/server.py:124-289 | the whole new state and the acknowledgment of any message; only acceptance changes the state |
| Acceptance.AcceptedExactly | src/commguard/central/server.py:124-289 | any message, in any state and at any time, is newly accepted exactly if size, version, identity, signature, session, envelope, body and every sample are in order, its id is free, it is next in turn, message and samples are recent, and a batch follows the agent's last one; every other message changes nothing |
| Acceptance.EarlyRefusals | src/commguard/central/server.py:124-162 | size, version, unknown agent, node identity, signature and session are refused each under exactly its own condition, in this order |
| Acceptance.ContentRefusals | src/commguard/central/server.py:163-190 | then a foreign type, a malformed envelope or body, and unclean samples: a prohibited key anywhere, or a first defect other than a malformed sample, is a privacy violation |
| Acceptance.LateRefusals | src/commguard/central/server.py:211-271 | so are a stale number, a gap, an old message, an old sample and a broken chain |
| Acceptance.SampleSkewExactly | src/commguard/central/server.py:242-258 | the skew of a batch is within the limit exactly if each of its samples is |
| Acceptance.LedgersAreClean | src/commguard/central/server.py:163-181 | in every reachable state every sample in either ledger passed validation |
| CentralServer.CentralIngestionService.ScanLedger | src/commguard/central/server.py:340-377 | exactly the samples inside the half-open window, in ledger order, and the batches they came in |
| CentralServer.CentralIngestionService.NodeHealth | src/commguard/central/server.py:291-308 | every expected node and no other, with missing, stale or healthy by its last acceptance |
| CentralServer.CentralIngestionService.AgentHealth | src/commguard/central/server.py:310-329 | the same for agents, each with the node it is registered on |
| CentralServer.CentralIngestionService.MeanFields | src/commguard/central/server.py:349-357 | for each of the ten telemetry fields the mean of its supported readings, none without a reading |
| CentralServer.CentralIngestionService.SummarizeNodes | src/commguard/central/server.py:340-362 | health, window count and field means of every expected node, and the batches that contributed |
| CentralServer.CentralIngestionService.SummarizeAgents | src/commguard/central/server.py:368-384 | node, health, window count, ranks and GPUs of every expected agent, and the batches that contributed |
| CentralServer.CentralIngestionService.AggregateWindow | src/commguard/central/server.py:331-402 | an error exactly for an empty window; otherwise counts, health, missing sets, completeness and evidence as the ledgers define them |
| WindowReports.HealthExactly | src/commguard/central/server.py:291-329 | missing without a last acceptance, stale if that is longer ago than the limit, healthy otherwise |
| WindowReports.ReportExactly | src/commguard/central/server.py:340-384 | every expected node has the number of its stored samples inside the half-open window and, field by field, the mean of those that have the field; every expected agent its node, its number, and the ranks and GPUs of those samples |
| WindowReports.MissingExactly | src/commguard/central/server.py:363-398 | missing are exactly the expected nodes and agents not seen within the limit or without a stored sample in the window |
| WindowReports.DecidedExactly | src/commguard/central/server.py:427-456 | an error exactly for a score outside [0, 1] on a complete report; abstention exactly for an incomplete report or a score within the margin around the threshold |
| WindowReports.ScoredExactly | src/commguard/central/server.py:427-456 | a score is given exactly if every expected node and agent was seen within the limit and has a sample in the window, and the scorer stays in its range |
| ServerRuns.ReachableInv | src/commguard/central/server.py:191-287 | in every reachable state the ids, digests, sequence numbers, chain heads, liveness times and both ledgers are those of the log of accepted messages |
| ServerRuns.AcceptedOrder | src/commguard/central/server.py:191-287 | on every run each agent's accepted messages carry consecutive numbers, its batches form one unbroken chain, and no id takes effect twice |
| ServerRuns.KnownExactly | src/commguard/central/server.py:191-209 | `already_accepted` is the answer to exactly the messages that took effect, in any state and at any time |
| ServerRuns.ReplayIsIdempotent | src/commguard/central/server.py:191-209 | re-sending an accepted message in any later state and at any clock value is acknowledged and changes nothing, liveness included |
| ServerRuns.AckMeansLogged | src/commguard/central/server.py:94-110 | an acknowledgment is positive exactly when the message has taken effect by then; a refusal leaves the state alone; the reported number is that of the agent's last accepted message |
| Ledgers.NodeLedgerInterleavesAgentLedgers | src/commguard/central/server.py:275-280 | in every reachable state a node's ledger is an interleaving of its agents' ledgers, each in its own order |
| Ledgers.NodeWindowIsAgentPool | src/commguard/central/server.py:275-280 | in any window of any reachable state a node's samples are those of its agents put together, each once |
| Ledgers.NodeCountIsAgentSum | src/commguard/central/server.py:340-384 | so a node's sample count is the sum of its agents' counts |
| Ledgers.CountSplits | src/commguard/central/server.py:340-384 | counts over adjacent windows add up to the count over their union |
| Ledgers.CompleteIffNoAgentMissing | src/commguard/central/server.py:363-398 | every missing or stale node has a missing or stale agent, so a window is complete exactly when no agent is missing |
| Ledgers.NodeSeenThroughAgent | src/commguard/central/server.py:281-283 | some agent of a seen node was last seen at the same moment |
| Ledgers.UnhealthyNodeHasNoHealthyAgent | src/commguard/central/server.py:291-329 | under a clock that never goes back an unhealthy node has no healthy agent |
| Ledgers.EvidenceWasAccepted | src/commguard/central/server.py:340-399 | every batch a report names as evidence, through node or agent ledgers, was accepted and holds a sample inside the window |
| Ledgers.MissingAgentForcesAbstention | src/commguard/central/server.py:427-441 | a window with a missing or stale agent makes the detector abstain without a score |
| Ledgers.ScoreOnlyOnCompleteWindow | src/commguard/central/server.py:427-456 | a score is given only on a window in which every expected agent is healthy and has samples |
| NodeAgents.OfflineFileTransport.Send | src/commguard/central/transport.py:52-65 | write-once requests and acknowledgments around the service: the files, the service state and the answer after any attempt, faults included |
| NodeAgents.FilesAreWrittenOnce | src/commguard/central/transport.py:52-65 | saved requests and acknowledgments never change; an answered message is on file with exactly that answer |
| NodeAgents.AttemptFailsExactly | src/commguard/central/transport.py:52-65 | an attempt fails exactly for an unsafe id, a fault, or a different message on file under the id, and the service sees the message exactly if it goes through or only its acknowledgment is lost |
| NodeAgents.NodeAgent.CollectOnce | src/commguard/central/agent.py:91-117 | exactly for a named agent and a complete reading one signed batch at the end of the queue that carries the whole reading, chained to the one before it, under the next number; otherwise nothing |
| NodeAgents.CollectableExactly | src/commguard/central/agent.py:91-117 | a batch is collected exactly if the agent is named and the reading is complete and valid |
| NodeAgents.NewBatchCarries | src/commguard/central/agent.py:94-113 | a queued batch carries all samples of its reading in their order, its id, creation time and span, under the agent's identity and signature |
| NodeAgents.HeartbeatCarries | src/commguard/central/agent.py:131-142 | a heartbeat carries its id, creation time and number under the agent's identity and signature |
| NodeAgents.NodeAgent.Flush | src/commguard/central/agent.py:119-129 | the loop equals a recursion over the queue: heads leave it while they are acknowledged, and the first refusal or fault stops it |
| NodeAgents.NodeAgent.Beat | src/commguard/central/agent.py:131-142 | a heartbeat takes a sequence number whether or not it arrives, and is not queued |
| Delivery.PlayKeeps | src/commguard/central/agent.py:91-142 | the queue, sent-message, delivery and saved-acknowledgment invariants survive every interleaving |
| Delivery.ExactlyOnceInOrder | src/commguard/central/agent.py:91-142 | over every interleaving the accepted batches are a repeat-free prefix of the collected ones, and the dropped ones a prefix of the accepted, at most one behind |
| Telemetry.CollectedAreReadings | src/commguard/central/agent.py:91-117 | over every interleaving the batches are the complete readings, one for one and in order, each with all of its samples |
| Telemetry.LedgerIsReadings | src/commguard/central/server.py:273-287 | over every interleaving the service's ledger of the agent holds exactly the samples of the readings whose batches took effect, reading after reading and sample after sample |
| Telemetry.BatchIsItsReading | src/commguard/central/server.py:273-287 | under the id of an accepted batch the ledger holds exactly the samples of the reading that queued it, in their order |
| Telemetry.DeliveredIds | src/commguard/central/agent.py:91-117 | the accepted batches are those of the first readings, each under the id of its reading, no id twice |
| Delivery.HeadAcceptedExactly | src/commguard/central/server.py:124-271 | after any run the service accepts the head of the queue exactly if its size fits and it has either taken effect already or has a free id, is next in turn and is timely; never refused for signature, parsing or chain |
| Delivery.AttemptKeepsLink | src/commguard/central/transport.py:52-65 | saved acceptances stay true, and an accepted answer always means that the message has taken effect |
| DeliveryProgress.FlushIsARun | src/commguard/central/agent.py:119-129 | a whole flush over the offline transport is a run of single attempts of the world, one for each acknowledgment and possibly a failing last one |
| DeliveryProgress.OfflineAnswer | src/commguard/central/transport.py:60-65 | an answer is accepted exactly when the service accepts and no refusal is on file for the id |
| DeliveryProgress.SavedRefusalIsForEver | src/commguard/central/transport.py:60-65 | after a saved refusal of the head nothing ever leaves the queue again |
| DeliveryProgress.RefusedOnFileThoughAccepted | src/commguard/central/transport.py:60-65 | that happens: a batch sent late and again in time has taken effect while the agent keeps it as refused |
| DeliveryProgress.OvertakenIsForEver | src/commguard/central/agent.py:131-142 | once the service counts past an undelivered head, nothing ever leaves the queue again |
| DeliveryProgress.FirstHeartbeatOvertakes | src/commguard/central/agent.py:131-142 | a heartbeat sent before the first batch is delivered does just that |
| DeliveryDiscipline.BeatIsAccepted | src/commguard/central/agent.py:131-142 | in step, a heartbeat on an empty queue is accepted exactly if its id is unused, its size within the limit and its age in order |
| DeliveryDiscipline.DisciplinedInStep | src/commguard/central/agent.py:119-142 | if every heartbeat is sent on an empty queue, fits like that and reaches the service, the service always waits for the agent's next number, whatever is lost, repeated or sent by others |
| DeliveryFlush.HeadDeliveredExactly | src/commguard/central/agent.py:119-129 | after any such run, with any losses, sending the head delivers and drops it exactly if the attempt goes through, no refusal is on file, its size fits, and it is known already or has a free id and is timely; otherwise it stays |
| DeliveryFlush.OtherFitExactly | src/commguard/central/agent.py:119-129 | sending one batch leaves the fitness of another as it was exactly if the two do not share an id |
| DeliveryFlush.FlushEmptiesQueueExactly | src/commguard/central/agent.py:119-129 | after any such run one flush empties the queue exactly if every pending batch is fit for the attempt it meets and no two share an id; then each is acknowledged |
| DeliverySkips.SkippedIsForEver | src/commguard/central/agent.py:131-142 | once the service counts below a heartbeat that nothing else can stand in for, no batch numbered after it ever takes effect or leaves the queue, unless that very heartbeat is delivered late |
| DeliverySkips.LostBeatIsSkipped | src/commguard/central/agent.py:131-142 | a heartbeat that is lost or refused leads there, if the service has heard of the agent before |
| DeliverySkips.SecondHeartbeatLost | src/commguard/central/agent.py:131-142 | so does the second heartbeat of a new agent if its request is lost |
| Alignment.Align | src/commguard/features/extraction.py:245-272 | pairs within tolerance, each sample at most once, strictly advancing on both sides, and as many as any one-to-one pairing within the tolerance can have; an error exactly for a negative tolerance |
| Alignment.GreedyIsMaximum | src/commguard/features/extraction.py:256-272 | from any position on, the greedy pairing is at least as large as every pairing of the remaining samples, crossing or not |
| Alignment.GreedyIsWellPaired | src/commguard/features/extraction.py:256-272 | the greedy pairs are in tolerance and advance on both sides |
| Alignment.ToleranceExactly | src/commguard/features/extraction.py:251-272 | two stamps are within the tolerance exactly if neither is later by more seconds |
| Windows.TryWindows | src/commguard/features/extraction.py:493-516 | for one length exactly floor((end - start - W) / stride) + 1 windows when the interval fits W and none otherwise, each at its place |
| UsableIntervals.TriedExactly | src/commguard/features/extraction.py:485-489 | the windows of one length are exactly those that fit the interval: of the truncated length, a stride apart, from its start on, with no room for one more |
| Windows.RunWindows | src/commguard/features/extraction.py:458-516 | these windows for every configured length, over the interval both GPUs were sampled in, cut to the measurement; nothing unless the GPUs are 0 and 1; errors exactly for a bad fraction or length |
| UsableIntervals.IntervalExactly | src/commguard/features/extraction.py:473-484 | an instant lies in the interval exactly if both GPUs have been sampled by then and still are, a recorded measurement has begun and not ended, and without a recorded start the warm-up has passed since both were sampled |
| Windows.StrideWithinWindow | src/commguard/features/extraction.py:494-496 | a stride is at least one and exceeds the window exactly for windows under a nanosecond |
| Windows.ZeroLengthWindowsLeaveGap | src/commguard/features/extraction.py:493-516 | a window of length zero contains no instant, so two of them leave a gap |
| Windows.WindowsLeaveNoGap | src/commguard/features/extraction.py:493-516 | every instant from the start to the end of the last window lies in some window, exactly if the length is a nanosecond or more or fewer than two windows are tried |
| Windows.TailShorterThanStride | src/commguard/features/extraction.py:493-516 | the last window ends inside the interval and leaves less than a stride |
| Windows.IntervalsAgree | src/commguard/features/extraction.py:796-809 | the gate's interval and the loop's agree, with and without recorded measurement times: same start, end one further |
| Windows.PassedGateTriesAWindow | src/commguard/features/extraction.py:796-812 | behind a passed gate the shortest window is tried at least once; and exactly when it is tried |
| UsableIntervals.GateExactly | src/commguard/features/extraction.py:779-813 | the coverage gate's interval checks pass exactly if both GPUs are sampled around two different instants and two usable instants lie at least the shortest window apart |
| Bursts.BurstScan | src/commguard/features/extraction.py:181-198 | exactly the maximal runs of active samples, in order and apart; their lengths sum to the active samples, their number is that of the rising edges |
| Bursts.ScanDecomposes | src/commguard/features/extraction.py:181-198 | the scan with one closing quiet sample is that decomposition |
| Bursts.TimeBursts | src/commguard/features/extraction.py:199-208 | mean and maximum of the burst durations, zero without bursts |
| Bursts.DurationIsSpan | src/commguard/features/extraction.py:187-197 | with timestamps that never go back a burst lasts its span and the median sampling interval, and the clamp at zero never acts |
| Bursts.SpacingExactly | src/commguard/features/extraction.py:185-193 | the sampling interval is the median, by counting, of the distances of neighbouring samples |
| Bursts.ComputeBurstFeatures | src/commguard/features/extraction.py:166-211 | duty cycle as the active fraction, burst count as the number of rising edges, durations over the maximal runs, longest burst as the longest active stretch; nothing without values or threshold |
| Ranks.ComputeRanks | src/commguard/calibration.py:38-51 | the nested loops write the definition: smaller values plus half of the other equal ones |
| Ranks.StretchEnd | src/commguard/calibration.py:44-46 | the end of the maximal stretch of equal values in the sorted order |
| Ranks.FillStretch | src/commguard/calibration.py:47-49 | the inner loop writes one rank over the stretch and nothing before it |
| Ranks.StretchRank | src/commguard/calibration.py:38-51 | one rank for a maximal stretch of equal values is that definition for each of them |
| Ranks.RanksSum | src/commguard/calibration.py:38-51 | the ranks of n values sum to n(n-1)/2 |
| Ranks.RanksCommuteWithPermutation | src/commguard/calibration.py:38-51 | permuting the values permutes their ranks |
| Ranks.RanksKeepUnderMonotoneMaps | src/commguard/calibration.py:38-51 | strictly increasing changes of the values keep the ranks |
| Spearman.CorrelationBounded | src/commguard/calibration.py:54-63 | the correlation lies in [-1, 1] (Cauchy-Schwarz) |
| Spearman.BelowIsLess | src/commguard/calibration.py:374-377 | the root-free comparison with a bound is the comparison of the quotient |
| Spearman.RankCorrelationUnderMonotoneMaps | src/commguard/calibration.py:283-289 | the rank correlation depends on the two orders only |
| Spearman.RankCorrelationIgnoresOrder | src/commguard/calibration.py:283-289 | the rank correlation of paired data does not depend on the order of the pairs |
| Spearman.RisingResponseIsOne | src/commguard/calibration.py:283-289 | a response that rises with the payload has rank correlation one |
| CorrelationForm.DefinedExactly | src/commguard/calibration.py:54-63 | the correlation is defined exactly if neither list is constant |
| CorrelationForm.CorrelationIs | src/commguard/calibration.py:54-63 | it is the only value that has the covariance as numerator and the product of the two variances as radicand, each in the form of sums of the lists' own values and products |
| CalibrationLoops.GroupByPayload | src/commguard/calibration.py:213-225 | each valid payload's rows in order, and the number of rows with an invalid one |
| CalibrationLoops.ScanGroup | src/commguard/calibration.py:226-245 | the usable values of a group, and its participation and signal defects |
| CalibrationLoops.SummarizePayloads | src/commguard/calibration.py:226-281 | the loop over ascending payloads gives the defined summaries, squared coefficient of variation included, and counts every defect of a row with a payload once |
| CalibrationLoops.AnalyzeCalibration | src/commguard/calibration.py:118-510 | the loops compute the definition of the analysis; no analysis exactly for settings out of range |
| Medians.MedianExactly | src/commguard/calibration.py:200-200 | the median is the mean of the one or two values in the middle, found by counting how many values are smaller and how many are not greater |
| CalibrationBaseline.ThresholdExactly | src/commguard/calibration.py:200-211 | the threshold is the idle median raised by the larger of the floor and the method's margin, with median and median deviation by counting |
| CalibrationBaseline.OneBaseline | src/commguard/calibration.py:200-211 | idle signals have exactly one median, deviation and margin |
| CalibrationBaseline.CapturedIsAboveIdle | src/commguard/calibration.py:243-251 | every captured value exceeds the idle median by more than the floor and by more than the method's margin |
| CalibrationBaseline.ThresholdFollowsIdle | src/commguard/calibration.py:205-211 | under the deviation method, raising every idle signal by an amount raises the threshold by exactly that amount |
| CalibrationBaseline.ReliableExactly | src/commguard/calibration.py:251-256 | in modern mode a group of values is reliable exactly if there is an idle baseline, the group is large enough, and the required share of it lies above the idle median by more than floor and margin |
| CalibrationBaseline.ReliablePayloadsExactly | src/commguard/calibration.py:229-300 | so are the payloads that a modern analysis lists as reliable |
| CalibrationVerdict.IdleSignalsAre | src/commguard/calibration.py:171-199 | the idle values are exactly the signals of measured idle rows of a worker that took part, completed and lasted, with the collector on its interval |
| CalibrationVerdict.ValuesAre | src/commguard/calibration.py:213-241 | the values of a payload are exactly such signals of the collective rows with that payload |
| CalibrationVerdict.PayloadsAre | src/commguard/calibration.py:213-229 | the payloads are exactly those of collective rows with a payload that is not negative |
| PayloadFigures.SummaryExactly | src/commguard/calibration.py:229-278 | the summary of a payload has the number of its rows and values; their median, mean, median deviation and squared coefficient of variation, each by its definition; and the number and share of values above the threshold |
| CalibrationVerdict.PointsAre | src/commguard/calibration.py:280-284 | correlation and range are taken over exactly the payloads that have values, each with the median of its values |
| CalibrationVerdict.ResponseCorrelation | src/commguard/calibration.py:285-289 | the correlation figure is that of the ranks of the payloads with the ranks of their medians |
| CalibrationVerdict.RangeExactly | src/commguard/calibration.py:290-293 | the dynamic range is the greatest over the least positive median, if there are two of them |
| CalibrationVerdict.SupportedExactly | src/commguard/calibration.py:305-406 | the status is `supported` exactly if there are rows and all are good, idle baselines are repeated enough (in modern mode), the figures meet their minima, and there are payloads and all of them are reliable |
| CalibrationReasons.NotSupportedExactly | src/commguard/calibration.py:385-406 | it is `not_supported` exactly if there are no rows, one has an unknown type or no measured signal, the idle baseline is without a value or without enough of them, a figure misses its minimum, or no payload is reliable |
| CalibrationReasons.ResultStateExactly | src/commguard/calibration.py:407-420 | the four named result states by status, unknown types, broken workers and unmeasured signals |
| CalibrationReasons.ReasonsExactly | src/commguard/calibration.py:331-383 | a falsification reason is recorded exactly if the counts and figures call for it, and with the count it names |
| CalibrationReasons.KindsCounted | src/commguard/calibration.py:305-305 | the counts by row type, payload, measurement and worker failure are the numbers of such rows |
| CalibrationReasons.ReadingsCounted | src/commguard/calibration.py:226-241 | so are the counts of idle values, unusable rows, missing signals, short rows and intervals off target |
| CalibrationLaws.OrderOfObservationsIsIrrelevant | src/commguard/calibration.py:192-304 | status, reasons, summaries, figures and gates depend on the multiset of observations only |
| CalibrationLaws.SupportedPayloadsAre | src/commguard/calibration.py:213-281 | a payload is reliable exactly if its group has enough values and a high enough share above the threshold |
| CalibrationLaws.StricterGateSupportsLess | src/commguard/calibration.py:192-281 | raising multiplier, floor or minimum capture rate never adds a reliable payload |
| CalibrationLaws.StricterGateNeverImproves | src/commguard/calibration.py:331-406 | nor does it improve the status or remove a kind of falsification reason |
| CalibrationLaws.SupportedIffNoReason | src/commguard/calibration.py:331-406 | the status is `supported` exactly when no falsification reason is recorded |
| CalibrationLaws.SupportedMeansEveryObservationIsSound | src/commguard/calibration.py:305-406 | then every observation is an idle baseline or has a payload, is usable and has a signal, every payload group passes the repetition and capture gates, and idle baselines are repeated enough |
| CalibrationLaws.ModernGate | src/commguard/schemas.py:682-696 | outside legacy mode the modern capture gate is passed, and the decision state `passed`, exactly when the status is `supported`, which then carries the other two flags the schema demands |
| CalibrationLaws.SupportedFigures | src/commguard/calibration.py:385-401 | a supported result has enough payload sizes, a correlation in [-1, 1] and a dynamic range not under their minima, and a reliable payload |
| SplitPlans.CollectRunGroups | src/commguard/evaluation/splits.py:57-101 | one group per run, an error exactly for no rows, an incomplete row or a run that spans groups |
| Splits.CollectStrata | src/commguard/evaluation/splits.py:197-204 | every run once, under its required family or else its class |
| Splits.PartitionSizes | src/commguard/evaluation/splits.py:213-221 | the closed form of the adjustment loop, at least one run for each partition, and the error branch is never reached from three runs on |
| Splits.AllocateStratum | src/commguard/evaluation/splits.py:222-229 | each run of the shuffled stratum in the part its position falls into, and no other run moved |
| Splits.PlaceStratum | src/commguard/evaluation/splits.py:206-229 | fails exactly below three runs; otherwise cuts the shuffled stratum into parts of exactly the intended sizes and moves no other run |
| Splits.StratifiedAssignments | src/commguard/evaluation/splits.py:190-230 | for every shuffle: fails exactly if a stratum has fewer than three runs, and otherwise places every run once with every stratum cut to the intended sizes |
| Splits.ProportionedIsRepresented | src/commguard/evaluation/splits.py:213-229 | a stratum cut to the intended sizes has a run in each partition |
| SplitFractions.StratifiedExactly | src/commguard/evaluation/splits.py:197-229 | an assignment is stratified exactly if it places every run and each family or class that is split together has test and validation parts of the nearest whole number to its share (even if there are two), raised to one run; where that leaves no run to train on, exactly one is left, validation gives way first, and test only once validation has one run |
| SplitFractions.AllLargeExactly | src/commguard/evaluation/splits.py:206-212 | strata are large enough exactly if every required family and every class outside them has three runs |
| SplitFractions.TooLargeExactly | src/commguard/evaluation/splits.py:213-214 | a part is more than one half above its share exactly if the share is under one half, and then it is a single run |
| SplitFractions.TooSmallGaveWay | src/commguard/evaluation/splits.py:215-221 | a part more than one half below its share has given way: a single run is left to train on, and if it is the test part, a single one to validate on |
| SplitFractions.AmpleTrainingShare | src/commguard/evaluation/splits.py:213-221 | where the share left to train on exceeds two runs, test and validation are within one half of their shares, or a single run |
| Stratification.ReachedExactly | src/commguard/evaluation/splits.py:205-229 | every stratified allocation brings a run of a given set into a partition exactly if some stratum has fewer runs outside the set than go there |
| SplitPlans.StratifiableExactly | src/commguard/evaluation/splits.py:123-160 | every stratified allocation passes the final checks exactly if all strata are large enough, there are two classes, and that holds for each partition and each class and required family |
| SplitPlans.PureIsStratifiable | src/commguard/evaluation/splits.py:197-204 | it does when every required family is present under one class, and there are two classes |
| SplitPlans.StratifiedPassesFinalize | src/commguard/evaluation/splits.py:123-160 | with every required family present under one class, and two classes, a stratified assignment always passes the final checks |
| SplitPlans.SessionAssignments | src/commguard/evaluation/splits.py:233-267 | the search finds an assignment exactly if some ordered pair of sessions is a holdout, independently of the shuffle, and it is that of such a pair |
| SplitPlans.Pairs | src/commguard/evaluation/splits.py:241-243 | exactly the ordered pairs of distinct sessions |
| SplitPlans.CheckHoldout | src/commguard/evaluation/splits.py:256-264 | valid exactly if every class and required family is in all three partitions |
| SplitPlans.HoldoutNeedsThreeSessions | src/commguard/evaluation/splits.py:238-240 | the early exit below three sessions loses nothing |
| SplitPlans.PlanBySessions | src/commguard/evaluation/splits.py:321-337 | session plans keep each session whole and cover every class and required family; they fail for want of a second class only |
| SplitPlans.PlanByStrata | src/commguard/evaluation/splits.py:339-357 | a stratified plan is sound and cut to size, and exists whenever every allocation would pass |
| SplitPlans.MakeSplitPlan | src/commguard/evaluation/splits.py:295-357 | the three primary modes: `auto` holds out sessions exactly when possible and stratifies otherwise; every plan has all classes and required families in all partitions |
| SplitChecks.FinalizesExactly | src/commguard/evaluation/splits.py:123-160 | the final checks pass exactly if every run is placed and no other, there are two classes, and each partition has a run of every class and of every required family |
| SplitChecks.SoundExactly | src/commguard/evaluation/splits.py:123-160 | a sound plan is one that places every run and shows each partition every class and required family |
| SplitChecks.HoldoutExactly | src/commguard/evaluation/splits.py:244-264 | a session holdout tests exactly the runs of one session, validates on exactly those of another, and shows every partition every class and required family |
| SplitChecks.HoldoutExistsExactly | src/commguard/evaluation/splits.py:238-267 | a holdout exists exactly if some assignment of that kind does |
| DiagnosticSplits.CutClass | src/commguard/evaluation/splits.py:286-291 | one run of a class of two or more to validation, all others to train, for every shuffle |
| DiagnosticSplits.DiagnosticAssignments | src/commguard/evaluation/splits.py:270-292 | refused exactly if no run or every run has the value; otherwise test is exactly the runs that have it and every other class is cut |
| DiagnosticSplits.DiagnosticSplitFinalizes | src/commguard/evaluation/splits.py:134-138 | a diagnostic split never fails its final checks |
| DiagnosticSplits.MakeDiagnosticPlan | src/commguard/evaluation/splits.py:295-374 | the two holdout modes give a diagnostic plan exactly for legal fractions and a value that divides the runs |
| DiagnosticSplits.DiagnosticExactly | src/commguard/evaluation/splits.py:277-292 | a diagnostic split places every run, tests exactly those of the held-out family or configuration, and has one run of each class that is left validate, if there are two |
| Folds.GroupCrossValidationFolds | src/commguard/evaluation/splits.py:392-449 | refused exactly for fewer than two groups or a fold count out of range; the leakage error is never raised; as many folds as asked for |
| Folds.StridedExactly | src/commguard/evaluation/splits.py:426-426 | a strided slice holds exactly the positions of its remainder |
| Folds.EveryRunTestedOnce | src/commguard/evaluation/splits.py:428-448 | every run is tested in exactly one fold and trained on in all others |
| Folds.FoldsAreSound | src/commguard/evaluation/splits.py:428-448 | no group is split, no fold is empty on either side, and fold sizes differ by one group at most |
| Folds.RelatedStayTogether | src/commguard/evaluation/splits.py:411-421 | runs of one session, or of one family, are tested together and trained on together when folds are made by that field |
| Folds.OneGroupLeftOut | src/commguard/evaluation/splits.py:422-424 | leaving one group out tests a run together with exactly the runs of its session or family, or alone |
| Synchronization.ScheduledFacts | src/commguard/adversarial.py:215-231 | the schedule rises strictly and holds exactly the steps at which the strategy synchronizes |
| Synchronization.SynchronizationSteps | src/commguard/adversarial.py:215-231 | with the final agreement it is complete, strictly rising, ends at the last step and has as many entries as there are rounds |
| Synchronization.ScheduleExactly | src/commguard/adversarial.py:200-231 | the schedule holds exactly the multiples of the interval, or the steps whose seeded draw is under the probability, and the last step |
| Synchronization.SmallerProbabilitySynchronizesLess | src/commguard/adversarial.py:208-211 | under one seed a smaller probability only drops steps, never the last one |
| Synchronization.TrainingCounters | src/commguard/distributed/worker.py:370-430 | the worker's online count and its final agreement equal the length of the offline schedule, for every strategy and number of steps; bytes are proportional |
| Synchronization.PeriodicRounds | src/commguard/adversarial.py:200-231 | interval k takes ceil(n/k) rounds over n steps |
| Averaging.Simulate | src/commguard/adversarial.py:234-256 | the history of states, and an error exactly for too few ranks, a row of the wrong length or an unknown step |
| Averaging.TotalIsConserved | src/commguard/adversarial.py:244-252 | after every step, whatever the schedule, the states sum to the initial sum plus all updates so far |
| Averaging.AgreementAtScheduledSteps | src/commguard/adversarial.py:249-251 | at a scheduled step every rank holds the mean of everything contributed |
| Averaging.SpreadWithinDrift | src/commguard/adversarial.py:244-252 | the rank spread is bounded by the update spread since the last synchronization, plus the initial spread before the first |
| Averaging.StateInClosedForm | src/commguard/adversarial.py:244-252 | a rank's state is the mean of everything contributed up to the last synchronization (before the first, its initial state) and its own updates since |
| Durations.DurationController.Create | src/commguard/duration.py:34-74 | a controller exactly for a warm-up that is not negative and for minimum, cap and count that are positive where given; its measurement starts after the warm-up |
| Durations.DurationController.ShouldContinue | src/commguard/duration.py:80-96 | go on, stop or fail at any reading |
| Durations.DurationController.CompleteIteration | src/commguard/duration.py:98-99 | one more iteration, and nothing else |
| Durations.DurationController.Finish | src/commguard/duration.py:101-125 | the interval, or an error when the minimum is not met |
| Durations.DurationController.Measure | src/commguard/distributed/worker.py:370-399 | the measuring loop over any clock readings is the loop the theorems are about |
| Durations.ExitsExactly | src/commguard/duration.py:80-98 | with a minimum the loop exits normally at exactly the first check after an iteration that sees the minimum, if the cap allows it; for any clock |
| Durations.ExitsOnceMinimumPassed | src/commguard/duration.py:63-96 | the loop exits normally exactly at the first check after an iteration by which the warm-up, without its fraction of a nanosecond, and then the minimum have passed since the creation, if the cap allows it |
| Durations.FinishedExactly | src/commguard/duration.py:101-125 | finishing fails exactly before that; otherwise the interval runs from the end of the warm-up to the reading and repeats policy and count |
| Durations.CappedExactly | src/commguard/duration.py:86-97 | the cap's error comes exactly when the cap is used up and no check so far saw the minimum |
| Durations.LegacyRunsItsCount | src/commguard/duration.py:81-82 | without a minimum exactly the configured iterations run |
| Durations.NormalExitYieldsAcceptedInterval | src/commguard/duration.py:103-125 | with a minimum and a clock that does not go back, a normal exit means that `finish` cannot fail, iterations are between one and the cap, and the launcher accepts the interval |
| Durations.AcceptedIffOrdered | src/commguard/distributed/launcher.py:147-164 | a finished interval passes the launcher exactly if it does not end before it starts |
| Durations.LegacyIntervalMayRunBackwards | src/commguard/duration.py:103-125 | without a minimum a long warm-up gives an interval the launcher refuses |
| Durations.IterationsAreBounded | src/commguard/duration.py:80-98 | if every iteration takes at least d, there are at most ceil((warmup + minimum) / d), the loop ends by then, and a cap error needs a smaller cap |
| Corpus.AllowsExactly | src/commguard/corpus.py:178-188 | on a valid manifest a run is allowed under a designation exactly if a slot of that designation is filled by it, and it fills no other slot |
| Corpus.FilledPlanIsValid | src/commguard/corpus.py:131-150 | filling a valid plan's slots keeps the manifest valid exactly if no run fills two of them |
| CorpusValidity.ValidExactly | src/commguard/corpus.py:81-150 | a manifest is valid exactly if its header is complete, its digest and calibration reference sound, every slot sound, plan ids differ, no run fills two slots, and the accepted ids list exactly the runs that fill one |
| CorpusValidity.PartsJoin | src/commguard/corpus.py:112-116 | the parts of a path contain no slash and give the path back when joined |
| MatrixPlans.PlanMatrix | src/commguard/orchestrator.py:1028-1053 | the planned runs of any shuffle, an error exactly for fewer than one repetition |
| MatrixPlans.PlanIdsAreUnique | src/commguard/orchestrator.py:1044-1044 | the formatted plan ids are distinct, whatever the workload names contain |
| MatrixPlans.EveryRepetitionPlannedOnce | src/commguard/orchestrator.py:1028-1053 | however shuffled, every benign workload is planned once for each of its repetitions, and nothing else |
| MatrixPlans.SlotsExactly | src/commguard/orchestrator.py:1032-1041 | every workload that is not a collective one has a slot for each repetition, as often as the profile names it; a collective one has none |
| MatrixPlans.PlannedExactly | src/commguard/orchestrator.py:1037-1053 | a slot carries the registered family, label, designation, seed and configuration of its workload and its repetition, and an id that spells profile, position, workload and repetition |
| MatrixPlans.PlanIsValid | src/commguard/orchestrator.py:1056-1078 | a plan over registered workloads is a valid manifest |
| Matrices.ArtifactStore.Scan | src/commguard/orchestrator.py:1211-1231 | the scan of saved manifests finds exactly the runs that resuming may take over, or a mismatch |
| Matrices.ArtifactStore.FindAccepted | src/commguard/orchestrator.py:1218-1240 | the run to take over, none, or the mismatch or duplicate error; never one without the resume flag |
| Matrices.ArtifactStore.VisitEach | src/commguard/orchestrator.py:1211-1262 | the loop over the plans saves exactly the attempts of the recursion, also when it stops midway |
| Matrices.ArtifactStore.Finish | src/commguard/orchestrator.py:1263-1332 | final manifest and summary are written once, in that order, after validation and comparison |
| Matrices.ArtifactStore.RunMatrix | src/commguard/orchestrator.py:1110-1332 | the files and the result of a call, wherever it fails or is cut short |
| MatrixInputs.UnsupportedBlocks | src/commguard/orchestrator.py:1184-1210 | outside the smoke profile a call whose calibration in effect is unsupported, and in any profile one whose calibration is unverified, ends in an error and leaves attempts, final manifest and summaries as they were |
| MatrixInputs.NothingWithoutCalibration | src/commguard/orchestrator.py:1110-1332 | from a fresh store, whatever the calls: attempts, a final manifest and a summary exist only with a complete sweep on file that is supported (outside the smoke profile), and the summary names that very calibration |
| MatrixInputs.AcceptedRunsExactly | src/commguard/orchestrator.py:1218-1234 | resuming may take over exactly the completed runs of the plan with valid participation and at least thirty measured seconds |
| MatrixInputs.LoopDecides | src/commguard/orchestrator.py:1211-1262 | a loop that goes through keeps a run on file for a plan that has one when resuming; every other plan is launched once, its saved attempt records that launch, its run id is the outcome, and its slot is filled exactly if it completed |
| MatrixInputs.SummaryIsDecided | src/commguard/orchestrator.py:1211-1332 | the summary of a call is decided like that, slot by slot |
| MatrixConflicts.ForeignPlanIsRefused | src/commguard/orchestrator.py:1143-1160 | a plan on file is used only when resuming and only if it is the plan of the matrix; otherwise nothing is written |
| MatrixConflicts.ConflictExactly | src/commguard/orchestrator.py:1218-1235 | looking for a run to take over fails exactly if an attempt of the plan was made under another configuration or two may be taken over |
| MatrixConflicts.ConflictBlocks | src/commguard/orchestrator.py:1218-1235 | on whatever store a call resumes, such a contradiction for one planned run keeps it from concluding |
| MatrixRuns.PlayKeeps | src/commguard/orchestrator.py:1110-1332 | any number of crashed, failed, resumed or repeated calls keep the store's invariant |
| MatrixLaws.ConflictsNeverArise | src/commguard/orchestrator.py:1211-1235 | from a fresh store each plan has at most one run that resuming takes over; the duplicate, mismatch, differing-plan, invalid-manifest and negative-calibration errors never occur; a saved final manifest is valid |
| MatrixLaws.LaunchedExactly | src/commguard/orchestrator.py:1231-1262 | a loop that goes through launches a plan once, or not at all exactly when a resumed call found a run to take over |
| MatrixLaws.AcceptedForGood | src/commguard/orchestrator.py:1231-1240 | a plan with a run that meets the resume test is never run again, and every later summary assigns that run to it |
| MatrixLaws.SummaryAnswersEveryPlan | src/commguard/orchestrator.py:1236-1267 | in a finished matrix every filled slot holds a completed run of its own plan, and the one that meets the resume test if there is one |
| MatrixLaws.SummaryCounts | src/commguard/orchestrator.py:1319-1320 | the completed and failed runs of a new summary add up to the plans, and the completed ones are exactly the accepted ones |
| MatrixLaws.FinishedIsFrozen | src/commguard/orchestrator.py:1130-1142 | after the summary, resuming returns it, anything else is refused, and nothing is written |
| MatrixLaws.FinalWithoutSummaryIsForEver | src/commguard/orchestrator.py:1268-1274 | after a final manifest without a summary no later call ever returns a summary |
| MatrixLaws.CrashBeforeSummaryIsNotRecoverable | src/commguard/orchestrator.py:1268-1331 | a first call that would have finished and is cut short between final manifest and summary leads there, and no later call finishes the matrix |
| MatrixLaws.InterruptedSweepIsForEver | src/commguard/orchestrator.py:435-447 | after a calibration sweep that was cut short no experiment is ever launched |
| MatrixLaws.InterruptedSweepIsReached | src/commguard/orchestrator.py:462-477 | a first call whose sweep is cut short leads there |
| MatrixLaws.FinishesExactly | src/commguard/orchestrator.py:1110-1332 | an unhindered call on an unfinished matrix returns a summary exactly if no final manifest was left behind, the plan is new or the call resumes, and no earlier sweep stands in the way |

## Left out

- The HTTP server, handler and client, ISO timestamp parsing, JSON canonicalisation: messages arrive parsed, times are integers; `HttpTransport` is the direct channel.
- Non-string identifiers, and payloads that carry both a batch and a heartbeat id: a message has one body.
- Durability and restart of the central service: it is in memory only.
- Files that were partly written when a process died: a file is there or not.
- `server_time_utc`, messages and other texts of acknowledgments and errors: codes only.
- Several agents of one world at once: the other agents are part of the arbitrary traffic, and each agent's theorem applies to it in turn.
- Delivery.ExactlyOnceInOrder: an agent that is restarted with an empty queue and a reset counter is not covered.
- CentralServer.CentralIngestionService.AggregateWindow: the random window id and the constant scope fields are not modelled.
- Field statistics, quantiles, slopes and per-window field features: single expressions without a law of their own.
- Floating-point rounding: reals are exact, and the rank correlation is compared without its root.
- CalibrationLoops.AnalyzeCalibration: the sorted copy of the observations, the echo of the settings, the idle median and deviation as figures of their own, and the texts of the result are not modelled; the coefficient of variation is kept as its square.
- DiagnosticSplits.MakeDiagnosticPlan: the warnings on missing families and one-class partitions are not modelled.
- SplitPlans.MakeSplitPlan: warnings and per-split count tables of a plan are not modelled; the diagnostic modes are in DiagnosticSplits.MakeDiagnosticPlan.
- The seeds of shuffles: any arrangement is allowed, which loses that equal seeds give equal plans.
- Equal step counts across ranks: each rank stops on its own clock.
- Synchronization.TrainingCounters: loss, throughput and checksum events are not modelled.
- Optimizer arithmetic, NCCL and the process group: averaging is the scalar model of the repository.
- Durations.DurationController.Measure: the body of an iteration is only its clock reading; a loop whose readings run out is reported as still running.
- Duration intervals without a minimum being ordered: false, see `Durations.LegacyIntervalMayRunBackwards`.
- Matrices.ArtifactStore.Finish: the extraction summary, coverage gate record and family counts inside a summary are not modelled, because they come from feature extraction; a call may be cut short there, which covers its failure.
- Matrices.ArtifactStore.RunMatrix: the same parts of the summary are not modelled.
- Windows.RunWindows: whether a tried window yields a feature row is not modelled.
- Runs of other corpora that use the same plan ids in the same store: the resume test looks at the plan id only; the theorems start from a store without attempts under these ids.
- Presence of fields in a calibration reference and hash collisions of configurations.
- `artifacts/storage.py`, the workload registry, reporting and the command line.
