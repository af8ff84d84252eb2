# Verification of the fraud-decision path

A Dafny model of how a payment becomes a decision, and proofs about it: the
three analysers and the weighted score, the fan-in protocol that makes one
decision out of concurrent partial results, the velocity windows, the
commit-after-handle loop, the audit hash chain, the case table and the two rate
limiters. `dafny verify dfyconfig.toml` checks all of it.

| module | models |
|---|---|
| Rounding, Reasons, Signals, Common | half-even rounding to cents, stable sorting and truncation of reasons, the event payloads |
| RuleEngine, GraphService, MlService | the three signal producers |
| Scoring | `combine`, `to_decision` and the published decision record |
| FanIn | the fan-in protocol: one step per Redis call and per publication |
| FanInClaims, FanInOwners, FanInTiming, FanInPrompt, FanInInvariant | its inductive invariant, part by part |
| FanInSafety, FanInDelivered, FanInPublished | what holds in every run: claims and gaps, what a snapshot holds of the deliveries, what is published for a decision |
| FanInProgress, FanInScenarios | what every undisturbed run achieves, and the runs that show where the promises end |
| EndToEnd | rules, graph, ML, score and protocol together, for a sanctioned payment |
| Velocity | the trimmed, expiring sorted set against the naive history of a card |
| Runs, Bus | runs of a system under events chosen by its environment; the consumer loop with crashes, cancellations and dead letters |
| Audit, Cases | two consumers on that loop: the hash chain, and the table analysts edit |
| Gateway, Notification | the counters of the two rate limiters |

Redis, Kafka and Postgres appear as maps, sorted sets with scores, logs and expiry
times. Clock readings, redeliveries, crashes, the order in which `hgetall`
returns fields, query results, model output and SHA-256 are parameters or
choices of the environment. A class stands for code that updates fields or keys
in place; its methods are proved against functions, and the theorems are about
these functions. The fan-in protocol, whose steps interleave, is a transition
system instead.

How to read the protocol results. `FanIn.Reachable(cfg, s)` covers every
interleaving of any number of tasks on any number of transactions, with
deliveries repeated at will and tasks killed at any step; `killed` holds the transactions that lost a
deadline or a claimant, not those whose handler alone crashed. `cfg.patience` bounds
how long a task may take; `None` is the code's own (absent) bound, and every
result that does not mention patience holds for it. `claims` lists the
successful `SET NX` calls, `snaps` what their `hgetall` saw, and `log` the
published messages.

Where the code and the documents differ, the model follows the code:

- `combine` ignores the `degraded` flag, so a failed graph analysis is blended in
  as a real zero (`Scoring.DegradedZeroDrags`), although services/ml-service/main.py:3-6
  speaks of a wider confidence band.
- A missing signal is meant to shift weight to the survivors without deflating the score
  (services/risk-scoring/main.py:47-49). `Scoring.LeaveOneOutIff` says exactly when it does not deflate it: without a
  hard hit, when the premium covers the signal's distance from the others' blend; with a hit that stays, also when the
  blend is at most 97.5; and when the hit goes with the rules, only if the premium covers it and the others
  reach the floor of 90 without it. `Scoring.LeaveOneOutRounded` is the same on the rounded score.
  `Scoring.MissingSignalCanDiscount` has two inputs where the score falls, a lone high signal that the premium does not
  cover, and a covered rules signal that takes the hit along; in `Scoring.FloorCanHideDiscount` an uncovered signal
  goes and the score rises.
- A transaction is meant to be decided on complete signals or at the timeout (services/risk-scoring/main.py:3-7).
  When its three signals are handled before its enriched event, it is not
  decided at all (`FanInScenarios.EarlySignalsUndecided`), because the
  completeness test does not look for the context and the claim comes first.
- A decision with a gap is meant to be the timeout's doing. It is always claimed by the deadline exactly when
  every task takes less than half of BUFFER_TTL (`FanInScenarios.GapMeansTimeoutIff`). It never comes earlier
  than the timeout after the enriched event was first handled exactly when that holds or every task takes
  less than BUFFER_TTL and together with the timeout at most BUFFER_TTL, 299.2 seconds at the default
  (`FanInScenarios.GapNeverEarlyIff`). Nothing in the code bounds a task, so without a bound on them both fail
  (`FanInScenarios.SlowTaskLeavesGap`, `FanInScenarios.StalledTaskIsEarly`).
- docs/api-contracts.md:95 promises a sliding 60-second window of 600 requests. The
  gateway counts per clock minute, so the promise is kept for exactly those windows that start on the
  minute (`Gateway.SlidingExactly`); elsewhere k minutes let up to 600(k + 1) through (`Gateway.AnyInterval`),
  1200 within two seconds for one (`Gateway.TwiceTheLimit`).
- docs/kafka-topics.md:38-42 takes `ON CONFLICT DO NOTHING` to make the audit handler idempotent. A replay after
  the head has moved breaks the chain (`Audit.ReplayAfterHeadBreaks`), and `Audit.SoundExactly` says
  which handler runs do harm.
- The `distinct_*_24h` counters reach back to the last day without a transaction on the
  card, not 24 hours (`Velocity.DistinctSinceGap`). They are right exactly when every value since then came
  again within the last day (`Velocity.DistinctExactIff`); `Velocity.DistinctOvercounts` has one that is not.
- Rule R004 does not fire on impossible travel in no time at all: a gap of zero seconds reads as a
  missing one (`RuleEngine.ImpossibleTravelFires`).
- An event dated ahead of the server clock is accepted, and its trim can empty the set of the events before it
  (`Velocity.FutureEventEmpties`); the window laws hold with the furthest such lead added to the clock.
- A customer whose EXPIRE was lost in a crash (`Notification.LostExpireHappens`) gets five notifications in all,
  for ever (`Notification.LostExpireSilences`); once EXPIRE is executed the window does end
  (`Notification.SettledWindowEnds`).

## Model

| member | source | states |
|---|---|---|
| FanInInvariant.InvKept | services/risk-scoring/main.py:79-171 | every Redis call, publication, delivery, kill and tick preserves the protocol invariant |
| FanInInvariant.ReachableInv | services/risk-scoring/main.py:79-171 | hence it holds in every reachable state, for any interleaving, crashes included |
| FanInInvariant.HandlerFrame | services/risk-scoring/main.py:79-103 | a handler touches the hash of its transaction alone, takes no source and no context out of it and only moves its expiry out |
| FanInClaims.ClaimsAdd | services/risk-scoring/main.py:115-118 | a successful `SET NX EX` leaves the claims of each transaction a TTL apart and the key in place while the last one is younger |
| FanInOwners.ProtocolSnapshot | services/risk-scoring/main.py:120-144 | the snapshot fixes what the claim will publish; no claim has two owners, published plus unsent messages are always the plan |
| FanInOwners.ProtocolSend | services/risk-scoring/main.py:146-163 | a publication moves one message from an owner's plan to its claim's output and touches no other claim |
| FanInTiming.StoreDelete | services/risk-scoring/main.py:171 | deleting the hash never takes the context from a younger first claim that has not read it |
| FanInPrompt.OneClaimant | services/risk-scoring/main.py:114-171 | with tasks shorter than a TTL a transaction has one task past its claim at a time |
| FanInPrompt.PromptDelete | services/risk-scoring/main.py:101-103 | when the hash is deleted, a task that has found the set complete will have its claim refused, or granted no earlier than the timeout allows |
| FanInSafety.ClaimsSpaced | services/risk-scoring/main.py:115-118 | in every reachable state two claims on a transaction are at least BUFFER_TTL apart |
| FanInSafety.OneDecisionPerClaim | services/risk-scoring/main.py:146 | a claim publishes at most one decision |
| FanInSafety.DecisionsPerWindow | services/risk-scoring/main.py:114-146 | k windows of BUFFER_TTL contain at most k decisions on a transaction, so one if all its claims fall within one TTL |
| FanInSafety.OutputsArePrefix | services/risk-scoring/main.py:146-163 | what a claim has published is always a prefix of decision, audit, notification, case |
| FanInSafety.CaseHasHistory | services/risk-scoring/main.py:159-163 | a case follows its decision and audit record with the same score; a P1 case follows the decline notification |
| FanInSafety.NotificationMatches | services/risk-scoring/main.py:146-163 | notifications and cases follow a decision that is not an approval, and its audit record; the template matches the decision |
| FanInSafety.TimeoutNeverEarly | services/risk-scoring/main.py:93-109 | a deadline's claim comes at least DECISION_TIMEOUT_MS after the enriched event was first handled |
| FanInSafety.MissingIsExact | services/risk-scoring/main.py:53 | `missing_signals` is exactly EXPECTED minus the sources in the claim's snapshot |
| FanInSafety.GapMeansTimeout | services/risk-scoring/main.py:101-126 | with tasks shorter than half a TTL a decision with a gap was claimed by the deadline, and not before the timeout |
| FanInSafety.GapNeverEarly | services/risk-scoring/main.py:101-126 | with tasks shorter than that, or shorter than a TTL and with the timeout no longer than one, it was claimed no earlier than the timeout after the first context |
| FanInScenarios.GapNeverEarlyIff | services/risk-scoring/main.py:106-126 | decisions with gaps are never early if and only if tasks are that short, for every timeout and every bound or none |
| FanInScenarios.StalledTaskIsEarly | services/risk-scoring/main.py:101-121 | a task that may take a TTL can claim before the enriched event is handled, outlive the hash and decide on the context alone |
| FanInSafety.NoContextNoDecision | services/risk-scoring/main.py:117-122 | a claim whose snapshot lacks the context publishes nothing and keeps every decision a TTL away from it |
| FanInDelivered.SnapshotsHoldDelivered | services/risk-scoring/main.py:79-99 | in every run each snapshot is taken at one step, and holds for each source the signal whose `hset` came last before it, and the context likewise; the first claim's within a TTL of the first write holds all that was written |
| FanInDelivered.LastSignalDelivered | services/risk-scoring/main.py:96-98 | the signal written last for a transaction and source is one that was delivered for them |
| FanInDelivered.LastContextDelivered | services/risk-scoring/main.py:79-86 | and the context one of an enriched event that was delivered |
| FanInDelivered.RecordedStep | services/risk-scoring/main.py:79-171 | every step keeps the hash to the values written last |
| FanInPublished.PublishedExactly | services/risk-scoring/main.py:146-163 | at rest and undisturbed, with the context in the snapshot: one decision and one audit record, one notification if and only if the decision is CHALLENGE or DECLINE, one case if and only if it is REVIEW or DECLINE, each with the decision's content |
| FanInPublished.RecordsCarry | services/risk-scoring/main.py:146-163 | in every reachable state each record carries the transaction, customer, amount, currency, score, template, priority and reasons of its claim's decision |
| FanInPublished.RecordsInOrder | services/risk-scoring/main.py:146-163 | a claim's records come in the order decision, audit, notification, case, no topic twice |
| FanInPublished.DecisionsSaySo | services/risk-scoring/main.py:126-144 | every published decision and its audit copy name the transaction and context of the snapshot, each source's score, the gaps, a level that fits the score, and the heaviest eight of all reasons |
| FanInProgress.RunDecreases | services/risk-scoring/main.py:79-171 | every operation of a task uses up a measure on all pending work |
| FanInProgress.RunsBounded | services/risk-scoring/main.py:79-171 | without new deliveries any schedule performs at most that many operations |
| FanInProgress.ComesToRest | services/risk-scoring/main.py:90-171 | from any state the tasks in flight can all finish once the deadlines are due |
| FanInProgress.ExactlyOneDecision | services/risk-scoring/main.py:79-171 | at rest, with no deadline or claimant of the transaction killed and within a TTL of the first write, there is exactly one claim, and one decision exactly when its snapshot has the context, which it has if the context was stored before the claim |
| FanInProgress.ReadyRuns | services/risk-scoring/main.py:79-122 | only expiry takes a stored context away before the first claim |
| FanInProgress.DecisionIsReached | services/risk-scoring/main.py:79-171 | a handled transaction whose context is in place can always be run on, without outside help, to a state with exactly one decision |
| FanInScenarios.EarlySignalsUndecided | services/risk-scoring/main.py:101-122 | a crash-free run at rest with every event handled and no decision: the signals came before the context |
| FanInScenarios.SlowTaskLeavesGap | services/risk-scoring/main.py:101-120 | with tasks of half a TTL or more, a claim for completeness can decide with every signal missing, and sooner after the context than the timeout |
| FanInScenarios.GapMeansTimeoutIff | services/risk-scoring/main.py:101-126 | gaps are always the deadline's doing if and only if tasks take less than half of BUFFER_TTL |
| Scoring.Missing | services/risk-scoring/main.py:53 | each expected source that is absent, once, in alphabetical order |
| Scoring.BlendIsMean | services/risk-scoring/main.py:54-55 | the blend lies between any bounds on the present scores, and is zero when their weights are all zero |
| Scoring.ScoreRange | services/risk-scoring/main.py:46-65 | the score stays within 0 and 100 |
| Scoring.ScoreMonotone | services/risk-scoring/main.py:46-75 | raising signals or adding a hard hit never lowers score or severity, through floor, premium, cap and rounding |
| Scoring.SeverityMonotone | services/risk-scoring/main.py:68-75 | severity is monotone in the score for thresholds in any order |
| Scoring.BandsExact | services/risk-scoring/main.py:68-75 | the decision is as severe as there are thresholds before the first that the score does not exceed |
| Scoring.BandsCounted | services/risk-scoring/main.py:68-75 | for ordered thresholds it is as severe as there are thresholds strictly below the score |
| Scoring.DefaultLevels | libs/common/config.py:36-38 | with the default thresholds the levels end at 30, 60 and 85, these included |
| Scoring.EvidenceIgnored | services/risk-scoring/main.py:46-65 | neither degraded flags nor reasons other than the rules' change score or gaps |
| Scoring.HardFromFifty | services/risk-scoring/main.py:58-61 | one more reason of the rules lifts a lower score to 90 if it weighs 50 or more, and else changes nothing |
| Scoring.LeaveOneOutExact | services/risk-scoring/main.py:54-64 | before floor, cap and rounding, dropping one of three signals does not lower the score if and only if w(s - b) <= W(0.05b + 3) |
| Scoring.LeaveOneOutIff | services/risk-scoring/main.py:46-65 | with floor, premium and cap, dropping one of three signals does not lower the score if and only if the premium covers it, or the floor stays and the blend is at most 97.5, and a dropped hit is made up for; rounding keeps this, up to a cent |
| Scoring.LeaveOneOutRounded | services/risk-scoring/main.py:46-65 | the returned score does not fall if and only if the blend of all three rounds to no more than the survivors' score, which reaches 90 if the hit is dropped |
| Scoring.LeaveOneOut | services/risk-scoring/main.py:46-65 | for scores of any range, a covered signal without the hard hit can be dropped |
| Scoring.DegradedZeroDrags | services/risk-scoring/main.py:52-55 | a degraded zero never gives a higher score than leaving the signal out |
| Scoring.MissingSignalCanDiscount | services/risk-scoring/main.py:46-65 | two concrete inputs where a missing signal lowers the score, one uncovered and one that takes the hit along |
| Scoring.FloorCanHideDiscount | services/risk-scoring/main.py:58-65 | an input where an uncovered signal is dropped and the score rises |
| Rounding.CentsUnique | services/risk-scoring/main.py:65 | nearest and, in a tie, even: this determines the rounding |
| Rounding.RoundMonotone | services/risk-scoring/main.py:65 | rounding keeps order |
| Reasons.SortSorts | services/rule-engine/rules.py:110 | the sorted reasons are a descending permutation |
| Reasons.SortStable | services/risk-scoring/main.py:129-131 | reasons of equal weight keep their order |
| Reasons.StableSortUnique | services/rule-engine/rules.py:110 | a descending stable rearrangement is unique |
| Reasons.TopHeaviest | services/rule-engine/main.py:28 | a cut to k keeps k reasons or all, and nothing cut off outweighs anything kept |
| Reasons.TopSurvives | services/risk-scoring/main.py:141 | a reason survives a cut to k when at most k reasons weigh as much |
| Reasons.SumOfFew | services/rule-engine/rules.py:106 | sums start at zero and a single reason adds its weight |
| RuleEngine.Evaluate | services/rule-engine/rules.py:98-110 | the loop returns the capped sum over the rules that fire and the one stable descending order of their reasons |
| RuleEngine.Handle | services/rule-engine/main.py:18-32 | the signal carries the heaviest reasons, ten or all; with weights of ten or more its score is the capped sum of the reasons it carries |
| RuleEngine.BrokenRulesIsolated | services/rule-engine/rules.py:107-109 | the signal equals that of the rules that do not raise |
| RuleEngine.ScoreIsKeptWeight | services/rule-engine/main.py:22-28 | the cut to ten loses no score when all weights are at least ten |
| RuleEngine.OneHeavyRule | services/rule-engine/rules.py:33-95 | with one rule of a weight, at most one hit weighs that much |
| RuleEngine.SanctionRuleHeaviest | services/rule-engine/rules.py:33-95 | of the fifteen rules R007 alone weighs 60 or more, and it fires on every sanctioned country |
| RuleEngine.RuleTable | services/rule-engine/rules.py:33-95 | codes and weights of the fifteen rules |
| RuleEngine.CounterRules | services/rule-engine/rules.py:34-85 | from which count each of the counter rules fires |
| RuleEngine.AmountRules | services/rule-engine/rules.py:42-94 | when the rules on amounts and circumstances fire |
| RuleEngine.ImpossibleTravelFires | services/rule-engine/rules.py:46-49 | R004 fires if and only if more than 500 km lie behind and a gap under 1800 seconds that is not zero |
| RuleEngine.SanctionedHit | services/rule-engine/rules.py:59-61 | the sanctions hit survives the cut to ten, alone at its weight |
| GraphService.Analyse | services/graph-service/main.py:54-93 | one reason for each pattern found, with the points of its count or distance, the heaviest first; the score is the capped sum of their weights |
| GraphService.Handle | services/graph-service/main.py:96-117 | a failed or late analysis publishes a zero without reasons, marked degraded; any other reports what was found |
| GraphService.GraphReasonsLight | services/graph-service/main.py:56-91 | no graph pattern weighs 60 |
| GraphService.GraphScoreRange | services/graph-service/main.py:56-93 | counts that are not negative give a score within 0 and 100 |
| MlService.ToScore | services/ml-service/main.py:43-46 | the score stays within 0 and 100 |
| MlService.ToScoreAntitone | services/ml-service/main.py:43-46 | the more anomalous, the higher the score |
| MlService.ToScoreLine | services/ml-service/main.py:43-46 | a straight line through 50 at zero that meets 0 and 100 at plus and minus five twelfths |
| MlService.AttributionComplete | services/ml-service/main.py:49-68 | at most four features are named; one that is not lies within a sigma or is outdone by four named ones |
| MlService.AttributionExact | services/ml-service/main.py:55-68 | as many features are named as lie beyond a sigma, at most four, each with its name and distance |
| MlService.Heuristic | services/ml-service/main.py:71-79 | the four contributions, at most 95 in all, so the cap never binds; not negative for amounts that are not |
| MlService.MlSignalMeans | services/ml-service/main.py:82-103 | degraded exactly without a model, and then without reasons; with one, the squashed score and the attribution |
| MlService.MlReasonsFew | services/ml-service/main.py:82-103 | an ML signal has at most four reasons of any weight |
| EndToEnd.HardHitDeclinedIff | services/risk-scoring/main.py:58-75 | every hard hit is declined if and only if all thresholds lie below 90 |
| EndToEnd.HeavyInTotal | services/risk-scoring/main.py:129-131 | heavy reasons add up over the signals, in any field order |
| EndToEnd.SanctionedIsDeclined | services/risk-scoring/main.py:126-144 | a payment to a sanctioned country with its RULES signal is declined for any ML and graph content and any missing set, and the sanctions hit is among the eight reasons |
| EndToEnd.SanctionedInEveryRun | services/risk-scoring/main.py:79-146 | in every run whose deliveries for a payment to a sanctioned country are what the analysers publish, every decision on it that does not miss RULES says DECLINE and says why |
| EndToEnd.SanctionedRunComplete | services/risk-scoring/main.py:79-163 | such a run at rest in which its deadline and claimant survived, with context and RULES in time, has published decision, audit, decline notification and P1 case for it, once each |
| Velocity.AmountReadBack | services/enrichment/main.py:59-66 | the amount is read back from a member whatever the transaction id contains |
| Velocity.MemberInjective | services/enrichment/main.py:43 | different transactions have different members |
| Velocity.AmountParsed | services/enrichment/main.py:61-65 | a member adds what its amount parses to, and nothing if it does not parse |
| Velocity.Total | services/enrichment/main.py:59-66 | the loop sums the readable amounts, each member once, in any order |
| Velocity.Card.Velocity | services/enrichment/main.py:39-77 | the pipeline updates the keys and answers from them; events under 23 hours behind the furthest any event may be dated get the naive short counters, those no event can be ahead of the naive 24-hour ones |
| Velocity.ReadCounters | services/enrichment/main.py:46-77 | the range queries and totals give the counters of the keys |
| Velocity.SetBetween | services/enrichment/main.py:43-45 | for any lead of events over the server clock, the set holds only history, and all of it younger than a day at that lead, through trims, expiries and repeats |
| Velocity.NextCallKeeps | services/enrichment/main.py:43-45 | of the earlier members a call leaves exactly those that it does not trim, and none when a day has gone by |
| Velocity.ShortCountersExact | services/enrichment/main.py:46-72 | for events less than 23 hours behind the clock plus lead the one-minute and one-hour counters are those of the whole history |
| Velocity.DayWindowLate | services/enrichment/main.py:43-48 | a late event's 24-hour window gains nothing and misses only entries a day old at the clock plus lead |
| Velocity.OnTimeExact | services/enrichment/main.py:39-77 | an event at the clock plus lead, on time if events are never ahead, gets all five window counters of the naive history, the day's being open at its start |
| Velocity.ShortOverCalls | services/enrichment/main.py:39-72 | over the calls alone: the minute and hour counters are the numbers of distinct transactions with their last timestamp in the closed window, the hour's sum that of their parsed amounts, rounded |
| Velocity.DayOverCalls | services/enrichment/main.py:39-73 | the same for the day, open at its start |
| Velocity.FutureEventEmpties | services/enrichment/main.py:43-44 | an event dated ahead trims the one before it, and the next on time is counted alone where the history has two |
| Velocity.DistinctSinceGap | services/enrichment/main.py:49-54 | each distinct counter counts the values since the last gap of a day |
| Velocity.DistinctCoversDay | services/enrichment/main.py:49-54 | so none of the last day is missed |
| Velocity.DistinctExactIff | services/enrichment/main.py:49-54 | a distinct counter is never below the last day's number, and equal to it if and only if every value since the gap recurs within the last day |
| Velocity.DistinctOvercounts | services/enrichment/main.py:49-54 | three calls twenty hours apart after which two values are counted and the last day has one |
| Bus.Worker.RunWorker | libs/common/bus.py:87-126 | fetch, handler, dead-letter send and commit in this order, each returning, raising or cut off, with or without effect: the loop is the run of these calls |
| Bus.StepSafe | libs/common/bus.py:87-121 | each call, restart and arrival preserves: below the committed offset all is handled or dead-lettered, and a commit is due only for a message that is |
| Bus.RunsSafe | libs/common/bus.py:87-126 | so for every run, whatever calls raise and wherever the process is cut off and restarted; deliveries are in log order, repeated until committed |
| Bus.AtLeastOnce | libs/common/bus.py:98-126 | from the start each message below the committed offset has finished its handler or is in the DLQ |
| Bus.CommitsOnlyDone | libs/common/bus.py:87-91 | the offset moves only by the commit of the message in hand, by one, when that message is done |
| Bus.CutOffComesAgain | libs/common/bus.py:107-126 | a turn cut off without a commit, also by a failing dead-letter send, has its message delivered first after the restart |
| Bus.RunsAreTurns | libs/common/bus.py:98-126 | every run, call by call, is a sequence of turns of the six kinds the consumers below are modelled with |
| Bus.EveryFateHappens | libs/common/bus.py:98-126 | and each kind of turn is brought about by some answers |
| Bus.OneLifeGoesOn | libs/common/bus.py:98-121 | one life handles message after message: each that is handled or dead-lettered is committed and the next one follows |
| Audit.Service.Handle | services/audit/main.py:43-64 | reads the head, inserts the row unless its id is there, sets the head, up to the point where it is cut off |
| Audit.LinkedAppend | services/audit/main.py:50-64 | an extended log verifies if and only if the rest does and the new row is hashed over the last row's hash |
| Audit.SoundExactly | services/audit/main.py:43-64 | from a sound state a handler run leads to a sound state exactly when it is no replay after the head has moved and no commit that leaves a row without the head |
| Audit.ChainSurvives | services/audit/main.py:43-66 | in any run of handler attempts without these two the log is a linear chain ending at the stored head, up to one pending row |
| Audit.CrashesBeforeHeadRepaired | services/audit/main.py:53-64 | any number of crashes before the head moves, even after the row is written, leave one chain of exactly the committed messages in order |
| Audit.ChainFromEmptyLog | services/audit/main.py:43-66 | both from an empty log on |
| Audit.BreakIsPermanent | services/audit/main.py:55-59 | rows are only appended, so a broken link stays broken |
| Audit.DanglingHeadBreaks | services/audit/main.py:49-59 | a new row links up exactly when the head is the last row's hash |
| Audit.ReplayMovesHead | services/audit/main.py:49-64 | a replay of the first message after its head was set leaves one row and a head that hashes it twice |
| Audit.ReplayAfterHeadBreaks | services/audit/main.py:49-64 | the second row then hangs off a hash no row has, short of a hash cycle |
| Audit.SplitUnique | services/audit/main.py:29 | the hashed text splits in one way into previous hash and payload |
| Audit.SameHeadSameLog | services/audit/main.py:3-5 | two verifying logs of any lengths with the same final hash have equal payloads, or `Collision` returns two different texts with one digest |
| Audit.TamperingShows | services/audit/main.py:3-5 | rewriting a payload changes every hash from there on, or a collision is at hand |
| Cases.CaseTable.Handle | services/case-management/main.py:24-37 | inserts a row with the event's fields unless the transaction has one; raises exactly on a malformed event or a case id in use, and then changes nothing |
| Cases.CaseTable.UpdateCase | services/case-management/main.py:82-93 | 400 and 404 change nothing; otherwise exactly the row of that case gets the status, analyst and note given, and keeps its other fields |
| Cases.EditMeans | services/case-management/main.py:87-91 | field by field, an update writes status, analyst and note of the row of its case alone and keeps case ids unique |
| Cases.OverlayIsLast | services/case-management/main.py:87-91 | a row shows its insert, with status, analyst and note of the last accepted update of its case |
| Cases.RequestMeans | services/case-management/main.py:82-93 | a request is accepted exactly for OPEN, IN_REVIEW or CLOSED and a case id that a row has |
| Cases.OverlayPlace | services/case-management/main.py:24-37 | an insert commutes with the updates accepted before it |
| Cases.TableIsOnePass | services/case-management/main.py:24-37 | under any crashes, replays, dead letters and interleaved updates the table is one exactly-once pass over the executed messages, then the accepted updates |
| Cases.ExactlyOnce | services/case-management/main.py:24-37 | without dead letters that pass is over the whole log up to the committed offset |
| Cases.DeliveriesKeepRows | services/case-management/main.py:32 | no redelivery changes a row, so none reverts an analyst's status |
| Cases.FirstEventWins | services/case-management/main.py:28-36 | one row per transaction that has an executed event, with the fields of the first of them |
| Cases.PassKeyOk | db/schema.sql:77-78 | no case id is on two transactions |
| Gateway.Guard.Admit | services/api-gateway/main.py:40-50 | 401 without an effect for an unknown key, otherwise the run of INCR and EXPIRE; a timely call is let through exactly when fewer than 600 requests of its key and minute came before |
| Gateway.NeverReset | services/api-gateway/main.py:44-47 | while INCR lags the clock reading by at most 30 seconds, a request finds all earlier requests of its bucket counted |
| Gateway.LongLagResets | services/api-gateway/main.py:44-47 | with any longer lag a bucket can be gone while in use |
| Gateway.ExactlyTheLimit | services/api-gateway/main.py:44-49 | per key and minute exactly min(requests, 600) are let through, with late and lost EXPIREs |
| Gateway.AnyInterval | services/api-gateway/main.py:44-49 | any half-open interval of k minutes of clock readings lets at most 600(k + 1) through |
| Gateway.SlidingExactly | services/api-gateway/main.py:44-49 | every run keeps an interval of k minutes to 600k requests if and only if the interval starts on the minute |
| Gateway.BurstsPass | services/api-gateway/main.py:44-49 | from any reading on, a burst there and at each of the next k minutes lets 600(k + 1) through |
| Gateway.TwiceTheLimit | services/api-gateway/main.py:44 | 1200 requests do pass within two seconds |
| Notification.RateLimiter.RateLimited | services/notification/main.py:22-28 | limited exactly when the customer's window is open and has let five through; the hourly count stays at nine or less |
| Notification.BoundedStep | services/notification/main.py:22-28 | each INCR and EXPIRE preserves the window bounds |
| Notification.NineAnHour | services/notification/main.py:22-28 | any half-open hour lets at most nine notifications through to a customer, with late and lost EXPIREs |
| Notification.NineIsReached | services/notification/main.py:22-28 | nine do occur |
| Notification.LostExpireSilences | services/notification/main.py:25-28 | a customer whose EXPIREs are all lost gets five notifications in all, in any run |
| Notification.LostExpireHappens | services/notification/main.py:25-27 | a crash after the first INCR leaves a counter that is live for ever |
| Notification.SettledWindowEnds | services/notification/main.py:25-27 | after an EXPIRE at t the first message from an hour later opens a new window |

## Left out

- Floating point: scores, weights, amounts and times are exact reals or integers; decimal literals are exact.
- Descriptions, evidence, trace ids, identifiers drawn at random, latencies and `occurred_at`: not part of the model; a reason is its code and weight.
- FanIn: one Redis that loses no keys before their expiry; LRU eviction is not modelled. The protocol is a transition system on values, since its steps interleave.
- FanIn.Outputs: the audit record's payload is the decision itself; the order of `hgetall` fields is left open, so the order among reasons of equal weight is that of the snapshot.
- FanInProgress.ExactlyOneDecision: says nothing about runs longer than BUFFER_TTL after the first write, where the hash or the claim may have expired.
- RuleEngine.SanctionRuleHeaviest: events are well typed, so the predicates and evidence of the fifteen rules do not raise; the loop is proved for rules that may.
- MlService.AttributionComplete: z-scores and the order `argsort` returns are given; the model, the scaler and the feature vector are not modelled.
- GraphService.Analyse: query results are arbitrary inputs; the Cypher text and the UPSERT are not part of this model.
- Velocity.ShortCountersExact: lateness is measured from the server clock plus the furthest lead of any event; with the largest timestamp seen as that clock and no lead it is the event's distance from it.
- Velocity.OnTimeExact: for timestamps from 2 January 1970 on, because the trim starts at score 0.
- Velocity.DistinctSinceGap: exact sets in place of HyperLogLog.
- Bus.RunsSafe: one partition and one consumer at a time; rebalancing and several topics in one consumer are left out.
- Audit.ChainSurvives: one consumer in log order, with an audit id for each message that no other message has; Elasticsearch and the trigger against updates are left out.
- Audit.Service.Handle: the branch for topics other than AUDIT is left out, as the consumer subscribes to AUDIT alone.
- Cases.CaseTable.UpdateCase: the audit event sent after the update is left out; its transaction is in the reply.
- Cases.FirstEventWins: for logs in which different transactions come with different case ids; otherwise an insert raises and is dead-lettered.
- Cases: `reasons`, timestamps and the rounding of NUMERIC(5,2) are left out, and so are the list and get routes.
- Gateway.Guard.Admit: on a clock that starts at zero; the proxying behind it is left out; 200 stands for the request being passed on.
- Notification: templates and the retry loop of `deliver` are left out; a message let through counts as a notification.
- Profile cache, `last_seen`, haversine distance, feature logarithms, ingestion's idempotency key, configuration parsing: read off one branch, or without content apart from their libraries.
