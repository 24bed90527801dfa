# SelCal kernel: a verified model

SelCal scans a family of lagged statistics over a pair of series, selects the best candidate, and calibrates the
selection against a null model by transforming the source and selecting again. This project models that kernel in
Dafny and proves properties of it. `dafny verify dfyconfig.toml` checks the whole project.

What is modelled, file by file:

- **Selection and records.** `Contracts`, `Selection`: the records with the invariants of their constructors, the v2
  family maximum with its canonical label, the v1 rule, and the two checks that re-derive a selection.
- **Circular null and plan report.** `Circular`, `Plans`, `ExactOracle`, `BinomialTail`, `Attainability`,
  `LogTail`, `Collisions`, `PowerCap`, `PowerCapAttained`, `Refusals`: shifts, lag slices, exact enumeration, the
  counting behind the power cap, and what each refusal of the report means for every data set.
- **Lagged Pearson.** `Pearson`, `PearsonLaws`, `Sawtooth`, `PearsonPower`, `PearsonOrbit`, `PearsonRuns`,
  `PearsonEnumerated`: the sign and the bound of the correlation, data that attain the cap, and the exact conditions
  for rejecting and for orbit validity.
- **Random indices and blocks.** `Randomness`, `RandomUniform`, `RandomDraws`, `SeedFraming`, `SeedLayout`,
  `BlockShuffle`, `BlockMapping`, `BlockOracle`: rejection sampling over 64-bit words, the in-place Fisher-Yates loop,
  three separately written block mappings, and the exact block oracle.
- **Executor and verifier.** `NullModels`, `NullBindings`, `Execution`, `Verifier`, `Acceptance`, `AcceptedContent`,
  `RecordInvariants`, `Agreement`, `RunLaws`, `BlockRuns`, `RunEnds`, `RunRefusals`, `FailureBounds`, `Diagnostic`,
  `DiagnosticBlocks`: the exact-B loop and its four terminal states, the separate verifier, and laws of whole runs.
- **Codecs.** `Json`, `JsonRoundTrip`, `JsonTexts`, `Utf8`, `Utf8Strict`, `DepthScan`, `PrintedDepth`, `JsonRecords`,
  `Canonical`, `ResultWire`, `WireRoundTrip`, `WireResults`, `WireBijection`, `WireLiterals`, `WorkflowConfig`: the
  canonical result wire format of RFC 8259 text in RFC 3629 bytes, and the depth guards of both readers.
- **Archives.** `Bytes`, `ZipFields`, `NpzPreflight`, `ArchiveBuilder`, `HeaderBits`, `Inflate`, `TerminatedFormat`: the
  bounded ZIP metadata parser (PKWARE APPNOTE sections 4.3.16 and 4.5.3), a writer it is checked against, and the
  chunked extraction loop.
- **Ownership and migration.** `Ownership`, `Dictionaries`, `FlatPayload`, `Requests`, `Migration`, `PlanPayloads`,
  `PlanLiterals`: the resolver table with late weak-reference callbacks, and the ledger of a plan migration.

Modelling choices:

- Scores are reals, with negative zero already normalised to zero as the constructors do. Division of counts is any
  operation that is monotone in the numerator and a probability on its range (`Division`); exact division is one.
- The statistic of a run is an uninterpreted function of the pair. Claims about collisions need only that it sees each
  candidate as its lag slice paired with the target tail (`Lagged`). Pearson itself is defined by its square and sign,
  and results about it hold for every estimator that meets this definition (`PearsonOn`).
- Digests are uninterpreted functions with well-formed values. The words of the generator, the answers of the index
  source, the order of permutations and the compressed format are parameters with stated contracts.
- Floats are written and read by any pair of functions that undo each other (`Floats`).
- Integrity errors of the executor and the selector carry no message; where the source distinguishes categories of
  refusal (record codec, archive, oracle, shuffle) the model does too.

## Findings

Properties that the documentation or the structure of the code suggests, and that do not hold as stated. The code is
modelled as it is.

| property | where | input on which it fails | when it holds |
|---|---|---|---|
| Only `min_shift = 1` keeps the null states a group under lag search (the docstring of `attainability`). | src/selcal/workflow.py:345 | n = 4, min_shift = 2: `Attainability.HalfTurnRefused`. | Closed, and valid on every orbit, exactly for m = 1 or n = 2m: `Circular.ClosedIff`, `Circular.OrbitValidIff`. |
| A plan whose states are not a group is refused. | src/selcal/workflow.py:396-401 | One lag, min_shift = 2, n = 30 passes: `Attainability.SingleLagPasses`; the exact test on lagged Pearson is then not valid on every orbit: `PearsonOrbit.SingleLagPlanNotValid`. | Exactly with two or more lags, too few replicates or too few states: `Attainability.NonGroupRefusedIff`. A plan that passes is valid on every orbit exactly when its shifts are a group or two samples are scored by absolute value: `PearsonOrbit.PassingPlanValidIff`. |
| A plan refused with `REFUSE_NULL_STATES_TOO_FEW` cannot reach alpha. | src/selcal/workflow.py:398-399, 450 | Sampled lagged Pearson, lags 1 and 2, four samples, source 0, 1, 2, 1, a rising target tail, 99 draws of the shift by two: `RunRefusals.RefusedPearsonRunRejects`. | Enumerated runs: `RunRefusals.TooFewStatesNeverReject`. Sampled plans: exactly under the condition of `PearsonPower.PearsonNeverRejectsIff`. |
| A plan the report passes with power cap 1 rejects on some data. | src/selcal/workflow.py:386-401 | Enumerated lagged Pearson, one lag, three samples, absolute scores, alpha 0.5: `PearsonEnumerated.PairPlanNeverRejects`. | Exactly under the conditions of `PearsonEnumerated.EnumeratedNeverRejectsIff` and `PearsonPower.PearsonNeverRejectsIff`. |
| A late callback never removes a newer record. | src/selcal/resolution_v2.py:3722-3731 | A resolution that takes the id between the check and the removal of a callback: `Ownership.DisturbedRemovalLosesRecord`. | Exactly when no removal of that id is under way: `Ownership.UndisturbedIff`. The interpreter does not reuse an id before its callbacks are done, which is stronger. |

## Model

| member | source | states |
|---|---|---|
| `Circular.CircularPair` | src/selcal/exact_oracle_v0.py:127-132 | filling the source by index gives the rotation by the shift |
| `Circular.ShiftMapsLag` | src/selcal/support.py:119-129 | shifting by the difference of two lags moves the slice of one lag onto the observed slice of the other |
| `Circular.StatesSize` | src/selcal/exact_oracle_v0.py:77-85 | the shift space {0} and [m, n-m] has n - 2m + 2 states |
| `Circular.ClosedIff` | src/selcal/workflow.py:337-346 | the shift space is closed under composition exactly for m = 1 and for n = 2m |
| `Circular.OrbitValidIff` | src/selcal/workflow.py:396-397 | ranking on the shift space is valid on the orbit of every data set exactly when it is such a group |
| `ExactOracle.CircularExceedances` | src/selcal/exact_oracle_v0.py:150-165 | the loop counts the non-identity shifts whose decision reaches the observed one, and stops at an undecided one |
| `ExactOracle.CircularOracle` | src/selcal/exact_oracle_v0.py:189-264 | the refusals in order, then p = (1 + E) / states over the whole shift space |
| `ExactOracle.RankIsExceedances` | src/selcal/exact_oracle_v0.py:260-264 | 1 + E on shifted data is the rank of that shift among the states of the data |
| `ExactOracle.OracleOrbitBound` | src/selcal/exact_oracle_v0.py:150-165 | for a group of shifts at most k shifted copies of any data get 1 + E <= k from the exact test |
| `PearsonOrbit.PearsonOrbitFails` | src/selcal/workflow.py:337-346 | for a single lag and shifts that are no group, a pair on which two neighbouring shifts both get rank 1 from lagged Pearson, unless two samples are scored by absolute value |
| `PearsonOrbit.PearsonOrbitValidIff` | src/selcal/workflow.py:337-346 | with a single lag the exact test on lagged Pearson is valid on every orbit exactly when the shifts are a group or two samples are scored by absolute value |
| `PearsonOrbit.PassingPlanValidIff` | src/selcal/workflow.py:396-401 | the same condition decides it for every plan the report passes |
| `PearsonOrbit.SingleLagPlanNotValid` | src/selcal/workflow.py:396-401 | a plan that passes and is not valid on every orbit |
| `BlockOracle.BlockExceedances` | src/selcal/exact_oracle_v0.py:168-186 | the loop over all block orders counts the reaching ones, the identity left out |
| `BlockOracle.BlockOracle` | src/selcal/exact_oracle_v0.py:189-264 | the block branch: partition and state-count refusals, the bind refusal, and p = (1 + E) / q! over all orders |
| `BlockOracle.EnumerationSize` | src/selcal/exact_oracle_v0.py:88-104 | an enumeration of the orders of q blocks has q! members |
| `BlockOracle.AnswerIs` | src/selcal/exact_oracle_v0.py:168-186 | the block test answers exactly when every order decides, and its p is the share of all orders that reach the decision of the data |
| `BlockOracle.RearrangeCompose` | src/selcal/exact_oracle_v0.py:135-147 | rearranging twice is rearranging once by the composed order |
| `BlockOracle.BlockOrbitBound` | src/selcal/exact_oracle_v0.py:168-186 | at most k of the q! rearrangements of any data get 1 + E <= k when the exact test is run again on them |
| `Attainability.AllowedExceedances` | src/selcal/workflow.py:168-176 | whatever the floor supplies, the two loops end at the number of E in 0..B that reject |
| `Attainability.AllowedUnique` | src/selcal/workflow.py:168-176 | that number is determined by separating the rejecting counts from the others |
| `LogTail.LogTermIs` | src/selcal/workflow.py:179-195 | the exponential of a log term is Choose(n, k) p^k (1-p)^(n-k) |
| `LogTail.LogCdfBelowIs` | src/selcal/workflow.py:179-195 | the evaluation in log space, with its branches and its peak taken out, is the exact tail |
| `BinomialTail.CdfBelowCounts` | src/selcal/workflow.py:389-393 | the exact tail times S^B is the number of words with fewer than k hits in c of S letters |
| `Attainability.CapIsShare` | src/selcal/workflow.py:389-393 | the reported cap is the share of draw sequences with fewer unavoidable draws than allowed |
| `Collisions.CollisionReaches` | src/selcal/workflow.py:337-346 | shifting by c* - c makes lag c reproduce the observed maximum of lag c* |
| `Collisions.CollidingStatesReach` | src/selcal/workflow.py:372-378 | for any data some selected lag has all its collision shifts reach the observed maximum |
| `Collisions.CollisionFloor` | src/selcal/workflow.py:375-382 | the exact p is at least colliding / states for every data set |
| `PowerCap.PowerCapHolds` | src/selcal/workflow.py:389-393 | at most sum over j < k of C(B,j) c^j (S-c)^(B-j) of the S^B draw sequences reject, for every data set |
| `PearsonPower.PearsonAttainsCap` | src/selcal/workflow.py:389-393 | that number is attained: a pair on which lagged Pearson has exactly so many rejecting sequences, unless two samples are scored by absolute value |
| `PearsonRuns.PearsonRunsAttainCap` | src/selcal/workflow.py:389-393 | and a pair for which exactly the reported share of draw sequences make the whole run reject |
| `Attainability.ReplicatesTooFewSound` | src/selcal/workflow.py:394-395 | a plan refused for its replicate count has no rejecting exceedance count |
| `Attainability.ReplicatesEnough` | src/selcal/workflow.py:394-395 | and a plan that is not has at least one |
| `Attainability.NonGroupRefusedIff` | src/selcal/workflow.py:394-401 | when the shifts are not a group a plan is refused exactly for two or more lags, too few replicates or too few states, and as a non-group exactly for two or more lags with enough replicates |
| `Attainability.HalfTurnRefused` | src/selcal/workflow.py:396-397 | the refusal also hits the half-turn group |
| `Attainability.SingleLagPasses` | src/selcal/workflow.py:396-401 | a single-lag plan passes although its shifts are not a group |
| `Refusals.EnumeratedRefusalSound` | src/selcal/workflow.py:398-399 | an enumerated plan refused for too few states reaches no rejecting p on any data |
| `Refusals.ReportedCapHolds` | src/selcal/workflow.py:389-393 | the reported cap bounds the share of rejecting draw sequences |
| `Refusals.ReportFields` | src/selcal/workflow.py:345-386 | the other fields of the report: the floor is the least p of any count, the state fields are sizes of the shift space, and each early status has its exact condition |
| `PearsonPower.PearsonNeverRejectsIff` | src/selcal/workflow.py:398-399 | a sampled lagged-Pearson plan rejects on no data exactly when no count is allowed, or k <= B and either all states are unavoidable or two samples are scored by absolute value |
| `PearsonPower.SampledRefusalUnsound` | src/selcal/workflow.py:398-399 | so a lagged-Pearson plan refused for too few states still rejects on some data |
| `PearsonEnumerated.EnumeratedNeverRejectsIff` | src/selcal/workflow.py:386-401 | an enumerated lagged-Pearson plan rejects on no data exactly when its collision floor exceeds alpha, or two samples are scored by absolute value and p = 1 exceeds alpha |
| `PearsonEnumerated.ReportDecides` | src/selcal/workflow.py:386-399 | for enumerated plans cap 0, the refusal and no rejecting data are one condition, two samples scored by absolute value set apart |
| `PearsonEnumerated.EnumeratedRunRejectsIff` | src/selcal/calibration_v2.py:2889-2984 | a whole enumerated run rejects exactly when it is admitted and its test rejects |
| `PearsonEnumerated.PassingPlanRejects` | src/selcal/workflow.py:386-401 | an affordable enumerated plan with cap 1 has a run that rejects |
| `PearsonEnumerated.RefusedPlanNeverRejects` | src/selcal/workflow.py:386-399 | no run of an enumerated plan with cap 0 rejects |
| `PearsonEnumerated.PairPlanNeverRejects` | src/selcal/workflow.py:386-401 | a plan that passes with cap 1 and rejects on no data |
| `Pearson.PairCorrelation` | src/selcal/statistics/lagged_pearson.py:67-109 | on two samples Pearson is the sign of the product of the two steps |
| `PearsonLaws.CorrelationSign` | src/selcal/statistics/lagged_pearson.py:67-109 | on two series that vary Pearson has the sign of the covariance |
| `PearsonLaws.CorrelationIs` | src/selcal/statistics/lagged_pearson.py:67-109 | it is the covariance over the root of the product of the spreads, and nothing else |
| `PearsonLaws.CorrelationBound` | src/selcal/statistics/lagged_pearson.py:53-64 | it never leaves [-1, 1], so the clamp only absorbs rounding, and reaches an end only on affine images |
| `Sawtooth.BestWindow` | src/selcal/statistics/lagged_pearson.py:99-109 | of all windows of a countdown one correlates strictly best with the target built for it |
| `RunRefusals.TooFewReplicatesNeverReject` | src/selcal/workflow.py:394-395 | no accepted record of a plan refused for its replicate count rejects |
| `RunRefusals.TooFewStatesNeverReject` | src/selcal/workflow.py:398-399 | no enumerated run of a plan refused for too few states rejects |
| `RunRefusals.RefusedPearsonRunRejects` | src/selcal/workflow.py:398-399 | a refused sampled lagged-Pearson plan has a run, on four samples, that rejects with p = 1/100 |
| `Randomness.CapsuleRandBelow` | src/selcal/randomness.py:142-167 | the capsule sampler returns and consumes what the specification of a draw says |
| `Randomness.UniformRandBelow` | src/selcal/randomness.py:300-318 | the public sampler returns the same value after the same words |
| `RandomDraws.AttemptIsLeast` | src/selcal/randomness.py:155-156 | an attempt reads the least number of 64-bit words that hold every value below the bound |
| `RandomDraws.DrawIs` | src/selcal/randomness.py:155-167 | an attempt reads those words, keeps the low bits the bound needs, returns them below the bound and otherwise starts again behind them |
| `RandomDraws.OneWordDraw` | src/selcal/randomness.py:308-318 | for every bound up to 2^64 one word decides |
| `Randomness.SampleIsFirstAccepted` | src/selcal/randomness.py:158-167 | a draw is the first block whose low bits fall below the bound |
| `Randomness.RandBelowInRange` | src/selcal/randomness.py:150-153 | every draw lies below the bound, and only a bound below 1 is refused |
| `RandomUniform.EveryValueEquallyLikely` | src/selcal/randomness.py:155-167 | each value below the bound has exactly 2^(64w - bits) blocks |
| `RandomUniform.MoreThanHalfAccepted` | src/selcal/randomness.py:155-167 | more than half of all blocks are accepted, for every bound from 2 on |
| `SeedFraming.PreimagesDiffer` | src/selcal/randomness.py:67-107 | different replicates and plans never share a seed preimage |
| `SeedLayout.SeededFrom` | src/selcal/randomness.py:69-101 | a replicate is seeded exactly for a digest, a number below the planned count and a count up to a million, from 72 bytes: domain, digest, number, length and name of the stream |
| `BlockShuffle.SampleToken` | src/selcal/nulls/block_shuffle_v2.py:430-445 | the in-place loop returns the shuffled order, and fails exactly on an index out of range |
| `BlockShuffle.SampledIsOrder` | src/selcal/contracts_v2.py:400-426 | every sampled order is a permutation of the labels |
| `BlockShuffle.EveryOrderSampled` | src/selcal/nulls/block_shuffle_v2.py:430-445 | every order comes from an index vector |
| `BlockShuffle.OneAnswerVectorPerOrder` | src/selcal/nulls/block_shuffle_v2.py:430-445 | and from exactly one |
| `BlockShuffle.OrdersSize` | src/selcal/nulls/block_shuffle_v2.py:380-386 | there are q! orders, one for each index vector |
| `BlockShuffle.OrderTestsAgree` | src/selcal/nulls/block_shuffle_v2.py:81-95 | the sorted-list test, the label-set test and being a permutation are the same |
| `BlockMapping.ApplyState` | src/selcal/nulls/block_shuffle_v2.py:146-160 | copying slices gives the rearranged source |
| `BlockMapping.BlockPair` | src/selcal/exact_oracle_v0.py:135-147 | copying elements gives the same source |
| `BlockMapping.ExpectedBytesAgree` | src/selcal/nulls/block_shuffle_v2.py:163-175 | joining byte slices gives the bytes of the same source |
| `BlockMapping.RearrangePermutes` | src/selcal/nulls/block_shuffle_v2.py:146-160 | a rearrangement keeps the multiset of values |
| `BlockMapping.RearrangeAt` | src/selcal/nulls/block_shuffle_v2.py:146-160 | it keeps the order within each block |
| `BlockMapping.RearrangeUndone` | src/selcal/nulls/block_shuffle_v2.py:146-160 | and the inverse order undoes it |
| `BlockMapping.BlockStateCount` | src/selcal/exact_oracle_v0.py:88-104 | the capped product is q! exactly when q! is at most 100,000, and never passes the cap before refusing |
| `NullModels.SampleState` | src/selcal/nulls/circular_shift_v2.py:366-379 | a sampled index, the enumerated position or a Fisher-Yates order gives the state of a replicate |
| `NullModels.IdentityRestores` | src/selcal/calibration_v2.py:2681-2687 | an identity state leaves the source as it is |
| `NullBindings.BindIff` | src/selcal/nulls/block_shuffle_v2.py:262-285 | a null binds exactly when one of its states moves the series and, for blocks, at most 4,096 of them tile it |
| `NullBindings.RefusalSays` | src/selcal/nulls/circular_shift_v2.py:220-230 | each refused null says why: no state moves the series, blocks that do not tile it, or too many of them |
| `NullBindings.BindingSays` | src/selcal/nulls/circular_shift_v2.py:245-255 | a bound null warns exactly when its sampled shifts hold one state besides the identity; its tokens retain one unit for each label |
| `NullBindings.StatesDiffer` | src/selcal/nulls/circular_shift_v2.py:115-122 | on a series without ties no two states produce the same data |
| `NullBindings.IdentityIff` | src/selcal/contracts_v2.py:361-426 | a state is flagged as the identity exactly when it leaves every series of its length as it is |
| `BlockRuns.OrderIsDrawn` | src/selcal/nulls/block_shuffle_v2.py:430-445 | each order is taken by the replicate whose index source gives the answers behind it |
| `BlockRuns.DrawnOrder` | src/selcal/nulls/block_shuffle_v2.py:430-445 | and any answers make the replicate take the order their swaps produce |
| `BlockRuns.BlockRunRecords` | src/selcal/calibration_v2.py:2500-2744 | the loop of a block run records the drawn orders in order, each with the decision of the source rearranged by it |
| `BlockRuns.BlockRunReports` | src/selcal/calibration_v2.py:2924-2977 | a block run counts the drawn orders that reach the observed decision and reports p over them |
| `BlockRuns.BlockRunRejectsIff` | src/selcal/calibration_v2.py:2924-2977 | and rejects exactly when it is admitted, everything decides and few enough orders reach |
| `Selection.SelectFamilyV2` | src/selcal/selection_v2.py:45-101 | the checking loop admits exactly the selectable vectors and returns their selection |
| `Selection.SelectionMeaning` | src/selcal/selection_v2.py:83-100 | the decision is the family maximum whatever the tolerance; the label is the least candidate within it |
| `Selection.SelectCandidateV1` | src/selcal/selection.py:29-92 | the v1 rule returns the same label and ties with the score of the label as decision |
| `Selection.V1DecisionWindow` | src/selcal/selection.py:80-92 | the v1 decision lies between the v2 decision minus the tolerance and the v2 decision |
| `Selection.V1AcceptsIff` | src/selcal/selection.py:46-80 | the v1 rule accepts exactly the vectors the v2 rule accepts once their stored scores are dropped |
| `Selection.ScoreMeaning` | src/selcal/selection.py:76-84 | the upper rule keeps the estimate, the absolute rule its size |
| `Selection.ValidateSelectorOutput` | src/selcal/calibration_v2.py:1278-1344 | the executor check accepts exactly the re-derived selection and scores |
| `Selection.VerifySelection` | src/selcal/_verifier_primitives_v2.py:321-360 | the verifier accepts exactly the re-derived selection and returns the maximum |
| `Selection.SelectorOutputAccepted` | src/selcal/selection_v2.py:45-101 | what the selector returns passes both checks |
| `Execution.ExecuteReplicates` | src/selcal/calibration_v2.py:2500-2744 | the loop returns the outcomes of the draws in order, or the first integrity error |
| `Execution.Calibrate` | src/selcal/calibration_v2.py:2889-2984 | preparation, budget, loop and terminal construction give the calibrated result |
| `Execution.WidthCheckRedundant` | src/selcal/calibration_v2.py:103-135 | a run within the caps has no operand of more than 22 bits, so the 256-bit check refuses nothing of its own |
| `RunEnds.TooShortRefused` | src/selcal/calibration_v2.py:2889-2920 | a run of a registered statistic is refused before binding exactly when the series is shorter than the greatest lag and the least support |
| `RunEnds.NullRefused` | src/selcal/calibration_v2.py:2200-2230 | a null that does not bind, or an enumeration of the wrong length, ends the run with this record |
| `RunEnds.ObservedFails` | src/selcal/calibration_v2.py:2280-2300 | data that cannot be decided end it with the raw observed vector |
| `RunEnds.BudgetStops` | src/selcal/calibration_v2.py:103-135 | the budget stops a run exactly when its data decide and what its replicates are charged passes one of four numbers |
| `RunEnds.OutcomeIs` | src/selcal/calibration_v2.py:2560-2720 | every field of the outcome of a replicate: number, seed, token, raw vector, decision, stage and diagnostics |
| `RunEnds.EvaluatedRecord` | src/selcal/calibration_v2.py:2924-2984 | every field of an evaluated record: one outcome for each draw in its place, counts as sizes of the reaching and the missing replicates, and the numbers over them |
| `Agreement.ReportedBudgetDecides` | src/selcal/workflow.py:261-297 | the budget stops a run exactly when it is prepared and the plan report says so |
| `Agreement.ReplicateNeverFails` | src/selcal/calibration_v2.py:2681-2687 | no guard of the loop fires: a sampled identity reproduces the observed decision |
| `Agreement.ExecutorResultsAccepted` | src/selcal/calibration_v2.py:2909-2984 | every result the run builds is accepted by the verifier |
| `Agreement.ExecutorStopsOnly` | src/selcal/calibration_v2.py:2889-2920 | only a refused bind or the budget stops a run |
| `Verifier.VerifyCalibrationResult` | src/selcal/contracts_v2.py:1414-1490 | the verifier loop accepts exactly the records with verified prefix, vectors, outcomes, counts and terminal state |
| `Verifier.VerifyOutcomes` | src/selcal/contracts_v2.py:1434-1487 | its counters are the exceedances and failures of the retained outcomes |
| `Verifier.VerifyReplicate` | src/selcal/_verifier_primitives_v2.py:638-721 | one outcome is accepted with its position, seed, token and vector, and returns its decision |
| `Verifier.VerifyToken` | src/selcal/resolution_v2.py:1722-1803 | a token is accepted exactly when owned by the plan with a state in the bound universe |
| `Verifier.VerifyCompleteVector` | src/selcal/_verifier_primitives_v2.py:485-543 | a complete vector is accepted exactly when scored by the rule and selected by re-selection |
| `Verifier.VerifyFailureVector` | src/selcal/_verifier_primitives_v2.py:562-602 | a failure vector is accepted exactly when raw, on common support, with a failed entry |
| `Acceptance.AcceptedSatisfiesInvariants` | src/selcal/contracts_v2.py:802-1024 | acceptance implies every invariant of the result constructor |
| `Acceptance.AcceptedRetains` | src/selcal/contracts_v2.py:1443-1481 | an accepted evaluated record retains ids 0..B-1 and counts equal to those of its outcomes |
| `Acceptance.AcceptedEnumeration` | src/selcal/resolution_v2.py:1786-1802 | an accepted exact record carries the shifts 1..n-1 in order, n recovered from support and lag, and p over n |
| `AcceptedContent.AcceptedFixed` | src/selcal/contracts_v2.py:1414-1490 | two accepted records of one plan with the same raw vectors, states and diagnostics are equal: every digest, score, selection, count, p, bound and status follows |
| `RecordInvariants.NumbersFollow` | src/selcal/contracts_v2.py:898-1024 | two records that can be constructed from the same scans and outcomes are equal |
| `RecordInvariants.StateFollows` | src/selcal/contracts_v2.py:898-1024 | the terminal state of a record is told by its evidence alone |
| `RecordInvariants.RecordStands` | src/selcal/contracts_v2.py:802-897 | what a constructed record guarantees of every retained entry, selection, token and outcome |
| `RunLaws.EnumeratedRunMatchesOracle` | src/selcal/resolution_v2.py:1259-1267 | an enumerated run completes exactly when every rotation decides, with the oracle count and p |
| `RunLaws.SampledRunRejectsIff` | src/selcal/calibration_v2.py:2924-2977 | a sampled run rejects exactly when admitted and its draws reject by the decision table |
| `RunLaws.RunsObeyReportedCap` | src/selcal/workflow.py:389-393 | at most the reported share of whole runs reject, for every data set |
| `FailureBounds.BoundsCoverCompletions` | src/selcal/calibration_v2.py:2936-2958 | every completion of the failed replicates has its p within the retained bounds |
| `FailureBounds.BoundsAttained` | src/selcal/calibration_v2.py:2950-2952 | both bounds are the p of a completion |
| `FailureBounds.NoFailuresCollapse` | src/selcal/calibration_v2.py:2960-2976 | without failures both bounds are the p itself |
| `FailureBounds.ConstructedFailureRecord` | src/selcal/contracts_v2.py:984-1024 | the constructor leaves the same pair of bounds as the verifier |
| `FailureBounds.AcceptedBounds` | src/selcal/_verifier_primitives_v2.py:764-786 | on every accepted record the bounds cover, are attained, and equal the reference summary |
| `FailureBounds.AcceptedCompletionsOk` | src/selcal/contracts_v2.py:649-696 | the attaining completions satisfy the outcome constructor |
| `FailureBounds.ReferenceAgrees` | scripts/m6_pearson_diagnostic.py:244-259 | the reference tail summary repeats the record |
| `Diagnostic.ReferenceExact` | scripts/m6_pearson_diagnostic.py:158-241 | on the circular null the reference enumeration gives the verdict and p of the oracle |
| `DiagnosticBlocks.CappedProduct` | scripts/m6_pearson_diagnostic.py:190-196 | its running product is q! exactly when q! is at most 720 |
| `DiagnosticBlocks.ReferenceBlocks` | scripts/m6_pearson_diagnostic.py:158-241 | on the block null it refuses by its own limits and otherwise gives the answer of the oracle |
| `JsonRoundTrip.ReadDocumentPrinted` | src/selcal/result_wire.py:443-449 | the strict reader recovers every value from its compact text |
| `JsonTexts.TextsAre` | src/selcal/canonical.py:55-63 | the compact text of every kind of value: words, digits, quotes, commas, colons and brackets |
| `JsonTexts.EscapesAre` | src/selcal/canonical.py:55-63 | which characters of a string are escaped, and how |
| `Utf8.DecodeEncoded` | src/selcal/result_wire.py:442-443 | strict decoding recovers every encoded text |
| `Utf8Strict.DecodeIff` | src/selcal/result_wire.py:442-443 | strict decoding succeeds exactly on the encoding of a text |
| `Utf8Strict.EncodingIs` | src/selcal/result_wire.py:442-443 | how many bytes a scalar value takes, their ranges and the bits they carry |
| `DepthScan.CheckDepth` | src/selcal/result_wire.py:367-390 | the byte loop is the scan with depth, quote and escape flags |
| `PrintedDepth.ScanPrinted` | src/selcal/result_wire.py:367-390 | on compact text the scan returns to its depth, and refuses exactly when the nesting passes the limit |
| `PrintedDepth.ScanDocument` | src/selcal/result_wire.py:367-390 | a whole printed record passes exactly within the limit, ending at depth 0 unquoted |
| `Canonical.EntriesReadable` | src/selcal/canonical.py:54-62 | canonical objects have distinct, sorted keys |
| `Canonical.CanonicalInjective` | src/selcal/canonical.py:23-62 | equal canonical texts mean equal values up to dictionary order, floats included |
| `Canonical.OrderedFinds` | src/selcal/canonical.py:54-62 | sorting a dictionary keeps what each key stands for |
| `WireRoundTrip.FieldsOfDict` | src/selcal/result_wire.py:159-163 | a projected record is read back field by field |
| `WireRoundTrip.OutcomeBack` | src/selcal/result_wire.py:274-303 | projecting and reading an outcome gives it back |
| `WireResults.ResultBack` | src/selcal/result_wire.py:306-354 | projecting and reading a result gives it back |
| `WireResults.ResultFits` | src/selcal/result_wire.py:367-376 | no projected result nests deeper than 6 |
| `WireBijection.BytesInjective` | src/selcal/result_wire.py:406-407 | different results never share their bytes |
| `WireBijection.DecodeIff` | src/selcal/result_wire.py:431-466 | decoding returns r exactly on the canonical bytes of a valid r within the limit |
| `WireBijection.EncodeIff` | src/selcal/result_wire.py:410-428 | encoding succeeds exactly on valid results that fit, with those bytes |
| `WireBijection.EncodeDecode` | src/selcal/result_wire.py:410-466 | encoding and decoding undo each other |
| `WireBijection.DocumentParses` | src/selcal/result_wire.py:440-466 | any readable document is parsed back from its bytes unless it nests deeper than six |
| `WireLiterals.EncodedFields` | src/selcal/result_wire.py:178-354 | encoded bytes hold every field of the record, its outcomes, tokens, states, selections and statistics under its own name, with the texts of enumerations and schemas |
| `WireLiterals.DecodedFields` | src/selcal/result_wire.py:410-466 | and so do any bytes that decode |
| `WorkflowConfig.ThawIff` | src/selcal/workflow_config.py:186-204 | the walk accepts exactly the values without the reserved key that end above depth 8 |
| `WorkflowConfig.ScanConfig` | src/selcal/workflow_config.py:141-164 | the scanner measures the nesting of a configuration text |
| `WorkflowConfig.DocumentNesting` | src/selcal/workflow_config.py:207-258 | the document nests two deeper than its parameter objects |
| `WorkflowConfig.GuardsAgree` | src/selcal/workflow_config.py:141-204 | the walk from depth 3 accepts exactly the parameters the 8-deep scanner lets pass |
| `JsonTexts.DocumentHolds` | src/selcal/workflow_config.py:207-258 | a configuration document holds its schema, its input and every field of its plan under these names |
| `ZipFields.FindEocdOffset` | src/selcal/npz_safe.py:67-88 | the window search returns the one end record of the whole archive, and fails unless there is exactly one |
| `ZipFields.WindowHoldsEnds` | src/selcal/npz_safe.py:67-80 | no end record lies before the 65,557-byte window |
| `ZipFields.ParseExtraFields` | src/selcal/npz_safe.py:117-132 | the cursor loop is the field parser |
| `ZipFields.ExtraFieldsIff` | src/selcal/npz_safe.py:117-132 | parsing inverts concatenating the fields, and accepts nothing else |
| `ZipFields.LocalSizesAgree` | src/selcal/npz_safe.py:148-188 | the local sizes pass exactly when, ZIP64 fields read, they are the central ones |
| `NpzPreflight.ParseLocalMemberIff` | src/selcal/npz_safe.py:191-260 | a local header is accepted exactly when it agrees with its central record |
| `NpzPreflight.PreflightArchive` | src/selcal/npz_safe.py:263-372 | the loop over two records decides by the directory of the unique end record |
| `NpzPreflight.PreflightIff` | src/selcal/npz_safe.py:263-372 | acceptance means exactly: two records tile the directory, keys are source and target, headers agree, members lie apart below it |
| `ArchiveBuilder.BuiltRead` | src/selcal/npz_safe.py:263-372 | of any two members written field by field in little-endian bytes, with or without ZIP64 sizes, the preflight finds exactly the offsets, sizes and checksums, and the data ranges hold what was written |
| `ArchiveBuilder.EndIff` | src/selcal/npz_safe.py:68-95 | a candidate of the search is a signature, sixteen bytes, the length of a comment, and that comment to the end |
| `HeaderBits.KindBits` | src/selcal/npz_safe.py:303-312 | a member kind is allowed exactly when four bits of its flags and one of its attributes are clear, its method is 0 or 8 and its file type is no directory |
| `Inflate.InflateRange` | src/selcal/npz_safe.py:543-587 | the chunk loop ends and returns the one-shot output of the whole range, exactly when there is one within the limit |
| `Inflate.ExtractDeflated` | src/selcal/npz_safe.py:518-588 | a member is extracted exactly when that output has the declared size and checksum |
| `TerminatedFormat.LiteralObeys` | src/selcal/npz_safe.py:544-571 | the feeding contract can be met |
| `Ownership.InvNext` | src/selcal/resolution_v2.py:2611-2629 | every undisturbed step keeps the ownership invariant |
| `Ownership.LookupFindsOwn` | src/selcal/resolution_v2.py:2611-2629 | after any such run a live object finds its own snapshot if registered and is refused otherwise |
| `Ownership.NothingLeftOver` | src/selcal/resolution_v2.py:3720-3744 | with no callback outstanding the table holds exactly the live resolutions |
| `Ownership.CallbackRemovesOwn` | src/selcal/resolution_v2.py:3722-3731 | a callback, however late, removes only the record of its own dead object |
| `Ownership.UndisturbedIff` | src/selcal/resolution_v2.py:3722-3743 | a new resolution survives every removal under way exactly when none is of its id |
| `Ownership.DisturbedRemovalLosesRecord` | src/selcal/resolution_v2.py:3722-3743 | a reachable interleaving in which a live resolution loses its record |
| `Ownership.OwnershipTable.Register` | src/selcal/resolution_v2.py:3720-3744 | registering adds the record and keeps the invariant |
| `Ownership.OwnershipTable.Find` | src/selcal/resolution_v2.py:2611-2629 | the lookup returns a snapshot exactly for registered objects, and their own |
| `Ownership.OwnershipTable.DiscardIdentityRecord` | src/selcal/resolution_v2.py:3722-3731 | an uninterrupted callback removes at most the record that holds its reference |
| `FlatPayload.FlattenKeepsLeaves` | src/selcal/migration_v1_to_v2.py:446-459 | for dot-free keys each path holds exactly the leaf its segments lead to |
| `FlatPayload.FlattenInjective` | src/selcal/migration_v1_to_v2.py:446-459 | payloads without dots in their keys are determined by their flattened fields |
| `PlanPayloads.PayloadsSafe` | src/selcal/migration_v1_to_v2.py:427-459 | both payloads of a registered request that migrates have dot-free keys and flatten without loss |
| `PlanPayloads.FlattenedPlansDiffer` | src/selcal/migration_v1_to_v2.py:427-459 | different registered requests never share a flattened payload |
| `PlanLiterals.PayloadHolds` | src/selcal/migration_v1_to_v2.py:427-443 | the v1 payload holds every field and contract of a plan under these names |
| `PlanLiterals.PayloadV2Holds` | src/selcal/canonical_v2.py:20-48 | and so does the v2 payload, with its added contracts |
| `PlanLiterals.MigrateIff` | src/selcal/migration_v1_to_v2.py:546-576 | a request migrates exactly with one of two nulls and numbers within the v2 limits, and its null changes its last digit |
| `PlanPayloads.MigrationStatuses` | src/selcal/migration_v1_to_v2.py:462-504 | every migration changes null.name, rng_contract and schema, adds three contracts, removes failure_policy and preserves every other field |
| `PlanPayloads.MigrationLedger` | src/selcal/migration_v1_to_v2.py:591-641 | every registered request that migrates gets a ledger, and it patches its v1 fields into its v2 fields |
| `Migration.PathsExact` | src/selcal/migration_v1_to_v2.py:477-484 | the paths of the ledger increase strictly and are the union of both sides |
| `Migration.LedgerIsPatch` | src/selcal/migration_v1_to_v2.py:477-504 | applying the ledger to the flattened v1 payload gives the flattened v2 payload |
| `Migration.PreservedIff` | src/selcal/migration_v1_to_v2.py:59-72 | a field is preserved exactly when both values are the same |
| `Migration.CompleteChangeLedger` | src/selcal/migration_v1_to_v2.py:477-504 | the loop builds that ledger, and fails only on unflattenable payloads or padded paths |
| `Migration.ChangeEncodingInjective` | src/selcal/migration_v1_to_v2.py:257-265 | changes with the same encoding are the same |
| `PlanLiterals.ChangeHolds` | src/selcal/migration_v1_to_v2.py:257-265 | the encoded change holds its path, its two sides and its status under these names |
| `PlanLiterals.StrippedIff` | src/selcal/migration_v1_to_v2.py:102-103 | a path is accepted exactly when it is not empty and trimming leaves it as it is |
| `Migration.ValidateCompleteSuccessLedger` | src/selcal/migration_v1_to_v2.py:511-543 | the validator accepts the ledger of the two payloads and no other |
| `Migration.NullNamesCorrespond` | src/selcal/migration_v1_to_v2.py:546-556 | the null names of the two versions correspond one to one |
| `Migration.MigrationRebuildsSource` | src/selcal/migration_v1_to_v2.py:546-576 | the rebuilt v1 source of a migrated request is the original, and only migratable requests have one |
| `Migration.RefusalIsJustified` | src/selcal/migration_v1_to_v2.py:75-86 | a refusal records a value that may be refused, and a migratable request has none |

## Left out

- PearsonPower.PearsonAttainsCap: excludes two samples scored by absolute value, where the cap is not attained (`PearsonPower.PearsonNeverRejectsIff`).
- LogTail.LogCdfBelowIs: takes exponential, logarithm and log-gamma by their laws; their rounding is not modelled.
- PearsonLaws.CorrelationBound: takes any estimator that meets the definition; one is constructed for two samples only, since a root is not constructed.
- Attainability.AllowedExceedances: takes the floating-point floor as an arbitrary starting value.
- BlockShuffle.SampleToken: takes the answers of the index source as a sequence; that they come from `randbelow` is stated separately.
- BlockOracle.BlockExceedances: takes the order in which permutations are produced as a parameter; the reference of `DiagnosticBlocks` needs the identity first.
- PlanPayloads.PayloadsSafe: lists the payload keys in the order the flattening visits them.
- Migration.CompleteChangeLedger: takes the set of white-space characters as a parameter.
- Ownership.OwnershipTable.DiscardIdentityRecord: runs its check and its removal without interruption; interleavings of the two are steps of the state machine.
- Floating-point rounding of Pearson, its scaling and clamping, and binned transfer entropy.
- SHA-256, PCG64, zlib and NumPy internals.
- Descriptor, alias, seal and bytecode guards against modified Python objects.
- NPY headers and dtypes, stored members, and the limits on declared sizes.
- Reading a configuration document and its field checks; only its two depth guards are modelled.
- Lone surrogates in strings and integers of more than 4,300 digits, which Python treats specially.
- The v2 digest comparison and the ownership map of migrations.
- The command line, file and CSV reading, the SQLite store, reports, plots and release scripts.
- Concurrency other than the interleavings of the ownership table.
