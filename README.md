# Scoring core of the human-heuristics / human-AI-teams analysis scripts

This project models the deterministic scoring core of a set of analysis scripts.
The scripts compare how human-human teams, human-AA (artificial agent) teams and
AA simulations herd targets. The plumbing around the core is left out: files,
folder discovery, pandas I/O and plots. Each Dafny module follows one script:

| module | script |
|---|---|
| `TrajUtils` | Scripts/tools/traj_utils.py: the occupancy grid and the binary mask behind `get_binary_trace` |
| `Engagement` | Scripts/get_actual_TS_Dynamic_Policy_as_csv.py: `dist`, `get_closest_HA_TA_pair`, the one-hot engagement rows and their collapse |
| `EngagementHumanAA` | Scripts/exp2_human_aa/get_actual_Dynamic_Policy_as_csv_Human-AA.py: the same steps for the p0/hA0 columns |
| `DtwTspSurrogate` | Scripts/DTW_TSp_and_Surrogate.py: leave-one-out DTW with a `trialscount` denominator |
| `CalcAllDtw` | Scripts/calcAllDTW.py: DTW with fixed denominators |
| `CalcAllDtwHumanAA` | Scripts/exp2_human_aa/calcAllDTW.py: the Heuristic-only copy |
| `TraceScores` | Scripts/traj_evals_binary_trace_scores.py: binary-trace overlap scores |
| `TraceScoresHumanAA` | Scripts/exp2_human_aa/traj_evals_binary_trace_scores.py: the copy that skips missing files |
| `BinaryTraceEvaluator` | Scripts/binary_trace_evaluator_Exp1.py: the structured evaluator (config, file lookup, cache, records) |
| `HumanHumanTraceEvaluator` | Scripts/exp1_human_human/binary_trace_evaluator_Exp1.py: the in-place frame evaluator |
| `ComparePoliciesHH` | Scripts/exp1_human_human/compare_dynamic_policies_by_TA_and_Participant_TS_DTW.py |
| `ComparePolicies` | Scripts/compare_dynamic_policies_by_TA_and_Participant_TS_DTW.py |
| `ConvertScores` | Scripts/convert_scores_exp2.py: the long-format merge |

Four modules are shared by these:

| module | what it holds |
|---|---|
| `Common` | results and errors, float cells that may be NaN, the trial range 7..24, trial files as column tables, sessions, background pools, decimal trial ids |
| `Passes` | the numbered order of the nested evaluee/player/trial loops |
| `ScoreTables` | the `human_scores` / `AA_scores` dictionaries and the HumanPlayerN routing |
| `Cohorts` | the first-matching-prefix partition into heuristic, hybrid and self-play lists |

## How the model works

- **Form.** Where a script updates arrays, dictionaries or data frames in loops,
  the model has methods with loops over Dafny `array`, `array2` or local
  sequences. Each method's `ensures` ties its result or its new state to a
  specification function, and lemmas prove the scripts' properties about those
  functions. Pure steps, such as the histogram, the mask and `concat`, are
  functions.
- **Failures.** A lookup `[0]` on an empty match list, a failed `assert`, a
  `ValueError`, a `KeyError` on a score dictionary and a `FileNotFoundError`
  are `Err` results. A run's error is the one raised by the first failing
  iteration in loop order.
- **Floats.** numpy float64 cells are either `Finite(v)`, with v an exact real,
  or `NonFinite`, for NaN and inf. A division by a zero count gives
  `NonFinite`, and so does a missing simulation in the experiment-1 evaluator.
  Scripts whose divisors are constants use plain reals.
- **External functions.** The DTW distance, `trace`, the chaser tests and the
  engagement series are function-typed parameters. Properties such as a
  similarity at most 1 and errors at least 0 assume only d ≥ 0.

Behaviours of the code that the model reproduces and states as lemmas:

- `DTW_TSp_and_Surrogate.py` divides a DTW distance by k·k, with k the number
  of engagement columns (numTargets), not by the series lengths
  (`DtwTspSurrogate.Similarity`).
- Player 1's in-place `/= trialscount` also divides the average player 0
  already stored. A surrogate cell therefore ends as (S0/c0 + S1)/c1, not as the
  mean of two averages (`DtwTspSurrogate.TeamCellCompounds`,
  `DtwTspSurrogate.CompoundedDivision`). A perfectly matching evaluee then
  scores above 1 (`DtwTspSurrogate.PerfectMatchOvershoots`).
- The same script never resets the `human_scores` and `AA_scores` cells
  between evaluees. Each human-human evaluee adds its background scores to the
  cell and divides it in place again, so after the run a cell holds
  x_c = (x_{c-1} + S_c)/n_c folded over all evaluees, not a mean of
  similarities (`DtwTspSurrogate.DictionaryCells`). The cell is finite exactly
  when every evaluee's pass read a background file
  (`DtwTspSurrogate.CompoundedFinite`). With two evaluees and n perfectly
  matching background files in each pass, it ends at (n + 1)/n
  (`DtwTspSurrogate.DictionaryCellOvershoots`,
  `DtwTspSurrogate.CompoundedOvershoots`).
- `calcAllDTW.py` divides by the constants 2 and 21 whatever the number of
  sessions and files (`CalcAllDtw.FixedDivisor`, `CalcAllDtw.PerfectMatchScore`).
- In the experiment-1 comparison script the row counter `df_row` restarts at 0
  every trial and advances only for a session that passed. A skipped session
  therefore shifts the later sessions' rows up, and rows past the passing
  sessions are left as they were (`ComparePoliciesHH.StampRows`). One row can
  then carry a later session's name next to an earlier session's error for
  another trial (`ComparePoliciesHH.StaleRow`).
- The experiment-1 trace evaluator writes NaN when the simulation has no file
  for a trial (`HumanHumanTraceEvaluator.MissingSimulationIsNaN`).
- The older comparison script rewrites its CSV after every session. A
  simulation type's saved file, when written at all, holds its frame as it stood
  when the type ended (`ComparePolicies.SavesInOrder`,
  `ComparePolicies.WrittenWhenOk`).

## Model

| member | source | states |
|---|---|---|
| TrajUtils.BinIndex | Scripts/tools/traj_utils.py:11-32 | a value gets a bin exactly when it lies in [-lim, lim], and the bin is below the bin count |
| TrajUtils.BinIndexIsTheBin | Scripts/tools/traj_utils.py:32 | an in-range value lies in exactly the 5-unit bin BinIndex names and in no other |
| TrajUtils.RightEdgeIsLastBin | Scripts/tools/traj_utils.py:32 | the right edges 60 and 45 fall in the last x- and z-bin, -60 in the first |
| TrajUtils.CellOf | Scripts/tools/traj_utils.py:11-32 | a sample is binned exactly when it is inside [-60,60]×[-45,45], into a cell of the 24×18 grid |
| TrajUtils.Histogram | Scripts/tools/traj_utils.py:32 | the histogram is 24×18 and entry (cx, cz) counts the samples whose cell is (cx, cz) |
| TrajUtils.TotalIsInRangeCount | Scripts/tools/traj_utils.py:32 | the histogram total equals the number of in-range samples: each one increments exactly one bin, out-of-range ones none |
| TrajUtils.CountDependsOnMultiset | Scripts/tools/traj_utils.py:32 | two pools with the same multiset of samples have equal histogram entries |
| TrajUtils.FlippedCounts | Scripts/tools/traj_utils.py:33 | `h.T[::-1]` is 18×24 and entry [r][c] is h[c][17 - r], so row 0 is the highest z band |
| TrajUtils.SqrtThreshold | Scripts/tools/traj_utils.py:18-34 | for the non-negative root w of a count c, w > 10 exactly when c > 100 |
| TrajUtils.MaskCell | Scripts/tools/traj_utils.py:33-34 | mask cell [r][c] is visited iff bin (c, 17 - r) holds more than 100 samples |
| TrajUtils.MaskIsThresholdedSqrt | Scripts/tools/traj_utils.py:33-34 | the mask agrees cell by cell with thresholding any square-rooted flipped count map at 10 |
| TrajUtils.MaskIgnoresOrder | Scripts/tools/traj_utils.py:32-34 | the mask depends only on the multiset of pooled samples |
| TrajUtils.MaskMonotone | Scripts/tools/traj_utils.py:32-34 | adding samples to the pool never clears a visited cell |
| TrajUtils.CentreExample | Scripts/tools/traj_utils.py:18-34 | 101 samples at the field centre light mask cell [8][12], 100 do not |
| TrajUtils.Zip | Scripts/tools/traj_utils.py:32 | the flattened X and Z arrays are paired position by position into samples |
| TrajUtils.Trajectory | Scripts/tools/traj_utils.py:35 | the tested trajectory has one point per file row, pairing columns agent+'x' and agent+'z' |
| TrajUtils.Pairs | Scripts/tools/traj_utils.py:35 | `np.array([x, z]).T` pairs two series row by row over their common length |
| TrajUtils.BinaryTraceIgnoresPoolOrder | Scripts/tools/traj_utils.py:31-36 | the binary trace depends on the pool only through its multiset of (x, z) samples |
| TrajUtils.TraceScoreIsBinaryTrace | Scripts/tools/traj_utils.py:31-36 | on an equal-length pool and a file with both agent columns, the score is `trace` of the mask and the file's trajectory |
| Engagement.PlayerScheme | Scripts/get_actual_TS_Dynamic_Policy_as_csv.py:95-111 | human data is read from the p0/p1 columns, simulation data from hA0/hA1 |
| Engagement.SqDist | Scripts/get_actual_TS_Dynamic_Policy_as_csv.py:26-29 | the squared distance under `dist`'s root is non-negative |
| Engagement.DistProperties | Scripts/get_actual_TS_Dynamic_Policy_as_csv.py:26-29 | `dist` is non-negative, symmetric and zero on equal points |
| Engagement.RootsOrder | Scripts/get_actual_TS_Dynamic_Policy_as_csv.py:29 | non-negative roots order exactly as the values they are roots of |
| Engagement.FirstArgMin | Scripts/get_actual_TS_Dynamic_Policy_as_csv.py:45 | `np.argmin`: the first index holding the minimum |
| Engagement.FirstArgMinUnique | Scripts/get_actual_TS_Dynamic_Policy_as_csv.py:45 | the first minimum is unique: any index meeting its definition is FirstArgMin |
| Engagement.ArgMinOfRoots | Scripts/get_actual_TS_Dynamic_Policy_as_csv.py:29-45 | taking roots of the squared distances does not move the first minimum, in both directions |
| Engagement.Distances | Scripts/get_actual_TS_Dynamic_Policy_as_csv.py:40-44 | one squared herder-target distance per counted target, in target order |
| Engagement.ClosestTarget | Scripts/get_actual_TS_Dynamic_Policy_as_csv.py:31-45 | the distance loop returns the first index of minimal distance among all numTargs targets |
| Engagement.Flag | Scripts/get_actual_TS_Dynamic_Policy_as_csv.py:60-72 | a flag is 0 or 1, and is 1 exactly when t is below numTargets, target t runs and the chaser marks herder h |
| Engagement.ObservedOrder | Scripts/get_actual_TS_Dynamic_Policy_as_csv.py:60-72 | the fresh 2×5 `observedOrder` matrix holds Flag at every (herder, target) |
| Engagement.BuildPolicy | Scripts/get_actual_TS_Dynamic_Policy_as_csv.py:48-74 | one 13-entry row per input row (skip_freq 1): time, trial, numTargets, herder 0's five flags, herder 1's five flags |
| Engagement.PolicyRespectsNumTargets | Scripts/get_actual_TS_Dynamic_Policy_as_csv.py:64-72 | flags for targets at or beyond numTargets are 0 for both herders |
| Engagement.PolicyColumns | Scripts/get_actual_TS_Dynamic_Policy_as_csv.py:154-189 | 13 columns: time, TrialID, numTargs, then h0TA0..4 and h1TA0..4 |
| Engagement.ColumnsFollowScheme | Scripts/get_actual_TS_Dynamic_Policy_as_csv.py:154-189 | the script's column list is the HA0/HA1 instance of that scheme |
| Engagement.EngagementLabel | Scripts/get_actual_TS_Dynamic_Policy_as_csv.py:93-107 | the collapsed label is -1 or a counted target index, so it lies in [-1, 4] |
| Engagement.LabelNone | Scripts/get_actual_TS_Dynamic_Policy_as_csv.py:89-107 | the label is -1 exactly when no flag is set |
| Engagement.LabelSingle | Scripts/get_actual_TS_Dynamic_Policy_as_csv.py:98-107 | exactly one flag j gives the label j |
| Engagement.LabelSeveral | Scripts/get_actual_TS_Dynamic_Policy_as_csv.py:93-96 | two or more flags give the first nearest of all numTargs targets |
| Engagement.NearestMayBeUnflagged | Scripts/get_actual_TS_Dynamic_Policy_as_csv.py:41-96 | with targets 0 and 1 flagged, the unflagged nearer target 2 is the label |
| Engagement.RowFlags | Scripts/get_actual_TS_Dynamic_Policy_as_csv.py:93-109 | herder h's five flags are columns 3 + 5h .. 7 + 5h of the row |
| Engagement.CollapseHerder | Scripts/get_actual_TS_Dynamic_Policy_as_csv.py:93-122 | one herder's if/elif chain for a row yields that row's collapsed cell |
| Engagement.Collapse | Scripts/get_actual_TS_Dynamic_Policy_as_csv.py:77-124 | a fresh 5-column table, one row per policy row: time, TrialID and numTargs copied, then each herder's label, collapsed independently |
| Engagement.CopyHeader | Scripts/get_actual_TS_Dynamic_Policy_as_csv.py:85-90 | time, TrialID and numTargs are copied and both label columns start at -1 |
| Engagement.StepFlags | Scripts/get_actual_TS_Dynamic_Policy_as_csv.py:60-73 | herder h's five flags in row i are Flag, and none is set beyond numTargets |
| Engagement.PipelineLabels | Scripts/get_actual_TS_Dynamic_Policy_as_csv.py:60-107 | end to end, a herder is labelled -1 exactly when it chases no running counted target, and j when j is the only one it chases |
| Engagement.BuiltRowsAreStepFlags | Scripts/get_actual_TS_Dynamic_Policy_as_csv.py:73-109 | the flags the collapse reads back out of a built table are those the builder wrote |
| EngagementHumanAA.ColumnsFollowScheme | Scripts/exp2_human_aa/get_actual_Dynamic_Policy_as_csv_Human-AA.py:136 | the 13 columns are time, TrialID, numTargs, p0TA0..4, hA0TA0..4 |
| EngagementHumanAA.BuildPolicy | Scripts/exp2_human_aa/get_actual_Dynamic_Policy_as_csv_Human-AA.py:32-58 | one 13-entry row per input row, with flags from `get_chaser_v2` |
| EngagementHumanAA.Collapse | Scripts/exp2_human_aa/get_actual_Dynamic_Policy_as_csv_Human-AA.py:76-122 | time, TrialID and numTargs are copied; p0_engagement and hA0_engagement follow the collapse rule, nearest measured from p0 and hA0 |
| EngagementHumanAA.HumanAALabels | Scripts/exp2_human_aa/get_actual_Dynamic_Policy_as_csv_Human-AA.py:87-120 | -1 exactly when the herder chases nothing, j when it chases only j, the first argmin over all targets when it chases two or more |
| EngagementHumanAA.NamingDiffers | Scripts/exp2_human_aa/get_actual_Dynamic_Policy_as_csv_Human-AA.py:157-166 | for trials 7..9 the lookup id is zero-padded and the output name is not; output names of different trials differ |
| DtwTspSurrogate.EngagementColumns | Scripts/DTW_TSp_and_Surrogate.py:80-127 | there are k column names and name i is "HA<player>TA<i>" |
| DtwTspSurrogate.Similarity | Scripts/DTW_TSp_and_Surrogate.py:96-132 | the similarity is finite exactly when there is at least one column; then (1 - s)·k·k is the DTW distance, so the divisor is k² and a non-negative distance gives at most 1 |
| DtwTspSurrogate.Accumulate | Scripts/DTW_TSp_and_Surrogate.py:88-97 | the try/except loop counts exactly the readable background files and leaves the cell at the value Averaged defines |
| DtwTspSurrogate.ReadableFilesOnly | Scripts/DTW_TSp_and_Surrogate.py:89-96 | a background session without the trial file adds no score and no count; one with it adds its score and one to the count |
| DtwTspSurrogate.FreshCellIsMean | Scripts/DTW_TSp_and_Surrogate.py:88-97 | one pass over a zeroed cell, as in the first evaluee's pass, leaves the mean of the readable files' scores, and NaN when no background file could be read; later evaluees average the cell again (DictionaryCells) |
| DtwTspSurrogate.AveragedIs | Scripts/DTW_TSp_and_Surrogate.py:96-97 | one pass leaves (cell + sum of the readable scores) / their number |
| DtwTspSurrogate.CompoundedDivision | Scripts/DTW_TSp_and_Surrogate.py:113-133 | two passes over the same cell give a finite value exactly when both counts are positive and both sums finite, and then the value is (S1/n1 + S2)/n2 |
| DtwTspSurrogate.TwoDivisions | Scripts/DTW_TSp_and_Surrogate.py:133 | the same two divisions on the values: finite exactly when both counts are positive and both sums finite, then equal to (S1/n1 + S2)/n2 |
| DtwTspSurrogate.TeamPassNext | Scripts/DTW_TSp_and_Surrogate.py:113-133 | the surrogate cell after player p + 1's pass is the cell after player p's, averaged once more against the background |
| DtwTspSurrogate.TeamCellCompounds | Scripts/DTW_TSp_and_Surrogate.py:113-137 | the surrogate cell is finite exactly when some background file is readable and both players' sums are finite, and then equals (S0/n + S1)/n: player 1's `/=` divides player 0's mean again |
| DtwTspSurrogate.PerfectMatchOvershoots | Scripts/DTW_TSp_and_Surrogate.py:113-133 | when every readable pair matches perfectly for both players the surrogate cell is (n + 1)/n, not 1 |
| DtwTspSurrogate.TeamScoreFinite | Scripts/DTW_TSp_and_Surrogate.py:137-138 | an evaluee's returned score is finite exactly when all 18 of its surrogate cells are |
| DtwTspSurrogate.PassStepOk | Scripts/DTW_TSp_and_Surrogate.py:67-111 | one loop iteration raises exactly when the evaluee lacks the trial file or a routed human-AA file names an unknown session, and otherwise keeps the dictionaries' shape |
| DtwTspSurrogate.RunPassesOk | Scripts/DTW_TSp_and_Surrogate.py:59-111 | a sequence of iterations succeeds exactly when each one does, and keeps the dictionaries' shape |
| DtwTspSurrogate.RunOk | Scripts/DTW_TSp_and_Surrogate.py:42-111 | `main()` raises exactly when a human-human session lacks a trial file or, with at least one evaluee, a human-AA file belongs to a session not in the dictionaries; a missing background file never raises |
| DtwTspSurrogate.PassStepCell | Scripts/DTW_TSp_and_Surrogate.py:63-111 | one iteration applies its step to the only file's session cell of the trial exactly when it is an iteration of that trial: in human_scores when its player is the file's human seat, in AA_scores when it is the other seat; otherwise both cells stay |
| DtwTspSurrogate.RunPassesCell | Scripts/DTW_TSp_and_Surrogate.py:59-111 | after a run of iterations the only file's session cell of the trial is the cell folded over exactly those iterations of that trial and of the seat that updates the half |
| DtwTspSurrogate.CellFoldAppend | Scripts/DTW_TSp_and_Surrogate.py:59-63 | folding a cell over two runs of iterations in a row is folding over the first, then over the second |
| DtwTspSurrogate.CellFoldMiss | Scripts/DTW_TSp_and_Surrogate.py:59-63 | iterations of other seats or other trials leave the cell unchanged |
| DtwTspSurrogate.CellFoldSweep | Scripts/DTW_TSp_and_Surrogate.py:62-63 | one player's trial loop of one evaluee applies the cell's step exactly once when it is the updating seat, and not at all otherwise |
| DtwTspSurrogate.HalfStepsAre | Scripts/DTW_TSp_and_Surrogate.py:87-111 | the step a file's cell takes in evaluee c's pass is one averaged pass against c's background, scored on the pass's seat columns |
| DtwTspSurrogate.CompoundedFromSchedule | Scripts/DTW_TSp_and_Surrogate.py:59-111 | over the loops of the first n evaluees a zeroed cell is averaged once per evaluee, in evaluee order, against each evaluee's background |
| DtwTspSurrogate.DictionaryCells | Scripts/DTW_TSp_and_Surrogate.py:59-111 | after `main()`, a session whose file is its only one for the trial holds in human_scores the cell averaged once per human-human evaluee on its human seat's columns, and in AA_scores the same on the other seat's columns: x_c = (x_{c-1} + S_c)/n_c, not one mean |
| DtwTspSurrogate.CompoundedNext | Scripts/DTW_TSp_and_Surrogate.py:88-111 | one more evaluee takes the cell from x to (x + S)/n, finite exactly when x is and that pass reads a file and scores finitely |
| DtwTspSurrogate.FiniteCellReads | Scripts/DTW_TSp_and_Surrogate.py:88-111 | a finite cell means every evaluee's pass so far read a background file and scored finitely |
| DtwTspSurrogate.ReadsFiniteCell | Scripts/DTW_TSp_and_Surrogate.py:88-111 | passes that all read a file and score finitely leave the cell finite |
| DtwTspSurrogate.CompoundedFinite | Scripts/DTW_TSp_and_Surrogate.py:88-111 | the compounded cell is finite exactly when every evaluee's pass read a background file and every readable file scored finitely; one pass with `trialscount == 0` makes it NaN for good |
| DtwTspSurrogate.PerfectStep | Scripts/DTW_TSp_and_Surrogate.py:96-97 | adding n perfect scores and dividing by n takes 0 to 1, 1 to (n + 1)/n and anything positive above 1 |
| DtwTspSurrogate.CompoundedOvershoots | Scripts/DTW_TSp_and_Surrogate.py:59-111 | with n perfect matches in every evaluee's pass the cell is 1 after the first evaluee, (n + 1)/n after the second and above 1 after every later one |
| DtwTspSurrogate.DictionaryCellOvershoots | Scripts/DTW_TSp_and_Surrogate.py:59-111 | with two human-human sessions and n perfectly matching background files in each pass, the returned human_scores cell is (n + 1)/n, not 1 |
| DtwTspSurrogate.UpdateHalves | Scripts/DTW_TSp_and_Surrogate.py:71-111 | the loop over the human-AA files of a trial and player gives the routed fold of the file steps |
| DtwTspSurrogate.Iteration | Scripts/DTW_TSp_and_Surrogate.py:65-133 | one iteration returns the specified step's result, advances the surrogate cell of (evaluee, trial) by one player pass, and changes no other cell |
| DtwTspSurrogate.TrialStep | Scripts/DTW_TSp_and_Surrogate.py:63-133 | one trial-loop iteration performs the next step of the run and keeps the evaluee's row split between trials already passed by this player and those still to come |
| DtwTspSurrogate.PlayerRow | Scripts/DTW_TSp_and_Surrogate.py:63-133 | the trial loop performs the player's 18 steps and advances every cell of the evaluee's row by one pass, leaving other rows unchanged |
| DtwTspSurrogate.EvalueeRow | Scripts/DTW_TSp_and_Surrogate.py:61-133 | the player loop performs the evaluee's 36 steps and leaves its row equal to the surrogate cells, other rows unchanged |
| DtwTspSurrogate.Compute | Scripts/DTW_TSp_and_Surrogate.py:18-139 | `main()` returns exactly the specified run: the error it raises, or the dictionaries and the halved, trial-averaged surrogate scores |
| DtwTspSurrogate.CohortMeans | Scripts/DTW_TSp_and_Surrogate.py:145-161 | each session's (AA, human) trial means go to the heuristic, hybrid or self-play list by first-matching prefix, in dictionary key order |
| CalcAllDtw.Similarity | Scripts/calcAllDTW.py:75-112 | the similarity is finite exactly when the two series are not both empty |
| CalcAllDtw.SimilarityMeaning | Scripts/calcAllDTW.py:75-112 | (1 - s)·(n + m) gives back the distance, so the divisor is the summed length; a non-negative distance gives at most 1 |
| CalcAllDtw.SumOverIs | Scripts/calcAllDTW.py:108-112 | the loop over the pool raises on the first session without the trial's file, and otherwise adds the scores of all the pool's files to the cell |
| CalcAllDtw.AccumulateOver | Scripts/calcAllDTW.py:108-112 | the loop returns SumOver: the first missing file's error or the cell plus every file's score |
| CalcAllDtw.TeamPassNext | Scripts/calcAllDTW.py:100-112 | the cell after player p + 1's pass is the cell after p's plus that player's background scores |
| CalcAllDtw.PassFailureNone | Scripts/calcAllDTW.py:104-109 | an iteration raises exactly when the evaluee or a background session lacks the trial's file, and the error names such a session |
| CalcAllDtw.RowFailureNone | Scripts/calcAllDTW.py:100-112 | an evaluee's passes raise only by naming a session and analysed trial whose file is missing, and succeed only when the evaluee has all its trials |
| CalcAllDtw.TeamScoresOk | Scripts/calcAllDTW.py:89-113 | the surrogate matrix is computed exactly when every session has a file for every analysed trial; otherwise the error names a session and trial whose file is missing |
| CalcAllDtw.FixedDivisor | Scripts/calcAllDTW.py:112-113 | a cell is the sum of both players' background scores over the constant 42, whatever the number of sessions |
| CalcAllDtw.PerfectMatchScore | Scripts/calcAllDTW.py:112-113 | with n distinct, perfectly matching sessions a cell is 2(n - 1)/42, not 1 |
| CalcAllDtw.PassCell | Scripts/calcAllDTW.py:103-112 | one iteration raises exactly when the pass fails, with that error, and otherwise returns the cell after one more player pass |
| CalcAllDtw.PlayerPass | Scripts/calcAllDTW.py:101-112 | the trial loop fails exactly as the evaluee's row does and otherwise advances each of the row's cells by one pass, other rows unchanged |
| CalcAllDtw.EvalueeRow | Scripts/calcAllDTW.py:100-112 | the player loop over a zeroed row fails as the row does and otherwise leaves the row at two full passes, other rows unchanged |
| CalcAllDtw.EvalueeLoop | Scripts/calcAllDTW.py:97-112 | the evaluee loop reports the first evaluee's failure, and without one leaves every cell at two full passes |
| CalcAllDtw.ScaledTeamRows | Scripts/calcAllDTW.py:113 | dividing the two-pass matrix by 2 and by 21 gives the specified surrogate rows |
| CalcAllDtw.TeamMatrix | Scripts/calcAllDTW.py:89-113 | `GETall_humanTeam_scores()` returns exactly the specified surrogate matrix or error |
| CalcAllDtw.AAFileStepOk | Scripts/calcAllDTW.py:64-83 | a human-AA file raises exactly when there are human-human sessions and one lacks the trial or the file's session is not a key; the first session's missing file is reported first |
| CalcAllDtw.AAFileStepCell | Scripts/calcAllDTW.py:67-83 | a successful file step adds to exactly its cell of the routed half the similarities against all human-human sessions, the other half unchanged |
| CalcAllDtw.AAFilesRunOk | Scripts/calcAllDTW.py:64-83 | the loop over a listing's files raises exactly when some file's step would, keeps the dictionaries' shape, and any error is explained by a missing file or unknown session |
| CalcAllDtw.TrialsRunOk | Scripts/calcAllDTW.py:56-83 | the trials from t on raise exactly when some trial is not clean, and keep the shape |
| CalcAllDtw.AARunOk | Scripts/calcAllDTW.py:55-83 | the human-AA part raises exactly on a trial with human-AA files while some human-human session lacks it, or with a file of an unknown session |
| CalcAllDtw.AAFile | Scripts/calcAllDTW.py:64-83 | the body of the file loop computes exactly the specified file step |
| CalcAllDtw.AAFiles | Scripts/calcAllDTW.py:64 | the file loop computes exactly the specified fold over the listing |
| CalcAllDtw.AATrial | Scripts/calcAllDTW.py:56-83 | one trial's iteration is the first step of the trials from t on |
| CalcAllDtw.AATrials | Scripts/calcAllDTW.py:56-83 | the trial loop for one player computes exactly the specified run of trials |
| CalcAllDtw.AAScores | Scripts/calcAllDTW.py:19-86 | `GETall_AAteam_scores()` creates both dictionaries with every session and returns exactly the specified passes of both players |
| CalcAllDtw.Over21 | Scripts/calcAllDTW.py:157-163 | every entry of every row is divided by 21 |
| CalcAllDtw.RunOk | Scripts/calcAllDTW.py:89-163 | the script raises exactly when a human-human session lacks an analysed trial's file or, with at least one such session, a human-AA file names an unknown session; on success the saved matrix is the surrogate rows |
| CalcAllDtw.CohortSplit | Scripts/calcAllDTW.py:145-163 | each dictionary's rows in key order are split by session prefix and every list divided by 21 |
| CalcAllDtw.CalcAll | Scripts/calcAllDTW.py:117-163 | the script's outcome is exactly the specified run |
| CalcAllDtwHumanAA.HeuristicOfOk | Scripts/exp2_human_aa/calcAllDTW.py:157-176 | the heuristic lists exist exactly when some session name starts with "Session1"; otherwise the ValueError is raised |
| CalcAllDtwHumanAA.RunOk | Scripts/exp2_human_aa/calcAllDTW.py:20-176 | when all outputs exist the script skips; otherwise it raises exactly on a missing human-human trial file or, with at least one human-human session, an unknown human-AA session, and the heuristic lists fail exactly when no "Session1" session exists |
| CalcAllDtwHumanAA.TrialsOkWhenAllPresent | Scripts/exp2_human_aa/calcAllDTW.py:56-84 | with every human-human trial file present, the human-AA part fails only on an unknown session |
| CalcAllDtwHumanAA.OtherTypesIgnored | Scripts/exp2_human_aa/calcAllDTW.py:28-64 | only the Heuristic folders are read: a listing entry of another AA type changes nothing |
| CalcAllDtwHumanAA.CalcAll | Scripts/exp2_human_aa/calcAllDTW.py:118-176 | the script's outcome is exactly the specified run |
| CalcAllDtwHumanAA.HeuristicLists | Scripts/exp2_human_aa/calcAllDTW.py:157-176 | the key loop, the length check and `/ 21` give exactly the specified heuristic lists or error |
| TraceScores.PoolIsConcatenation | Scripts/traj_evals_binary_trace_scores.py:49-52 | appending the x and z columns separately and pairing them gives the pool files' positions concatenated in pool order |
| TraceScores.GatherAll | Scripts/traj_evals_binary_trace_scores.py:47-52 | the pool loop raises on the first session without the trial's file and otherwise returns the pool's x and z columns |
| TraceScores.TeamCellIsMean | Scripts/traj_evals_binary_trace_scores.py:36-60 | a surrogate cell is the mean of the two players' traces, each against a pool that excludes the evaluee's own session |
| TraceScores.PassFailureNone | Scripts/traj_evals_binary_trace_scores.py:47-56 | an iteration raises exactly when the evaluee or a background session lacks the trial's file, and the error names such a session |
| TraceScores.RowFailureNone | Scripts/traj_evals_binary_trace_scores.py:40-58 | an evaluee's passes raise only by naming a session and analysed trial whose file is missing, and succeed only when the evaluee has all its trials |
| TraceScores.TeamScoresOk | Scripts/traj_evals_binary_trace_scores.py:24-62 | the surrogate matrix is computed exactly when every session has every analysed trial's file; otherwise the error names a missing one |
| TraceScores.PassCell | Scripts/traj_evals_binary_trace_scores.py:44-58 | one iteration raises exactly when the pass fails, with that error, and otherwise returns the cell after one more player pass |
| TraceScores.FirstFailureAt | Scripts/traj_evals_binary_trace_scores.py:42-58 | the trial loop's exception is that of the first failing trial |
| TraceScores.NoFailure | Scripts/traj_evals_binary_trace_scores.py:42-58 | when no trial fails the evaluee's row does not fail |
| TraceScores.PlayerPass | Scripts/traj_evals_binary_trace_scores.py:42-58 | the trial loop fails exactly as the evaluee's row does and otherwise advances each cell of the row by one pass, other rows unchanged |
| TraceScores.EvalueeRow | Scripts/traj_evals_binary_trace_scores.py:40-58 | the player loop over a zeroed row fails as the row does and otherwise leaves the row at two full passes, other rows unchanged |
| TraceScores.HalvedTeamRows | Scripts/traj_evals_binary_trace_scores.py:60 | halving the two-pass matrix gives the specified surrogate rows |
| TraceScores.RowStops | Scripts/traj_evals_binary_trace_scores.py:36-58 | when earlier evaluees pass and evaluee c fails, the evaluee loop's exception is c's |
| TraceScores.RowPasses | Scripts/traj_evals_binary_trace_scores.py:36-58 | when earlier evaluees pass and so does c, all evaluees up to c pass |
| TraceScores.EvalueeLoop | Scripts/traj_evals_binary_trace_scores.py:36-58 | the evaluee loop over a zero matrix reports the first evaluee's failure, and without one leaves every cell at two full passes |
| TraceScores.NextEvaluee | Scripts/traj_evals_binary_trace_scores.py:36-58 | one pass of the evaluee loop fills row c and leaves later rows zero, or reports the loop's exception |
| TraceScores.TeamMatrix | Scripts/traj_evals_binary_trace_scores.py:24-62 | `get_surrogate_human_team_traces()` returns exactly the specified surrogate matrix or error |
| TraceScores.TraceStepCell | Scripts/traj_evals_binary_trace_scores.py:117-128 | a routed file adds its trace to its own session's cell of the trial: the "p0" trace to the human half when the player is the subfolder's seat, the "hA0" trace to the AA half otherwise; nothing else changes |
| TraceScores.AATrialOk | Scripts/traj_evals_binary_trace_scores.py:99-128 | one trial raises exactly when a human-human session lacks it or one of its human-AA files has an unknown session, and keeps the dictionaries' shape |
| TraceScores.TrialsRunOk | Scripts/traj_evals_binary_trace_scores.py:99-128 | the trials from t on raise exactly when some trial does, and keep the shape |
| TraceScores.AARunOk | Scripts/traj_evals_binary_trace_scores.py:97-128 | the human-AA part raises exactly when a human-human session lacks an analysed trial's file, even with no human-AA file for it, or a human-AA file has an unknown session |
| TraceScores.ScoreFiles | Scripts/traj_evals_binary_trace_scores.py:117-128 | the file loop computes exactly the routed fold of the trace steps |
| TraceScores.ScoreTrial | Scripts/traj_evals_binary_trace_scores.py:101-128 | one trial's iteration computes exactly the specified trial step |
| TraceScores.TrialsRunStep | Scripts/traj_evals_binary_trace_scores.py:99 | trial t is the first step of the trials from t on |
| TraceScores.ScoreTrials | Scripts/traj_evals_binary_trace_scores.py:99-128 | the trial loop for one player computes exactly the specified run of trials |
| TraceScores.AAScores | Scripts/traj_evals_binary_trace_scores.py:64-130 | both dictionaries are created with every session, then both players' passes give exactly the specified run |
| TraceScores.RunOk | Scripts/traj_evals_binary_trace_scores.py:64-134 | the script raises exactly when a human-human session lacks an analysed trial's file or a human-AA file names an unknown session; on success the saved matrix is the surrogate rows |
| TraceScores.CohortSplit | Scripts/traj_evals_binary_trace_scores.py:147-165 | each dictionary's rows in key order are split by session prefix |
| TraceScores.TraceAll | Scripts/traj_evals_binary_trace_scores.py:136-165 | the script's outcome is exactly the specified run |
| TraceScoresHumanAA.Visible | Scripts/exp2_human_aa/traj_evals_binary_trace_scores.py:35-91 | a session is kept exactly when it is listed and its name does not start with "." |
| TraceScoresHumanAA.GatherPresent | Scripts/exp2_human_aa/traj_evals_binary_trace_scores.py:53-61 | the loop skips sessions without the trial's file, returns the x and z columns of the files found and counts them |
| TraceScoresHumanAA.TeamCellIsMean | Scripts/exp2_human_aa/traj_evals_binary_trace_scores.py:40-80 | a surrogate cell is the two players' traces summed over 2, a skipped player adding 0; a player scores only when the evaluee has the file and some background file is found; the pool excludes the evaluee and hidden entries |
| TraceScoresHumanAA.PassCell | Scripts/exp2_human_aa/traj_evals_binary_trace_scores.py:48-78 | one iteration never raises and returns the cell after one more player pass, skips included |
| TraceScoresHumanAA.PlayerPass | Scripts/exp2_human_aa/traj_evals_binary_trace_scores.py:46-78 | the trial loop advances every cell of the evaluee's row by one pass, other rows unchanged |
| TraceScoresHumanAA.EvalueeLoop | Scripts/exp2_human_aa/traj_evals_binary_trace_scores.py:40-78 | the evaluee and player loops over a zero matrix leave every cell at two full passes |
| TraceScoresHumanAA.TeamRowsAt | Scripts/exp2_human_aa/traj_evals_binary_trace_scores.py:36-80 | the returned matrix has one row of 18 per session and cell (c, j) is trial 7 + j's surrogate cell |
| TraceScoresHumanAA.HalvedTeamRows | Scripts/exp2_human_aa/traj_evals_binary_trace_scores.py:80 | halving the two-pass matrix gives the specified surrogate rows |
| TraceScoresHumanAA.TeamMatrix | Scripts/exp2_human_aa/traj_evals_binary_trace_scores.py:28-82 | `get_surrogate_human_team_traces()` returns exactly the specified surrogate rows |
| TraceScoresHumanAA.AATrialOk | Scripts/exp2_human_aa/traj_evals_binary_trace_scores.py:119-158 | a trial with no human-human file found changes nothing; otherwise it raises exactly on a human-AA file of an unknown session, and keeps the shape |
| TraceScoresHumanAA.TrialsRunOk | Scripts/exp2_human_aa/traj_evals_binary_trace_scores.py:119-158 | the trials from t on raise exactly when some later trial is not fine |
| TraceScoresHumanAA.TrialsRunShaped | Scripts/exp2_human_aa/traj_evals_binary_trace_scores.py:106-158 | a successful pass keeps both dictionaries keyed by the sessions with one cell per analysed trial |
| TraceScoresHumanAA.AARunOk | Scripts/exp2_human_aa/traj_evals_binary_trace_scores.py:117-158 | the human-AA part raises exactly on a human-AA file of an unknown session in a trial whose pool is not empty |
| TraceScoresHumanAA.ScoreTrial | Scripts/exp2_human_aa/traj_evals_binary_trace_scores.py:121-158 | one trial's iteration computes exactly the specified trial step, the empty-pool skip included |
| TraceScoresHumanAA.TrialsRunStep | Scripts/exp2_human_aa/traj_evals_binary_trace_scores.py:119 | trial t is the first step of the trials from t on |
| TraceScoresHumanAA.ScoreTrials | Scripts/exp2_human_aa/traj_evals_binary_trace_scores.py:119-158 | the trial loop for one player computes exactly the specified run of trials |
| TraceScoresHumanAA.AAScores | Scripts/exp2_human_aa/traj_evals_binary_trace_scores.py:84-160 | both dictionaries are created with every session, then both players' passes give exactly the specified run |
| TraceScoresHumanAA.HeuristicOfOk | Scripts/exp2_human_aa/traj_evals_binary_trace_scores.py:172-204 | the heuristic lists exist exactly when some session name starts with "Session1"; otherwise the ValueError is raised |
| TraceScoresHumanAA.RunOk | Scripts/exp2_human_aa/traj_evals_binary_trace_scores.py:84-204 | the script raises only the KeyError of a human-AA file of an unknown session in a trial with human-human data; on success the matrix has one row per visible session and the heuristic lists exist exactly when a "Session1" session does |
| TraceScoresHumanAA.HeuristicLists | Scripts/exp2_human_aa/traj_evals_binary_trace_scores.py:175-204 | the key loop keeping "Session1" rows and the length check give exactly the specified lists or error |
| TraceScoresHumanAA.TraceAll | Scripts/exp2_human_aa/traj_evals_binary_trace_scores.py:166-204 | the script's outcome is exactly the specified run |
| BinaryTraceEvaluator.MakeConfig | Scripts/binary_trace_evaluator_Exp1.py:27-60 | a configuration is built exactly when first_trial <= last_trial, keeping its fields; otherwise the ValueError |
| BinaryTraceEvaluator.Trials | Scripts/binary_trace_evaluator_Exp1.py:62-64 | the trials run from first_trial to last_trial inclusive, ascending |
| BinaryTraceEvaluator.TrialsSpan | Scripts/binary_trace_evaluator_Exp1.py:62-64 | a trial is in the range exactly when first_trial <= t <= last_trial |
| BinaryTraceEvaluator.TrialColumnsDistinct | Scripts/binary_trace_evaluator_Exp1.py:60 | column i is `str(first_trial + i)` and no two trial columns coincide |
| BinaryTraceEvaluator.TrialId | Scripts/binary_trace_evaluator_Exp1.py:189 | `f"{trial:02}"` is the two-digit form of trials 0 to 99 |
| BinaryTraceEvaluator.Matches | Scripts/binary_trace_evaluator_Exp1.py:97-141 | every match is an entry whose name contains the pattern, and there is none exactly when no entry's name contains it |
| BinaryTraceEvaluator.FirstMatchWins | Scripts/binary_trace_evaluator_Exp1.py:97-110 | the first match is the earliest entry whose name contains the pattern |
| BinaryTraceEvaluator.FindTrialFile | Scripts/binary_trace_evaluator_Exp1.py:94-110 | a failed lookup is the FileNotFoundError naming the session and trial |
| BinaryTraceEvaluator.Others | Scripts/binary_trace_evaluator_Exp1.py:180 | the background holds exactly the listed sessions other than the evaluee |
| BinaryTraceEvaluator.OthersCutsOne | Scripts/binary_trace_evaluator_Exp1.py:180 | in a listing without repeats the background is the listing with the evaluee cut out, order kept |
| BinaryTraceEvaluator.GatherOk | Scripts/binary_trace_evaluator_Exp1.py:123-127 | the pool is gathered exactly when every background session's file is found; otherwise it fails with the first missing session's error |
| BinaryTraceEvaluator.LoadBackgroundPositions | Scripts/binary_trace_evaluator_Exp1.py:113-132 | `_load_background_positions` returns exactly the specified pool: the first missing file's error, the RuntimeError for an empty background, or the concatenated x and z columns |
| BinaryTraceEvaluator.TrialCache.constructor | Scripts/binary_trace_evaluator_Exp1.py:170 | a new cache is empty |
| BinaryTraceEvaluator.TrialCache.Get | Scripts/binary_trace_evaluator_Exp1.py:135-154 | a lookup returns what a fresh read would; a hit changes nothing, a miss reads the folder and stores the frame only when it exists |
| BinaryTraceEvaluator.CellsOk | Scripts/binary_trace_evaluator_Exp1.py:188-200 | a record is filled exactly when every trial's cell can be scored |
| BinaryTraceEvaluator.CellsKeys | Scripts/binary_trace_evaluator_Exp1.py:200 | a filled record's keys are exactly the trial column names |
| BinaryTraceEvaluator.CellsValues | Scripts/binary_trace_evaluator_Exp1.py:200 | with distinct column names, each trial's column holds that trial's score |
| BinaryTraceEvaluator.ScheduleAt | Scripts/binary_trace_evaluator_Exp1.py:173-202 | session i's records come at 2i (Player 1) and 2i + 1 (Player 2) |
| BinaryTraceEvaluator.RecordsStep | Scripts/binary_trace_evaluator_Exp1.py:202 | the next pair's record is appended, or its failure ends the loop |
| BinaryTraceEvaluator.RecordsOk | Scripts/binary_trace_evaluator_Exp1.py:173-202 | the loop succeeds exactly when every pair's record does, with one record per pair in order; otherwise the first failing pair's error |
| BinaryTraceEvaluator.EvaluateRows | Scripts/binary_trace_evaluator_Exp1.py:162-205 | a cohort's table has the columns Session, Player and the trial strings, and row 2i + p is session i's record of player p |
| BinaryTraceEvaluator.RecordLayout | Scripts/binary_trace_evaluator_Exp1.py:183-200 | a record names its session, has Player = player + 1 and exactly the trial columns, and trial t's column holds the pool's score against the simulation's hA{player} agent |
| BinaryTraceEvaluator.CellOk | Scripts/binary_trace_evaluator_Exp1.py:197-199 | a cell can be scored exactly when the evaluee has company, every other session has the trial's file and so does the cohort folder |
| BinaryTraceEvaluator.ScoreCell | Scripts/binary_trace_evaluator_Exp1.py:197-200 | one trial iteration returns exactly the specified cell, through the cache |
| BinaryTraceEvaluator.FillRecord | Scripts/binary_trace_evaluator_Exp1.py:183-200 | the trial loop returns exactly the specified record or its first failure |
| BinaryTraceEvaluator.NextRecord | Scripts/binary_trace_evaluator_Exp1.py:182-202 | one pass of the player loop appends the record of the next pair, or reports the loop's failure |
| BinaryTraceEvaluator.SessionRecords | Scripts/binary_trace_evaluator_Exp1.py:180-202 | the player loop appends session i's two records in order, or reports the first failure |
| BinaryTraceEvaluator.EvaluateAAType | Scripts/binary_trace_evaluator_Exp1.py:162-205 | `evaluate_aa_type` returns exactly the specified table or error |
| BinaryTraceEvaluator.TypeTable | Scripts/binary_trace_evaluator_Exp1.py:166-215 | a missing cohort folder gives the FileNotFoundError, otherwise the folder's evaluation |
| BinaryTraceEvaluator.SavesInOrder | Scripts/binary_trace_evaluator_Exp1.py:214-218 | the files saved are the first types' own tables, in order, and stop at the first type whose folder is missing or whose evaluation fails |
| BinaryTraceEvaluator.RunInOrder | Scripts/binary_trace_evaluator_Exp1.py:208-218 | with no sessions nothing is saved and the RuntimeError ends the run; otherwise each type's own table is saved in order until the first failure |
| BinaryTraceEvaluator.MainOk | Scripts/binary_trace_evaluator_Exp1.py:57-218 | an invalid range saves nothing; with no sessions nothing is saved; a run without failure saves every type |
| BinaryTraceEvaluator.SaveType | Scripts/binary_trace_evaluator_Exp1.py:166-215 | one type's table is exactly the folder check followed by its own evaluation |
| BinaryTraceEvaluator.SavesStep | Scripts/binary_trace_evaluator_Exp1.py:214-218 | one more type after k clean ones saves its table, or its failure ends the run |
| BinaryTraceEvaluator.RunAll | Scripts/binary_trace_evaluator_Exp1.py:208-218 | `run` computes exactly the specified outcome |
| HumanHumanTraceEvaluator.ColumnsAreTrials | Scripts/exp1_human_human/binary_trace_evaluator_Exp1.py:29-62 | the hard-coded header is Session, Player, then `str(trial)` for each trial of `range(7, 25)`, in order |
| HumanHumanTraceEvaluator.WriteCell | Scripts/exp1_human_human/binary_trace_evaluator_Exp1.py:83-94 | a write sets the row's Session and Player = player + 1 and changes exactly the trial's cell |
| HumanHumanTraceEvaluator.WriteCellOverwrites | Scripts/exp1_human_human/binary_trace_evaluator_Exp1.py:69-94 | writing the same trial again replaces the earlier write: only the last background session's score remains |
| HumanHumanTraceEvaluator.FillOk | Scripts/exp1_human_human/binary_trace_evaluator_Exp1.py:62-94 | a row is filled exactly when no trial's cell raises |
| HumanHumanTraceEvaluator.FillNoWrites | Scripts/exp1_human_human/binary_trace_evaluator_Exp1.py:62-94 | when no trial writes, the row stays blank |
| HumanHumanTraceEvaluator.FillAllWrites | Scripts/exp1_human_human/binary_trace_evaluator_Exp1.py:62-94 | when every trial writes, the row names the session with Player = player + 1 and its cells are exactly the trials' columns |
| HumanHumanTraceEvaluator.FillValues | Scripts/exp1_human_human/binary_trace_evaluator_Exp1.py:62-94 | when every trial writes to its own column, each column holds its trial's value |
| HumanHumanTraceEvaluator.RowsTo | Scripts/exp1_human_human/binary_trace_evaluator_Exp1.py:52-60 | a filled prefix up to player p of entry c has 2c + p rows |
| HumanHumanTraceEvaluator.RowsStep | Scripts/exp1_human_human/binary_trace_evaluator_Exp1.py:53-94 | one more row grows the prefix, or its failure ends the AA type |
| HumanHumanTraceEvaluator.RowsOk | Scripts/exp1_human_human/binary_trace_evaluator_Exp1.py:53-94 | the frame is filled exactly when none of its rows fails |
| HumanHumanTraceEvaluator.RowsAt | Scripts/exp1_human_human/binary_trace_evaluator_Exp1.py:52-94 | row 2c + p of the frame is entry c's row of player p |
| HumanHumanTraceEvaluator.EvaluateOk | Scripts/exp1_human_human/binary_trace_evaluator_Exp1.py:52-94 | an AA type's frame exists exactly when every entry's company has all its files, and then has two rows per listed entry, row 2c + p being entry c's row of player p |
| HumanHumanTraceEvaluator.RowLayout | Scripts/exp1_human_human/binary_trace_evaluator_Exp1.py:52-94 | a hidden entry or one without visible company keeps a blank row; otherwise the row names the entry with Player = p + 1, has exactly the trial columns, and each holds the trace of the whole visible pool against hA{p}, or NaN without a simulation file |
| HumanHumanTraceEvaluator.CellsOk | Scripts/exp1_human_human/binary_trace_evaluator_Exp1.py:67-70 | no trial's cell raises exactly when there is no company or every company session has every trial's file |
| HumanHumanTraceEvaluator.CellErr | Scripts/exp1_human_human/binary_trace_evaluator_Exp1.py:67-70 | a cell raises only for a company session without the trial's file, and the error names it |
| HumanHumanTraceEvaluator.RowOk | Scripts/exp1_human_human/binary_trace_evaluator_Exp1.py:53-94 | a visible entry's row raises exactly when it has visible company and one of those sessions lacks a trial's file, and the error names it |
| HumanHumanTraceEvaluator.FillFirstErr | Scripts/exp1_human_human/binary_trace_evaluator_Exp1.py:62-94 | a failed row reports some trial cell's error |
| HumanHumanTraceEvaluator.FirstMissingAt | Scripts/exp1_human_human/binary_trace_evaluator_Exp1.py:69-70 | the first background session without the file is where the loop stops |
| HumanHumanTraceEvaluator.TrialPass | Scripts/exp1_human_human/binary_trace_evaluator_Exp1.py:64-94 | one trial raises exactly when the cell's specification does, with its error, and otherwise changes only the row's slot, to the written cell |
| HumanHumanTraceEvaluator.FillRow | Scripts/exp1_human_human/binary_trace_evaluator_Exp1.py:62-94 | the trial loop on a blank slot stores exactly the specified row, or reports its error |
| HumanHumanTraceEvaluator.NextRowStep | Scripts/exp1_human_human/binary_trace_evaluator_Exp1.py:60-94 | the frame grows by a visible entry's row, or its failure is the AA type's failure |
| HumanHumanTraceEvaluator.NextRow | Scripts/exp1_human_human/binary_trace_evaluator_Exp1.py:60-94 | one player's row fills the next slot and leaves later slots unchanged, or its failure is the AA type's |
| HumanHumanTraceEvaluator.HiddenEntryStep | Scripts/exp1_human_human/binary_trace_evaluator_Exp1.py:55-56 | a hidden entry's two rows stay blank |
| HumanHumanTraceEvaluator.NextEntry | Scripts/exp1_human_human/binary_trace_evaluator_Exp1.py:53-94 | one entry grows the filled prefix by its two rows and leaves later slots blank, or its failure is the AA type's |
| HumanHumanTraceEvaluator.VisibleEntry | Scripts/exp1_human_human/binary_trace_evaluator_Exp1.py:58-94 | a visible entry's player loop fills its two rows in order, or reports the failure |
| HumanHumanTraceEvaluator.EvaluateType | Scripts/exp1_human_human/binary_trace_evaluator_Exp1.py:52-94 | a blank frame of 2·len(all_sessions) rows filled entry by entry gives exactly the specified frame or error |
| HumanHumanTraceEvaluator.SimFolder | Scripts/exp1_human_human/binary_trace_evaluator_Exp1.py:75-78 | a missing simulation folder finds no file |
| HumanHumanTraceEvaluator.Todo | Scripts/exp1_human_human/binary_trace_evaluator_Exp1.py:45-50 | the types processed are exactly those whose output file is not there yet |
| HumanHumanTraceEvaluator.SavesInOrder | Scripts/exp1_human_human/binary_trace_evaluator_Exp1.py:42-97 | the files saved are, in order, the header and own frame of each type not skipped, stopping at the first type whose frame fails, whose error is the script's |
| HumanHumanTraceEvaluator.RunSkipsExisting | Scripts/exp1_human_human/binary_trace_evaluator_Exp1.py:42-97 | no output file present at the start is overwritten, and without a failure every missing output is written |
| HumanHumanTraceEvaluator.MissingSimulationIsNaN | Scripts/exp1_human_human/binary_trace_evaluator_Exp1.py:80-86 | without a simulation folder every score cell of the frame is NaN |
| HumanHumanTraceEvaluator.SaveType | Scripts/exp1_human_human/binary_trace_evaluator_Exp1.py:52-94 | one type not skipped gives exactly the frame of its simulation folder |
| HumanHumanTraceEvaluator.RunAll | Scripts/exp1_human_human/binary_trace_evaluator_Exp1.py:27-97 | `main` computes exactly the specified outcome |
| ComparePoliciesHH.SameTypes | Scripts/exp1_human_human/compare_dynamic_policies_by_TA_and_Participant_TS_DTW.py:16 | both comparison scripts run the same five simulation types in the same order into the same file names |
| ComparePoliciesHH.CheckMeaning | Scripts/exp1_human_human/compare_dynamic_policies_by_TA_and_Participant_TS_DTW.py:53-92 | a session is skipped exactly when it is hidden or a file is missing; otherwise it passes exactly when both files are readable and agree on TrialID and numTargs, a failure being the ValueError or a KeyError; a pass carries the two players' errors |
| ComparePoliciesHH.Passes | Scripts/exp1_human_human/compare_dynamic_policies_by_TA_and_Participant_TS_DTW.py:51-106 | at most one pass per session among the first n |
| ComparePoliciesHH.PassesOk | Scripts/exp1_human_human/compare_dynamic_policies_by_TA_and_Participant_TS_DTW.py:52-82 | a trial raises exactly when some session raises, with that session's error |
| ComparePoliciesHH.PassesFrom | Scripts/exp1_human_human/compare_dynamic_policies_by_TA_and_Participant_TS_DTW.py:51-106 | the k-th passing session is some session h >= k: a skipped session moves the later ones up by two rows |
| ComparePoliciesHH.PassesAligned | Scripts/exp1_human_human/compare_dynamic_policies_by_TA_and_Participant_TS_DTW.py:51-106 | every session passes exactly when none is skipped, and then the k-th pass is session k, so `df_row` is 2·hcount |
| ComparePoliciesHH.StampRows | Scripts/exp1_human_human/compare_dynamic_policies_by_TA_and_Participant_TS_DTW.py:98-106 | the rows of the k-th pass hold its name, Player 1 or 2 and its error in the trial's column; rows past the passes are untouched |
| ComparePoliciesHH.TrialsOk | Scripts/exp1_human_human/compare_dynamic_policies_by_TA_and_Participant_TS_DTW.py:48-106 | a simulation type raises exactly when some session raises at some trial, with that error |
| ComparePoliciesHH.StampOthers | Scripts/exp1_human_human/compare_dynamic_policies_by_TA_and_Participant_TS_DTW.py:98-104 | stamping a trial's column leaves every other column of every row as it was |
| ComparePoliciesHH.TrialsCells | Scripts/exp1_human_human/compare_dynamic_policies_by_TA_and_Participant_TS_DTW.py:42-106 | without an exception, a trial's column of rows 2k and 2k + 1 holds that trial's k-th passing session's errors, and is empty past that trial's passes |
| ComparePoliciesHH.TrialsCellAt | Scripts/exp1_human_human/compare_dynamic_policies_by_TA_and_Participant_TS_DTW.py:42-106 | the same for one trial, row and player |
| ComparePoliciesHH.StampKeeps | Scripts/exp1_human_human/compare_dynamic_policies_by_TA_and_Participant_TS_DTW.py:98-104 | stamping one column leaves any other column of a row as it was |
| ComparePoliciesHH.StampCell | Scripts/exp1_human_human/compare_dynamic_policies_by_TA_and_Participant_TS_DTW.py:98-104 | stamping writes the k-th pass's error into row 2k + q and leaves rows past the passes alone |
| ComparePoliciesHH.TrialsColumnAbsent | Scripts/exp1_human_human/compare_dynamic_policies_by_TA_and_Participant_TS_DTW.py:42 | a column no earlier trial wrote is in no row |
| ComparePoliciesHH.TrialsHeader | Scripts/exp1_human_human/compare_dynamic_policies_by_TA_and_Participant_TS_DTW.py:98-104 | row 2k + q carries Player q + 1 once written, is named exactly when some trial had k + 1 passes, and bears the name of the last such trial's k-th pass |
| ComparePoliciesHH.StaleRow | Scripts/exp1_human_human/compare_dynamic_policies_by_TA_and_Participant_TS_DTW.py:51-106 | two sessions passing the first trial and only the second passing the next leave row 0 named after the second session with the first session's error in the first trial's cell |
| ComparePoliciesHH.SavesInOrder | Scripts/exp1_human_human/compare_dynamic_policies_by_TA_and_Participant_TS_DTW.py:39-109 | the j-th file saved is the j-th type's frame under the header; the run ends without an exception exactly when every type ran through, and otherwise the type after the saved ones raised |
| ComparePoliciesHH.SavesStop | Scripts/exp1_human_human/compare_dynamic_policies_by_TA_and_Participant_TS_DTW.py:39-109 | once a type raises, the later types are not run |
| ComparePoliciesHH.PutRows | Scripts/exp1_human_human/compare_dynamic_policies_by_TA_and_Participant_TS_DTW.py:98-104 | the six writes change exactly rows `df_row` and `df_row + 1`, as the slot write specifies |
| ComparePoliciesHH.StampNext | Scripts/exp1_human_human/compare_dynamic_policies_by_TA_and_Participant_TS_DTW.py:98-106 | a further pass stamps its two rows over the earlier stamping |
| ComparePoliciesHH.TrialLoop | Scripts/exp1_human_human/compare_dynamic_policies_by_TA_and_Participant_TS_DTW.py:51-106 | one trial raises exactly when its specification does, with that error, and otherwise leaves the frame the specified trial gives |
| ComparePoliciesHH.PassesNext | Scripts/exp1_human_human/compare_dynamic_policies_by_TA_and_Participant_TS_DTW.py:52-106 | one more session's error stops the trial, a skip changes nothing, and a pass joins the passes |
| ComparePoliciesHH.PassesStopAt | Scripts/exp1_human_human/compare_dynamic_policies_by_TA_and_Participant_TS_DTW.py:52-82 | once a session raises, the trial raises that error |
| ComparePoliciesHH.TrialsStop | Scripts/exp1_human_human/compare_dynamic_policies_by_TA_and_Participant_TS_DTW.py:48-106 | once a trial raises, the simulation type raises that error |
| ComparePoliciesHH.SimulationRun | Scripts/exp1_human_human/compare_dynamic_policies_by_TA_and_Participant_TS_DTW.py:42-106 | one type's trial loop on a fresh frame gives exactly the specified frame or error |
| ComparePoliciesHH.SavesStep | Scripts/exp1_human_human/compare_dynamic_policies_by_TA_and_Participant_TS_DTW.py:39-109 | one more type saves its frame when it runs through, and its error ends the script otherwise |
| ComparePoliciesHH.RunAll | Scripts/exp1_human_human/compare_dynamic_policies_by_TA_and_Participant_TS_DTW.py:39-109 | the script computes exactly the specified outcome |
| ComparePolicies.DisplayName | Scripts/compare_dynamic_policies_by_TA_and_Participant_TS_DTW.py:44 | the shown name is the type string without its first character |
| ComparePolicies.Head | Scripts/compare_dynamic_policies_by_TA_and_Participant_TS_DTW.py:63-65 | `df[c][0]` succeeds only on a file with rows and the column, giving its first value |
| ComparePolicies.ErrorsMeaning | Scripts/compare_dynamic_policies_by_TA_and_Participant_TS_DTW.py:61-73 | a readable pair passes exactly when TrialID and numTargs agree, otherwise the failed assert; an unreadable file gives a KeyError; each player's error times n + m is the DTW distance, and is non-negative for a non-negative distance |
| ComparePolicies.WriteSlot | Scripts/compare_dynamic_policies_by_TA_and_Participant_TS_DTW.py:79-85 | the six writes change exactly rows 2·hcount and 2·hcount + 1, each with the session's name, its Player and its error in the trial's column |
| ComparePolicies.Sessions | Scripts/compare_dynamic_policies_by_TA_and_Participant_TS_DTW.py:51-88 | the session loop keeps the frame's 2·len(sessions) rows |
| ComparePolicies.BlankFrame | Scripts/compare_dynamic_policies_by_TA_and_Participant_TS_DTW.py:42 | the fresh frame has 2n blank rows |
| ComparePolicies.Trial | Scripts/compare_dynamic_policies_by_TA_and_Participant_TS_DTW.py:51-88 | a trial passes exactly when every session's pair passes the checks, a failure is some session's, and a passing trial has written row 2h + p with session h's name, Player p + 1 and its error in the trial's column |
| ComparePolicies.SessionsStop | Scripts/compare_dynamic_policies_by_TA_and_Participant_TS_DTW.py:51-88 | once a session raises, the rest of the trial's sessions are not processed |
| ComparePolicies.SessionsNext | Scripts/compare_dynamic_policies_by_TA_and_Participant_TS_DTW.py:51-88 | one more session's error stops the trial; otherwise its pair is written and the CSV counts as written |
| ComparePolicies.SessionsFailure | Scripts/compare_dynamic_policies_by_TA_and_Participant_TS_DTW.py:51-73 | the session loop passes exactly when every session passes, and a failure is some session's |
| ComparePolicies.SessionsWritten | Scripts/compare_dynamic_policies_by_TA_and_Participant_TS_DTW.py:88 | a passing trial has written the CSV once there was a session |
| ComparePolicies.SessionsUntouched | Scripts/compare_dynamic_policies_by_TA_and_Participant_TS_DTW.py:79-85 | the rows past the first n sessions are untouched |
| ComparePolicies.SessionsWrites | Scripts/compare_dynamic_policies_by_TA_and_Participant_TS_DTW.py:79-85 | a passing run of sessions has written rows 2h and 2h + 1 with session h's name, Player 1 and 2 and its errors |
| ComparePolicies.TrialsStop | Scripts/compare_dynamic_policies_by_TA_and_Participant_TS_DTW.py:48-88 | once a trial raises, the later trials are not processed |
| ComparePolicies.TrialsOk | Scripts/compare_dynamic_policies_by_TA_and_Participant_TS_DTW.py:48-88 | a simulation type runs through exactly when every session passes every trial, and a failure is some session's at some trial |
| ComparePolicies.TrialsHeader | Scripts/compare_dynamic_policies_by_TA_and_Participant_TS_DTW.py:79-85 | without an exception and with a trial, row 2h + p names session h and Player p + 1 |
| ComparePolicies.TrialsKeys | Scripts/compare_dynamic_policies_by_TA_and_Participant_TS_DTW.py:48-85 | without an exception every row's cells are exactly the trials' columns |
| ComparePolicies.TrialsValues | Scripts/compare_dynamic_policies_by_TA_and_Participant_TS_DTW.py:48-85 | without an exception row 2h + p holds player p's error of every trial in that trial's column |
| ComparePolicies.SavesInOrder | Scripts/compare_dynamic_policies_by_TA_and_Participant_TS_DTW.py:39-88 | the types run in order; each saved file is its type's frame, and every type before the last processed one ran through; the run ends without an exception exactly when every type was saved |
| ComparePolicies.SavesStop | Scripts/compare_dynamic_policies_by_TA_and_Participant_TS_DTW.py:39-88 | once a type raises, the later types are not run |
| ComparePolicies.WrittenWhenOk | Scripts/compare_dynamic_policies_by_TA_and_Participant_TS_DTW.py:88 | with sessions and trials, a type that runs through has written its CSV |
| ComparePolicies.RunInOrder | Scripts/compare_dynamic_policies_by_TA_and_Participant_TS_DTW.py:39-88 | with sessions, the script saves each type's frame, in order, and every type runs through unless some session raises |
| ComparePolicies.PutSlot | Scripts/compare_dynamic_policies_by_TA_and_Participant_TS_DTW.py:79-85 | the six writes in place leave exactly the frame the slot write specifies |
| ComparePolicies.SessionLoop | Scripts/compare_dynamic_policies_by_TA_and_Participant_TS_DTW.py:51-88 | one trial's session loop leaves exactly the specified frame, written flag and failure |
| ComparePolicies.SimulationRun | Scripts/compare_dynamic_policies_by_TA_and_Participant_TS_DTW.py:42-88 | one type's trial loop on a fresh frame gives exactly the specified progress |
| ComparePolicies.SavesStep | Scripts/compare_dynamic_policies_by_TA_and_Participant_TS_DTW.py:39-88 | one more type's frame is saved when it was written, also when the type then raised, and its error ends the script |
| ComparePolicies.RunAll | Scripts/compare_dynamic_policies_by_TA_and_Participant_TS_DTW.py:39-88 | the script computes exactly the specified outcome |
| ConvertScores.WithPairMeaning | Scripts/convert_scores_exp2.py:30-32 | the pair column leads the table and numbers its rows when it was missing; a table that has it is unchanged; no other column changes |
| ConvertScores.WithPairIdempotent | Scripts/convert_scores_exp2.py:31-32 | inserting the pair column twice is inserting it once |
| ConvertScores.AssignMeaning | Scripts/convert_scores_exp2.py:56-58 | after `df[c] = s` every row holds s in column c, c is in the header once (appended when new), and every other column and the header order are kept |
| ConvertScores.Extend | Scripts/convert_scores_exp2.py:62-63 | the concatenation's header keeps the earlier names, then adds each new name once, so it stays without repeats |
| ConvertScores.ConcatShape | Scripts/convert_scores_exp2.py:62-63 | no row of the concatenation has an entry outside its header |
| ConvertScores.ConcatColumns | Scripts/convert_scores_exp2.py:62-63 | the concatenation has every table's columns and no other |
| ConvertScores.ConcatLength | Scripts/convert_scores_exp2.py:62-63 | the concatenation has as many rows as the tables together |
| ConvertScores.ConcatRowAt | Scripts/convert_scores_exp2.py:62-63 | row i of the k-th table is row i after the rows of the tables before it (`ignore_index=True`) |
| ConvertScores.OutputColumnsAreTrials | Scripts/convert_scores_exp2.py:69-70 | the kept columns are pair, agent_type, then `str(trial)` for every analysed trial, with no repeats |
| ConvertScores.FirstMissing | Scripts/convert_scores_exp2.py:69-70 | the KeyError names a listed column the table does not have |
| ConvertScores.SelectMeaning | Scripts/convert_scores_exp2.py:69-70 | a selection succeeds exactly when every listed column is there, otherwise raises the KeyError of a missing one, and keeps exactly those columns of every row in the listed order |
| ConvertScores.LabelledMeaning | Scripts/convert_scores_exp2.py:30-58 | a labelled table has the input's rows, with agent_type, pair and the input's columns, each cell as expected |
| ConvertScores.StackedColumns | Scripts/convert_scores_exp2.py:62-63 | the stacked labelled tables have the rows of all three and every column of any of them |
| ConvertScores.StackedRowAt | Scripts/convert_scores_exp2.py:62-63 | row i of the stack is the labelled row it came from |
| ConvertScores.StackedRows | Scripts/convert_scores_exp2.py:62-63 | the stack holds the human rows, then the AA rows, then the surrogate rows |
| ConvertScores.TrialColumnsUnlabelled | Scripts/convert_scores_exp2.py:69-70 | the trial columns are neither pair nor agent_type |
| ConvertScores.ConvertOutcome | Scripts/convert_scores_exp2.py:29-70 | the merge fails exactly when some trial column is in none of the three tables, with that column's KeyError |
| ConvertScores.SelectRowsFrom | Scripts/convert_scores_exp2.py:69-70 | a selection keeps what the selected columns of every row hold |
| ConvertScores.ConvertRows | Scripts/convert_scores_exp2.py:29-70 | a successful merge has exactly the kept columns and the human, AA and surrogate rows in that order, each with its kind, pair and trial values from its own table |
| ConvertScores.FilesAgree | Scripts/convert_scores_exp2.py:22-75 | the surrogate input and the output name follow the same choice of folder |
| ConvertScores.EnsurePairs | Scripts/convert_scores_exp2.py:30-32 | the loop gives each of the three tables its pair column, in place |
| ConvertScores.Script | Scripts/convert_scores_exp2.py:17-75 | the script fails with the merge's KeyError, or saves the merged table under the folder's output name |
| ConvertScores.Concat3 | Scripts/convert_scores_exp2.py:62-63 | concatenating three tables stacks their rows in order |
| ConvertScores.Concat3Header | Scripts/convert_scores_exp2.py:62-63 | the three-table concatenation has the columns of any of the three |
| ConvertScores.LabelledLength | Scripts/convert_scores_exp2.py:30-58 | labelling a table keeps its number of rows |
| ConvertScores.LabelledRowAt | Scripts/convert_scores_exp2.py:56-63 | a row copied from a labelled table holds, in every column, what the labelled row holds |
| Common.FirstErrorIs | Scripts/DTW_TSp_and_Surrogate.py:59-63 | a loop of steps that each may raise fails exactly when some step fails, and then with the error of one of its steps |
| Common.FirstErrorAt | Scripts/DTW_TSp_and_Surrogate.py:59-63 | the loop's error is the one of the first failing step |
| Common.Plus | Scripts/DTW_TSp_and_Surrogate.py:132 | float64 `+=` is finite exactly when both operands are, and then is their sum |
| Common.DivBy | Scripts/DTW_TSp_and_Surrogate.py:133 | float64 `/= trialscount` is finite exactly when the dividend is finite and the count is not zero |
| Common.DivByScales | Scripts/DTW_TSp_and_Surrogate.py:133 | a finite quotient times the count is the dividend |
| Common.SumFloats | Scripts/DTW_TSp_and_Surrogate.py:132 | a sum is finite exactly when every term is |
| Common.MeanOf | Scripts/DTW_TSp_and_Surrogate.py:138 | `mean()` is finite exactly when the array is non-empty and every entry is finite |
| Common.SumRealsAppend | Scripts/DTW_TSp_and_Surrogate.py:132 | summing a concatenation is adding the sums of its parts |
| Common.Trunc | Scripts/DTW_TSp_and_Surrogate.py:80 | `int()` of a float rounds toward zero: the result is within one of the value and not farther from zero |
| Common.Matrix | Scripts/DTW_TSp_and_Surrogate.py:57 | the value of a numpy matrix has its shape and, cell by cell, its entries |
| Common.TrialIndex | Scripts/DTW_TSp_and_Surrogate.py:96 | `trial - first_trial` is an index below 18 that gives back the trial |
| Common.AnalysedTrials | Scripts/DTW_TSp_and_Surrogate.py:63 | `range(first_trial, last_trial)` is the 18 trials 7 to 24 in order |
| Common.Digit | Scripts/traj_evals_binary_trace_scores.py:46 | a decimal digit prints as a character from 0 to 9 |
| Common.NatToString | Scripts/DTW_TSp_and_Surrogate.py:65 | `str(n)` is a non-empty run of digits |
| Common.TwoDigits | Scripts/traj_evals_binary_trace_scores.py:46 | `"{:02}".format(n)` pads one-digit numbers with a leading 0 and prints the others unchanged |
| Common.NatToStringLength | Scripts/traj_evals_binary_trace_scores.py:46 | `str(n)` has one digit exactly below 10 and two exactly from 10 to 99 |
| Common.NatToStringInjective | Scripts/DTW_TSp_and_Surrogate.py:65 | distinct naturals print differently, so trial identifiers are distinct |
| Common.IntToString | Scripts/DTW_TSp_and_Surrogate.py:65 | `str(n)` is non-empty and starts with a digit exactly when n is not negative |
| Common.IntToStringInjective | Scripts/DTW_TSp_and_Surrogate.py:65 | distinct integers print differently |
| Common.Background | Scripts/DTW_TSp_and_Surrogate.py:61 | the background sessions are the listed sessions other than the evaluee, never more than listed |
| Common.VisibleBackground | Scripts/exp1_human_human/binary_trace_evaluator_Exp1.py:58 | the background sessions are the listed sessions other than the evaluee whose names do not start with '.' |
| Common.CountPresent | Scripts/DTW_TSp_and_Surrogate.py:113-118 | `trialscount` never exceeds the number of background sessions |
| Common.PresentScores | Scripts/DTW_TSp_and_Surrogate.py:113-132 | one score for every background file that was read |
| Common.FirstMissing | Scripts/DTW_TSp_and_Surrogate.py:115-120 | finds the first background session with no file for the trial, all before it having one, or reports that every session has one |
| Common.SumFloatsSnoc | Scripts/DTW_TSp_and_Surrogate.py:132 | one more `+=` adds one more term to the sum |
| Common.PoolFoldIsSum | Scripts/DTW_TSp_and_Surrogate.py:113-132 | the running cell after the background loop is its start plus the sum of the readable files' scores |
| Common.SumOfOnes | Scripts/DTW_TSp_and_Surrogate.py:132 | adding 1 per file gives the number of files |
| Common.PresentIsTotalMinusMissing | Scripts/DTW_TSp_and_Surrogate.py:113-118 | with M of N background files missing, `trialscount` is N - M |
| Common.NoneMissingMeansAllCounted | Scripts/DTW_TSp_and_Surrogate.py:113-118 | with no file missing, `trialscount` is the number of background sessions |
| Common.BackgroundDropsOne | Scripts/DTW_TSp_and_Surrogate.py:61 | with distinct session names the background has one session fewer than the listing |
| Common.BackgroundKeepsAll | Scripts/DTW_TSp_and_Surrogate.py:61 | a name that is not listed removes nothing |
| Common.FolderFiles | Scripts/DTW_TSp_and_Surrogate.py:73-75 | the files found under HumanPlayerN are those of seat N |
| Common.TypeFiles | Scripts/DTW_TSp_and_Surrogate.py:72-75 | the files of all AA types under HumanPlayerN are those of seat N |
| Common.ExpFiles | Scripts/DTW_TSp_and_Surrogate.py:71-75 | every file visited for a trial belongs to seat 0 or seat 1 |
| Common.FolderFilesIgnoresOtherTypes | Scripts/DTW_TSp_and_Surrogate.py:72-73 | a session of another AA type adds no file to a type's folder |
| Common.TypeFilesIgnoresOtherTypes | Scripts/DTW_TSp_and_Surrogate.py:72-73 | a session of an unprocessed AA type adds no file to a seat's folders |
| Common.ExpFilesIgnoresOtherTypes | Scripts/DTW_TSp_and_Surrogate.py:25-75 | a session filed under an AA type outside `AA_types` contributes no file |
| Common.ExpLookupSeated | Scripts/DTW_TSp_and_Surrogate.py:71-75 | every file of every trial belongs to seat 0 or seat 1 |
| Cohorts.CohortOf | Scripts/DTW_TSp_and_Surrogate.py:153-161 | a name has a cohort exactly when it starts with Session1, Session2 or Session3, and the cohort is the first prefix it starts with |
| Cohorts.PrefixesExclusive | Scripts/DTW_TSp_and_Surrogate.py:153-161 | a name starts with at most one of the three prefixes, so branch order never matters |
| Cohorts.PrefixNotNumber | Scripts/DTW_TSp_and_Surrogate.py:153 | the test is on a prefix: Session12 and Session1_b are heuristic, Session4 and lower-case names are dropped |
| Cohorts.DictKeys | Scripts/DTW_TSp_and_Surrogate.py:42-45 | a dictionary filled name by name has every name once as a key and no other key |
| Cohorts.Members | Scripts/DTW_TSp_and_Surrogate.py:151-161 | a cohort never has more rows than there are keys |
| Cohorts.MembersAre | Scripts/DTW_TSp_and_Surrogate.py:151-161 | a row is in cohort c exactly when some key of cohort c carries it |
| Cohorts.PartitionSizes | Scripts/DTW_TSp_and_Surrogate.py:151-161 | every key goes to exactly one of the three cohorts or is dropped |
| Cohorts.CohortsDisjoint | Scripts/DTW_TSp_and_Surrogate.py:151-161 | no key is in two cohorts |
| Cohorts.Partition | Scripts/DTW_TSp_and_Surrogate.py:151-161 | the if/elif loop over the keys collects each cohort's rows in key order |
| Cohorts.HeuristicOnly | Scripts/exp2_human_aa/calcAllDTW.py:160-176 | the human-AA variant collects the Session1 rows and raises the ValueError exactly when there are none |
| Cohorts.DictKeysSession1 | Scripts/exp2_human_aa/calcAllDTW.py:160-176 | some key starts with Session1 exactly when some listed session does |
| Cohorts.HeuristicEmpty | Scripts/exp2_human_aa/calcAllDTW.py:167-176 | the heuristic cohort is non-empty exactly when some key starts with Session1 |
| Passes.PassAt | Scripts/DTW_TSp_and_Surrogate.py:59-63 | the k-th iteration of the evaluee/player/trial loops is for evaluee k / 36, a seat 0 or 1 and an analysed trial |
| Passes.Split36 | Scripts/DTW_TSp_and_Surrogate.py:59-63 | every evaluee has 36 iterations, numbered from evaluee * 36 |
| Passes.Split18 | Scripts/DTW_TSp_and_Surrogate.py:61-63 | every seat has 18 iterations, numbered from seat * 18 |
| Passes.PassIndex | Scripts/DTW_TSp_and_Surrogate.py:59-63 | iteration (evaluee, player, trial) comes at number evaluee * 36 + player * 18 + trial - 7 |
| Passes.Schedule | Scripts/DTW_TSp_and_Surrogate.py:59-63 | the loops over n evaluees make 36 n iterations, each for a listed evaluee, a seat and an analysed trial |
| Passes.ScheduleCovers | Scripts/DTW_TSp_and_Surrogate.py:59-63 | every evaluee, seat and trial is visited |
| Passes.Sweep | Scripts/DTW_TSp_and_Surrogate.py:63 | the trial loop of one evaluee and seat makes 18 iterations, the i-th for trial 7 + i |
| Passes.ScheduleNext | Scripts/DTW_TSp_and_Surrogate.py:59-63 | one more evaluee appends its seat-0 trial loop and then its seat-1 trial loop to the iterations |
| ScoreTables.Zeros | Scripts/DTW_TSp_and_Surrogate.py:45 | `np.zeros(num_trials)` is 18 zeros |
| ScoreTables.NewTables | Scripts/DTW_TSp_and_Surrogate.py:42-54 | both dictionaries hold a row of zeros for every discovered AA session and no other key |
| ScoreTables.RoutingComplementary | Scripts/DTW_TSp_and_Surrogate.py:85-99 | for seats 0 and 1 a file goes to human_scores exactly when player equals its HumanPlayer folder, and to AA_scores otherwise |
| ScoreTables.Update | Scripts/DTW_TSp_and_Surrogate.py:96-111 | updating `d[session][trial - first_trial]` raises KeyError for an unknown session and otherwise changes that cell only |
| ScoreTables.FileStep | Scripts/DTW_TSp_and_Surrogate.py:85-111 | a file routed to human_scores leaves AA_scores alone and the other way round; a file of neither route changes nothing |
| ScoreTables.FilesFoldOk | Scripts/DTW_TSp_and_Surrogate.py:74-111 | a pass over the files fails exactly on a routed file of an unknown session, and otherwise keeps both dictionaries' keys and row lengths |
| ScoreTables.FilesFoldKeeps | Scripts/DTW_TSp_and_Surrogate.py:75-111 | the files of a trial leave a session's cell of another trial, or of a session with no file among them, unchanged in both dictionaries |
| ScoreTables.FilesFoldOwnCell | Scripts/DTW_TSp_and_Surrogate.py:75-111 | when a file is its session's only one in the trial's list, the pass applies its step once to that session's cell of the trial, in human_scores exactly when routed there and in AA_scores exactly when routed there, and leaves the other dictionary's cell alone |
| ScoreTables.KnownForPlayer | Scripts/DTW_TSp_and_Surrogate.py:71-111 | with every file in seat 0 or 1, both seats' passes need the same sessions to be known |
| ScoreTables.RowsOf | Scripts/DTW_TSp_and_Surrogate.py:151-161 | the rows read in key order are the dictionary's rows for those keys |

## Left out

- File system and pandas I/O: CSV reading and writing, `rglob`, `os.listdir` and `os.walk` are left out. Discovery is a listing of sessions that map a trial to its file; an absent key is a file the glob does not find. The listing order is a parameter, not the operating system's order.
- Directory creation, output directories and Windows path separators are left out. The skip-if-the-output-exists gates are a parameter: the set of output files present when the script starts.
- The DTW algorithms (`fastdtw`, `similaritymeasures.dtw`), `trace`, `get_chaser`, `get_chaser_v2` and `get_num_targets` are external code. They are uninterpreted parameters, and d ≥ 0 is assumed where a bound needs it.
- Floating-point rounding is left out: values are exact reals, and NaN and inf share one `NonFinite` value. `sqrt` is not computed. Distances are compared through their squares, and the mask threshold sqrt(c) > 10 is stated as c > 100 for integer counts.
- A `KeyError` on a missing CSV column is not modelled. Trial files are assumed to have the columns the scripts read, except for the lookups whose failure the model states: score dictionaries, trial files and frame columns in the merge.
- `int(numTargs)` reads the first row's value. The model takes it as the file's integer target count, after the truncation modelled by `Common.Trunc`.
- An `assert` failure and a `ValueError` are both the `ConsistencyViolation` error. The model does not distinguish the exception type.
- DtwTspSurrogate.DictionaryCells: the closed form covers a session with one human-AA file for the trial. With several files of one session, their steps interleave in file order. The fold models that case, but no lemma closes it.
- ComparePoliciesHH.TrialLoop: on the error path the contract states the error but not what the frame holds.
- The experiment-1 cohort reduction builds `pd.DataFrame(..., columns=cols)` from lists that may be empty. The resulting pandas error is plumbing and is not modelled.
- In the merge, a missing input file (`FileNotFoundError` from `read_csv`), pandas dtypes and the order of columns that are dropped by the final projection are left out.
- The session and trial driver loops of the engagement scripts and their file writes are left out. The model covers one trial file's rows and their collapse.
- Logging, `print`, `tqdm`, `argparse`, plots, statistics (pingouin, scipy, matplotlib) and the environment checks of check_setup.py are I/O only and are left out.
- Scripts/config.py holds only constants. Its values (60, 45, 5, 10) appear as constants in `TrajUtils`.
