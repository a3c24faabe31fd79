/**
 * The human-AA experiment's copy of the binary-trace overlap scores. The
 * session listing drops hidden ('.') entries, and missing files are skipped
 * rather than raised:
 *   - a background session without the trial's file adds nothing to the pool
 *     and is not counted in `files_found`;
 *   - a trial whose pool is empty (`files_found == 0`) is skipped, leaving its cells;
 *   - an evaluee without the trial's file leaves its surrogate cell unchanged.
 * Only the Heuristic AA type is read; the surrogate matrix is saved, then only
 * "Session1" rows are kept and an empty collection raises a ValueError.
 */
module TraceScoresHumanAA {
  import opened Common
  import opened ScoreTables
  import opened TrajUtils
  import Cohorts
  import TraceScores

  /** `AA_types = ["Heuristic"]`. */
  const AATypes: seq<string> := ["Heuristic"]

  /** `[s for s in os.listdir(humanDataDir) if not s.startswith('.')]`, in listing order. */
  function Visible(sessions: seq<Session>): (v: seq<Session>)
    ensures |v| <= |sessions|
    ensures forall s :: s in v <==> s in sessions && !IsHidden(s.name)
  {
    if |sessions| == 0 then []
    else
      var rest := Visible(sessions[..|sessions| - 1]);
      var last := sessions[|sessions| - 1];
      assert sessions == sessions[..|sessions| - 1] + [last];
      if IsHidden(last.name) then rest else rest + [last]
  }

  /** X and Z over the pool's files of trial t, with the number of files found. */
  method GatherPresent(pool: seq<Session>, t: int, player: nat) returns (xs: seq<real>, zs: seq<real>, found: nat)
    ensures xs == TraceScores.PoolColumn(pool, t, TraceScores.PlayerAgent(player) + "x")
    ensures zs == TraceScores.PoolColumn(pool, t, TraceScores.PlayerAgent(player) + "z")
    ensures found == CountPresent(pool, t)
  {
    var cx, cz := TraceScores.PlayerAgent(player) + "x", TraceScores.PlayerAgent(player) + "z";
    xs, zs, found := [], [], 0;
    for i := 0 to |pool|
      invariant xs == TraceScores.PoolColumn(pool[..i], t, cx) && zs == TraceScores.PoolColumn(pool[..i], t, cz)
      invariant found == CountPresent(pool[..i], t)
    {
      assert pool[..i + 1][..i] == pool[..i];
      if t in pool[i].files {
        found := found + 1;
        xs := xs + Col(pool[i].files[t], cx);
        zs := zs + Col(pool[i].files[t], cz);
      }
    }
    assert pool[..|pool|] == pool;
  }

  // ---------------------------------------------------------------------------
  // The surrogate matrix `humanTeamTraces`
  // ---------------------------------------------------------------------------

  /**
   * What `player`'s pass adds to evaluee c's cell of trial t: nothing when no
   * background file or no evaluee file was found, otherwise the evaluee
   * player's trace against the pool of the files found.
   */
  function PlayerScore(hh: seq<Session>, c: nat, t: int, player: nat, score: TraceScorer): real
    requires c < |hh|
  {
    var bg := VisibleBackground(hh, hh[c].name);
    if CountPresent(bg, t) == 0 || t !in hh[c].files then 0.0
    else TraceScores.PoolScore(score, bg, t, player, hh[c].files[t], TraceScores.PlayerAgent(player))
  }

  /** The cell of evaluee c for trial t after `passes` player passes (pass p uses player p - 1). */
  function TeamPass(hh: seq<Session>, c: nat, t: int, passes: nat, score: TraceScorer): real
    requires c < |hh|
  {
    if passes == 0 then 0.0
    else TeamPass(hh, c, t, passes - 1, score) + PlayerScore(hh, c, t, passes - 1, score)
  }

  function TeamCell(hh: seq<Session>, c: nat, t: int, score: TraceScorer): real
    requires c < |hh|
  {
    TeamPass(hh, c, t, 2, score) / 2.0
  }

  function TeamRow(hh: seq<Session>, c: nat, score: TraceScorer): seq<real>
    requires c < |hh|
  {
    seq(NumTrials, j requires 0 <= j < NumTrials => TeamCell(hh, c, FirstTrial + j, score))
  }

  /** `get_surrogate_human_team_traces()` over the visible sessions: one row of 18 cells each, in listing order. */
  function TeamRows(hh: seq<Session>, score: TraceScorer): seq<seq<real>>
  {
    seq(|hh|, c requires 0 <= c < |hh| => TeamRow(hh, c, score))
  }

  /**
   * A surrogate cell is the sum of the two players' available traces over 2:
   * a skipped player contributes 0. The pool leaves out the evaluee and hidden
   * entries, and counts only the background files found.
   */
  lemma TeamCellIsMean(hh: seq<Session>, c: nat, t: int, score: TraceScorer)
    requires c < |hh|
    ensures TeamCell(hh, c, t, score) == (PlayerScore(hh, c, t, 0, score) + PlayerScore(hh, c, t, 1, score)) / 2.0
    ensures forall p :: p < 2 && PlayerScore(hh, c, t, p, score) != 0.0 ==>
      t in hh[c].files && CountPresent(VisibleBackground(hh, hh[c].name), t) > 0
    ensures t !in hh[c].files ==> TeamCell(hh, c, t, score) == 0.0
    ensures var bg := VisibleBackground(hh, hh[c].name);
      CountPresent(bg, t) == |bg| - CountMissing(bg, t) &&
      forall s :: s in bg ==> s.name != hh[c].name && !IsHidden(s.name)
  {
    assert TeamPass(hh, c, t, 1, score) == PlayerScore(hh, c, t, 0, score);
    PresentIsTotalMinusMissing(VisibleBackground(hh, hh[c].name), t);
  }

  /** Iteration (c, trial) of `player`'s pass: gather the pool, skip when it or the evaluee's file is missing. */
  method PassCell(hh: seq<Session>, c: nat, player: nat, trial: int, cell: real, score: TraceScorer) returns (v: real)
    requires c < |hh| && cell == TeamPass(hh, c, trial, player, score)
    ensures v == TeamPass(hh, c, trial, player + 1, score)
  {
    var ev := hh[c];
    var bg := VisibleBackground(hh, ev.name);
    var xs, zs, found := GatherPresent(bg, trial, player);
    if found == 0 {
      return cell;
    }
    if trial !in ev.files {
      return cell;
    }
    return cell + TraceScore(score, xs, zs, ev.files[trial], TraceScores.PlayerAgent(player));
  }

  /** `for trial in range(first_trial, last_trial)` for one evaluee and player. */
  method PlayerPass(hh: seq<Session>, c: nat, player: nat, team: array2<real>, score: TraceScorer)
    requires c < |hh| && player < 2
    requires team.Length0 == |hh| && team.Length1 == NumTrials
    requires forall t :: IsAnalysedTrial(t) ==> team[c, TrialIndex(t)] == TeamPass(hh, c, t, player, score)
    modifies team
    ensures forall t :: IsAnalysedTrial(t) ==> team[c, TrialIndex(t)] == TeamPass(hh, c, t, player + 1, score)
    ensures forall i, j :: 0 <= i < |hh| && i != c && 0 <= j < NumTrials ==> team[i, j] == old(team[i, j])
  {
    for trial := FirstTrial to LastTrial + 1
      invariant forall t :: FirstTrial <= t < trial ==> team[c, TrialIndex(t)] == TeamPass(hh, c, t, player + 1, score)
      invariant forall t :: trial <= t <= LastTrial ==> team[c, TrialIndex(t)] == TeamPass(hh, c, t, player, score)
      invariant forall i, j :: 0 <= i < |hh| && i != c && 0 <= j < NumTrials ==> team[i, j] == old(team[i, j])
    {
      var ti := TrialIndex(trial);
      var v := PassCell(hh, c, player, trial, team[c, ti], score);
      team[c, ti] := v;
      forall t | FirstTrial <= t <= trial
        ensures team[c, TrialIndex(t)] == TeamPass(hh, c, t, player + 1, score)
      {
        if t == trial {
          assert team[c, TrialIndex(trial)] == TeamPass(hh, c, trial, player + 1, score);
        }
      }
    }
  }

  /** `for count, evaluee_session in enumerate(all_sessions): for player in (0, 1): ...` over a zero matrix. */
  method EvalueeLoop(hh: seq<Session>, team: array2<real>, score: TraceScorer)
    requires team.Length0 == |hh| && team.Length1 == NumTrials
    requires forall i, j :: 0 <= i < |hh| && 0 <= j < NumTrials ==> team[i, j] == 0.0
    modifies team
    ensures forall i, j :: 0 <= i < |hh| && 0 <= j < NumTrials ==> team[i, j] == TeamPass(hh, i, FirstTrial + j, 2, score)
  {
    for c := 0 to |hh|
      invariant forall i, t :: 0 <= i < c && IsAnalysedTrial(t) ==> team[i, TrialIndex(t)] == TeamPass(hh, i, t, 2, score)
      invariant forall i, j :: c <= i < |hh| && 0 <= j < NumTrials ==> team[i, j] == 0.0
    {
      PlayerPass(hh, c, 0, team, score);
      PlayerPass(hh, c, 1, team, score);
      forall i, t | 0 <= i <= c && IsAnalysedTrial(t)
        ensures team[i, TrialIndex(t)] == TeamPass(hh, i, t, 2, score)
      {
        if i == c {
          assert team[c, TrialIndex(t)] == TeamPass(hh, c, t, 2, score);
        }
      }
    }
    forall i, j | 0 <= i < |hh| && 0 <= j < NumTrials ensures team[i, j] == TeamPass(hh, i, FirstTrial + j, 2, score) {
      assert TrialIndex(FirstTrial + j) == j;
    }
  }

  /** Cell (c, j) of the returned rows is trial 7 + j's half-sum. */
  lemma TeamRowsAt(hh: seq<Session>, c: nat, j: nat, score: TraceScorer)
    requires c < |hh| && j < NumTrials
    ensures |TeamRows(hh, score)| == |hh| && |TeamRows(hh, score)[c]| == NumTrials
    ensures TeamRows(hh, score)[c][j] == TeamCell(hh, c, FirstTrial + j, score)
  {
    var row := TeamRow(hh, c, score);
    assert TeamRows(hh, score)[c] == row;
    assert row[j] == TeamCell(hh, c, FirstTrial + j, score);
  }

  /** Halving the matrix of two full passes gives the returned rows. */
  lemma HalvedTeamRows(hh: seq<Session>, m: seq<seq<real>>, score: TraceScorer)
    requires |m| == |hh| && forall i :: 0 <= i < |m| ==> |m[i]| == NumTrials
    requires forall i, j :: 0 <= i < |hh| && 0 <= j < NumTrials ==> m[i][j] == TeamPass(hh, i, FirstTrial + j, 2, score)
    ensures TraceScores.Halved(m) == TeamRows(hh, score)
  {
    var x := TeamRows(hh, score);
    forall i, j | 0 <= i < |m| && 0 <= j < |m[i]| ensures x[i][j] == m[i][j] / 2.0 {
      TeamRowsAt(hh, i, j, score);
    }
    TraceScores.HalvedIs(m, x);
  }

  /** `get_surrogate_human_team_traces()`: the evaluee loop over `np.zeros((len(all_sessions), 18))`, then `/ 2`. */
  method TeamMatrix(hh: seq<Session>, score: TraceScorer) returns (rows: seq<seq<real>>)
    ensures rows == TeamRows(hh, score)
  {
    var team := new real[|hh|, NumTrials]((i, j) => 0.0);
    EvalueeLoop(hh, team, score);
    var m := Matrix(team);
    HalvedTeamRows(hh, m, score);
    return TraceScores.Halved(m);
  }

  // ---------------------------------------------------------------------------
  // The dictionaries `human_scores_better` and `AA_scores_better`
  // ---------------------------------------------------------------------------

  /** One trial of `player`'s pass: skipped when no human-human file was found, otherwise every human-AA file is scored. */
  function AATrial(st: Tables, hh: seq<Session>, files: Lookup, player: nat, t: int, score: TraceScorer): Result<Tables>
    requires IsAnalysedTrial(t)
  {
    if CountPresent(hh, t) == 0 then Ok(st)
    else
      var cx, cz := TraceScores.PlayerAgent(player) + "x", TraceScores.PlayerAgent(player) + "z";
      FilesFold(st, files(t), player, t, TraceScores.TraceStep(score, TraceScores.PoolColumn(hh, t, cx), TraceScores.PoolColumn(hh, t, cz)))
  }

  function TrialsRun(st: Tables, hh: seq<Session>, files: Lookup, player: nat, t: int, score: TraceScorer): Result<Tables>
    requires FirstTrial <= t <= LastTrial + 1
    decreases LastTrial + 1 - t
  {
    if t > LastTrial then Ok(st)
    else
      var st' :- AATrial(st, hh, files, player, t, score);
      TrialsRun(st', hh, files, player, t + 1, score)
  }

  /** `for player in (0, 1): for trial in range(first_trial, last_trial): ...` in `main()`. */
  function AARun(st: Tables, hh: seq<Session>, files: Lookup, score: TraceScorer): Result<Tables>
  {
    var st1 :- TrialsRun(st, hh, files, 0, FirstTrial, score);
    TrialsRun(st1, hh, files, 1, FirstTrial, score)
  }

  /** A trial with an empty pool changes nothing; otherwise it fails exactly on a human-AA file of an unknown session. */
  lemma AATrialOk(st: Tables, hh: seq<Session>, files: Lookup, player: nat, t: int, score: TraceScorer, keys: set<string>)
    requires IsAnalysedTrial(t) && Shaped(st, keys) && player < 2 && Seated(files)
    ensures var r := AATrial(st, hh, files, player, t, score);
      (CountPresent(hh, t) == 0 ==> r == Ok(st)) &&
      (r.Ok? <==> TrialFine(hh, files, t, keys)) &&
      (r.Ok? ==> Shaped(r.value, keys))
  {
    if CountPresent(hh, t) > 0 {
      var cx, cz := TraceScores.PlayerAgent(player) + "x", TraceScores.PlayerAgent(player) + "z";
      var step := TraceScores.TraceStep(score, TraceScores.PoolColumn(hh, t, cx), TraceScores.PoolColumn(hh, t, cz));
      FilesFoldOk(st, files(t), player, t, step, keys);
      KnownForPlayer(files, t, player, keys);
    }
  }

  /** Trial t is skipped, or all its human-AA files have a dictionary entry. */
  ghost predicate TrialFine(hh: seq<Session>, files: Lookup, t: int, keys: set<string>)
  {
    CountPresent(hh, t) == 0 || KnownAt(files, t, keys)
  }

  /** The pass of `player` from trial t on fails exactly when a later trial is not fine. */
  lemma {:induction false} TrialsRunOk(st: Tables, hh: seq<Session>, files: Lookup, player: nat, t: int, score: TraceScorer, keys: set<string>)
    requires FirstTrial <= t <= LastTrial + 1 && Shaped(st, keys) && player < 2 && Seated(files)
    ensures TrialsRun(st, hh, files, player, t, score).Ok? <==> forall u :: t <= u <= LastTrial ==> TrialFine(hh, files, u, keys)
    decreases LastTrial + 1 - t
  {
    if t <= LastTrial {
      AATrialOk(st, hh, files, player, t, score, keys);
      var r0 := AATrial(st, hh, files, player, t, score);
      if r0.Ok? {
        TrialsRunOk(r0.value, hh, files, player, t + 1, score, keys);
        assert TrialsRun(st, hh, files, player, t, score) == TrialsRun(r0.value, hh, files, player, t + 1, score);
        if forall u :: t + 1 <= u <= LastTrial ==> TrialFine(hh, files, u, keys) {
          forall u | t <= u <= LastTrial ensures TrialFine(hh, files, u, keys) {
            if u != t {
              assert t + 1 <= u <= LastTrial;
            }
          }
        }
      } else {
        assert !TrialFine(hh, files, t, keys);
      }
    }
  }

  /** The pass keeps both dictionaries keyed by `keys` with one cell per analysed trial. */
  lemma {:induction false} TrialsRunShaped(st: Tables, hh: seq<Session>, files: Lookup, player: nat, t: int, score: TraceScorer, keys: set<string>)
    requires FirstTrial <= t <= LastTrial + 1 && Shaped(st, keys) && player < 2 && Seated(files)
    requires TrialsRun(st, hh, files, player, t, score).Ok?
    ensures Shaped(TrialsRun(st, hh, files, player, t, score).value, keys)
    decreases LastTrial + 1 - t
  {
    if t <= LastTrial {
      AATrialOk(st, hh, files, player, t, score, keys);
      var r0 := AATrial(st, hh, files, player, t, score);
      assert TrialsRun(st, hh, files, player, t, score) == TrialsRun(r0.value, hh, files, player, t + 1, score);
      TrialsRunShaped(r0.value, hh, files, player, t + 1, score, keys);
    }
  }

  /** The human-AA part fails exactly on a human-AA file of an unknown session in a trial whose pool is not empty. */
  lemma AARunOk(st: Tables, hh: seq<Session>, files: Lookup, score: TraceScorer, keys: set<string>)
    requires Shaped(st, keys) && Seated(files)
    ensures var r := AARun(st, hh, files, score);
      (r.Ok? <==> forall t :: IsAnalysedTrial(t) ==> TrialFine(hh, files, t, keys)) &&
      (r.Ok? ==> Shaped(r.value, keys))
  {
    TrialsRunOk(st, hh, files, 0, FirstTrial, score, keys);
    var r0 := TrialsRun(st, hh, files, 0, FirstTrial, score);
    if r0.Ok? {
      TrialsRunShaped(st, hh, files, 0, FirstTrial, score, keys);
      TrialsRunOk(r0.value, hh, files, 1, FirstTrial, score, keys);
      if TrialsRun(r0.value, hh, files, 1, FirstTrial, score).Ok? {
        TrialsRunShaped(r0.value, hh, files, 1, FirstTrial, score, keys);
      }
    }
  }

  /** One trial of `player`'s pass in `main()`: X and Z from the files found, the skip, then the human-AA files. */
  method ScoreTrial(st: Tables, hh: seq<Session>, fs: seq<HumanAAFile>, player: nat, t: int, score: TraceScorer)
    returns (r: Result<Tables>)
    requires IsAnalysedTrial(t)
    ensures forall files: Lookup :: files(t) == fs ==> r == AATrial(st, hh, files, player, t, score)
  {
    var xs, zs, found := GatherPresent(hh, t, player);
    if found == 0 {
      return Ok(st);
    }
    r := TraceScores.ScoreFiles(st, fs, player, t, score, xs, zs);
  }

  lemma TrialsRunStep(st: Tables, hh: seq<Session>, files: Lookup, player: nat, t: int, score: TraceScorer)
    requires IsAnalysedTrial(t)
    ensures var r := AATrial(st, hh, files, player, t, score);
      (r.Err? ==> TrialsRun(st, hh, files, player, t, score) == r) &&
      (r.Ok? ==> TrialsRun(st, hh, files, player, t, score) == TrialsRun(r.value, hh, files, player, t + 1, score))
  {
  }

  /** `rem` stands for TrialsRun wherever the loop needs it, without unfolding the run. */
  ghost predicate FollowsTrials(rem: TraceScores.TrialsFrom, hh: seq<Session>, files: Lookup, player: nat, score: TraceScorer)
  {
    forall st: Tables, t: int {:trigger TrialsRun(st, hh, files, player, t, score)} ::
      FirstTrial <= t <= LastTrial + 1 ==> rem(st, t) == TrialsRun(st, hh, files, player, t, score)
  }

  lemma TrialsStandIn(hh: seq<Session>, files: Lookup, player: nat, score: TraceScorer) returns (rem: TraceScores.TrialsFrom)
    ensures FollowsTrials(rem, hh, files, player, score)
  {
    rem := (st: Tables, t: int) => if FirstTrial <= t <= LastTrial + 1 then TrialsRun(st, hh, files, player, t, score) else Ok(st);
  }

  /** `for trial in range(first_trial, last_trial)` for one player. */
  method ScoreTrials(st0: Tables, hh: seq<Session>, listing: seq<HumanAASession>, player: nat, score: TraceScorer)
    returns (r: Result<Tables>)
    ensures r == TrialsRun(st0, hh, ExpLookup(listing, AATypes), player, FirstTrial, score)
  {
    ghost var files := ExpLookup(listing, AATypes);
    ghost var rem := TrialsStandIn(hh, files, player, score);
    var st := st0;
    for trial := FirstTrial to LastTrial + 1
      invariant rem(st0, FirstTrial) == rem(st, trial)
    {
      var step := ScoreTrial(st, hh, ExpFiles(listing, AATypes, trial), player, trial, score);
      assert step == AATrial(st, hh, files, player, trial, score);
      TrialsRunStep(st, hh, files, player, trial, score);
      if step.Err? {
        return step;
      }
      st := step.value;
    }
    assert rem(st, LastTrial + 1) == TrialsRun(st, hh, files, player, LastTrial + 1, score);
    return Ok(st);
  }

  method AAScores(hh: seq<Session>, listing: seq<HumanAASession>, names: seq<string>, score: TraceScorer)
    returns (r: Result<Tables>)
    ensures r == AARun(NewTables(names), hh, ExpLookup(listing, AATypes), score)
  {
    var st := NewTables(names);
    var first := ScoreTrials(st, hh, listing, 0, score);
    if first.Err? {
      return first;
    }
    r := ScoreTrials(first.value, hh, listing, 1, score);
  }

  // ---------------------------------------------------------------------------
  // `__main__`
  // ---------------------------------------------------------------------------

  /** The heuristic AA and human lists. */
  datatype Heuristic = Heuristic(aa: seq<seq<Float>>, human: seq<seq<Float>>)

  /** What the script leaves behind: the saved surrogate matrix, then the heuristic lists or the ValueError. */
  datatype Outcome = Outcome(team: seq<seq<real>>, heuristic: Result<Heuristic>)

  /** The "Session1" rows of both dictionaries, or the ValueError when there are none. */
  function HeuristicOf(keys: seq<string>, tables: Tables): Result<Heuristic>
    requires forall i :: 0 <= i < |keys| ==> keys[i] in tables.aa && keys[i] in tables.human
  {
    var aa := Cohorts.Members(keys, RowsOf(keys, tables.aa), 0);
    var human := Cohorts.Members(keys, RowsOf(keys, tables.human), 0);
    if |aa| > 0 then Ok(Heuristic(aa, human)) else Err(EmptyCohort("Session1"))
  }

  /** The whole script over the raw listing of the human-human folder. */
  function Run(sessions: seq<Session>, listing: seq<HumanAASession>, names: seq<string>, score: TraceScorer): Result<Outcome>
  {
    var hh := Visible(sessions);
    var tables :- AARun(NewTables(names), hh, ExpLookup(listing, AATypes), score);
    ExpLookupSeated(listing, AATypes);
    AARunOk(NewTables(names), hh, ExpLookup(listing, AATypes), score, KeySet(names));
    Ok(Outcome(TeamRows(hh, score), HeuristicOf(Cohorts.DictKeys(names), tables)))
  }

  /** The heuristic lists exist exactly when some session name starts with "Session1". */
  lemma HeuristicOfOk(names: seq<string>, tables: Tables)
    requires forall n :: n in names ==> n in tables.aa && n in tables.human
    ensures var keys := Cohorts.DictKeys(names);
      (forall i :: 0 <= i < |keys| ==> keys[i] in tables.aa && keys[i] in tables.human) &&
      (HeuristicOf(keys, tables).Ok? <==> exists n :: n in names && StartsWith(n, "Session1")) &&
      (HeuristicOf(keys, tables).Err? ==> HeuristicOf(keys, tables).error == EmptyCohort("Session1"))
  {
    var keys := Cohorts.DictKeys(names);
    assert forall i :: 0 <= i < |keys| ==> keys[i] in names;
    var rows := RowsOf(keys, tables.aa);
    Cohorts.HeuristicEmpty(keys, rows);
    Cohorts.DictKeysSession1(names);
  }

  /**
   * The script raises only the KeyError of a human-AA file whose session has no
   * entry, in a trial with human-human data; otherwise the surrogate matrix
   * has one row per visible session, and the heuristic lists exist exactly
   * when some session name starts with "Session1".
   */
  lemma RunOk(sessions: seq<Session>, listing: seq<HumanAASession>, names: seq<string>, score: TraceScorer)
    ensures var hh := Visible(sessions);
      Run(sessions, listing, names, score).Ok? <==>
        forall t :: IsAnalysedTrial(t) ==> TrialFine(hh, ExpLookup(listing, AATypes), t, KeySet(names))
    ensures var r := Run(sessions, listing, names, score);
      r.Ok? ==>
        r.value.team == TeamRows(Visible(sessions), score) &&
        |r.value.team| == |Visible(sessions)| &&
        (r.value.heuristic.Ok? <==> exists n :: n in names && StartsWith(n, "Session1")) &&
        (r.value.heuristic.Err? ==> r.value.heuristic.error == EmptyCohort("Session1"))
  {
    var hh := Visible(sessions);
    ExpLookupSeated(listing, AATypes);
    AARunOk(NewTables(names), hh, ExpLookup(listing, AATypes), score, KeySet(names));
    var r := AARun(NewTables(names), hh, ExpLookup(listing, AATypes), score);
    if r.Ok? {
      HeuristicOfOk(names, r.value);
    }
  }

  /** The `for session in AA_scores_better.keys()` loop keeping "Session1" rows, then the length check. */
  method HeuristicLists(keys: seq<string>, tables: Tables) returns (r: Result<Heuristic>)
    requires forall i :: 0 <= i < |keys| ==> keys[i] in tables.aa && keys[i] in tables.human
    ensures r == HeuristicOf(keys, tables)
  {
    var aaRows := RowsOf(keys, tables.aa);
    var humanRows := RowsOf(keys, tables.human);
    var aa := Cohorts.HeuristicOnly(keys, aaRows);
    Cohorts.HeuristicEmpty(keys, aaRows);
    if aa.Err? {
      return Err(aa.error);
    }
    var human, _, _ := Cohorts.Partition(keys, humanRows);
    return Ok(Heuristic(aa.value, human));
  }

  /** `__main__`: `main()` over the visible sessions, which ends with the surrogate matrix, then the heuristic lists. */
  method TraceAll(sessions: seq<Session>, listing: seq<HumanAASession>, names: seq<string>, score: TraceScorer)
    returns (res: Result<Outcome>)
    ensures res == Run(sessions, listing, names, score)
  {
    var hh := Visible(sessions);
    var tables := AAScores(hh, listing, names, score);
    if tables.Err? {
      return Err(tables.error);
    }
    var team := TeamMatrix(hh, score);
    ExpLookupSeated(listing, AATypes);
    AARunOk(NewTables(names), hh, ExpLookup(listing, AATypes), score, KeySet(names));
    var heuristic := HeuristicLists(Cohorts.DictKeys(names), tables.value);
    return Ok(Outcome(team, heuristic));
  }
}
