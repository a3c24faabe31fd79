/**
 * The binary-trace overlap scores of the human-human experiment.
 *   - The dictionaries `human_scores_better` and `AA_scores_better`: for each
 *     player and analysed trial the X and Z positions of that player in every
 *     human-human session are pooled, and every human-AA file of the trial adds
 *     to its session's human or AA cell the binary trace of its human ("p0") or
 *     agent ("hA0") path against that pool.
 *   - The surrogate matrix `humanTeamTraces`: every human-human session in turn
 *     is the evaluee; the pool is every other session, and the cell adds the
 *     evaluee player's own trace; the matrix is halved at the end.
 * Every file is looked up with `[0]` on its match list, so a missing file
 * raises and ends the run.
 */
module TraceScores {
  import opened Common
  import opened ScoreTables
  import opened TrajUtils
  import Cohorts

  /** The AA types whose human-AA policy folders are visited, in order. */
  const AATypes: seq<string> := ["Heuristic", "Human-Sensitive", "SelfPlay"]

  /** `"p" + str(player)`: the column prefix of a human-human player. */
  function PlayerAgent(player: nat): string
  {
    "p" + NatToString(player)
  }

  // ---------------------------------------------------------------------------
  // The pooled positions X and Z
  // ---------------------------------------------------------------------------

  /** `X = np.append(X, data[col])` over the pool's files of trial t, in pool order; a session without the file adds nothing. */
  function PoolColumn(pool: seq<Session>, t: int, col: string): seq<real>
  {
    if |pool| == 0 then []
    else
      var s := pool[|pool| - 1];
      PoolColumn(pool[..|pool| - 1], t, col) + (if t in s.files then Col(s.files[t], col) else [])
  }

  /** The positions of `agent` in the pool's files of trial t, file after file. */
  function PoolPositions(pool: seq<Session>, t: int, agent: string): seq<Sample>
  {
    if |pool| == 0 then []
    else
      var s := pool[|pool| - 1];
      PoolPositions(pool[..|pool| - 1], t, agent) + (if t in s.files then Positions(s.files[t], agent) else [])
  }

  /** Every file of the pool for trial t has both position columns of `agent`. */
  ghost predicate PoolReadable(pool: seq<Session>, t: int, agent: string)
  {
    forall i :: 0 <= i < |pool| && t in pool[i].files ==>
      HasColumn(pool[i].files[t], agent + "x") && HasColumn(pool[i].files[t], agent + "z")
  }

  /**
   * Appending the X and the Z columns separately and pairing them afterwards
   * gives the files' positions concatenated in pool order.
   */
  lemma {:induction false} PoolIsConcatenation(pool: seq<Session>, t: int, agent: string)
    requires PoolReadable(pool, t, agent)
    ensures |PoolColumn(pool, t, agent + "x")| == |PoolColumn(pool, t, agent + "z")|
    ensures Pairs(PoolColumn(pool, t, agent + "x"), PoolColumn(pool, t, agent + "z")) == PoolPositions(pool, t, agent)
  {
    if |pool| > 0 {
      var n := |pool| - 1;
      assert PoolReadable(pool[..n], t, agent) by {
        assert forall i :: 0 <= i < n ==> pool[..n][i] == pool[i];
      }
      PoolIsConcatenation(pool[..n], t, agent);
      var s := pool[n];
      var xs := if t in s.files then Col(s.files[t], agent + "x") else [];
      var zs := if t in s.files then Col(s.files[t], agent + "z") else [];
      PairsConcat(PoolColumn(pool[..n], t, agent + "x"), PoolColumn(pool[..n], t, agent + "z"), xs, zs);
    }
  }

  /** `get_binary_trace(X, Z, data, agent)` with X and Z pooled from `player`'s columns of the pool's files. */
  function PoolScore(score: TraceScorer, pool: seq<Session>, t: int, player: nat, data: Frame, agent: string): real
  {
    TraceScore(score, PoolColumn(pool, t, PlayerAgent(player) + "x"), PoolColumn(pool, t, PlayerAgent(player) + "z"), data, agent)
  }

  /** `for filePath in filePaths: trialData = read_csv(filePath[0]); X = np.append(...); Z = np.append(...)`. */
  method GatherAll(pool: seq<Session>, t: int, player: nat) returns (r: Result<(seq<real>, seq<real>)>)
    ensures FirstMissing(pool, t).Some? ==> r == Err(MissingFile(pool[FirstMissing(pool, t).value].name, t))
    ensures FirstMissing(pool, t).None? ==> r == Ok((PoolColumn(pool, t, PlayerAgent(player) + "x"), PoolColumn(pool, t, PlayerAgent(player) + "z")))
  {
    var cx, cz := PlayerAgent(player) + "x", PlayerAgent(player) + "z";
    var xs, zs := [], [];
    for i := 0 to |pool|
      invariant forall j :: 0 <= j < i ==> t in pool[j].files
      invariant xs == PoolColumn(pool[..i], t, cx) && zs == PoolColumn(pool[..i], t, cz)
    {
      assert pool[..i + 1][..i] == pool[..i];
      if t !in pool[i].files {
        return Err(MissingFile(pool[i].name, t));
      }
      xs := xs + Col(pool[i].files[t], cx);
      zs := zs + Col(pool[i].files[t], cz);
    }
    assert pool[..|pool|] == pool;
    return Ok((xs, zs));
  }

  // ---------------------------------------------------------------------------
  // The surrogate matrix `humanTeamTraces`
  // ---------------------------------------------------------------------------

  /**
   * The exception iteration (evaluee c, trial t) raises, for either player: the
   * background files are read first, in order, then the evaluee's own file.
   */
  function PassFailure(hh: seq<Session>, c: nat, t: int): Option<Error>
    requires c < |hh|
  {
    var ev := hh[c];
    var bg := Background(hh, ev.name);
    match FirstMissing(bg, t)
    case Some(i) => Some(MissingFile(bg[i].name, t))
    case None => if t !in ev.files then Some(MissingFile(ev.name, t)) else None
  }

  function PassFailures(hh: seq<Session>, c: nat): int -> Option<Error>
    requires c < |hh|
  {
    (t: int) => PassFailure(hh, c, t)
  }

  /** The first exception among the trials of evaluee c. */
  function RowFailure(hh: seq<Session>, c: nat): Option<Error>
    requires c < |hh|
  {
    FirstError(PassFailures(hh, c), FirstTrial, LastTrial + 1)
  }

  function RowFailures(hh: seq<Session>): int -> Option<Error>
  {
    (c: int) => if 0 <= c < |hh| then RowFailure(hh, c) else None
  }

  /** The first exception of the evaluee loop; both players make the same lookups. */
  function TeamFailure(hh: seq<Session>): Option<Error>
  {
    FirstError(RowFailures(hh), 0, |hh|)
  }

  /** Evaluee c's own trace for `player` in trial t, against the pool of every other session. */
  function PlayerScore(hh: seq<Session>, c: nat, t: int, player: nat, score: TraceScorer): real
    requires c < |hh| && t in hh[c].files
  {
    PoolScore(score, Background(hh, hh[c].name), t, player, hh[c].files[t], PlayerAgent(player))
  }

  /** The cell of evaluee c for trial t after `passes` player passes (pass p uses player p - 1). */
  function TeamPass(hh: seq<Session>, c: nat, t: int, passes: nat, score: TraceScorer): real
    requires c < |hh|
  {
    if passes == 0 || t !in hh[c].files then 0.0
    else TeamPass(hh, c, t, passes - 1, score) + PlayerScore(hh, c, t, passes - 1, score)
  }

  /** A returned cell: both players' traces added, then `/ 2`. */
  function TeamCell(hh: seq<Session>, c: nat, t: int, score: TraceScorer): real
    requires c < |hh|
  {
    TeamPass(hh, c, t, 2, score) / 2.0
  }

  function TeamRow(hh: seq<Session>, c: nat, score: TraceScorer): seq<real>
    requires c < |hh|
  {
    seq(NumTrials, j requires 0 <= j < NumTrials => TeamCell(hh, c, FirstTrial + j, score))
  }

  function TeamRows(hh: seq<Session>, score: TraceScorer): seq<seq<real>>
  {
    seq(|hh|, c requires 0 <= c < |hh| => TeamRow(hh, c, score))
  }

  /** `get_surrogate_human_team_traces()`: the first exception, or one row of 18 cells per session in listing order. */
  function TeamScores(hh: seq<Session>, score: TraceScorer): Result<seq<seq<real>>>
  {
    if TeamFailure(hh).Some? then Err(TeamFailure(hh).value) else Ok(TeamRows(hh, score))
  }

  /** A surrogate cell is the mean of the two players' traces, each against the pool of the other sessions. */
  lemma TeamCellIsMean(hh: seq<Session>, c: nat, t: int, score: TraceScorer)
    requires c < |hh| && t in hh[c].files
    ensures TeamCell(hh, c, t, score) == (PlayerScore(hh, c, t, 0, score) + PlayerScore(hh, c, t, 1, score)) / 2.0
    ensures forall s :: s in Background(hh, hh[c].name) ==> s.name != hh[c].name
  {
    assert TeamPass(hh, c, t, 1, score) == PlayerScore(hh, c, t, 0, score);
  }

  /** A pass fails exactly when the evaluee or some background session lacks the trial's file. */
  lemma PassFailureNone(hh: seq<Session>, c: nat, t: int)
    requires c < |hh|
    ensures PassFailure(hh, c, t).None? <==>
      t in hh[c].files && forall s :: s in Background(hh, hh[c].name) ==> t in s.files
    ensures PassFailure(hh, c, t).Some? ==>
      exists s :: s in hh && t !in s.files && PassFailure(hh, c, t).value == MissingFile(s.name, t)
  {
    var bg := Background(hh, hh[c].name);
    match FirstMissing(bg, t)
    case Some(i) =>
      assert bg[i] in bg;
    case None =>
      forall s | s in bg ensures t in s.files {
        var i :| 0 <= i < |bg| && bg[i] == s;
      }
  }

  /** Evaluee c's passes fail exactly when one of its trials lacks a file, and the exception names it. */
  lemma RowFailureNone(hh: seq<Session>, c: nat)
    requires c < |hh|
    ensures RowFailure(hh, c).None? ==> forall t :: IsAnalysedTrial(t) ==> t in hh[c].files
    ensures RowFailure(hh, c).Some? ==>
      exists s, t :: s in hh && IsAnalysedTrial(t) && t !in s.files && RowFailure(hh, c).value == MissingFile(s.name, t)
  {
    FirstErrorIs(PassFailures(hh, c), FirstTrial, LastTrial + 1);
    if RowFailure(hh, c).None? {
      forall t | IsAnalysedTrial(t) ensures t in hh[c].files {
        assert PassFailures(hh, c)(t).None?;
        PassFailureNone(hh, c, t);
      }
    } else {
      var t :| FirstTrial <= t < LastTrial + 1 && RowFailure(hh, c) == PassFailures(hh, c)(t);
      assert PassFailures(hh, c)(t) == PassFailure(hh, c, t);
      PassFailureNone(hh, c, t);
      var s :| s in hh && t !in s.files && PassFailure(hh, c, t).value == MissingFile(s.name, t);
      assert IsAnalysedTrial(t) && RowFailure(hh, c).value == MissingFile(s.name, t);
    }
  }

  /**
   * There is no missing-file handling: the surrogate matrix is computed exactly
   * when every session has a file for every analysed trial, and otherwise the
   * exception names a session and trial whose file is missing.
   */
  lemma TeamScoresOk(hh: seq<Session>, score: TraceScorer)
    ensures TeamScores(hh, score).Ok? <==> forall c :: 0 <= c < |hh| ==> HasAllTrials(hh[c])
    ensures TeamScores(hh, score).Err? ==>
      exists s, t :: s in hh && IsAnalysedTrial(t) && t !in s.files && TeamScores(hh, score).error == MissingFile(s.name, t)
  {
    FirstErrorIs(RowFailures(hh), 0, |hh|);
    if TeamFailure(hh).None? {
      forall c | 0 <= c < |hh| ensures HasAllTrials(hh[c]) {
        assert RowFailures(hh)(c).None?;
        RowFailureNone(hh, c);
      }
    } else {
      var c :| 0 <= c < |hh| && TeamFailure(hh) == RowFailures(hh)(c);
      RowFailureNone(hh, c);
      var s, t :| s in hh && IsAnalysedTrial(t) && t !in s.files && RowFailure(hh, c).value == MissingFile(s.name, t);
      var i :| 0 <= i < |hh| && hh[i] == s;
      assert !HasAllTrials(hh[i]);
    }
  }

  /** Iteration (c, trial) of `player`'s pass: the background pool, the evaluee's file, then `+= get_binary_trace(...)`. */
  method PassCell(hh: seq<Session>, c: nat, player: nat, trial: int, cell: real, score: TraceScorer) returns (r: Result<real>)
    requires c < |hh| && cell == TeamPass(hh, c, trial, player, score)
    ensures r.Err? <==> PassFailure(hh, c, trial).Some?
    ensures r.Err? ==> PassFailure(hh, c, trial) == Some(r.error)
    ensures r.Ok? ==> r.value == TeamPass(hh, c, trial, player + 1, score)
  {
    var ev := hh[c];
    var bg := Background(hh, ev.name);
    var pool := GatherAll(bg, trial, player);
    if pool.Err? {
      return Err(pool.error);
    }
    if trial !in ev.files {
      return Err(MissingFile(ev.name, trial));
    }
    var xs, zs := pool.value.0, pool.value.1;
    return Ok(cell + TraceScore(score, xs, zs, ev.files[trial], PlayerAgent(player)));
  }

  /** The loop stops at the first trial that fails. */
  lemma FirstFailureAt(hh: seq<Session>, c: nat, trial: int)
    requires c < |hh| && IsAnalysedTrial(trial) && PassFailure(hh, c, trial).Some?
    requires forall t :: FirstTrial <= t < trial ==> PassFailure(hh, c, t).None?
    ensures RowFailure(hh, c) == PassFailure(hh, c, trial)
  {
    FirstErrorAt(PassFailures(hh, c), FirstTrial, LastTrial + 1, trial);
  }

  /** No trial fails: neither does the row. */
  lemma NoFailure(hh: seq<Session>, c: nat)
    requires c < |hh| && forall t :: IsAnalysedTrial(t) ==> PassFailure(hh, c, t).None?
    ensures RowFailure(hh, c).None?
  {
    FirstErrorIs(PassFailures(hh, c), FirstTrial, LastTrial + 1);
  }

  /** `for trial in range(first_trial, last_trial)` for one evaluee and player. */
  method PlayerPass(hh: seq<Session>, c: nat, player: nat, team: array2<real>, score: TraceScorer) returns (failure: Option<Error>)
    requires c < |hh| && player < 2
    requires team.Length0 == |hh| && team.Length1 == NumTrials
    requires forall t :: IsAnalysedTrial(t) ==> team[c, TrialIndex(t)] == TeamPass(hh, c, t, player, score)
    modifies team
    ensures failure == RowFailure(hh, c)
    ensures failure.None? ==> forall t :: IsAnalysedTrial(t) ==> team[c, TrialIndex(t)] == TeamPass(hh, c, t, player + 1, score)
    ensures forall i, j :: 0 <= i < |hh| && i != c && 0 <= j < NumTrials ==> team[i, j] == old(team[i, j])
  {
    for trial := FirstTrial to LastTrial + 1
      invariant forall t :: FirstTrial <= t < trial ==> PassFailure(hh, c, t).None?
      invariant forall t :: FirstTrial <= t < trial ==> team[c, TrialIndex(t)] == TeamPass(hh, c, t, player + 1, score)
      invariant forall t :: trial <= t <= LastTrial ==> team[c, TrialIndex(t)] == TeamPass(hh, c, t, player, score)
      invariant forall i, j :: 0 <= i < |hh| && i != c && 0 <= j < NumTrials ==> team[i, j] == old(team[i, j])
    {
      var ti := TrialIndex(trial);
      var r := PassCell(hh, c, player, trial, team[c, ti], score);
      if r.Err? {
        FirstFailureAt(hh, c, trial);
        return Some(r.error);
      }
      team[c, ti] := r.value;
      assert forall t :: FirstTrial <= t <= trial ==> PassFailure(hh, c, t).None? by {
        forall t | FirstTrial <= t <= trial ensures PassFailure(hh, c, t).None? {
          if t < trial {
            assert FirstTrial <= t < trial;
          }
        }
      }
      forall t | FirstTrial <= t <= trial
        ensures team[c, TrialIndex(t)] == TeamPass(hh, c, t, player + 1, score)
      {
        if t == trial {
          assert team[c, TrialIndex(trial)] == TeamPass(hh, c, trial, player + 1, score);
        }
      }
    }
    NoFailure(hh, c);
    return None;
  }

  /** `for player in (0, 1)` for one evaluee: row c of the matrix. */
  method EvalueeRow(hh: seq<Session>, c: nat, team: array2<real>, score: TraceScorer) returns (failure: Option<Error>)
    requires c < |hh| && team.Length0 == |hh| && team.Length1 == NumTrials
    requires forall j :: 0 <= j < NumTrials ==> team[c, j] == 0.0
    modifies team
    ensures failure == RowFailure(hh, c)
    ensures failure.None? ==> forall t :: IsAnalysedTrial(t) ==> team[c, TrialIndex(t)] == TeamPass(hh, c, t, 2, score)
    ensures forall i, j :: 0 <= i < |hh| && i != c && 0 <= j < NumTrials ==> team[i, j] == old(team[i, j])
  {
    failure := PlayerPass(hh, c, 0, team, score);
    if failure.None? {
      failure := PlayerPass(hh, c, 1, team, score);
    }
  }

  /** `np.array(humanTeamTraces) / 2`, elementwise. */
  function Halved(m: seq<seq<real>>): (r: seq<seq<real>>)
    ensures |r| == |m| && forall i :: 0 <= i < |m| ==> |r[i]| == |m[i]|
  {
    seq(|m|, i requires 0 <= i < |m| => seq(|m[i]|, j requires 0 <= j < |m[i]| => m[i][j] / 2.0))
  }

  /** Two matrices of the same shape whose cells are the halved cells of m. */
  lemma HalvedIs(m: seq<seq<real>>, x: seq<seq<real>>)
    requires |x| == |m| && forall i :: 0 <= i < |m| ==> |x[i]| == |m[i]|
    requires forall i, j :: 0 <= i < |m| && 0 <= j < |m[i]| ==> x[i][j] == m[i][j] / 2.0
    ensures Halved(m) == x
  {
    var r := Halved(m);
    forall i | 0 <= i < |m| ensures r[i] == x[i] {
      assert forall j :: 0 <= j < |m[i]| ==> r[i][j] == x[i][j];
    }
  }

  /** Halving the matrix of two full passes gives the returned rows. */
  lemma HalvedTeamRows(hh: seq<Session>, m: seq<seq<real>>, score: TraceScorer)
    requires |m| == |hh| && forall i :: 0 <= i < |m| ==> |m[i]| == NumTrials
    requires forall i, j :: 0 <= i < |hh| && 0 <= j < NumTrials ==> m[i][j] == TeamPass(hh, i, FirstTrial + j, 2, score)
    ensures Halved(m) == TeamRows(hh, score)
  {
    var x := TeamRows(hh, score);
    forall i, j | 0 <= i < |m| && 0 <= j < |m[i]| ensures x[i][j] == m[i][j] / 2.0 {
      assert x[i] == TeamRow(hh, i, score);
      assert x[i][j] == TeamCell(hh, i, FirstTrial + j, score);
    }
    HalvedIs(m, x);
  }

  /** `rows` gives every evaluee's first exception as `RowFailure` does. */
  ghost predicate RowFailuresBy(rows: int -> Option<Error>, hh: seq<Session>)
  {
    forall c: nat {:trigger RowFailure(hh, c)} :: c < |hh| ==> rows(c) == RowFailure(hh, c)
  }

  /** When evaluees before c all pass and c fails, the evaluee loop's exception is c's. */
  lemma RowStops(hh: seq<Session>, c: nat, rows: int -> Option<Error>)
    requires c < |hh| && RowFailuresBy(rows, hh) && FirstError(rows, 0, c).None? && RowFailure(hh, c).Some?
    ensures FirstError(rows, 0, |hh|) == RowFailure(hh, c)
  {
    assert rows(c) == RowFailure(hh, c);
    FirstErrorIs(rows, 0, c);
    FirstErrorAt(rows, 0, |hh|, c);
  }

  /** When evaluees before c all pass and so does c, the evaluees up to c pass. */
  lemma RowPasses(hh: seq<Session>, c: nat, rows: int -> Option<Error>)
    requires c < |hh| && RowFailuresBy(rows, hh) && FirstError(rows, 0, c).None? && RowFailure(hh, c).None?
    ensures FirstError(rows, 0, c + 1).None?
  {
    assert rows(c) == RowFailure(hh, c);
    FirstErrorIs(rows, 0, c);
    FirstErrorIs(rows, 0, c + 1);
  }

  /** `for count, evaluee_session in enumerate(all_sessions)` over a zero matrix. */
  method EvalueeLoop(hh: seq<Session>, team: array2<real>, score: TraceScorer) returns (failure: Option<Error>)
    requires team.Length0 == |hh| && team.Length1 == NumTrials
    requires forall i, j :: 0 <= i < |hh| && 0 <= j < NumTrials ==> team[i, j] == 0.0
    modifies team
    ensures failure == TeamFailure(hh)
    ensures failure.None? ==> forall i, j :: 0 <= i < |hh| && 0 <= j < NumTrials ==> team[i, j] == TeamPass(hh, i, FirstTrial + j, 2, score)
  {
    ghost var rows := RowFailures(hh);
    for c := 0 to |hh|
      invariant FirstError(rows, 0, c).None?
      invariant forall i, j :: 0 <= i < c && 0 <= j < NumTrials ==> team[i, j] == TeamPass(hh, i, FirstTrial + j, 2, score)
      invariant forall i, j :: c <= i < |hh| && 0 <= j < NumTrials ==> team[i, j] == 0.0
    {
      failure := NextEvaluee(hh, c, team, score, rows);
      if failure.Some? {
        return;
      }
    }
    return None;
  }

  /** One pass of the evaluee loop: row c filled and nothing else changed, or the loop's exception. */
  method NextEvaluee(hh: seq<Session>, c: nat, team: array2<real>, score: TraceScorer, ghost rows: int -> Option<Error>)
    returns (failure: Option<Error>)
    requires c < |hh| && team.Length0 == |hh| && team.Length1 == NumTrials && RowFailuresBy(rows, hh)
    requires FirstError(rows, 0, c).None?
    requires forall i, j :: 0 <= i < c && 0 <= j < NumTrials ==> team[i, j] == TeamPass(hh, i, FirstTrial + j, 2, score)
    requires forall i, j :: c <= i < |hh| && 0 <= j < NumTrials ==> team[i, j] == 0.0
    modifies team
    ensures failure.Some? ==> failure == FirstError(rows, 0, |hh|)
    ensures failure.None? ==> FirstError(rows, 0, c + 1).None?
    ensures failure.None? ==> forall i, j :: 0 <= i < c + 1 && 0 <= j < NumTrials ==> team[i, j] == TeamPass(hh, i, FirstTrial + j, 2, score)
    ensures failure.None? ==> forall i, j :: c + 1 <= i < |hh| && 0 <= j < NumTrials ==> team[i, j] == 0.0
  {
    failure := EvalueeRow(hh, c, team, score);
    if failure.Some? {
      RowStops(hh, c, rows);
      return;
    }
    RowPasses(hh, c, rows);
    forall i, j | 0 <= i < c + 1 && 0 <= j < NumTrials ensures team[i, j] == TeamPass(hh, i, FirstTrial + j, 2, score) {
      if i == c {
        assert TrialIndex(FirstTrial + j) == j;
      }
    }
  }

  /** `get_surrogate_human_team_traces()`: the evaluee loop over `np.zeros((len(all_sessions), 18))`, then `/ 2`. */
  method TeamMatrix(hh: seq<Session>, score: TraceScorer) returns (res: Result<seq<seq<real>>>)
    ensures res == TeamScores(hh, score)
  {
    var team := new real[|hh|, NumTrials]((i, j) => 0.0);
    var failure := EvalueeLoop(hh, team, score);
    if failure.Some? {
      return Err(failure.value);
    }
    var m := Matrix(team);
    HalvedTeamRows(hh, m, score);
    return Ok(Halved(m));
  }

  // ---------------------------------------------------------------------------
  // The dictionaries `human_scores_better` and `AA_scores_better`
  // ---------------------------------------------------------------------------

  /** `cell += get_binary_trace(X, Z, read_csv(expFile), "p0" or "hA0")` for a routed human-AA file. */
  function TraceStep(score: TraceScorer, xs: seq<real>, zs: seq<real>): CellStep
  {
    (f: HumanAAFile, human: bool, cell: Float) => Plus(cell, Finite(TraceScore(score, xs, zs, f.data, Header(human))))
  }

  /**
   * A routed file adds its trace to its own session's cell of trial t: the
   * human's "p0" path to the human half when the player is the subfolder's
   * seat, the agent's "hA0" path to the AA half otherwise. Nothing else changes.
   */
  lemma TraceStepCell(st: Tables, f: HumanAAFile, player: nat, t: int, score: TraceScorer, xs: seq<real>, zs: seq<real>)
    requires IsAnalysedTrial(t) && player < 2 && f.humanPlayer < 2
    requires FileStep(st, f, player, t, TraceStep(score, xs, zs)).Ok?
    ensures var r := FileStep(st, f, player, t, TraceStep(score, xs, zs)).value;
      var human := player == f.humanPlayer;
      var m := if human then st.human else st.aa;
      var ti := TrialIndex(t);
      f.session in m && ti < |m[f.session]| &&
      (if human then r.aa else r.human) == (if human then st.aa else st.human) &&
      (if human then r.human else r.aa) ==
        m[f.session := m[f.session][ti := Plus(m[f.session][ti], Finite(TraceScore(score, xs, zs, f.data, if human then "p0" else "hA0")))]]
  {
    RoutingComplementary(player, f.humanPlayer);
    var step := TraceStep(score, xs, zs);
    var human := player == f.humanPlayer;
    var m := if human then st.human else st.aa;
    var ti := TrialIndex(t);
    var u := Update(m, f, human, ti, step);
    assert u.Ok? && (if human then FileStep(st, f, player, t, step).value.human else FileStep(st, f, player, t, step).value.aa) == u.value;
    assert step(f, human, m[f.session][ti]) == Plus(m[f.session][ti], Finite(TraceScore(score, xs, zs, f.data, Header(human))));
  }

  /**
   * One trial of `player`'s pass: the pool of every human-human session is read
   * first (with `[0]`), then every human-AA file of the trial is scored against it.
   */
  function AATrial(st: Tables, hh: seq<Session>, files: Lookup, player: nat, t: int, score: TraceScorer): Result<Tables>
    requires IsAnalysedTrial(t)
  {
    match FirstMissing(hh, t)
    case Some(i) => Err(MissingFile(hh[i].name, t))
    case None => FilesFold(st, files(t), player, t, TraceStep(score, PoolColumn(hh, t, PlayerAgent(player) + "x"), PoolColumn(hh, t, PlayerAgent(player) + "z")))
  }

  /** The trial loop of one player from trial t on. */
  function TrialsRun(st: Tables, hh: seq<Session>, files: Lookup, player: nat, t: int, score: TraceScorer): Result<Tables>
    requires FirstTrial <= t <= LastTrial + 1
    decreases LastTrial + 1 - t
  {
    if t > LastTrial then Ok(st)
    else
      var st' :- AATrial(st, hh, files, player, t, score);
      TrialsRun(st', hh, files, player, t + 1, score)
  }

  /** `for player in (0, 1): for trial in range(first_trial, last_trial): ...` in `main()`. */
  function AARun(st: Tables, hh: seq<Session>, files: Lookup, score: TraceScorer): Result<Tables>
  {
    var st1 :- TrialsRun(st, hh, files, 0, FirstTrial, score);
    TrialsRun(st1, hh, files, 1, FirstTrial, score)
  }

  /** One trial fails exactly when a human-human session lacks it or one of its human-AA files has an unknown session. */
  lemma AATrialOk(st: Tables, hh: seq<Session>, files: Lookup, player: nat, t: int, score: TraceScorer, keys: set<string>)
    requires IsAnalysedTrial(t) && Shaped(st, keys) && player < 2 && Seated(files)
    ensures var r := AATrial(st, hh, files, player, t, score);
      (r.Ok? <==> AllHave(hh, t) && KnownAt(files, t, keys)) &&
      (r.Ok? ==> Shaped(r.value, keys)) &&
      (!AllHave(hh, t) ==> exists i :: 0 <= i < |hh| && t !in hh[i].files && r == Err(MissingFile(hh[i].name, t)))
  {
    match FirstMissing(hh, t)
    case Some(i) =>
      assert !AllHave(hh, t);
    case None =>
      var step := TraceStep(score, PoolColumn(hh, t, PlayerAgent(player) + "x"), PoolColumn(hh, t, PlayerAgent(player) + "z"));
      FilesFoldOk(st, files(t), player, t, step, keys);
      KnownForPlayer(files, t, player, keys);
  }

  /** Trial t's pool can be read and all its human-AA files have a dictionary entry. */
  ghost predicate TrialFine(hh: seq<Session>, files: Lookup, t: int, keys: set<string>)
  {
    AllHave(hh, t) && KnownAt(files, t, keys)
  }

  lemma {:induction false} TrialsRunOk(st: Tables, hh: seq<Session>, files: Lookup, player: nat, t: int, score: TraceScorer, keys: set<string>)
    requires FirstTrial <= t <= LastTrial + 1 && Shaped(st, keys) && player < 2 && Seated(files)
    ensures var r := TrialsRun(st, hh, files, player, t, score);
      (r.Ok? <==> forall u :: t <= u <= LastTrial ==> TrialFine(hh, files, u, keys)) &&
      (r.Ok? ==> Shaped(r.value, keys))
    decreases LastTrial + 1 - t
  {
    if t <= LastTrial {
      AATrialOk(st, hh, files, player, t, score, keys);
      var r0 := AATrial(st, hh, files, player, t, score);
      if r0.Ok? {
        assert TrialFine(hh, files, t, keys);
        TrialsRunOk(r0.value, hh, files, player, t + 1, score, keys);
        var r := TrialsRun(st, hh, files, player, t, score);
        assert r == TrialsRun(r0.value, hh, files, player, t + 1, score);
        if forall u :: t + 1 <= u <= LastTrial ==> TrialFine(hh, files, u, keys) {
          assert forall u :: t <= u <= LastTrial ==> TrialFine(hh, files, u, keys) by {
            forall u | t <= u <= LastTrial ensures TrialFine(hh, files, u, keys) {
              if u != t {
                assert t + 1 <= u <= LastTrial;
              }
            }
          }
        }
      } else {
        assert !TrialFine(hh, files, t, keys);
        assert TrialsRun(st, hh, files, player, t, score).Err?;
      }
    }
  }

  /**
   * The human-AA part fails exactly when some human-human session lacks an
   * analysed trial's file (even with no human-AA file for it: the pool is read
   * first) or some human-AA file belongs to a session with no dictionary entry.
   */
  lemma AARunOk(st: Tables, hh: seq<Session>, files: Lookup, score: TraceScorer, keys: set<string>)
    requires Shaped(st, keys) && Seated(files)
    ensures var r := AARun(st, hh, files, score);
      (r.Ok? <==> (forall t :: IsAnalysedTrial(t) ==> AllHave(hh, t)) && AllKnown(files, keys)) &&
      (r.Ok? ==> Shaped(r.value, keys))
  {
    if forall t :: FirstTrial <= t <= LastTrial ==> TrialFine(hh, files, t, keys) {
      forall t | IsAnalysedTrial(t) ensures AllHave(hh, t) && KnownAt(files, t, keys) {
        assert TrialFine(hh, files, t, keys);
      }
    }
    TrialsRunOk(st, hh, files, 0, FirstTrial, score, keys);
    var r0 := TrialsRun(st, hh, files, 0, FirstTrial, score);
    if r0.Ok? {
      TrialsRunOk(r0.value, hh, files, 1, FirstTrial, score, keys);
    }
  }

  /** `for expFile in expFiles`: route each file and add its trace to its session's cell. */
  method ScoreFiles(st0: Tables, fs: seq<HumanAAFile>, player: nat, t: int, score: TraceScorer, xs: seq<real>, zs: seq<real>)
    returns (r: Result<Tables>)
    requires IsAnalysedTrial(t)
    ensures r == FilesFold(st0, fs, player, t, TraceStep(score, xs, zs))
  {
    ghost var step := TraceStep(score, xs, zs);
    var ti := TrialIndex(t);
    var st := st0;
    for i := 0 to |fs|
      invariant FilesFold(st0, fs, player, t, step) == FilesFold(st, fs[i..], player, t, step)
    {
      assert fs[i..][0] == fs[i] && fs[i..][1..] == fs[i + 1..];
      var f := fs[i];
      if HumanHalf(player, f.humanPlayer) {
        if !(f.session in st.human && ti < |st.human[f.session]|) {
          return Err(UnknownSession(f.session));
        }
        var cell := Plus(st.human[f.session][ti], Finite(TraceScore(score, xs, zs, f.data, "p0")));
        st := Tables(st.human[f.session := st.human[f.session][ti := cell]], st.aa);
      } else if AAHalf(player, f.humanPlayer) {
        if !(f.session in st.aa && ti < |st.aa[f.session]|) {
          return Err(UnknownSession(f.session));
        }
        var cell := Plus(st.aa[f.session][ti], Finite(TraceScore(score, xs, zs, f.data, "hA0")));
        st := Tables(st.human, st.aa[f.session := st.aa[f.session][ti := cell]]);
      }
    }
    return Ok(st);
  }

  /** One trial of `player`'s pass in `main()`: X and Z from every human-human session, then the human-AA files. */
  method ScoreTrial(st: Tables, hh: seq<Session>, fs: seq<HumanAAFile>, player: nat, t: int, score: TraceScorer)
    returns (r: Result<Tables>)
    requires IsAnalysedTrial(t)
    ensures forall files: Lookup :: files(t) == fs ==> r == AATrial(st, hh, files, player, t, score)
  {
    var pool := GatherAll(hh, t, player);
    if pool.Err? {
      return Err(pool.error);
    }
    r := ScoreFiles(st, fs, player, t, score, pool.value.0, pool.value.1);
  }

  /** Trial t is the first of the trials from t on. */
  lemma TrialsRunStep(st: Tables, hh: seq<Session>, files: Lookup, player: nat, t: int, score: TraceScorer)
    requires IsAnalysedTrial(t)
    ensures var r := AATrial(st, hh, files, player, t, score);
      (r.Err? ==> TrialsRun(st, hh, files, player, t, score) == r) &&
      (r.Ok? ==> TrialsRun(st, hh, files, player, t, score) == TrialsRun(r.value, hh, files, player, t + 1, score))
  {
  }

  /** What remains of one player's trial loop from a trial on, starting from given dictionaries. */
  type TrialsFrom = (Tables, int) -> Result<Tables>

  /** `rem` stands for TrialsRun wherever the loop needs it, without unfolding the run. */
  ghost predicate FollowsTrials(rem: TrialsFrom, hh: seq<Session>, files: Lookup, player: nat, score: TraceScorer)
  {
    forall st: Tables, t: int {:trigger TrialsRun(st, hh, files, player, t, score)} ::
      FirstTrial <= t <= LastTrial + 1 ==> rem(st, t) == TrialsRun(st, hh, files, player, t, score)
  }

  lemma TrialsStandIn(hh: seq<Session>, files: Lookup, player: nat, score: TraceScorer) returns (rem: TrialsFrom)
    ensures FollowsTrials(rem, hh, files, player, score)
  {
    rem := (st: Tables, t: int) => if FirstTrial <= t <= LastTrial + 1 then TrialsRun(st, hh, files, player, t, score) else Ok(st);
  }

  /** `for trial in range(first_trial, last_trial)` for one player. */
  method ScoreTrials(st0: Tables, hh: seq<Session>, listing: seq<HumanAASession>, player: nat, score: TraceScorer)
    returns (r: Result<Tables>)
    ensures r == TrialsRun(st0, hh, ExpLookup(listing, AATypes), player, FirstTrial, score)
  {
    ghost var files := ExpLookup(listing, AATypes);
    ghost var rem := TrialsStandIn(hh, files, player, score);
    var st := st0;
    for trial := FirstTrial to LastTrial + 1
      invariant rem(st0, FirstTrial) == rem(st, trial)
    {
      var step := ScoreTrial(st, hh, ExpFiles(listing, AATypes, trial), player, trial, score);
      assert step == AATrial(st, hh, files, player, trial, score);
      TrialsRunStep(st, hh, files, player, trial, score);
      if step.Err? {
        return step;
      }
      st := step.value;
    }
    assert rem(st, LastTrial + 1) == TrialsRun(st, hh, files, player, LastTrial + 1, score);
    return Ok(st);
  }

  /** The loops of `main()`: both dictionaries created with every discovered session, then both players' passes. */
  method AAScores(hh: seq<Session>, listing: seq<HumanAASession>, names: seq<string>, score: TraceScorer)
    returns (r: Result<Tables>)
    ensures r == AARun(NewTables(names), hh, ExpLookup(listing, AATypes), score)
  {
    var st := NewTables(names);
    var first := ScoreTrials(st, hh, listing, 0, score);
    if first.Err? {
      return first;
    }
    r := ScoreTrials(first.value, hh, listing, 1, score);
  }

  // ---------------------------------------------------------------------------
  // `__main__`: the cohort reduction
  // ---------------------------------------------------------------------------

  /** The heuristic, hybrid and self-play lists of a dictionary. */
  datatype Split = Split(heur: seq<seq<Float>>, hybr: seq<seq<Float>>, self: seq<seq<Float>>)

  function SplitOf(keys: seq<string>, m: Table): Split
    requires forall i :: 0 <= i < |keys| ==> keys[i] in m
  {
    var rows := RowsOf(keys, m);
    Split(Cohorts.Members(keys, rows, 0), Cohorts.Members(keys, rows, 1), Cohorts.Members(keys, rows, 2))
  }

  /** What the script saves: the surrogate matrix and the AA and human cohort lists. */
  datatype Outcome = Outcome(team: seq<seq<real>>, aa: Split, human: Split)

  /** The whole script: `main()`'s human-AA dictionaries, then the surrogate matrix, then the reduction. */
  function Run(hh: seq<Session>, listing: seq<HumanAASession>, names: seq<string>, score: TraceScorer): Result<Outcome>
  {
    var tables :- AARun(NewTables(names), hh, ExpLookup(listing, AATypes), score);
    var team :- TeamScores(hh, score);
    ExpLookupSeated(listing, AATypes);
    AARunOk(NewTables(names), hh, ExpLookup(listing, AATypes), score, KeySet(names));
    var keys := Cohorts.DictKeys(names);
    Ok(Outcome(team, SplitOf(keys, tables.aa), SplitOf(keys, tables.human)))
  }

  /**
   * The script ends with an exception exactly when some human-human session
   * lacks an analysed trial's file or some human-AA file belongs to a session
   * the dictionaries were not created with.
   */
  lemma RunOk(hh: seq<Session>, listing: seq<HumanAASession>, names: seq<string>, score: TraceScorer)
    ensures Run(hh, listing, names, score).Ok? <==>
      (forall c :: 0 <= c < |hh| ==> HasAllTrials(hh[c])) && AllKnown(ExpLookup(listing, AATypes), KeySet(names))
    ensures Run(hh, listing, names, score).Ok? ==> Run(hh, listing, names, score).value.team == TeamRows(hh, score)
  {
    var files := ExpLookup(listing, AATypes);
    ExpLookupSeated(listing, AATypes);
    AARunOk(NewTables(names), hh, files, score, KeySet(names));
    TeamScoresOk(hh, score);
    if forall c :: 0 <= c < |hh| ==> HasAllTrials(hh[c]) {
      forall t | IsAnalysedTrial(t) ensures AllHave(hh, t) {
        forall i | 0 <= i < |hh| ensures t in hh[i].files {
        }
      }
    } else {
      var c :| 0 <= c < |hh| && !HasAllTrials(hh[c]);
      var t :| IsAnalysedTrial(t) && t !in hh[c].files;
      assert !AllHave(hh, t);
    }
  }

  /** The reduction for one dictionary: rows in key order, split by cohort. */
  method CohortSplit(keys: seq<string>, m: Table) returns (sp: Split)
    requires forall i :: 0 <= i < |keys| ==> keys[i] in m
    ensures sp == SplitOf(keys, m)
  {
    var rows := RowsOf(keys, m);
    var heur, hybr, self := Cohorts.Partition(keys, rows);
    sp := Split(heur, hybr, self);
  }

  /** `__main__`: `main()`, which ends with `get_surrogate_human_team_traces()`, then the cohort lists. */
  method TraceAll(hh: seq<Session>, listing: seq<HumanAASession>, names: seq<string>, score: TraceScorer) returns (res: Result<Outcome>)
    ensures res == Run(hh, listing, names, score)
  {
    var tables := AAScores(hh, listing, names, score);
    if tables.Err? {
      return Err(tables.error);
    }
    var team := TeamMatrix(hh, score);
    if team.Err? {
      return Err(team.error);
    }
    ExpLookupSeated(listing, AATypes);
    AARunOk(NewTables(names), hh, ExpLookup(listing, AATypes), score, KeySet(names));
    var keys := Cohorts.DictKeys(names);
    var aa := CohortSplit(keys, tables.value.aa);
    var human := CohortSplit(keys, tables.value.human);
    return Ok(Outcome(team.value, aa, human));
  }
}
