/**
 * The DTW comparison of engagement series with fixed denominators.
 *   - The surrogate matrix `humanTeamScores`: every human-human session in turn
 *     is the evaluee; for both players and every analysed trial its cell adds
 *     the similarity against every other session. The matrix is divided by 2
 *     and by 21 at the end, whatever the number of sessions.
 *   - The dictionaries `human_scores` and `AA_scores`: every human-AA file of a
 *     trial adds to its session's human or AA cell the similarity against every
 *     human-human session, none excluded.
 * A similarity is 1 - d/(n+m), with d the DTW distance and n, m the lengths of
 * the two series. Every file is looked up with `[0]` on its match list, so a
 * missing file raises and ends the run.
 */
module CalcAllDtw {
  import opened Common
  import opened ScoreTables
  import Cohorts

  /** The AA types whose human-AA policy folders are visited, in order. */
  const AATypes: seq<string> := ["Heuristic", "Human-Sensitive", "SelfPlay"]

  /** The external `fastdtw(..., dist=euclidean)` distance of two one-column series. */
  type Dtw = (seq<real>, seq<real>) -> real

  /** `'HA%d_engagement' % player`. */
  function EngagementColumn(player: nat): string
  {
    "HA" + NatToString(player) + "_engagement"
  }

  /** `1 - d / (len(a) + len(b))`; numpy gives no finite value when both series are empty. */
  function Similarity(d: real, n: nat, m: nat): (s: Float)
    ensures s.Finite? <==> n + m > 0
  {
    if n + m == 0 then NonFinite else Finite(1.0 - d / (n + m) as real)
  }

  /** The similarity gives back the distance over the summed lengths, and is at most 1 for d >= 0. */
  lemma SimilarityMeaning(d: real, n: nat, m: nat)
    requires n + m > 0
    ensures (1.0 - Similarity(d, n, m).v) * (n + m) as real == d
    ensures d >= 0.0 ==> Similarity(d, n, m).v <= 1.0
  {
    var q := (n + m) as real;
    assert d / q * q == d;
    assert d >= 0.0 ==> d / q >= 0.0;
  }

  /** A background file against the evaluee's file, each on its HA{player}_engagement column. */
  function TeamScorer(ev: Frame, player: nat, dtw: Dtw): Frame -> Float
  {
    var col := EngagementColumn(player);
    (b: Frame) => Similarity(dtw(Col(b, col), Col(ev, col)), |Col(b, col)|, |Col(ev, col)|)
  }

  /** A human-human file's HA{player}_engagement column against the human-AA file's `header`_engagement column. */
  function AAScorer(aa: Frame, header: string, player: nat, dtw: Dtw): Frame -> Float
  {
    var col := EngagementColumn(player);
    var other := Col(aa, header + "_engagement");
    (h: Frame) => Similarity(dtw(Col(h, col), other), |Col(h, col)|, |other|)
  }

  // ---------------------------------------------------------------------------
  // `cell += score` over a pool whose files are read with `[0]`
  // ---------------------------------------------------------------------------

  /** The loop over the pool in order: each file adds its score, the first missing one raises. */
  function SumOver(cell: Float, pool: seq<Session>, t: int, score: Frame -> Float): Result<Float>
  {
    if |pool| == 0 then Ok(cell)
    else
      var acc :- SumOver(cell, pool[..|pool| - 1], t, score);
      var s := pool[|pool| - 1];
      if t in s.files then Ok(Plus(acc, score(s.files[t]))) else Err(MissingFile(s.name, t))
  }

  /**
   * The loop fails on the first session with no file and otherwise adds the
   * scores of all the pool's files (all of them are read) to the cell.
   */
  lemma {:induction false} SumOverIs(cell: Float, pool: seq<Session>, t: int, score: Frame -> Float)
    ensures FirstMissing(pool, t).Some? ==> SumOver(cell, pool, t, score) == Err(MissingFile(pool[FirstMissing(pool, t).value].name, t))
    ensures FirstMissing(pool, t).None? ==>
      SumOver(cell, pool, t, score) == Ok(PoolFold(cell, pool, t, score)) &&
      SumOver(cell, pool, t, score) == Ok(Plus(cell, SumFloats(PresentScores(pool, t, score)))) &&
      |PresentScores(pool, t, score)| == |pool|
  {
    if |pool| > 0 {
      var n := |pool| - 1;
      SumOverIs(cell, pool[..n], t, score);
      assert forall j :: 0 <= j < n ==> pool[..n][j] == pool[j];
    }
    if FirstMissing(pool, t).None? {
      PoolFoldIsSum(cell, pool, t, score);
      NoneMissingMeansAllCounted(pool, t);
    }
  }

  /** A failure in a prefix of the pool is the failure of the whole loop. */
  lemma {:induction false} SumOverPrefixFails(cell: Float, pool: seq<Session>, t: int, score: Frame -> Float, k: nat)
    requires k <= |pool| && SumOver(cell, pool[..k], t, score).Err?
    ensures SumOver(cell, pool, t, score) == SumOver(cell, pool[..k], t, score)
    decreases |pool| - k
  {
    if k < |pool| {
      var n := |pool| - 1;
      assert pool[..n][..k] == pool[..k];
      SumOverPrefixFails(cell, pool[..n], t, score, k);
    } else {
      assert pool[..k] == pool;
    }
  }

  /** `for path in paths: data = read_csv(path[0]); cell += score(data)`. */
  method AccumulateOver(cell: Float, pool: seq<Session>, t: int, score: Frame -> Float) returns (r: Result<Float>)
    ensures r == SumOver(cell, pool, t, score)
  {
    var acc := cell;
    for i := 0 to |pool|
      invariant SumOver(cell, pool[..i], t, score) == Ok(acc)
    {
      assert pool[..i + 1][..i] == pool[..i];
      if t !in pool[i].files {
        SumOverPrefixFails(cell, pool, t, score, i + 1);
        return Err(MissingFile(pool[i].name, t));
      }
      acc := Plus(acc, score(pool[i].files[t]));
    }
    assert pool[..|pool|] == pool;
    return Ok(acc);
  }

  // ---------------------------------------------------------------------------
  // The surrogate matrix `humanTeamScores`
  // ---------------------------------------------------------------------------

  /**
   * The exception iteration (evaluee c, trial t) raises, for either player: the
   * evaluee's own file is looked up first, then the background files in order.
   */
  function PassFailure(hh: seq<Session>, c: nat, t: int): Option<Error>
    requires c < |hh|
  {
    var ev := hh[c];
    var bg := Background(hh, ev.name);
    if t !in ev.files then Some(MissingFile(ev.name, t))
    else
      match FirstMissing(bg, t)
      case Some(i) => Some(MissingFile(bg[i].name, t))
      case None => None
  }

  function PassFailures(hh: seq<Session>, c: nat): int -> Option<Error>
    requires c < |hh|
  {
    (t: int) => PassFailure(hh, c, t)
  }

  /** The first exception among the trials of evaluee c. */
  function RowFailure(hh: seq<Session>, c: nat): Option<Error>
    requires c < |hh|
  {
    FirstError(PassFailures(hh, c), FirstTrial, LastTrial + 1)
  }

  function RowFailures(hh: seq<Session>): int -> Option<Error>
  {
    (c: int) => if 0 <= c < |hh| then RowFailure(hh, c) else None
  }

  /**
   * The first exception of the evaluee loop. Both players make the same
   * lookups, so an evaluee fails in player 0's pass or not at all.
   */
  function TeamFailure(hh: seq<Session>): Option<Error>
  {
    FirstError(RowFailures(hh), 0, |hh|)
  }

  /** The cell of evaluee c for trial t after `passes` player passes (pass p uses player p - 1). */
  function TeamPass(hh: seq<Session>, c: nat, t: int, passes: nat, dtw: Dtw): Float
    requires c < |hh|
  {
    if passes == 0 then Finite(0.0)
    else if t !in hh[c].files then NonFinite
    else PoolFold(TeamPass(hh, c, t, passes - 1, dtw), Background(hh, hh[c].name), t, TeamScorer(hh[c].files[t], passes - 1, dtw))
  }

  /** One more pass adds the background sums of the next player to the cell. */
  lemma TeamPassNext(hh: seq<Session>, c: nat, t: int, p: nat, dtw: Dtw)
    requires c < |hh| && t in hh[c].files
    ensures TeamPass(hh, c, t, p + 1, dtw) == PoolFold(TeamPass(hh, c, t, p, dtw), Background(hh, hh[c].name), t, TeamScorer(hh[c].files[t], p, dtw))
  {
  }

  /** A returned cell: both players' sums, then `/ 2 / 21`. */
  function TeamCell(hh: seq<Session>, c: nat, t: int, dtw: Dtw): Float
    requires c < |hh|
  {
    DivBy(DivBy(TeamPass(hh, c, t, 2, dtw), 2), 21)
  }

  /** `GETall_humanTeam_scores()`: the first exception, or one row of 18 cells per session in listing order. */
  function TeamScores(hh: seq<Session>, dtw: Dtw): Result<seq<seq<Float>>>
  {
    if TeamFailure(hh).Some? then Err(TeamFailure(hh).value) else Ok(TeamRows(hh, dtw))
  }

  function TeamRows(hh: seq<Session>, dtw: Dtw): seq<seq<Float>>
  {
    seq(|hh|, c requires 0 <= c < |hh| => TeamRow(hh, c, dtw))
  }

  function TeamRow(hh: seq<Session>, c: nat, dtw: Dtw): seq<Float>
    requires c < |hh|
  {
    seq(NumTrials, j requires 0 <= j < NumTrials => TeamCell(hh, c, FirstTrial + j, dtw))
  }

  /** A pass fails exactly when the evaluee or some background session lacks the trial's file. */
  lemma PassFailureNone(hh: seq<Session>, c: nat, t: int)
    requires c < |hh|
    ensures PassFailure(hh, c, t).None? <==>
      t in hh[c].files && forall s :: s in Background(hh, hh[c].name) ==> t in s.files
    ensures PassFailure(hh, c, t).Some? ==>
      exists s :: s in hh && t !in s.files && PassFailure(hh, c, t).value == MissingFile(s.name, t)
  {
    var bg := Background(hh, hh[c].name);
    if t in hh[c].files {
      match FirstMissing(bg, t)
      case Some(i) =>
        assert bg[i] in bg;
      case None =>
        forall s | s in bg ensures t in s.files {
          var i :| 0 <= i < |bg| && bg[i] == s;
        }
    }
  }

  /** Evaluee c's passes fail exactly when one of its trials lacks a file, and the exception names it. */
  lemma RowFailureNone(hh: seq<Session>, c: nat)
    requires c < |hh|
    ensures RowFailure(hh, c).None? ==> forall t :: IsAnalysedTrial(t) ==> t in hh[c].files
    ensures RowFailure(hh, c).Some? ==>
      exists s, t :: s in hh && IsAnalysedTrial(t) && t !in s.files && RowFailure(hh, c).value == MissingFile(s.name, t)
  {
    FirstErrorIs(PassFailures(hh, c), FirstTrial, LastTrial + 1);
    if RowFailure(hh, c).None? {
      forall t | IsAnalysedTrial(t) ensures t in hh[c].files {
        assert PassFailures(hh, c)(t).None?;
        PassFailureNone(hh, c, t);
      }
    } else {
      var t :| FirstTrial <= t < LastTrial + 1 && RowFailure(hh, c) == PassFailures(hh, c)(t);
      assert PassFailures(hh, c)(t) == PassFailure(hh, c, t);
      PassFailureNone(hh, c, t);
      var s :| s in hh && t !in s.files && PassFailure(hh, c, t).value == MissingFile(s.name, t);
      assert IsAnalysedTrial(t) && RowFailure(hh, c).value == MissingFile(s.name, t);
    }
  }

  /**
   * There is no missing-file handling: the surrogate matrix is computed exactly
   * when every session has a file for every analysed trial, and otherwise the
   * exception names a session and trial whose file is missing.
   */
  lemma TeamScoresOk(hh: seq<Session>, dtw: Dtw)
    ensures TeamScores(hh, dtw).Ok? <==> forall c, t :: 0 <= c < |hh| && IsAnalysedTrial(t) ==> t in hh[c].files
    ensures TeamScores(hh, dtw).Err? ==>
      exists s, t :: s in hh && IsAnalysedTrial(t) && t !in s.files && TeamScores(hh, dtw).error == MissingFile(s.name, t)
  {
    FirstErrorIs(RowFailures(hh), 0, |hh|);
    if TeamFailure(hh).None? {
      forall c, t | 0 <= c < |hh| && IsAnalysedTrial(t) ensures t in hh[c].files {
        assert RowFailures(hh)(c).None?;
        RowFailureNone(hh, c);
      }
    } else {
      var c :| 0 <= c < |hh| && TeamFailure(hh) == RowFailures(hh)(c);
      RowFailureNone(hh, c);
      var s, t :| s in hh && IsAnalysedTrial(t) && t !in s.files && RowFailure(hh, c).value == MissingFile(s.name, t);
      var i :| 0 <= i < |hh| && hh[i] == s;
      assert t !in hh[i].files;
    }
  }

  /**
   * The divisor is the constant 2 * 21, whatever the number of sessions: the
   * cell is the sum over both players and all background files, over 42.
   */
  lemma FixedDivisor(hh: seq<Session>, c: nat, t: int, dtw: Dtw)
    requires c < |hh| && t in hh[c].files
    ensures var bg := Background(hh, hh[c].name);
      var ev := hh[c].files[t];
      TeamPass(hh, c, t, 2, dtw) ==
        Plus(Plus(Finite(0.0), SumFloats(PresentScores(bg, t, TeamScorer(ev, 0, dtw)))), SumFloats(PresentScores(bg, t, TeamScorer(ev, 1, dtw))))
    ensures TeamCell(hh, c, t, dtw).Finite? <==> TeamPass(hh, c, t, 2, dtw).Finite?
    ensures TeamCell(hh, c, t, dtw).Finite? ==> TeamCell(hh, c, t, dtw).v * 42.0 == TeamPass(hh, c, t, 2, dtw).v
  {
    var bg := Background(hh, hh[c].name);
    var ev := hh[c].files[t];
    TeamPassNext(hh, c, t, 0, dtw);
    TeamPassNext(hh, c, t, 1, dtw);
    PoolFoldIsSum(Finite(0.0), bg, t, TeamScorer(ev, 0, dtw));
    PoolFoldIsSum(TeamPass(hh, c, t, 1, dtw), bg, t, TeamScorer(ev, 1, dtw));
    var x := TeamPass(hh, c, t, 2, dtw);
    var y := DivBy(x, 2);
    var z := DivBy(y, 21);
    assert z == TeamCell(hh, c, t, dtw);
    if z.Finite? {
      DivByScales(x, 2);
      DivByScales(y, 21);
      assert z.v * 21.0 == y.v && y.v * 2.0 == x.v;
      assert z.v * 42.0 == (z.v * 21.0) * 2.0;
    }
  }

  /**
   * With n distinct sessions all matching perfectly (every similarity 1), a
   * cell is 2(n - 1)/42: the divisor does not follow the number of sessions.
   */
  lemma PerfectMatchScore(hh: seq<Session>, c: nat, t: int, dtw: Dtw)
    requires c < |hh| && DistinctNames(hh) && forall s :: s in hh ==> t in s.files
    requires var bg := Background(hh, hh[c].name);
      forall p, i :: 0 <= p < 2 && 0 <= i < |bg| ==> TeamScorer(hh[c].files[t], p, dtw)(bg[i].files[t]) == Finite(1.0)
    ensures TeamCell(hh, c, t, dtw) == Finite((2 * (|hh| - 1)) as real / 42.0)
  {
    var bg := Background(hh, hh[c].name);
    var ev := hh[c].files[t];
    BackgroundDropsOne(hh, c);
    NoneMissingMeansAllCounted(bg, t);
    FixedDivisor(hh, c, t, dtw);
    AllPresentScores(bg, t, TeamScorer(ev, 0, dtw));
    AllPresentScores(bg, t, TeamScorer(ev, 1, dtw));
    SumOfOnes(PresentScores(bg, t, TeamScorer(ev, 0, dtw)));
    SumOfOnes(PresentScores(bg, t, TeamScorer(ev, 1, dtw)));
  }

  /** When every file of the pool is present, the scores are those of the files in pool order. */
  lemma {:induction false} AllPresentScores(pool: seq<Session>, t: int, score: Frame -> Float)
    requires forall s :: s in pool ==> t in s.files
    ensures |PresentScores(pool, t, score)| == |pool|
    ensures forall i :: 0 <= i < |pool| ==> PresentScores(pool, t, score)[i] == score(pool[i].files[t])
  {
    if |pool| > 0 {
      var n := |pool| - 1;
      assert pool[n] in pool;
      assert forall s :: s in pool[..n] ==> s in pool;
      AllPresentScores(pool[..n], t, score);
    }
  }

  /** Iteration (c, trial) of `player`'s pass: the evaluee's file, then `cell += score` over the background. */
  method PassCell(hh: seq<Session>, c: nat, player: nat, trial: int, cell: Float, dtw: Dtw) returns (r: Result<Float>)
    requires c < |hh| && cell == TeamPass(hh, c, trial, player, dtw)
    ensures r.Err? <==> PassFailure(hh, c, trial).Some?
    ensures r.Err? ==> PassFailure(hh, c, trial) == Some(r.error)
    ensures r.Ok? ==> r.value == TeamPass(hh, c, trial, player + 1, dtw)
  {
    var ev := hh[c];
    if trial !in ev.files {
      return Err(MissingFile(ev.name, trial));
    }
    var bg := Background(hh, ev.name);
    var score := TeamScorer(ev.files[trial], player, dtw);
    SumOverIs(cell, bg, trial, score);
    r := AccumulateOver(cell, bg, trial, score);
    if r.Ok? {
      TeamPassNext(hh, c, trial, player, dtw);
    }
  }

  /** `for trial in range(first_trial, last_trial)` for one evaluee and player. */
  method PlayerPass(hh: seq<Session>, c: nat, player: nat, team: array2<Float>, dtw: Dtw) returns (failure: Option<Error>)
    requires c < |hh| && player < 2
    requires team.Length0 == |hh| && team.Length1 == NumTrials
    requires forall t :: IsAnalysedTrial(t) ==> team[c, TrialIndex(t)] == TeamPass(hh, c, t, player, dtw)
    modifies team
    ensures failure == RowFailure(hh, c)
    ensures failure.None? ==> forall t :: IsAnalysedTrial(t) ==> team[c, TrialIndex(t)] == TeamPass(hh, c, t, player + 1, dtw)
    ensures forall i, j :: 0 <= i < |hh| && i != c && 0 <= j < NumTrials ==> team[i, j] == old(team[i, j])
  {
    for trial := FirstTrial to LastTrial + 1
      invariant forall t :: FirstTrial <= t < trial ==> PassFailures(hh, c)(t).None?
      invariant forall t :: FirstTrial <= t < trial ==> team[c, TrialIndex(t)] == TeamPass(hh, c, t, player + 1, dtw)
      invariant forall t :: trial <= t <= LastTrial ==> team[c, TrialIndex(t)] == TeamPass(hh, c, t, player, dtw)
      invariant forall i, j :: 0 <= i < |hh| && i != c && 0 <= j < NumTrials ==> team[i, j] == old(team[i, j])
    {
      var ti := TrialIndex(trial);
      var r := PassCell(hh, c, player, trial, team[c, ti], dtw);
      if r.Err? {
        FirstErrorAt(PassFailures(hh, c), FirstTrial, LastTrial + 1, trial);
        return Some(r.error);
      }
      team[c, ti] := r.value;
      forall t | FirstTrial <= t <= trial
        ensures team[c, TrialIndex(t)] == TeamPass(hh, c, t, player + 1, dtw)
      {
        if t == trial {
          assert team[c, TrialIndex(trial)] == TeamPass(hh, c, trial, player + 1, dtw);
        }
      }
    }
    FirstErrorIs(PassFailures(hh, c), FirstTrial, LastTrial + 1);
    return None;
  }

  /** `for player in (0, 1)` for one evaluee: row c of the matrix. */
  method EvalueeRow(hh: seq<Session>, c: nat, team: array2<Float>, dtw: Dtw) returns (failure: Option<Error>)
    requires c < |hh| && team.Length0 == |hh| && team.Length1 == NumTrials
    requires forall j :: 0 <= j < NumTrials ==> team[c, j] == Finite(0.0)
    modifies team
    ensures failure == RowFailure(hh, c)
    ensures failure.None? ==> forall t :: IsAnalysedTrial(t) ==> team[c, TrialIndex(t)] == TeamPass(hh, c, t, 2, dtw)
    ensures forall i, j :: 0 <= i < |hh| && i != c && 0 <= j < NumTrials ==> team[i, j] == old(team[i, j])
  {
    failure := PlayerPass(hh, c, 0, team, dtw);
    if failure.None? {
      failure := PlayerPass(hh, c, 1, team, dtw);
    }
  }

  /** When evaluees before c all pass, the evaluee loop's exception is c's, or none if c is the end. */
  lemma RowsBefore(hh: seq<Session>, c: nat)
    requires c <= |hh| && forall i :: 0 <= i < c ==> RowFailure(hh, i).None?
    ensures c < |hh| && RowFailure(hh, c).Some? ==> TeamFailure(hh) == RowFailure(hh, c)
    ensures c == |hh| ==> TeamFailure(hh).None?
  {
    assert forall i :: 0 <= i < c ==> RowFailures(hh)(i) == RowFailure(hh, i);
    if c < |hh| && RowFailure(hh, c).Some? {
      assert RowFailures(hh)(c) == RowFailure(hh, c);
      FirstErrorAt(RowFailures(hh), 0, |hh|, c);
    }
    FirstErrorIs(RowFailures(hh), 0, |hh|);
  }

  /** `matrix / 2 / 21`, elementwise. */
  function Scaled(m: seq<seq<Float>>): (r: seq<seq<Float>>)
    ensures |r| == |m| && forall i :: 0 <= i < |m| ==> |r[i]| == |m[i]|
  {
    seq(|m|, i requires 0 <= i < |m| => seq(|m[i]|, j requires 0 <= j < |m[i]| => DivBy(DivBy(m[i][j], 2), 21)))
  }

  /** Two matrices of the same shape whose cells are the scaled cells of m. */
  lemma ScaledIs(m: seq<seq<Float>>, x: seq<seq<Float>>)
    requires |x| == |m| && forall i :: 0 <= i < |m| ==> |x[i]| == |m[i]|
    requires forall i, j :: 0 <= i < |m| && 0 <= j < |m[i]| ==> x[i][j] == DivBy(DivBy(m[i][j], 2), 21)
    ensures Scaled(m) == x
  {
    var r := Scaled(m);
    forall i | 0 <= i < |m| ensures r[i] == x[i] {
      assert forall j :: 0 <= j < |m[i]| ==> r[i][j] == x[i][j];
    }
  }

  /** Scaling the matrix of two full passes gives the returned rows. */
  lemma ScaledTeamRows(hh: seq<Session>, m: seq<seq<Float>>, dtw: Dtw)
    requires |m| == |hh| && forall i :: 0 <= i < |m| ==> |m[i]| == NumTrials
    requires forall i, j :: 0 <= i < |hh| && 0 <= j < NumTrials ==> m[i][j] == TeamPass(hh, i, FirstTrial + j, 2, dtw)
    ensures Scaled(m) == TeamRows(hh, dtw)
  {
    var x := TeamRows(hh, dtw);
    forall i, j | 0 <= i < |m| && 0 <= j < |m[i]| ensures x[i][j] == DivBy(DivBy(m[i][j], 2), 21) {
      assert x[i] == TeamRow(hh, i, dtw);
      assert x[i][j] == TeamCell(hh, i, FirstTrial + j, dtw);
    }
    ScaledIs(m, x);
  }

  /** The evaluee loop `for evaluee in range(len(sessions))` over a zero matrix. */
  method EvalueeLoop(hh: seq<Session>, team: array2<Float>, dtw: Dtw) returns (failure: Option<Error>)
    requires team.Length0 == |hh| && team.Length1 == NumTrials
    requires forall i, j :: 0 <= i < |hh| && 0 <= j < NumTrials ==> team[i, j] == Finite(0.0)
    modifies team
    ensures failure == TeamFailure(hh)
    ensures failure.None? ==> forall i, j :: 0 <= i < |hh| && 0 <= j < NumTrials ==> team[i, j] == TeamPass(hh, i, FirstTrial + j, 2, dtw)
  {
    for c := 0 to |hh|
      invariant forall i :: 0 <= i < c ==> RowFailure(hh, i).None?
      invariant forall i, t :: 0 <= i < c && IsAnalysedTrial(t) ==> team[i, TrialIndex(t)] == TeamPass(hh, i, t, 2, dtw)
      invariant forall i, j :: c <= i < |hh| && 0 <= j < NumTrials ==> team[i, j] == Finite(0.0)
    {
      failure := EvalueeRow(hh, c, team, dtw);
      if failure.Some? {
        RowsBefore(hh, c);
        return;
      }
    }
    RowsBefore(hh, |hh|);
    forall i, j | 0 <= i < |hh| && 0 <= j < NumTrials ensures team[i, j] == TeamPass(hh, i, FirstTrial + j, 2, dtw) {
      assert TrialIndex(FirstTrial + j) == j;
    }
    return None;
  }

  /** `GETall_humanTeam_scores()`: the evaluee loop over a zero matrix, then `humanTeamScores / 2 / 21`. */
  method TeamMatrix(hh: seq<Session>, dtw: Dtw) returns (res: Result<seq<seq<Float>>>)
    ensures res == TeamScores(hh, dtw)
  {
    var team := new Float[|hh|, NumTrials]((i, j) => Finite(0.0));
    var failure := EvalueeLoop(hh, team, dtw);
    if failure.Some? {
      return Err(failure.value);
    }
    var m := Matrix(team);
    ScaledTeamRows(hh, m, dtw);
    return Ok(Scaled(m));
  }

  // ---------------------------------------------------------------------------
  // The dictionaries `human_scores` and `AA_scores`
  // ---------------------------------------------------------------------------

  /**
   * One human-AA file of trial t in `player`'s pass. The loop over the
   * human-human sessions reads each one's file with `[0]` and adds its
   * similarity to the session's cell; the cell's dictionary lookup raises its
   * KeyError in the first iteration, after the first read.
   */
  function AAFileStep(st: Tables, hh: seq<Session>, f: HumanAAFile, player: nat, t: int, dtw: Dtw): Result<Tables>
    requires IsAnalysedTrial(t)
  {
    if !Routed(player, f.humanPlayer) || |hh| == 0 then Ok(st)
    else if t !in hh[0].files then Err(MissingFile(hh[0].name, t))
    else
      var human := HumanHalf(player, f.humanPlayer);
      var m := if human then st.human else st.aa;
      var ti := TrialIndex(t);
      if !(f.session in m && ti < |m[f.session]|) then Err(UnknownSession(f.session))
      else
        var cell :- SumOver(m[f.session][ti], hh, t, AAScorer(f.data, Header(human), player, dtw));
        var m' := m[f.session := m[f.session][ti := cell]];
        Ok(if human then Tables(m', st.aa) else Tables(st.human, m'))
  }

  /** Why a human-AA step can fail: a human-human session lacks the trial, or the file's session has no entry. */
  ghost predicate Explained(e: Error, hh: seq<Session>, fs: seq<HumanAAFile>, t: int, keys: set<string>)
  {
    (exists i :: 0 <= i < |hh| && t !in hh[i].files && e == MissingFile(hh[i].name, t)) ||
    (exists i :: 0 <= i < |fs| && fs[i].session !in keys && e == UnknownSession(fs[i].session))
  }

  /**
   * A human-AA file fails the run exactly when there is a human-human session
   * and one of them lacks the trial or the file's session is not a key; the
   * first session's missing file is reported before the KeyError.
   */
  lemma AAFileStepOk(st: Tables, hh: seq<Session>, f: HumanAAFile, player: nat, t: int, dtw: Dtw, keys: set<string>)
    requires IsAnalysedTrial(t) && Shaped(st, keys) && player < 2 && f.humanPlayer < 2
    ensures var r := AAFileStep(st, hh, f, player, t, dtw);
      (r.Ok? <==> |hh| == 0 || (AllHave(hh, t) && f.session in keys)) &&
      (r.Ok? ==> Shaped(r.value, keys)) &&
      (r.Err? ==> Explained(r.error, hh, [f], t, keys)) &&
      (|hh| > 0 && t !in hh[0].files ==> r == Err(MissingFile(hh[0].name, t)))
  {
    RoutingComplementary(player, f.humanPlayer);
    var r := AAFileStep(st, hh, f, player, t, dtw);
    if |hh| > 0 && t in hh[0].files {
      var human := HumanHalf(player, f.humanPlayer);
      var m := if human then st.human else st.aa;
      var ti := TrialIndex(t);
      if f.session in m {
        var score := AAScorer(f.data, Header(human), player, dtw);
        SumOverIs(m[f.session][ti], hh, t, score);
        match FirstMissing(hh, t)
        case Some(i) =>
          assert !AllHave(hh, t);
          assert r.error == MissingFile(hh[i].name, t);
        case None =>
          assert AllHave(hh, t);
      } else {
        assert [f][0].session !in keys;
      }
    } else if |hh| > 0 {
      assert !AllHave(hh, t);
    }
  }

  /**
   * A successful step adds to exactly the file's cell of the routed half the
   * similarities against all human-human sessions, none excluded.
   */
  lemma AAFileStepCell(st: Tables, hh: seq<Session>, f: HumanAAFile, player: nat, t: int, dtw: Dtw)
    requires IsAnalysedTrial(t) && player < 2 && f.humanPlayer < 2 && |hh| > 0
    requires AAFileStep(st, hh, f, player, t, dtw).Ok?
    ensures var r := AAFileStep(st, hh, f, player, t, dtw).value;
      var ti := TrialIndex(t);
      var human := player == f.humanPlayer;
      var m := if human then st.human else st.aa;
      var scores := PresentScores(hh, t, AAScorer(f.data, Header(human), player, dtw));
      |scores| == |hh| &&
      f.session in m && ti < |m[f.session]| &&
      (if human then r.aa else r.human) == (if human then st.aa else st.human) &&
      (if human then r.human else r.aa) == m[f.session := m[f.session][ti := Plus(m[f.session][ti], SumFloats(scores))]]
  {
    RoutingComplementary(player, f.humanPlayer);
    var human := HumanHalf(player, f.humanPlayer);
    var m := if human then st.human else st.aa;
    SumOverIs(m[f.session][TrialIndex(t)], hh, t, AAScorer(f.data, Header(human), player, dtw));
  }

  /** The files of one trial for one player, in visiting order. */
  function AAFilesRun(st: Tables, hh: seq<Session>, fs: seq<HumanAAFile>, player: nat, t: int, dtw: Dtw): Result<Tables>
    requires IsAnalysedTrial(t)
    decreases |fs|
  {
    if |fs| == 0 then Ok(st)
    else
      var st' :- AAFileStep(st, hh, fs[0], player, t, dtw);
      AAFilesRun(st', hh, fs[1..], player, t, dtw)
  }

  /** Every file in the list sits under HumanPlayer0 or HumanPlayer1. */
  predicate SeatedFiles(fs: seq<HumanAAFile>)
  {
    forall i :: 0 <= i < |fs| ==> fs[i].humanPlayer < 2
  }

  /** Every file in the list belongs to a session the dictionaries hold. */
  predicate KnownFiles(fs: seq<HumanAAFile>, keys: set<string>)
  {
    forall i :: 0 <= i < |fs| ==> fs[i].session in keys
  }

  lemma {:induction false} AAFilesRunOk(st: Tables, hh: seq<Session>, fs: seq<HumanAAFile>, player: nat, t: int, dtw: Dtw, keys: set<string>)
    requires IsAnalysedTrial(t) && Shaped(st, keys) && player < 2 && SeatedFiles(fs)
    ensures var r := AAFilesRun(st, hh, fs, player, t, dtw);
      (r.Ok? <==> |fs| == 0 || |hh| == 0 || (AllHave(hh, t) && KnownFiles(fs, keys))) &&
      (r.Ok? ==> Shaped(r.value, keys)) &&
      (r.Err? ==> Explained(r.error, hh, fs, t, keys))
    decreases |fs|
  {
    if |fs| > 0 {
      AAFileStepOk(st, hh, fs[0], player, t, dtw, keys);
      var r0 := AAFileStep(st, hh, fs[0], player, t, dtw);
      if r0.Ok? {
        assert forall i :: 1 <= i < |fs| ==> fs[i] == fs[1..][i - 1];
        AAFilesRunOk(r0.value, hh, fs[1..], player, t, dtw, keys);
        var r := AAFilesRun(r0.value, hh, fs[1..], player, t, dtw);
        if r.Err? && !(exists i :: 0 <= i < |hh| && t !in hh[i].files && r.error == MissingFile(hh[i].name, t)) {
          var i :| 0 <= i < |fs[1..]| && fs[1..][i].session !in keys && r.error == UnknownSession(fs[1..][i].session);
          assert fs[i + 1].session !in keys;
        }
      } else if !(exists i :: 0 <= i < |hh| && t !in hh[i].files && r0.error == MissingFile(hh[i].name, t)) {
        assert fs[0].session !in keys;
      }
    }
  }

  /** The trial loop of one player from trial t on. */
  function TrialsRun(st: Tables, hh: seq<Session>, files: Lookup, player: nat, t: int, dtw: Dtw): Result<Tables>
    requires FirstTrial <= t <= LastTrial + 1
    decreases LastTrial + 1 - t
  {
    if t > LastTrial then Ok(st)
    else
      var st' :- AAFilesRun(st, hh, files(t), player, t, dtw);
      TrialsRun(st', hh, files, player, t + 1, dtw)
  }

  /** `for player in (0, 1): for trial in range(first_trial, last_trial): ...` over the human-AA files. */
  function AARun(st: Tables, hh: seq<Session>, files: Lookup, dtw: Dtw): Result<Tables>
  {
    var st1 :- TrialsRun(st, hh, files, 0, FirstTrial, dtw);
    TrialsRun(st1, hh, files, 1, FirstTrial, dtw)
  }

  /** Only the files the lookup yields matter: two lookups that agree on every trial give the same run. */
  lemma {:induction false} TrialsRunSameFiles(st: Tables, hh: seq<Session>, f1: Lookup, f2: Lookup, player: nat, t: int, dtw: Dtw)
    requires FirstTrial <= t <= LastTrial + 1 && forall u :: f1(u) == f2(u)
    ensures TrialsRun(st, hh, f1, player, t, dtw) == TrialsRun(st, hh, f2, player, t, dtw)
    decreases LastTrial + 1 - t
  {
    if t <= LastTrial {
      assert f1(t) == f2(t);
      var r := AAFilesRun(st, hh, f1(t), player, t, dtw);
      if r.Ok? {
        TrialsRunSameFiles(r.value, hh, f1, f2, player, t + 1, dtw);
      }
    }
  }

  lemma AARunSameFiles(st: Tables, hh: seq<Session>, f1: Lookup, f2: Lookup, dtw: Dtw)
    requires forall u :: f1(u) == f2(u)
    ensures AARun(st, hh, f1, dtw) == AARun(st, hh, f2, dtw)
  {
    TrialsRunSameFiles(st, hh, f1, f2, 0, FirstTrial, dtw);
    var r := TrialsRun(st, hh, f1, 0, FirstTrial, dtw);
    if r.Ok? {
      TrialsRunSameFiles(r.value, hh, f1, f2, 1, FirstTrial, dtw);
    }
  }

  /** Trial t's human-AA files can all be scored. */
  ghost predicate TrialOk(hh: seq<Session>, files: Lookup, t: int, keys: set<string>)
  {
    |files(t)| == 0 || |hh| == 0 || (AllHave(hh, t) && KnownAt(files, t, keys))
  }

  lemma {:induction false} TrialsRunOk(st: Tables, hh: seq<Session>, files: Lookup, player: nat, t: int, dtw: Dtw, keys: set<string>)
    requires FirstTrial <= t <= LastTrial + 1 && Shaped(st, keys) && player < 2 && Seated(files)
    ensures var r := TrialsRun(st, hh, files, player, t, dtw);
      (r.Ok? <==> forall u :: t <= u <= LastTrial ==> TrialOk(hh, files, u, keys)) &&
      (r.Ok? ==> Shaped(r.value, keys))
    decreases LastTrial + 1 - t
  {
    if t <= LastTrial {
      assert SeatedFiles(files(t));
      AAFilesRunOk(st, hh, files(t), player, t, dtw, keys);
      assert KnownFiles(files(t), keys) <==> KnownAt(files, t, keys);
      var r0 := AAFilesRun(st, hh, files(t), player, t, dtw);
      assert r0.Ok? <==> TrialOk(hh, files, t, keys);
      if r0.Ok? {
        TrialsRunOk(r0.value, hh, files, player, t + 1, dtw, keys);
        assert TrialsRun(st, hh, files, player, t, dtw) == TrialsRun(r0.value, hh, files, player, t + 1, dtw);
      } else {
        assert TrialsRun(st, hh, files, player, t, dtw).Err?;
      }
    }
  }

  /**
   * The human-AA part fails exactly on an analysed trial that has human-AA
   * files while some human-human session lacks it, or one of whose files
   * belongs to a session with no dictionary entry.
   */
  lemma AARunOk(st: Tables, hh: seq<Session>, files: Lookup, dtw: Dtw, keys: set<string>)
    requires Shaped(st, keys) && Seated(files)
    ensures var r := AARun(st, hh, files, dtw);
      (r.Ok? <==> forall t :: IsAnalysedTrial(t) ==> TrialOk(hh, files, t, keys)) &&
      (r.Ok? ==> Shaped(r.value, keys))
  {
    TrialsRunOk(st, hh, files, 0, FirstTrial, dtw, keys);
    var r0 := TrialsRun(st, hh, files, 0, FirstTrial, dtw);
    if r0.Ok? {
      TrialsRunOk(r0.value, hh, files, 1, FirstTrial, dtw, keys);
    }
  }

  // ---------------------------------------------------------------------------
  // The loops of `GETall_AAteam_scores`
  // ---------------------------------------------------------------------------

  /** The body of `for expFile in expFiles`: route the file, then the loop over the human-human sessions. */
  method AAFile(st: Tables, hh: seq<Session>, f: HumanAAFile, player: nat, t: int, dtw: Dtw) returns (r: Result<Tables>)
    requires IsAnalysedTrial(t)
    ensures r == AAFileStep(st, hh, f, player, t, dtw)
  {
    if !Routed(player, f.humanPlayer) || |hh| == 0 {
      return Ok(st);
    }
    if t !in hh[0].files {
      return Err(MissingFile(hh[0].name, t));
    }
    var human := HumanHalf(player, f.humanPlayer);
    var m := if human then st.human else st.aa;
    var ti := TrialIndex(t);
    if !(f.session in m && ti < |m[f.session]|) {
      return Err(UnknownSession(f.session));
    }
    var cell := AccumulateOver(m[f.session][ti], hh, t, AAScorer(f.data, Header(human), player, dtw));
    if cell.Err? {
      return Err(cell.error);
    }
    m := m[f.session := m[f.session][ti := cell.value]];
    if human {
      r := Ok(Tables(m, st.aa));
    } else {
      r := Ok(Tables(st.human, m));
    }
  }

  /** `for expFile in expFiles` for one trial, player and (subfolder, AA type) listing. */
  method AAFiles(st0: Tables, hh: seq<Session>, fs: seq<HumanAAFile>, player: nat, t: int, dtw: Dtw) returns (r: Result<Tables>)
    requires IsAnalysedTrial(t)
    ensures r == AAFilesRun(st0, hh, fs, player, t, dtw)
  {
    var st := st0;
    for i := 0 to |fs|
      invariant AAFilesRun(st0, hh, fs, player, t, dtw) == AAFilesRun(st, hh, fs[i..], player, t, dtw)
    {
      assert fs[i..][0] == fs[i] && fs[i..][1..] == fs[i + 1..];
      var step := AAFile(st, hh, fs[i], player, t, dtw);
      if step.Err? {
        return step;
      }
      st := step.value;
    }
    return Ok(st);
  }

  /** Trial t is the first of the trials from t on. */
  lemma TrialsRunStep(st: Tables, hh: seq<Session>, files: Lookup, player: nat, t: int, dtw: Dtw, fs: seq<HumanAAFile>)
    requires IsAnalysedTrial(t) && files(t) == fs
    ensures var r := AAFilesRun(st, hh, fs, player, t, dtw);
      (r.Err? ==> TrialsRun(st, hh, files, player, t, dtw) == r) &&
      (r.Ok? ==> TrialsRun(st, hh, files, player, t, dtw) == TrialsRun(r.value, hh, files, player, t + 1, dtw))
  {
  }

  /** What remains of one player's trial loop from a trial on, starting from given dictionaries. */
  type TrialsFrom = (Tables, int) -> Result<Tables>

  /** `rem` stands for TrialsRun wherever the loop needs it, without unfolding the run. */
  ghost predicate FollowsTrials(rem: TrialsFrom, hh: seq<Session>, files: Lookup, player: nat, dtw: Dtw)
  {
    forall st: Tables, t: int {:trigger TrialsRun(st, hh, files, player, t, dtw)} ::
      FirstTrial <= t <= LastTrial + 1 ==> rem(st, t) == TrialsRun(st, hh, files, player, t, dtw)
  }

  lemma TrialsStandIn(hh: seq<Session>, files: Lookup, player: nat, dtw: Dtw) returns (rem: TrialsFrom)
    ensures FollowsTrials(rem, hh, files, player, dtw)
  {
    rem := (st: Tables, t: int) => if FirstTrial <= t <= LastTrial + 1 then TrialsRun(st, hh, files, player, t, dtw) else Ok(st);
  }

  /** One trial of the loop below: its files, then the rest of the trials from its result. */
  method AATrial(st: Tables, hh: seq<Session>, listing: seq<HumanAASession>, aaTypes: seq<string>, player: nat, t: int, dtw: Dtw)
    returns (step: Result<Tables>)
    requires IsAnalysedTrial(t)
    ensures var files := ExpLookup(listing, aaTypes);
      (step.Err? ==> TrialsRun(st, hh, files, player, t, dtw) == step) &&
      (step.Ok? ==> TrialsRun(st, hh, files, player, t, dtw) == TrialsRun(step.value, hh, files, player, t + 1, dtw))
  {
    var fs := ExpFiles(listing, aaTypes, t);
    step := AAFiles(st, hh, fs, player, t, dtw);
    TrialsRunStep(st, hh, ExpLookup(listing, aaTypes), player, t, dtw, fs);
  }

  /** `for trial in range(first_trial, last_trial)` for one player, over the files the lookup finds. */
  method AATrials(st0: Tables, hh: seq<Session>, listing: seq<HumanAASession>, aaTypes: seq<string>, player: nat, dtw: Dtw)
    returns (r: Result<Tables>)
    ensures r == TrialsRun(st0, hh, ExpLookup(listing, aaTypes), player, FirstTrial, dtw)
  {
    ghost var files := ExpLookup(listing, aaTypes);
    ghost var rem := TrialsStandIn(hh, files, player, dtw);
    var st := st0;
    for trial := FirstTrial to LastTrial + 1
      invariant rem(st0, FirstTrial) == rem(st, trial)
    {
      var step := AATrial(st, hh, listing, aaTypes, player, trial, dtw);
      if step.Err? {
        return step;
      }
      st := step.value;
    }
    assert rem(st, LastTrial + 1) == TrialsRun(st, hh, files, player, LastTrial + 1, dtw);
    return Ok(st);
  }

  /** `GETall_AAteam_scores()`: both dictionaries created with every discovered session, then both players' passes. */
  method AAScores(hh: seq<Session>, listing: seq<HumanAASession>, names: seq<string>, aaTypes: seq<string>, dtw: Dtw)
    returns (r: Result<Tables>)
    ensures r == AARun(NewTables(names), hh, ExpLookup(listing, aaTypes), dtw)
  {
    var st := NewTables(names);
    var first := AATrials(st, hh, listing, aaTypes, 0, dtw);
    if first.Err? {
      return first;
    }
    r := AATrials(first.value, hh, listing, aaTypes, 1, dtw);
  }

  // ---------------------------------------------------------------------------
  // `__main__`: the cohort reduction and `/ 21`
  // ---------------------------------------------------------------------------

  /** `np.array(rows) / 21`. */
  function Over21(rows: seq<seq<Float>>): (r: seq<seq<Float>>)
    ensures |r| == |rows|
    ensures forall i :: 0 <= i < |rows| ==> |r[i]| == |rows[i]| && forall j :: 0 <= j < |rows[i]| ==> r[i][j] == DivBy(rows[i][j], 21)
  {
    seq(|rows|, i requires 0 <= i < |rows| => seq(|rows[i]|, j requires 0 <= j < |rows[i]| => DivBy(rows[i][j], 21)))
  }

  /** The heuristic, hybrid and self-play lists of a dictionary, each divided by 21. */
  datatype Split = Split(heur: seq<seq<Float>>, hybr: seq<seq<Float>>, self: seq<seq<Float>>)

  function SplitOf(keys: seq<string>, m: Table): Split
    requires forall i :: 0 <= i < |keys| ==> keys[i] in m
  {
    var rows := RowsOf(keys, m);
    Split(Over21(Cohorts.Members(keys, rows, 0)), Over21(Cohorts.Members(keys, rows, 1)), Over21(Cohorts.Members(keys, rows, 2)))
  }

  /** What the script saves: the surrogate matrix and the AA and human cohort lists. */
  datatype Outcome = Outcome(team: seq<seq<Float>>, aa: Split, human: Split)

  /** The whole script: the surrogate matrix first, then the human-AA dictionaries, then the reduction. */
  function Run(hh: seq<Session>, listing: seq<HumanAASession>, names: seq<string>, dtw: Dtw): Result<Outcome>
  {
    var team :- TeamScores(hh, dtw);
    var tables :- AARun(NewTables(names), hh, ExpLookup(listing, AATypes), dtw);
    ExpLookupSeated(listing, AATypes);
    AARunOk(NewTables(names), hh, ExpLookup(listing, AATypes), dtw, KeySet(names));
    var keys := Cohorts.DictKeys(names);
    Ok(Outcome(team, SplitOf(keys, tables.aa), SplitOf(keys, tables.human)))
  }

  /**
   * The script ends with an exception exactly when some human-human session
   * lacks an analysed trial's file or, with at least one human-human session,
   * some human-AA file belongs to a session the dictionaries were not created with.
   */
  lemma RunOk(hh: seq<Session>, listing: seq<HumanAASession>, names: seq<string>, dtw: Dtw)
    ensures Run(hh, listing, names, dtw).Ok? <==>
      (forall c :: 0 <= c < |hh| ==> HasAllTrials(hh[c])) && (|hh| > 0 ==> AllKnown(ExpLookup(listing, AATypes), KeySet(names)))
    ensures Run(hh, listing, names, dtw).Ok? ==> Run(hh, listing, names, dtw).value.team == TeamRows(hh, dtw)
  {
    var files := ExpLookup(listing, AATypes);
    var keys := KeySet(names);
    TeamScoresOk(hh, dtw);
    if TeamScores(hh, dtw).Ok? {
      ExpLookupSeated(listing, AATypes);
      AARunOk(NewTables(names), hh, files, dtw, keys);
      forall t | IsAnalysedTrial(t) ensures AllHave(hh, t) {
        forall i | 0 <= i < |hh| ensures t in hh[i].files {
        }
      }
      if |hh| > 0 {
        assert (forall t :: IsAnalysedTrial(t) ==> TrialOk(hh, files, t, keys)) <==> AllKnown(files, keys);
      }
    } else {
      assert !(forall c :: 0 <= c < |hh| ==> HasAllTrials(hh[c]));
    }
  }

  /** The reduction for one dictionary: rows in key order, split by cohort, each list divided by 21. */
  method CohortSplit(keys: seq<string>, m: Table) returns (sp: Split)
    requires forall i :: 0 <= i < |keys| ==> keys[i] in m
    ensures sp == SplitOf(keys, m)
  {
    var rows := RowsOf(keys, m);
    var heur, hybr, self := Cohorts.Partition(keys, rows);
    sp := Split(Over21(heur), Over21(hybr), Over21(self));
  }

  /** `__main__`: the surrogate matrix, the human-AA dictionaries, then the cohort lists. */
  method CalcAll(hh: seq<Session>, listing: seq<HumanAASession>, names: seq<string>, dtw: Dtw) returns (res: Result<Outcome>)
    ensures res == Run(hh, listing, names, dtw)
  {
    var team := TeamMatrix(hh, dtw);
    if team.Err? {
      return Err(team.error);
    }
    var tables := AAScores(hh, listing, names, AATypes, dtw);
    if tables.Err? {
      return Err(tables.error);
    }
    ExpLookupSeated(listing, AATypes);
    AARunOk(NewTables(names), hh, ExpLookup(listing, AATypes), dtw, KeySet(names));
    var keys := Cohorts.DictKeys(names);
    var aa := CohortSplit(keys, tables.value.aa);
    var human := CohortSplit(keys, tables.value.human);
    return Ok(Outcome(team.value, aa, human));
  }
}
