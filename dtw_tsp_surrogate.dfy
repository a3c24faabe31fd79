/**
 * The leave-one-out DTW comparison of target-selection (TSp) engagement series:
 * every human-human session in turn is the evaluee, the other sessions form the
 * background, and for each player and trial
 *   - every human-AA file found for the trial updates the human half or the AA
 *     half of its session's score array with the mean similarity against the
 *     background files that could be read, and
 *   - the evaluee's own surrogate cell is updated the same way.
 * A similarity is 1 - d/(k*k) with d the DTW distance of the k engagement
 * columns. Cells are divided in place (`/= trialscount`) after each pass, so the
 * second player's pass also divides what the first one stored.
 */
module DtwTspSurrogate {
  import opened Common
  import opened ScoreTables
  import opened Passes
  import Cohorts

  /** The AA types whose human-AA policy folders are visited, in order. */
  const AATypes: seq<string> := ["Heuristic", "Human-Sensitive", "SelfPlay"]

  /** The external `similaritymeasures.dtw` distance of two multivariate series, each given as its list of columns. */
  type Dtw = (seq<seq<real>>, seq<seq<real>>) -> real

  /** `["HA%d" % player + "TA%d" % i for i in range(0, k)]`. */
  function EngagementColumns(player: nat, k: nat): (cols: seq<string>)
    ensures |cols| == k
    ensures forall i :: 0 <= i < k ==> cols[i] == "HA" + NatToString(player) + "TA" + NatToString(i)
  {
    seq(k, i requires 0 <= i < k => "HA" + NatToString(player) + "TA" + NatToString(i))
  }

  /** How many TA columns `range(0, int(df['numTargs'][0]))` yields. */
  function Targets(f: Frame): nat
  {
    if "numTargs" in f.columns && |f.columns["numTargs"]| > 0 then
      var n := Trunc(f.columns["numTargs"][0]);
      if n < 0 then 0 else n
    else 0
  }

  /** `[df[col].to_numpy() for col in cols]`. */
  function Series(f: Frame, cols: seq<string>): seq<seq<real>>
  {
    seq(|cols|, i requires 0 <= i < |cols| => Col(f, cols[i]))
  }

  /**
   * `1 - d / (len(backgroundTS) * len(otherTS))`: both lists hold the k
   * engagement columns, so the divisor is k*k, not a series length. With no
   * column numpy divides by zero and the result is not finite.
   */
  function Similarity(d: real, k: nat): (s: Float)
    ensures s.Finite? <==> k > 0
    ensures s.Finite? ==> (1.0 - s.v) * (k * k) as real == d
    ensures s.Finite? && d >= 0.0 ==> s.v <= 1.0
  {
    if k == 0 then NonFinite
    else
      var q := (k * k) as real;
      assert q > 0.0;
      assert d / q * q == d;
      assert d >= 0.0 ==> d / q >= 0.0;
      Finite(1.0 - d / q)
  }

  /** A background file against a human-AA file, on the HA{player} columns of the human-AA file's targets. */
  function HalfScorer(aa: Frame, player: nat, dtw: Dtw): Frame -> Float
  {
    var cols := EngagementColumns(player, Targets(aa));
    (b: Frame) => Similarity(dtw(Series(b, cols), Series(aa, cols)), |cols|)
  }

  /** A background file against the evaluee's file, on the HA{player} columns of the background file's targets. */
  function TeamScorer(ev: Frame, player: nat, dtw: Dtw): Frame -> Float
  {
    (b: Frame) =>
      var cols := EngagementColumns(player, Targets(b));
      Similarity(dtw(Series(b, cols), Series(ev, cols)), |cols|)
  }

  // ---------------------------------------------------------------------------
  // One cell: `cell += score` over the readable background files, then `cell /= trialscount`
  // ---------------------------------------------------------------------------

  /** The cell after one pass: the sums divided by `trialscount`, the number of successful reads. */
  function Averaged(cell: Float, bg: seq<Session>, t: int, score: Frame -> Float): Float
  {
    DivBy(PoolFold(cell, bg, t, score), CountPresent(bg, t))
  }

  /** The try/except loop over the background files and the division after it. */
  method Accumulate(cell: Float, bg: seq<Session>, t: int, score: Frame -> Float) returns (r: Float, trialscount: nat)
    ensures trialscount == CountPresent(bg, t)
    ensures r == Averaged(cell, bg, t, score)
  {
    var acc := cell;
    trialscount := 0;
    for i := 0 to |bg|
      invariant acc == PoolFold(cell, bg[..i], t, score)
      invariant trialscount == CountPresent(bg[..i], t)
    {
      assert bg[..i + 1][..i] == bg[..i];
      if t in bg[i].files {
        trialscount := trialscount + 1;
        acc := Plus(acc, score(bg[i].files[t]));
      }
    }
    assert bg[..|bg|] == bg;
    r := DivBy(acc, trialscount);
  }

  /**
   * A read that fails is neither added nor counted; one that succeeds adds its
   * score and one to `trialscount`.
   */
  lemma ReadableFilesOnly(bg: seq<Session>, s: Session, t: int, score: Frame -> Float)
    ensures t !in s.files ==>
      PresentScores(bg + [s], t, score) == PresentScores(bg, t, score) &&
      CountPresent(bg + [s], t) == CountPresent(bg, t)
    ensures t in s.files ==>
      PresentScores(bg + [s], t, score) == PresentScores(bg, t, score) + [score(s.files[t])] &&
      CountPresent(bg + [s], t) == CountPresent(bg, t) + 1
  {
    assert (bg + [s])[..|bg|] == bg;
  }

  /**
   * A fresh cell ends as the mean of the readable files' scores, and is not
   * finite when no background file could be read (division by a zero count).
   */
  lemma FreshCellIsMean(bg: seq<Session>, t: int, score: Frame -> Float)
    ensures Averaged(Finite(0.0), bg, t, score) == MeanOf(PresentScores(bg, t, score))
    ensures CountPresent(bg, t) == 0 ==> Averaged(Finite(0.0), bg, t, score) == NonFinite
  {
    PoolFoldIsSum(Finite(0.0), bg, t, score);
  }

  /** v == (s1/n1 + s2)/n2, multiplied out: the value a cell holds after two passes with sums s1, s2 and counts n1, n2. */
  predicate TwoPassValue(v: real, s1: real, n1: nat, s2: real, n2: nat)
  {
    v * n1 as real * n2 as real == s1 + s2 * n1 as real
  }

  /** (S1/n1 + S2)/n2, multiplied out. */
  lemma CompoundArith(a: real, f: real, s1: real, s2: real, n1: real, n2: real)
    requires f * n1 == s1 && a * n2 == f + s2
    ensures a * n1 * n2 == s1 + s2 * n1
  {
    calc {
      a * n1 * n2;
      (a * n2) * n1;
      (f + s2) * n1;
      f * n1 + s2 * n1;
    }
  }

  /** One pass: the cell plus the readable files' sum, divided by their number. */
  lemma AveragedIs(cell: Float, bg: seq<Session>, t: int, score: Frame -> Float)
    ensures Averaged(cell, bg, t, score) == DivBy(Plus(cell, SumFloats(PresentScores(bg, t, score))), CountPresent(bg, t))
  {
    PoolFoldIsSum(cell, bg, t, score);
  }

  /**
   * Two passes over the same cell compound: with sums S1, S2 and counts n1, n2
   * the cell ends as (S1/n1 + S2)/n2, i.e. value * n1 * n2 == S1 + S2 * n1.
   */
  lemma CompoundedDivision(bg1: seq<Session>, bg2: seq<Session>, t: int, sc1: Frame -> Float, sc2: Frame -> Float)
    ensures var n1, n2 := CountPresent(bg1, t), CountPresent(bg2, t);
      var s1, s2 := SumFloats(PresentScores(bg1, t, sc1)), SumFloats(PresentScores(bg2, t, sc2));
      var a := Averaged(Averaged(Finite(0.0), bg1, t, sc1), bg2, t, sc2);
      (a.Finite? <==> n1 > 0 && n2 > 0 && s1.Finite? && s2.Finite?) &&
      (a.Finite? ==> TwoPassValue(a.v, s1.v, n1, s2.v, n2))
  {
    var n1, n2 := CountPresent(bg1, t), CountPresent(bg2, t);
    var s1, s2 := SumFloats(PresentScores(bg1, t, sc1)), SumFloats(PresentScores(bg2, t, sc2));
    var first := Averaged(Finite(0.0), bg1, t, sc1);
    AveragedIs(Finite(0.0), bg1, t, sc1);
    AveragedIs(first, bg2, t, sc2);
    assert first == DivBy(Plus(Finite(0.0), s1), n1);
    assert Averaged(first, bg2, t, sc2) == DivBy(Plus(first, s2), n2);
    TwoDivisions(s1, n1, s2, n2);
  }

  /** The same on the values: a cell started at 0, divided by n1, then added to and divided by n2. */
  lemma TwoDivisions(s1: Float, n1: nat, s2: Float, n2: nat)
    ensures var a := DivBy(Plus(DivBy(Plus(Finite(0.0), s1), n1), s2), n2);
      (a.Finite? <==> n1 > 0 && n2 > 0 && s1.Finite? && s2.Finite?) &&
      (a.Finite? ==> TwoPassValue(a.v, s1.v, n1, s2.v, n2))
  {
    var first := DivBy(Plus(Finite(0.0), s1), n1);
    var a := DivBy(Plus(first, s2), n2);
    if a.Finite? {
      DivByScales(Plus(Finite(0.0), s1), n1);
      DivByScales(Plus(first, s2), n2);
      CompoundArith(a.v, first.v, s1.v, s2.v, n1 as real, n2 as real);
    }
  }

  // ---------------------------------------------------------------------------
  // The surrogate matrix `humanTeamScores`
  // ---------------------------------------------------------------------------

  /**
   * The surrogate cell of evaluee c for trial t after `passes` player passes
   * (pass p uses player p - 1); not finite if the evaluee has no file.
   */
  function TeamPass(hh: seq<Session>, c: nat, t: int, passes: nat, dtw: Dtw): Float
    requires c < |hh|
  {
    if passes == 0 then Finite(0.0)
    else if t !in hh[c].files then NonFinite
    else Averaged(TeamPass(hh, c, t, passes - 1, dtw), Background(hh, hh[c].name), t, TeamScorer(hh[c].files[t], passes - 1, dtw))
  }

  /** One more pass over an evaluee's file: the previous cell averaged against the background. */
  lemma TeamPassNext(hh: seq<Session>, c: nat, t: int, p: nat, dtw: Dtw)
    requires c < |hh| && t in hh[c].files
    ensures TeamPass(hh, c, t, p + 1, dtw) == Averaged(TeamPass(hh, c, t, p, dtw), Background(hh, hh[c].name), t, TeamScorer(hh[c].files[t], p, dtw))
  {
  }

  function TeamCell(hh: seq<Session>, c: nat, t: int, dtw: Dtw): Float
    requires c < |hh|
  {
    TeamPass(hh, c, t, 2, dtw)
  }

  /**
   * The surrogate cell is (S0/n + S1)/n with S_p the player-p sums and n the
   * readable background files: player 1's `/=` divides player 0's mean again.
   */
  lemma TeamCellCompounds(hh: seq<Session>, c: nat, t: int, dtw: Dtw)
    requires c < |hh| && t in hh[c].files
    ensures var bg := Background(hh, hh[c].name);
      var n := CountPresent(bg, t);
      var s0 := SumFloats(PresentScores(bg, t, TeamScorer(hh[c].files[t], 0, dtw)));
      var s1 := SumFloats(PresentScores(bg, t, TeamScorer(hh[c].files[t], 1, dtw)));
      var cell := TeamCell(hh, c, t, dtw);
      (cell.Finite? <==> n > 0 && s0.Finite? && s1.Finite?) &&
      (cell.Finite? ==> TwoPassValue(cell.v, s0.v, n, s1.v, n))
  {
    var bg := Background(hh, hh[c].name);
    var ev := hh[c].files[t];
    assert TeamPass(hh, c, t, 1, dtw) == Averaged(Finite(0.0), bg, t, TeamScorer(ev, 0, dtw));
    CompoundedDivision(bg, bg, t, TeamScorer(ev, 0, dtw), TeamScorer(ev, 1, dtw));
  }

  lemma OvershootArith(x: real, n: nat)
    requires n > 0 && TwoPassValue(x, n as real, n, n as real, n)
    ensures x == (n + 1) as real / n as real
  {
    var r := n as real;
    assert x * r * r == r + r * r;
    assert (x * r - (1.0 + r)) * r == 0.0;
    assert x * r == 1.0 + r;
  }

  /**
   * When every readable background pair matches perfectly (similarity 1) for
   * both players, the surrogate cell is (n + 1)/n rather than 1.
   */
  lemma PerfectMatchOvershoots(hh: seq<Session>, c: nat, t: int, dtw: Dtw)
    requires c < |hh| && t in hh[c].files
    requires var bg := Background(hh, hh[c].name); CountPresent(bg, t) > 0
    requires var bg := Background(hh, hh[c].name);
      forall p, i :: 0 <= p < 2 && 0 <= i < CountPresent(bg, t) ==>
        PresentScores(bg, t, TeamScorer(hh[c].files[t], p, dtw))[i] == Finite(1.0)
    ensures var n := CountPresent(Background(hh, hh[c].name), t);
      TeamCell(hh, c, t, dtw) == Finite((n + 1) as real / n as real)
  {
    var bg := Background(hh, hh[c].name);
    var n := CountPresent(bg, t);
    var ev := hh[c].files[t];
    SumOfOnes(PresentScores(bg, t, TeamScorer(ev, 0, dtw)));
    SumOfOnes(PresentScores(bg, t, TeamScorer(ev, 1, dtw)));
    TeamCellCompounds(hh, c, t, dtw);
    OvershootArith(TeamCell(hh, c, t, dtw).v, n);
  }

  /** `humanTeamScores /= 2` then `.mean(axis = 1)` for one row. */
  function HalvedMean(row: seq<Float>): Float
  {
    MeanOf(seq(|row|, j requires 0 <= j < |row| => DivBy(row[j], 2)))
  }

  function TeamRow(hh: seq<Session>, c: nat, dtw: Dtw): (row: seq<Float>)
    requires c < |hh|
    ensures |row| == NumTrials
  {
    seq(NumTrials, j requires 0 <= j < NumTrials => TeamCell(hh, c, FirstTrial + j, dtw))
  }

  /** The returned `humanTeamScores`: per evaluee, the mean over trials of the halved cells. */
  function TeamScores(hh: seq<Session>, dtw: Dtw): (scores: seq<Float>)
    ensures |scores| == |hh|
  {
    seq(|hh|, c requires 0 <= c < |hh| => HalvedMean(TeamRow(hh, c, dtw)))
  }

  /**
   * An evaluee's returned score is finite exactly when every one of its 18
   * surrogate cells is: one NaN cell (a trial with no readable background
   * file) makes the whole trial mean NaN.
   */
  lemma TeamScoreFinite(hh: seq<Session>, c: nat, dtw: Dtw)
    requires c < |hh|
    ensures TeamScores(hh, dtw)[c].Finite? <==> forall t :: IsAnalysedTrial(t) ==> TeamCell(hh, c, t, dtw).Finite?
  {
    var row := TeamRow(hh, c, dtw);
    var halved := seq(|row|, j requires 0 <= j < |row| => DivBy(row[j], 2));
    assert TeamScores(hh, dtw)[c] == MeanOf(halved);
    if forall t :: IsAnalysedTrial(t) ==> TeamCell(hh, c, t, dtw).Finite? {
      forall j | 0 <= j < |halved| ensures halved[j].Finite? {
        assert IsAnalysedTrial(FirstTrial + j);
      }
    }
    if forall j :: 0 <= j < |halved| ==> halved[j].Finite? {
      forall t | IsAnalysedTrial(t) ensures TeamCell(hh, c, t, dtw).Finite? {
        assert halved[TrialIndex(t)].Finite?;
      }
    }
  }

  // ---------------------------------------------------------------------------
  // The score dictionaries over the whole run
  // ---------------------------------------------------------------------------

  /** The update a human-AA file makes to its cell: one averaged pass against the background. */
  function HalfStep(bg: seq<Session>, player: nat, t: int, dtw: Dtw): CellStep
  {
    (f: HumanAAFile, human: bool, cell: Float) => Averaged(cell, bg, t, HalfScorer(f.data, player, dtw))
  }

  /** The cell update of the human-AA files for a given evaluee name, player and trial. */
  type StepFor = (string, nat, int) -> CellStep

  /** Pass `player` of evaluee `name` scores against the sessions other than `name`. */
  function HalfSteps(hh: seq<Session>, dtw: Dtw): StepFor
  {
    (name: string, player: nat, t: int) => HalfStep(Background(hh, name), player, t, dtw)
  }

  /** Iterations whose indices the sessions and the trial range admit. */
  predicate Admissible(hh: seq<Session>, ps: seq<Pass>)
  {
    forall k :: 0 <= k < |ps| ==> ps[k].evaluee < |hh| && IsAnalysedTrial(ps[k].trial)
  }

  /** One iteration: the evaluee's file must exist, then every human-AA file of the trial is routed. */
  function PassStep(st: Tables, hh: seq<Session>, files: Lookup, steps: StepFor, p: Pass): Result<Tables>
    requires p.evaluee < |hh| && IsAnalysedTrial(p.trial)
  {
    var ev := hh[p.evaluee];
    if p.trial !in ev.files then Err(MissingFile(ev.name, p.trial))
    else FilesFold(st, files(p.trial), p.player, p.trial, steps(ev.name, p.player, p.trial))
  }

  /** The iterations in order; the first exception ends the run. */
  function RunPasses(st: Tables, hh: seq<Session>, files: Lookup, steps: StepFor, ps: seq<Pass>): Result<Tables>
    requires Admissible(hh, ps)
    decreases |ps|
  {
    if |ps| == 0 then Ok(st)
    else
      var st' :- PassStep(st, hh, files, steps, ps[0]);
      RunPasses(st', hh, files, steps, ps[1..])
  }

  /** What `main` returns: the surrogate scores and the two score dictionaries. */
  datatype Outcome = Outcome(team: seq<Float>, tables: Tables)

  /**
   * `main()` over the human-human sessions `hh` (files order), the human-AA
   * policy files `files` and the session names the dictionaries are created with.
   */
  function Run(hh: seq<Session>, listing: seq<HumanAASession>, names: seq<string>, dtw: Dtw): Result<Outcome>
  {
    var tables :- RunPasses(NewTables(names), hh, ExpLookup(listing, AATypes), HalfSteps(hh, dtw), Schedule(|hh|));
    Ok(Outcome(TeamScores(hh, dtw), tables))
  }

  // ---------------------------------------------------------------------------
  // When the run fails
  // ---------------------------------------------------------------------------

  /** The evaluee of the iteration has the trial's file and every human-AA file of the trial is known. */
  ghost predicate PassOk(hh: seq<Session>, files: Lookup, p: Pass, keys: set<string>)
    requires p.evaluee < |hh|
  {
    p.trial in hh[p.evaluee].files && KnownAt(files, p.trial, keys)
  }

  /** One iteration fails exactly on a missing evaluee file or an unknown session, and keeps the shape. */
  lemma PassStepOk(st: Tables, hh: seq<Session>, files: Lookup, steps: StepFor, p: Pass, keys: set<string>)
    requires p.evaluee < |hh| && IsAnalysedTrial(p.trial) && p.player < 2 && Shaped(st, keys) && Seated(files)
    ensures PassStep(st, hh, files, steps, p).Ok? <==> PassOk(hh, files, p, keys)
    ensures PassStep(st, hh, files, steps, p).Ok? ==> Shaped(PassStep(st, hh, files, steps, p).value, keys)
  {
    if p.trial in hh[p.evaluee].files {
      FilesFoldOk(st, files(p.trial), p.player, p.trial, steps(hh[p.evaluee].name, p.player, p.trial), keys);
      KnownForPlayer(files, p.trial, p.player, keys);
    }
  }

  lemma {:induction false} RunPassesOk(st: Tables, hh: seq<Session>, files: Lookup, steps: StepFor, ps: seq<Pass>, keys: set<string>)
    requires Admissible(hh, ps) && Shaped(st, keys) && Seated(files)
    requires forall k :: 0 <= k < |ps| ==> ps[k].player < 2
    ensures RunPasses(st, hh, files, steps, ps).Ok? <==> forall k :: 0 <= k < |ps| ==> PassOk(hh, files, ps[k], keys)
    ensures RunPasses(st, hh, files, steps, ps).Ok? ==> Shaped(RunPasses(st, hh, files, steps, ps).value, keys)
    decreases |ps|
  {
    if |ps| > 0 {
      PassStepOk(st, hh, files, steps, ps[0], keys);
      var r := PassStep(st, hh, files, steps, ps[0]);
      if r.Ok? {
        RunPassesOk(r.value, hh, files, steps, ps[1..], keys);
        assert forall k :: 1 <= k < |ps| ==> ps[k] == ps[1..][k - 1];
      }
    }
  }

  /**
   * The run ends with an exception exactly when some human-human session lacks
   * a trial file (`[...][0]` on the evaluee's empty match list) or, with at least
   * one evaluee, some human-AA file belongs to a session the dictionaries were
   * not created with (KeyError). Missing background files never end it.
   */
  lemma RunOk(hh: seq<Session>, listing: seq<HumanAASession>, names: seq<string>, dtw: Dtw)
    ensures Run(hh, listing, names, dtw).Ok? <==>
      (forall c :: 0 <= c < |hh| ==> HasAllTrials(hh[c])) && (|hh| > 0 ==> AllKnown(ExpLookup(listing, AATypes), KeySet(names)))
    ensures Run(hh, listing, names, dtw).Ok? ==> Shaped(Run(hh, listing, names, dtw).value.tables, KeySet(names))
  {
    var keys := KeySet(names);
    var files := ExpLookup(listing, AATypes);
    var ps := Schedule(|hh|);
    ExpLookupSeated(listing, AATypes);
    RunPassesOk(NewTables(names), hh, files, HalfSteps(hh, dtw), ps, keys);
    var allOk := forall k :: 0 <= k < |ps| ==> PassOk(hh, files, ps[k], keys);
    if allOk {
      forall c, t | 0 <= c < |hh| && IsAnalysedTrial(t)
        ensures t in hh[c].files && KnownAt(files, t, keys)
      {
        ScheduleCovers(|hh|, c, 0, t);
        var k :| 0 <= k < |ps| && ps[k] == Pass(c, 0, t);
        assert PassOk(hh, files, ps[k], keys);
      }
      if |hh| > 0 {
        assert forall t :: IsAnalysedTrial(t) ==> KnownAt(files, t, keys) by {
          forall t | IsAnalysedTrial(t) ensures KnownAt(files, t, keys) {
            assert t in hh[0].files && KnownAt(files, t, keys);
          }
        }
      }
    } else {
      var k :| 0 <= k < |ps| && !PassOk(hh, files, ps[k], keys);
      var p := ps[k];
      if !(p.trial in hh[p.evaluee].files) {
        assert !HasAllTrials(hh[p.evaluee]);
      } else {
        assert IsAnalysedTrial(p.trial) && !KnownAt(files, p.trial, keys);
        assert !AllKnown(files, keys);
      }
    }
  }

  // ---------------------------------------------------------------------------
  // What the dictionaries hold
  // ---------------------------------------------------------------------------

  /** Every evaluee's background in evaluee order: the sessions other than it. */
  function Backgrounds(hh: seq<Session>): (bgs: seq<seq<Session>>)
    ensures |bgs| == |hh| && forall c :: 0 <= c < |hh| ==> bgs[c] == Background(hh, hh[c].name)
  {
    seq(|hh|, c requires 0 <= c < |hh| => Background(hh, hh[c].name))
  }

  /**
   * A cell after the passes of the first n evaluees, with backgrounds bgs, that
   * update it with `score`: each evaluee averages it once more against its own
   * background, x_c = (x_{c-1} + S_c)/n_c.
   */
  function Compounded(bgs: seq<seq<Session>>, n: nat, t: int, score: Frame -> Float): Float
    requires n <= |bgs|
  {
    if n == 0 then Finite(0.0)
    else Averaged(Compounded(bgs, n - 1, t, score), bgs[n - 1], t, score)
  }

  /**
   * The cell of human-AA file f, started at x, after the iterations ps in the
   * half `human` names: those of player p and trial t update it with their step.
   */
  function CellFold(x: Float, hh: seq<Session>, ps: seq<Pass>, p: nat, t: int, f: HumanAAFile, human: bool, steps: StepFor): Float
    requires Admissible(hh, ps)
    decreases |ps|
  {
    if |ps| == 0 then x
    else
      var q := ps[0];
      var y := if q.player == p && q.trial == t then steps(hh[q.evaluee].name, q.player, q.trial)(f, human, x) else x;
      CellFold(y, hh, ps[1..], p, t, f, human, steps)
  }

  /**
   * One iteration q, when f is the only human-AA file of its session for trial
   * t: its session's cell of trial t takes q's step when q is an iteration of
   * trial t, in `human_scores` when q is of f's human seat and in `AA_scores`
   * when it is of the other seat; every other case keeps it.
   */
  lemma PassStepCell(st: Tables, hh: seq<Session>, files: Lookup, steps: StepFor, q: Pass, keys: set<string>, t: int, i: nat)
    requires q.evaluee < |hh| && IsAnalysedTrial(q.trial) && q.player < 2
    requires Shaped(st, keys) && Seated(files) && IsAnalysedTrial(t)
    requires OnlyFileOf(files(t), i) && files(t)[i].session in keys
    requires PassStep(st, hh, files, steps, q).Ok?
    ensures var f, ti, r := files(t)[i], TrialIndex(t), PassStep(st, hh, files, steps, q).value;
      var step, h := steps(hh[q.evaluee].name, q.player, q.trial), f.humanPlayer;
      h < 2 && Shaped(r, keys) &&
      r.human[f.session][ti] ==
        (if q.player == h && q.trial == t then step(f, true, st.human[f.session][ti]) else st.human[f.session][ti]) &&
      r.aa[f.session][ti] ==
        (if q.player == 1 - h && q.trial == t then step(f, false, st.aa[f.session][ti]) else st.aa[f.session][ti])
  {
    var f, ti := files(t)[i], TrialIndex(t);
    var step := steps(hh[q.evaluee].name, q.player, q.trial);
    PassStepOk(st, hh, files, steps, q, keys);
    if q.trial == t {
      FilesFoldOwnCell(st, files(t), q.player, t, step, keys, i);
      RoutingComplementary(q.player, f.humanPlayer);
    } else {
      FilesFoldKeeps(st, files(q.trial), q.player, q.trial, step, keys, f.session, ti);
    }
  }

  /**
   * When f is the only human-AA file of its session for trial t, the passes ps
   * leave its session's cell of trial t as `CellFold` says: in `human_scores`
   * by the passes of f's human seat, in `AA_scores` by those of the other seat.
   */
  lemma {:induction false} RunPassesCell(st: Tables, hh: seq<Session>, files: Lookup, steps: StepFor, ps: seq<Pass>,
                                         keys: set<string>, t: int, i: nat)
    requires Admissible(hh, ps) && Shaped(st, keys) && Seated(files) && IsAnalysedTrial(t)
    requires forall k :: 0 <= k < |ps| ==> ps[k].player < 2
    requires OnlyFileOf(files(t), i) && files(t)[i].session in keys
    requires RunPasses(st, hh, files, steps, ps).Ok?
    ensures var f, ti, r := files(t)[i], TrialIndex(t), RunPasses(st, hh, files, steps, ps).value;
      f.humanPlayer < 2 && Shaped(r, keys) &&
      r.human[f.session][ti] == CellFold(st.human[f.session][ti], hh, ps, f.humanPlayer, t, f, true, steps) &&
      r.aa[f.session][ti] == CellFold(st.aa[f.session][ti], hh, ps, 1 - f.humanPlayer, t, f, false, steps)
    decreases |ps|
  {
    RunPassesOk(st, hh, files, steps, ps, keys);
    if |ps| > 0 {
      PassStepCell(st, hh, files, steps, ps[0], keys, t, i);
      var r := PassStep(st, hh, files, steps, ps[0]).value;
      assert forall k :: 0 <= k < |ps[1..]| ==> ps[1..][k] == ps[k + 1];
      RunPassesCell(r, hh, files, steps, ps[1..], keys, t, i);
    }
  }

  lemma {:induction false} CellFoldAppend(x: Float, hh: seq<Session>, a: seq<Pass>, b: seq<Pass>, p: nat, t: int, f: HumanAAFile, human: bool, steps: StepFor)
    requires Admissible(hh, a) && Admissible(hh, b)
    ensures Admissible(hh, a + b)
    ensures CellFold(x, hh, a + b, p, t, f, human, steps) == CellFold(CellFold(x, hh, a, p, t, f, human, steps), hh, b, p, t, f, human, steps)
    decreases |a|
  {
    assert forall k :: 0 <= k < |a + b| ==> (a + b)[k] == if k < |a| then a[k] else b[k - |a|];
    if |a| > 0 {
      var q := a[0];
      var y := if q.player == p && q.trial == t then steps(hh[q.evaluee].name, q.player, q.trial)(f, human, x) else x;
      assert (a + b)[0] == q && (a + b)[1..] == a[1..] + b;
      assert forall k :: 0 <= k < |a[1..]| ==> a[1..][k] == a[k + 1];
      CellFoldAppend(y, hh, a[1..], b, p, t, f, human, steps);
      assert CellFold(x, hh, a + b, p, t, f, human, steps) == CellFold(y, hh, a[1..] + b, p, t, f, human, steps);
      assert CellFold(x, hh, a, p, t, f, human, steps) == CellFold(y, hh, a[1..], p, t, f, human, steps);
    } else {
      assert a + b == b;
    }
  }

  /** Iterations of other players or other trials leave the cell alone. */
  lemma {:induction false} CellFoldMiss(x: Float, hh: seq<Session>, ps: seq<Pass>, p: nat, t: int, f: HumanAAFile, human: bool, steps: StepFor)
    requires Admissible(hh, ps)
    requires forall k :: 0 <= k < |ps| ==> ps[k].player != p || ps[k].trial != t
    ensures CellFold(x, hh, ps, p, t, f, human, steps) == x
    decreases |ps|
  {
    if |ps| > 0 {
      assert forall k :: 0 <= k < |ps[1..]| ==> ps[1..][k] == ps[k + 1];
      CellFoldMiss(x, hh, ps[1..], p, t, f, human, steps);
    }
  }

  /** The trial loop of player q of evaluee c takes the cell's step once when q is p, and not at all otherwise. */
  lemma CellFoldSweep(x: Float, hh: seq<Session>, c: nat, q: nat, p: nat, t: int, f: HumanAAFile, human: bool, steps: StepFor)
    requires c < |hh| && IsAnalysedTrial(t)
    ensures Admissible(hh, Sweep(c, q))
    ensures CellFold(x, hh, Sweep(c, q), p, t, f, human, steps) ==
      if q == p then steps(hh[c].name, p, t)(f, human, x) else x
  {
    var sw := Sweep(c, q);
    if q != p {
      CellFoldMiss(x, hh, sw, p, t, f, human, steps);
    } else {
      var j := TrialIndex(t);
      var lo, hi := sw[..j], sw[j + 1..];
      assert sw == lo + ([sw[j]] + hi);
      assert forall k :: 0 <= k < |hi| ==> hi[k] == sw[j + 1 + k];
      CellFoldMiss(x, hh, lo, p, t, f, human, steps);
      CellFoldAppend(x, hh, lo, [sw[j]] + hi, p, t, f, human, steps);
      var y := steps(hh[c].name, p, t)(f, human, x);
      assert CellFold(x, hh, [sw[j]] + hi, p, t, f, human, steps) == CellFold(y, hh, hi, p, t, f, human, steps) by {
        assert ([sw[j]] + hi)[1..] == hi;
      }
      CellFoldMiss(y, hh, hi, p, t, f, human, steps);
    }
  }

  /** A step of the script's passes is one `Averaged` pass against the evaluee's background. */
  lemma HalfStepsAre(hh: seq<Session>, dtw: Dtw, c: nat, p: nat, t: int, f: HumanAAFile, human: bool, x: Float)
    requires c < |hh|
    ensures HalfSteps(hh, dtw)(hh[c].name, p, t)(f, human, x) == Averaged(x, Backgrounds(hh)[c], t, HalfScorer(f.data, p, dtw))
  {
  }

  /** Over the whole schedule of the first n evaluees, a fresh cell of player p's passes becomes `Compounded`. */
  lemma {:induction false} CompoundedFromSchedule(hh: seq<Session>, n: nat, p: nat, t: int, f: HumanAAFile, human: bool, dtw: Dtw)
    requires n <= |hh| && p < 2 && IsAnalysedTrial(t)
    ensures Admissible(hh, Schedule(n))
    ensures CellFold(Finite(0.0), hh, Schedule(n), p, t, f, human, HalfSteps(hh, dtw)) == Compounded(Backgrounds(hh), n, t, HalfScorer(f.data, p, dtw))
  {
    if n > 0 {
      var m, steps := n - 1, HalfSteps(hh, dtw);
      ScheduleNext(m);
      CompoundedFromSchedule(hh, m, p, t, f, human, dtw);
      var x := Compounded(Backgrounds(hh), m, t, HalfScorer(f.data, p, dtw));
      CellFoldSweep(x, hh, m, 0, p, t, f, human, steps);
      CellFoldSweep(CellFold(x, hh, Sweep(m, 0), p, t, f, human, steps), hh, m, 1, p, t, f, human, steps);
      HalfStepsAre(hh, dtw, m, p, t, f, human, x);
      CellFoldAppend(Finite(0.0), hh, Schedule(m), Sweep(m, 0), p, t, f, human, steps);
      CellFoldAppend(Finite(0.0), hh, Schedule(m) + Sweep(m, 0), Sweep(m, 1), p, t, f, human, steps);
    }
  }

  /**
   * What the returned dictionaries hold: when a human-AA file is its session's
   * only file of trial t, its session's `human_scores` cell for t is averaged
   * once per human-human evaluee, against that evaluee's background, by the
   * passes of the file's human seat, and its `AA_scores` cell by those of the
   * other seat, so each cell compounds across evaluees rather than being one mean.
   */
  lemma DictionaryCells(hh: seq<Session>, listing: seq<HumanAASession>, names: seq<string>, dtw: Dtw, t: int, i: nat)
    requires IsAnalysedTrial(t)
    requires OnlyFileOf(ExpLookup(listing, AATypes)(t), i) && ExpLookup(listing, AATypes)(t)[i].session in names
    requires Run(hh, listing, names, dtw).Ok?
    ensures var f, ti, tables := ExpLookup(listing, AATypes)(t)[i], TrialIndex(t), Run(hh, listing, names, dtw).value.tables;
      f.humanPlayer < 2 && Shaped(tables, KeySet(names)) &&
      tables.human[f.session][ti] == Compounded(Backgrounds(hh), |hh|, t, HalfScorer(f.data, f.humanPlayer, dtw)) &&
      tables.aa[f.session][ti] == Compounded(Backgrounds(hh), |hh|, t, HalfScorer(f.data, 1 - f.humanPlayer, dtw))
  {
    var files := ExpLookup(listing, AATypes);
    var f := files(t)[i];
    ExpLookupSeated(listing, AATypes);
    RunPassesCell(NewTables(names), hh, files, HalfSteps(hh, dtw), Schedule(|hh|), KeySet(names), t, i);
    CompoundedFromSchedule(hh, |hh|, f.humanPlayer, t, f, true, dtw);
    CompoundedFromSchedule(hh, |hh|, 1 - f.humanPlayer, t, f, false, dtw);
  }

  /** A pass could read a background file of trial t, and every readable file scored finitely. */
  predicate PassReads(bg: seq<Session>, t: int, score: Frame -> Float)
  {
    CountPresent(bg, t) > 0 && forall j :: 0 <= j < CountPresent(bg, t) ==> PresentScores(bg, t, score)[j].Finite?
  }

  /**
   * One more evaluee: with n_c readable background files whose scores sum to
   * S_c, the cell goes from x to (x + S_c)/n_c, finite exactly when x is and
   * the pass reads a file and scores finitely.
   */
  lemma CompoundedNext(bgs: seq<seq<Session>>, n: nat, t: int, score: Frame -> Float)
    requires 0 < n <= |bgs|
    ensures var k, s := CountPresent(bgs[n - 1], t), SumFloats(PresentScores(bgs[n - 1], t, score));
      var x, y := Compounded(bgs, n - 1, t, score), Compounded(bgs, n, t, score);
      y == DivBy(Plus(x, s), k) && (y.Finite? <==> x.Finite? && PassReads(bgs[n - 1], t, score))
  {
    AveragedIs(Compounded(bgs, n - 1, t, score), bgs[n - 1], t, score);
  }

  /** A finite cell: every evaluee's pass so far read a background file and scored finitely. */
  lemma {:induction false} FiniteCellReads(bgs: seq<seq<Session>>, n: nat, t: int, score: Frame -> Float, c: nat)
    requires c < n <= |bgs| && Compounded(bgs, n, t, score).Finite?
    ensures PassReads(bgs[c], t, score)
  {
    CompoundedNext(bgs, n, t, score);
    if c < n - 1 {
      FiniteCellReads(bgs, n - 1, t, score, c);
    }
  }

  /** Passes that all read and score finitely leave the cell finite. */
  lemma {:induction false} ReadsFiniteCell(bgs: seq<seq<Session>>, n: nat, t: int, score: Frame -> Float)
    requires n <= |bgs| && forall c :: 0 <= c < n ==> PassReads(bgs[c], t, score)
    ensures Compounded(bgs, n, t, score).Finite?
  {
    if n > 0 {
      ReadsFiniteCell(bgs, n - 1, t, score);
      CompoundedNext(bgs, n, t, score);
    }
  }

  /** The cell is finite exactly when every evaluee's pass so far read a background file and scored finitely. */
  lemma CompoundedFinite(bgs: seq<seq<Session>>, n: nat, t: int, score: Frame -> Float)
    requires n <= |bgs|
    ensures Compounded(bgs, n, t, score).Finite? <==> forall c :: 0 <= c < n ==> PassReads(bgs[c], t, score)
  {
    if Compounded(bgs, n, t, score).Finite? {
      forall c | 0 <= c < n ensures PassReads(bgs[c], t, score) {
        FiniteCellReads(bgs, n, t, score, c);
      }
    }
    if forall c :: 0 <= c < n ==> PassReads(bgs[c], t, score) {
      ReadsFiniteCell(bgs, n, t, score);
    }
  }

  /** A pass reads n background files of trial t, each a perfect match (similarity 1). */
  predicate PerfectPass(bg: seq<Session>, t: int, score: Frame -> Float, n: nat)
  {
    CountPresent(bg, t) == n && forall j :: 0 <= j < n ==> PresentScores(bg, t, score)[j] == Finite(1.0)
  }

  /** One more perfect-match evaluee with n readable files: the cell goes from x to (x + n)/n. */
  lemma PerfectStep(x: Float, n: nat)
    requires n > 0 && x.Finite?
    ensures var y := DivBy(Plus(x, Finite(n as real)), n);
      y.Finite? &&
      (x.v == 0.0 ==> y.v == 1.0) &&
      (x.v > 0.0 ==> y.v > 1.0) &&
      (x.v == 1.0 ==> y.v == (n + 1) as real / n as real)
  {
    var r := n as real;
    assert DivBy(Plus(x, Finite(r)), n).v == (x.v + r) / r;
    assert (x.v + r) / r == x.v / r + 1.0;
  }

  /**
   * Every evaluee's n readable background files match perfectly (similarity 1):
   * the cell is 1 after the first evaluee, (n + 1)/n after the second and
   * above 1 after every later one, where a mean of similarities would stay 1.
   */
  lemma {:induction false} CompoundedOvershoots(bgs: seq<seq<Session>>, t: int, score: Frame -> Float, n: nat, k: nat)
    requires 0 < n && 0 < k <= |bgs|
    requires forall c :: 0 <= c < |bgs| ==> PerfectPass(bgs[c], t, score, n)
    ensures Compounded(bgs, k, t, score).Finite?
    ensures k == 1 ==> Compounded(bgs, k, t, score).v == 1.0
    ensures k == 2 ==> Compounded(bgs, k, t, score).v == (n + 1) as real / n as real
    ensures k >= 2 ==> Compounded(bgs, k, t, score).v > 1.0
  {
    assert PerfectPass(bgs[k - 1], t, score, n);
    SumOfOnes(PresentScores(bgs[k - 1], t, score));
    CompoundedNext(bgs, k, t, score);
    var x := Compounded(bgs, k - 1, t, score);
    if k > 1 {
      CompoundedOvershoots(bgs, t, score, n, k - 1);
    }
    assert Compounded(bgs, k, t, score) == DivBy(Plus(x, Finite(n as real)), n);
    PerfectStep(x, n);
  }

  /**
   * With two human-human sessions whose backgrounds each hold n readable files
   * matching the human-AA file perfectly on its human seat's columns, the
   * session's `human_scores` cell for the trial ends at (n + 1)/n, not 1.
   */
  lemma DictionaryCellOvershoots(hh: seq<Session>, listing: seq<HumanAASession>, names: seq<string>, dtw: Dtw, t: int, i: nat, n: nat)
    requires IsAnalysedTrial(t)
    requires OnlyFileOf(ExpLookup(listing, AATypes)(t), i) && ExpLookup(listing, AATypes)(t)[i].session in names
    requires Run(hh, listing, names, dtw).Ok?
    requires |hh| == 2 && n > 0
    requires var f := ExpLookup(listing, AATypes)(t)[i];
      forall c :: 0 <= c < 2 ==> PerfectPass(Background(hh, hh[c].name), t, HalfScorer(f.data, f.humanPlayer, dtw), n)
    ensures var f := ExpLookup(listing, AATypes)(t)[i];
      f.session in Run(hh, listing, names, dtw).value.tables.human &&
      TrialIndex(t) < |Run(hh, listing, names, dtw).value.tables.human[f.session]| &&
      Run(hh, listing, names, dtw).value.tables.human[f.session][TrialIndex(t)] == Finite((n + 1) as real / n as real)
  {
    var f := ExpLookup(listing, AATypes)(t)[i];
    DictionaryCells(hh, listing, names, dtw, t, i);
    CompoundedOvershoots(Backgrounds(hh), t, HalfScorer(f.data, f.humanPlayer, dtw), n, 2);
  }

  // ---------------------------------------------------------------------------
  // The loops
  // ---------------------------------------------------------------------------

  /** The loop over the human-AA files of one trial for one player. */
  method UpdateHalves(st0: Tables, files: seq<HumanAAFile>, player: nat, t: int, bg: seq<Session>, dtw: Dtw) returns (r: Result<Tables>)
    requires IsAnalysedTrial(t)
    ensures r == FilesFold(st0, files, player, t, HalfStep(bg, player, t, dtw))
  {
    ghost var step := HalfStep(bg, player, t, dtw);
    var ti := TrialIndex(t);
    var st := st0;
    for i := 0 to |files|
      invariant FilesFold(st0, files, player, t, step) == FilesFold(st, files[i..], player, t, step)
    {
      assert files[i..][0] == files[i] && files[i..][1..] == files[i + 1..];
      var f := files[i];
      if HumanHalf(player, f.humanPlayer) {
        if !(f.session in st.human && ti < |st.human[f.session]|) {
          return Err(UnknownSession(f.session));
        }
        var cell, _ := Accumulate(st.human[f.session][ti], bg, t, HalfScorer(f.data, player, dtw));
        assert cell == step(f, true, st.human[f.session][ti]);
        st := Tables(st.human[f.session := st.human[f.session][ti := cell]], st.aa);
      } else if AAHalf(player, f.humanPlayer) {
        if !(f.session in st.aa && ti < |st.aa[f.session]|) {
          return Err(UnknownSession(f.session));
        }
        var cell, _ := Accumulate(st.aa[f.session][ti], bg, t, HalfScorer(f.data, player, dtw));
        assert cell == step(f, false, st.aa[f.session][ti]);
        st := Tables(st.human, st.aa[f.session := st.aa[f.session][ti := cell]]);
      }
    }
    return Ok(st);
  }

  /**
   * The body of the innermost loop: the evaluee's trial file (or the `[0]`
   * exception), the human-AA files of the trial, then the surrogate cell.
   */
  method Iteration(st: Tables, hh: seq<Session>, listing: seq<HumanAASession>, c: nat, player: nat, trial: int, bg: seq<Session>, team: array2<Float>, dtw: Dtw)
    returns (r: Result<Tables>)
    requires c < |hh| && player < 2 && IsAnalysedTrial(trial) && bg == Background(hh, hh[c].name)
    requires team.Length0 == |hh| && team.Length1 == NumTrials
    requires team[c, TrialIndex(trial)] == TeamPass(hh, c, trial, player, dtw)
    modifies team
    ensures r == PassStep(st, hh, ExpLookup(listing, AATypes), HalfSteps(hh, dtw), Pass(c, player, trial))
    ensures r.Ok? ==> team[c, TrialIndex(trial)] == TeamPass(hh, c, trial, player + 1, dtw)
    ensures forall i, j :: 0 <= i < |hh| && 0 <= j < NumTrials && (i != c || j != TrialIndex(trial)) ==> team[i, j] == old(team[i, j])
  {
    var evaluee := hh[c];
    if trial !in evaluee.files {
      return Err(MissingFile(evaluee.name, trial));
    }
    var upd := UpdateHalves(st, ExpFiles(listing, AATypes, trial), player, trial, bg, dtw);
    if upd.Err? {
      return upd;
    }
    var ti := TrialIndex(trial);
    var cell, _ := Accumulate(team[c, ti], bg, trial, TeamScorer(evaluee.files[trial], player, dtw));
    team[c, ti] := cell;
    TeamPassNext(hh, c, trial, player, dtw);
    return upd;
  }

  /** What remains of the run from iteration k on, starting from the dictionaries `st`. */
  ghost function Remaining(st: Tables, hh: seq<Session>, listing: seq<HumanAASession>, dtw: Dtw, k: nat): Result<Tables>
    requires k <= |hh| * 36
  {
    RunPasses(st, hh, ExpLookup(listing, AATypes), HalfSteps(hh, dtw), Schedule(|hh|)[k..])
  }

  /** A stand-in for `Remaining` that the loop proofs treat as an unknown function of the state and the index. */
  type RunFrom = (Tables, nat) -> Result<Tables>

  /** `rem` agrees with `Remaining` wherever the latter is defined. */
  ghost predicate Follows(rem: RunFrom, hh: seq<Session>, listing: seq<HumanAASession>, dtw: Dtw)
  {
    forall st: Tables, k: nat {:trigger Remaining(st, hh, listing, dtw, k)} ::
      k <= |hh| * 36 ==> rem(st, k) == Remaining(st, hh, listing, dtw, k)
  }

  /** Some stand-in exists: `Remaining` itself, made total. */
  lemma StandIn(hh: seq<Session>, listing: seq<HumanAASession>, dtw: Dtw) returns (rem: RunFrom)
    ensures Follows(rem, hh, listing, dtw)
  {
    rem := (s: Tables, k: nat) => if k <= |hh| * 36 then Remaining(s, hh, listing, dtw, k) else Ok(s);
  }

  /** Iteration (c, player, t) is the first of what remains from its index on. */
  lemma RemainingStep(st: Tables, hh: seq<Session>, listing: seq<HumanAASession>, dtw: Dtw, k: nat, c: nat, player: nat, t: int)
    requires c < |hh| && player < 2 && IsAnalysedTrial(t) && k == c * 36 + player * 18 + TrialIndex(t)
    ensures var r := PassStep(st, hh, ExpLookup(listing, AATypes), HalfSteps(hh, dtw), Pass(c, player, t));
      (r.Err? ==> Remaining(st, hh, listing, dtw, k) == r) &&
      (r.Ok? ==> Remaining(st, hh, listing, dtw, k) == Remaining(r.value, hh, listing, dtw, k + 1))
  {
    var ps := Schedule(|hh|);
    PassIndex(c, player, t);
    assert ps[k..][0] == Pass(c, player, t) && ps[k..][1..] == ps[k + 1..];
  }

  /** One iteration of the trial loop, stated on what remains of the run and on the row's two halves. */
  method TrialStep(st: Tables, hh: seq<Session>, listing: seq<HumanAASession>, ghost rem: RunFrom, c: nat, player: nat, ghost k: nat, trial: int, bg: seq<Session>, team: array2<Float>, dtw: Dtw)
    returns (r: Result<Tables>)
    requires Follows(rem, hh, listing, dtw)
    requires c < |hh| && player < 2 && IsAnalysedTrial(trial) && bg == Background(hh, hh[c].name)
    requires k == c * 36 + player * 18 + TrialIndex(trial)
    requires team.Length0 == |hh| && team.Length1 == NumTrials
    requires forall t :: FirstTrial <= t < trial ==> team[c, TrialIndex(t)] == TeamPass(hh, c, t, player + 1, dtw)
    requires forall t :: trial <= t <= LastTrial ==> team[c, TrialIndex(t)] == TeamPass(hh, c, t, player, dtw)
    modifies team
    ensures r.Err? ==> rem(st, k) == r
    ensures r.Ok? ==> rem(st, k) == rem(r.value, k + 1)
    ensures r.Ok? ==> forall t :: FirstTrial <= t <= trial ==> team[c, TrialIndex(t)] == TeamPass(hh, c, t, player + 1, dtw)
    ensures r.Ok? ==> forall t :: trial < t <= LastTrial ==> team[c, TrialIndex(t)] == TeamPass(hh, c, t, player, dtw)
    ensures forall i, j :: 0 <= i < |hh| && i != c && 0 <= j < NumTrials ==> team[i, j] == old(team[i, j])
  {
    RemainingStep(st, hh, listing, dtw, k, c, player, trial);
    r := Iteration(st, hh, listing, c, player, trial, bg, team, dtw);
    if r.Ok? {
      forall t | FirstTrial <= t <= trial
        ensures team[c, TrialIndex(t)] == TeamPass(hh, c, t, player + 1, dtw)
      {
        if t == trial {
          assert team[c, TrialIndex(trial)] == TeamPass(hh, c, trial, player + 1, dtw);
        }
      }
    }
  }

  /** The trial loop for one evaluee and player: iterations c * 36 + player * 18 up to the next player's. */
  method PlayerRow(st0: Tables, hh: seq<Session>, listing: seq<HumanAASession>, ghost rem: RunFrom, c: nat, player: nat, ghost k0: nat, team: array2<Float>, dtw: Dtw)
    returns (r: Result<Tables>)
    requires Follows(rem, hh, listing, dtw)
    requires c < |hh| && player < 2 && k0 == c * 36 + player * 18
    requires team.Length0 == |hh| && team.Length1 == NumTrials
    requires forall t :: IsAnalysedTrial(t) ==> team[c, TrialIndex(t)] == TeamPass(hh, c, t, player, dtw)
    modifies team
    ensures r.Err? ==> rem(st0, k0) == r
    ensures r.Ok? ==> rem(st0, k0) == rem(r.value, k0 + 18)
    ensures r.Ok? ==> forall t :: IsAnalysedTrial(t) ==> team[c, TrialIndex(t)] == TeamPass(hh, c, t, player + 1, dtw)
    ensures forall i, j :: 0 <= i < |hh| && i != c && 0 <= j < NumTrials ==> team[i, j] == old(team[i, j])
  {
    var bg := Background(hh, hh[c].name);
    var st := st0;
    ghost var k: nat := k0;
    for trial := FirstTrial to LastTrial + 1
      invariant k == k0 + (trial - FirstTrial)
      invariant rem(st0, k0) == rem(st, k)
      invariant forall t :: FirstTrial <= t < trial ==> team[c, TrialIndex(t)] == TeamPass(hh, c, t, player + 1, dtw)
      invariant forall t :: trial <= t <= LastTrial ==> team[c, TrialIndex(t)] == TeamPass(hh, c, t, player, dtw)
      invariant forall i, j :: 0 <= i < |hh| && i != c && 0 <= j < NumTrials ==> team[i, j] == old(team[i, j])
    {
      var step := TrialStep(st, hh, listing, rem, c, player, k, trial, bg, team, dtw);
      if step.Err? {
        return step;
      }
      st := step.value;
      k := k + 1;
    }
    assert k == k0 + 18;
    return Ok(st);
  }

  /** The player loop for one evaluee: iterations c * 36 up to the next evaluee's; fills row c of the surrogate matrix. */
  method EvalueeRow(st0: Tables, hh: seq<Session>, listing: seq<HumanAASession>, ghost rem: RunFrom, c: nat, ghost k0: nat, team: array2<Float>, dtw: Dtw)
    returns (r: Result<Tables>)
    requires Follows(rem, hh, listing, dtw)
    requires c < |hh| && k0 == c * 36 && team.Length0 == |hh| && team.Length1 == NumTrials
    requires forall t :: IsAnalysedTrial(t) ==> team[c, TrialIndex(t)] == Finite(0.0)
    modifies team
    ensures r.Err? ==> rem(st0, k0) == r
    ensures r.Ok? ==> rem(st0, k0) == rem(r.value, k0 + 36)
    ensures r.Ok? ==> forall t :: IsAnalysedTrial(t) ==> team[c, TrialIndex(t)] == TeamCell(hh, c, t, dtw)
    ensures forall i, j :: 0 <= i < |hh| && i != c && 0 <= j < NumTrials ==> team[i, j] == old(team[i, j])
  {
    var st := st0;
    ghost var k := k0;
    for player := 0 to 2
      invariant k == k0 + player * 18
      invariant rem(st0, k0) == rem(st, k)
      invariant forall t :: IsAnalysedTrial(t) ==> team[c, TrialIndex(t)] == TeamPass(hh, c, t, player, dtw)
      invariant forall i, j :: 0 <= i < |hh| && i != c && 0 <= j < NumTrials ==> team[i, j] == old(team[i, j])
    {
      var pass := PlayerRow(st, hh, listing, rem, c, player, k, team, dtw);
      if pass.Err? {
        return pass;
      }
      st := pass.value;
      k := k + 18;
    }
    assert k == k0 + 36;
    return Ok(st);
  }

  /** `main()`: the evaluee loop, then `humanTeamScores /= 2` and the mean over trials. */
  method Compute(hh: seq<Session>, listing: seq<HumanAASession>, names: seq<string>, dtw: Dtw) returns (res: Result<Outcome>)
    ensures res == Run(hh, listing, names, dtw)
  {
    var st0 := NewTables(names);
    var team := new Float[|hh|, NumTrials]((i, j) => Finite(0.0));
    var st := st0;
    ghost var rem := StandIn(hh, listing, dtw);
    ghost var k := 0;
    for c := 0 to |hh|
      invariant k == c * 36
      invariant rem(st0, 0) == rem(st, k)
      invariant forall i, t :: 0 <= i < c && IsAnalysedTrial(t) ==> team[i, TrialIndex(t)] == TeamCell(hh, i, t, dtw)
      invariant forall i, j :: c <= i < |hh| && 0 <= j < NumTrials ==> team[i, j] == Finite(0.0)
    {
      var row := EvalueeRow(st, hh, listing, rem, c, k, team, dtw);
      if row.Err? {
        assert Schedule(|hh|)[0..] == Schedule(|hh|);
        assert rem(st0, 0) == Remaining(st0, hh, listing, dtw, 0);
        return Err(row.error);
      }
      st := row.value;
      k := k + 36;
    }
    assert k == |hh| * 36;
    assert Schedule(|hh|)[0..] == Schedule(|hh|);
    assert Schedule(|hh|)[|hh| * 36..] == [];
    assert rem(st0, 0) == Remaining(st0, hh, listing, dtw, 0);
    assert rem(st, k) == Remaining(st, hh, listing, dtw, k);
    var rows := Matrix(team);
    var scores := seq(|hh|, i requires 0 <= i < |hh| => HalvedMean(rows[i]));
    forall i | 0 <= i < |hh|
      ensures rows[i] == TeamRow(hh, i, dtw)
    {
      forall j | 0 <= j < NumTrials
        ensures rows[i][j] == TeamRow(hh, i, dtw)[j]
      {
        assert team[i, TrialIndex(FirstTrial + j)] == TeamCell(hh, i, FirstTrial + j, dtw);
        assert rows[i][j] == team[i, j];
      }
    }
    assert scores == TeamScores(hh, dtw);
    return Ok(Outcome(scores, st));
  }

  // ---------------------------------------------------------------------------
  // Cohorts
  // ---------------------------------------------------------------------------

  /** Per session, in dictionary key order: (AA trial mean, human trial mean). */
  function MeanRows(keys: seq<string>, tables: Tables): (rows: seq<(Float, Float)>)
    requires forall i :: 0 <= i < |keys| ==> keys[i] in tables.aa && keys[i] in tables.human
    ensures |rows| == |keys|
  {
    seq(|keys|, i requires 0 <= i < |keys| => (MeanOf(tables.aa[keys[i]]), MeanOf(tables.human[keys[i]])))
  }

  /**
   * The `__main__` reduction: each session's (AA, human) trial means appended to
   * the heuristic, hybrid or self-play lists by first-matching prefix.
   */
  method CohortMeans(names: seq<string>, tables: Tables) returns (heur: seq<(Float, Float)>, hybr: seq<(Float, Float)>, self: seq<(Float, Float)>)
    requires forall n :: n in names ==> n in tables.aa && n in tables.human
    ensures var keys := Cohorts.DictKeys(names);
      heur == Cohorts.Members(keys, MeanRows(keys, tables), 0) &&
      hybr == Cohorts.Members(keys, MeanRows(keys, tables), 1) &&
      self == Cohorts.Members(keys, MeanRows(keys, tables), 2)
  {
    var keys := Cohorts.DictKeys(names);
    assert forall i :: 0 <= i < |keys| ==> keys[i] in names;
    heur, hybr, self := Cohorts.Partition(keys, MeanRows(keys, tables));
  }
}
