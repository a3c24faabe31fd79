/**
 * The normalised DTW error between a human session's and a simulation's
 * engagement series, trial by trial, in the older script's form:
 *   - for every simulation type, a frame of two rows per listed human
 *     session; session `hcount` owns rows 2·hcount (Player 1) and
 *     2·hcount + 1 (Player 2), and every listed entry is processed;
 *   - the pair's TrialID and numTargs must agree (an `assert`), and each
 *     player's error is d / (n + m), d the DTW distance of its
 *     HA{player}_engagement series and n, m the two files' row counts;
 *   - a missing file raises, and the CSV is rewritten after every session,
 *     so a failure leaves the frame of the last session that succeeded.
 * The checks and the division are shared with the experiment-1 version.
 */
module ComparePolicies {
  import opened Common
  import CalcAllDtw
  import HH = HumanHumanTraceEvaluator
  import BinaryTraceEvaluator

  /** `simulations`: each name carries a leading backslash, as written in the source. */
  const Simulations: seq<string> := ["\\CollinearAngle", "\\Angle", "\\CollinearDistance", "\\Distance", "\\ContainmentZone"]

  /** `simulations[simulation_key][1:]`: the name shown, and used in the output file. */
  function DisplayName(sim: string): (name: string)
    ensures |sim| > 0 ==> sim == [sim[0]] + name
    ensures |sim| == 0 ==> name == []
  {
    if |sim| == 0 then [] else sim[1..]
  }

  /** `"Successive" + simulations[simulation_key][1:] + "_DTW_Errors.csv"`. */
  function OutputName(sim: string): string
  {
    "Successive" + DisplayName(sim) + "_DTW_Errors.csv"
  }

  // ---------------------------------------------------------------------------
  // The checks and the normalised errors of one pair of files
  // ---------------------------------------------------------------------------

  /** `df[c][0]`: a KeyError when the file has no such column or no rows. */
  function Head(f: Frame, c: string): (r: Result<real>)
    ensures r.Ok? ==> f.length > 0 && c in f.columns && |f.columns[c]| > 0 && r.value == f.columns[c][0]
  {
    if c in f.columns && |f.columns[c]| > 0 && f.length > 0 then Ok(f.columns[c][0]) else Err(MissingValue(c))
  }

  /** The file has rows and both checked columns. */
  predicate Readable(f: Frame)
  {
    f.length > 0 && "TrialID" in f.columns && |f.columns["TrialID"]| > 0 && "numTargs" in f.columns && |f.columns["numTargs"]| > 0
  }

  /** `err / (len(human_data) + len(sim_data))`. */
  function Normalised(d: real, hd: Frame, sd: Frame): real
    requires hd.length + sd.length > 0
  {
    d / (hd.length + sd.length) as real
  }

  /** A player's error is taken from its own engagement column, the same in both files. */
  function PlayerDistance(hd: Frame, sd: Frame, player: nat, dtw: CalcAllDtw.Dtw): real
  {
    var col := CalcAllDtw.EngagementColumn(player);
    dtw(Col(hd, col), Col(sd, col))
  }

  /**
   * The two consistency checks, in the order the source reads the values,
   * then the errors of player 1 and player 2.
   */
  function Errors(hd: Frame, sd: Frame, t: int, dtw: CalcAllDtw.Dtw): Result<(real, real)>
  {
    var humanId :- Head(hd, "TrialID");
    var simId :- Head(sd, "TrialID");
    if humanId != simId then Err(ConsistencyViolation(t))
    else
      var humanTargets :- Head(hd, "numTargs");
      var simTargets :- Head(sd, "numTargs");
      if humanTargets != simTargets then Err(ConsistencyViolation(t))
      else Ok((Normalised(PlayerDistance(hd, sd, 0, dtw), hd, sd), Normalised(PlayerDistance(hd, sd, 1, dtw), hd, sd)))
  }

  /** Player p's error of a pair: p = 0 is Player 1. */
  function Pick(e: (real, real), p: nat): real
  {
    if p == 0 then e.0 else e.1
  }

  /**
   * A readable pair passes exactly when its TrialID and numTargs agree, and
   * otherwise raises the consistency error; an unreadable file raises the
   * KeyError. A passing pair's error times n + m is the DTW distance, so a
   * non-negative distance gives a non-negative error.
   */
  lemma ErrorsMeaning(hd: Frame, sd: Frame, t: int, dtw: CalcAllDtw.Dtw)
    ensures Errors(hd, sd, t, dtw).Ok? <==>
      Readable(hd) && Readable(sd) &&
      hd.columns["TrialID"][0] == sd.columns["TrialID"][0] && hd.columns["numTargs"][0] == sd.columns["numTargs"][0]
    ensures Readable(hd) && Readable(sd) && Errors(hd, sd, t, dtw).Err? ==> Errors(hd, sd, t, dtw).error == ConsistencyViolation(t)
    ensures Errors(hd, sd, t, dtw).Err? ==> Errors(hd, sd, t, dtw).error == ConsistencyViolation(t) || Errors(hd, sd, t, dtw).error.MissingValue?
    ensures Errors(hd, sd, t, dtw).Ok? ==> forall p :: 0 <= p < 2 ==>
      var e := Pick(Errors(hd, sd, t, dtw).value, p);
      var d := PlayerDistance(hd, sd, p, dtw);
      e * (hd.length + sd.length) as real == d && (d >= 0.0 ==> e >= 0.0)
  {
    if Errors(hd, sd, t, dtw).Ok? {
      var q := (hd.length + sd.length) as real;
      forall p | 0 <= p < 2
        ensures Pick(Errors(hd, sd, t, dtw).value, p) * q == PlayerDistance(hd, sd, p, dtw)
        ensures PlayerDistance(hd, sd, p, dtw) >= 0.0 ==> Pick(Errors(hd, sd, t, dtw).value, p) >= 0.0
      {
        var d := PlayerDistance(hd, sd, p, dtw);
        assert Pick(Errors(hd, sd, t, dtw).value, p) == d / q;
        assert d / q * q == d;
      }
    }
  }

  // ---------------------------------------------------------------------------
  // The frame of one simulation type
  // ---------------------------------------------------------------------------

  /** `intermediary_columns`, the same header as the binary-trace frame's. */
  const Columns: seq<string> := HH.Columns

  /** Session h against the simulation at trial t: both files are read (human first), then checked. */
  function SessionErrors(h: Session, t: int, sim: Session, dtw: CalcAllDtw.Dtw): Result<(real, real)>
  {
    if t !in h.files then Err(MissingFile(h.name, t))
    else if t !in sim.files then Err(MissingFile(sim.name, t))
    else Errors(h.files[t], sim.files[t], t, dtw)
  }

  /** The six `df.loc[2*hcount (+ 1), ...]` writes of one session and trial. */
  function WriteSlot(df: seq<Row>, k: nat, name: string, col: string, e: (real, real)): (r: seq<Row>)
    requires 2 * k + 1 < |df|
    ensures |r| == |df| && forall j :: 0 <= j < |df| && j != 2 * k && j != 2 * k + 1 ==> r[j] == df[j]
    ensures r[2 * k] == HH.WriteCell(df[2 * k], name, 0, col, Finite(e.0))
    ensures r[2 * k + 1] == HH.WriteCell(df[2 * k + 1], name, 1, col, Finite(e.1))
  {
    df[2 * k := HH.WriteCell(df[2 * k], name, 0, col, Finite(e.0))][2 * k + 1 := HH.WriteCell(df[2 * k + 1], name, 1, col, Finite(e.1))]
  }

  /** Row 2·h + p: player p + 1 of the h-th session. */
  function Slot(df: seq<Row>, h: nat, p: nat): Row
    requires 2 * h + p < |df|
  {
    df[2 * h + p]
  }

  /** A shorter name for the frame's row type. */
  type Row = HH.Row

  /** The frame so far, whether the CSV has been written yet, and the exception that ended the run. */
  datatype Progress = Progress(df: seq<Row>, written: bool, failure: Option<Error>)

  /** How a human session is scored against the simulation at a trial. */
  type Scorer = (Session, int) -> Result<(real, real)>

  function ScorerFn(sim: Session, dtw: CalcAllDtw.Dtw): (score: Scorer)
    ensures forall h, t :: score(h, t) == SessionErrors(h, t, sim, dtw)
  {
    (h, t) => SessionErrors(h, t, sim, dtw)
  }

  /**
   * The `for hcount, human_session in enumerate(...)` loop of one trial
   * over the first n sessions.
   */
  function Sessions(p: Progress, humans: seq<Session>, n: nat, t: int, col: string, score: Scorer): (r: Progress)
    requires n <= |humans| && |p.df| == 2 * |humans|
    ensures |r.df| == 2 * |humans|
    decreases n
  {
    if n == 0 then p
    else
      var prev := Sessions(p, humans, n - 1, t, col, score);
      if prev.failure.Some? then prev
      else match score(humans[n - 1], t)
        case Err(e) => Progress(prev.df, prev.written, Some(e))
        case Ok(e) => Progress(WriteSlot(prev.df, n - 1, humans[n - 1].name, col, e), true, None)
  }

  /** The blank frame of `pd.DataFrame(index=range(len(...)*2), columns=intermediary_columns)`. */
  function BlankFrame(n: nat): (df: seq<Row>)
    ensures |df| == 2 * n && forall j :: 0 <= j < 2 * n ==> df[j] == HH.Blank
  {
    seq(2 * n, _ => HH.Blank)
  }

  /**
   * One trial over every listed session: it passes exactly when every
   * session's pair is there and passes the checks, a failure is some
   * session's, and a trial that passes has written row 2·h + p with session
   * h's name, Player p + 1 and its error in the trial's column.
   */
  function Trial(prev: Progress, humans: seq<Session>, t: int, score: Scorer): (r: Progress)
    requires |prev.df| == 2 * |humans| && prev.failure.None?
    ensures |r.df| == 2 * |humans|
    ensures r.failure.None? <==> forall h :: 0 <= h < |humans| ==> score(humans[h], t).Ok?
    ensures r.failure.Some? ==> exists h :: 0 <= h < |humans| && score(humans[h], t) == Err(r.failure.value)
    ensures r.failure.None? ==> r.written == (prev.written || |humans| > 0)
    ensures r.failure.None? ==> forall h, q :: 0 <= h < |humans| && 0 <= q < 2 ==>
      Slot(r.df, h, q) == HH.WriteCell(Slot(prev.df, h, q), humans[h].name, q, IntToString(t), Finite(Pick(score(humans[h], t).value, q)))
  {
    var col := IntToString(t);
    SessionsFailure(prev, humans, |humans|, t, col, score);
    SessionsWritten(prev, humans, |humans|, t, col, score);
    SessionsWrites(prev, humans, |humans|, t, col, score);
    Sessions(prev, humans, |humans|, t, col, score)
  }

  /** The `for trial in range(firstTrial, lastTrial)` loop over `ts`, from the blank frame. */
  function Trials(humans: seq<Session>, ts: seq<int>, score: Scorer): (r: Progress)
    ensures |r.df| == 2 * |humans|
    decreases |ts|
  {
    if |ts| == 0 then Progress(BlankFrame(|humans|), false, None)
    else
      var prev := Trials(humans, ts[..|ts| - 1], score);
      if prev.failure.Some? then prev else Trial(prev, humans, ts[|ts| - 1], score)
  }

  /** Once a session raises, the rest of the trial's sessions are not processed. */
  lemma {:induction false} SessionsStop(p: Progress, humans: seq<Session>, k: nat, n: nat, t: int, col: string, score: Scorer)
    requires k <= n <= |humans| && |p.df| == 2 * |humans| && Sessions(p, humans, k, t, col, score).failure.Some?
    ensures Sessions(p, humans, n, t, col, score) == Sessions(p, humans, k, t, col, score)
    decreases n
  {
    if k < n {
      SessionsStop(p, humans, k, n - 1, t, col, score);
    }
  }

  /** One more session after a run of sessions that has not failed: its error stops the trial, its pair is written. */
  lemma SessionsNext(p: Progress, humans: seq<Session>, n: nat, t: int, col: string, score: Scorer, df: seq<Row>, w: bool)
    requires n < |humans| && |p.df| == 2 * |humans| && Sessions(p, humans, n, t, col, score) == Progress(df, w, None)
    ensures score(humans[n], t).Err? ==> Sessions(p, humans, n + 1, t, col, score) == Progress(df, w, Some(score(humans[n], t).error))
    ensures score(humans[n], t).Ok? ==> Sessions(p, humans, n + 1, t, col, score) == Progress(WriteSlot(df, n, humans[n].name, col, score(humans[n], t).value), true, None)
  {
  }

  /**
   * One trial passes exactly when every session's pair is there and passes
   * the checks, and a failure is some session's.
   */
  lemma {:induction false} SessionsFailure(p: Progress, humans: seq<Session>, n: nat, t: int, col: string, score: Scorer)
    requires n <= |humans| && |p.df| == 2 * |humans| && p.failure.None?
    ensures var r := Sessions(p, humans, n, t, col, score);
      (r.failure.None? <==> forall h :: 0 <= h < n ==> score(humans[h], t).Ok?) &&
      (r.failure.Some? ==> exists h :: 0 <= h < n && score(humans[h], t) == Err(r.failure.value))
    decreases n
  {
    if n > 0 {
      var m := n - 1;
      SessionsFailure(p, humans, m, t, col, score);
      var prev := Sessions(p, humans, m, t, col, score);
      var r := Sessions(p, humans, n, t, col, score);
      if prev.failure.Some? {
        assert r == prev;
        var h :| 0 <= h < m && score(humans[h], t) == Err(prev.failure.value);
        assert 0 <= h < n && score(humans[h], t) == Err(r.failure.value);
      } else if score(humans[m], t).Err? {
        assert r.failure == Some(score(humans[m], t).error);
        assert score(humans[m], t) == Err(r.failure.value);
      } else {
        assert r.failure.None?;
      }
    }
  }

  /** A trial that passes has written the CSV once there was a session. */
  lemma {:induction false} SessionsWritten(p: Progress, humans: seq<Session>, n: nat, t: int, col: string, score: Scorer)
    requires n <= |humans| && |p.df| == 2 * |humans| && p.failure.None?
    ensures var r := Sessions(p, humans, n, t, col, score);
      r.failure.None? ==> r.written == (p.written || n > 0)
    decreases n
  {
    if n > 0 {
      SessionsWritten(p, humans, n - 1, t, col, score);
    }
  }

  /** The rows past the first n sessions are untouched. */
  lemma {:induction false} SessionsUntouched(p: Progress, humans: seq<Session>, n: nat, t: int, col: string, score: Scorer)
    requires n <= |humans| && |p.df| == 2 * |humans|
    ensures forall j :: 2 * n <= j < 2 * |humans| ==> Sessions(p, humans, n, t, col, score).df[j] == p.df[j]
    decreases n
  {
    if n > 0 {
      SessionsUntouched(p, humans, n - 1, t, col, score);
    }
  }

  /**
   * A trial that passes has written rows 2·h and 2·h + 1 with session h's
   * name, Player 1 and 2 and the two errors in the trial's column.
   */
  lemma {:induction false} SessionsWrites(p: Progress, humans: seq<Session>, n: nat, t: int, col: string, score: Scorer)
    requires n <= |humans| && |p.df| == 2 * |humans| && p.failure.None?
    ensures (forall h :: 0 <= h < n ==> score(humans[h], t).Ok?) ==>
      var r := Sessions(p, humans, n, t, col, score);
      forall h, q :: 0 <= h < n && 0 <= q < 2 ==>
        Slot(r.df, h, q) == HH.WriteCell(Slot(p.df, h, q), humans[h].name, q, col, Finite(Pick(score(humans[h], t).value, q)))
    decreases n
  {
    if n > 0 && forall h :: 0 <= h < n ==> score(humans[h], t).Ok? {
      var m := n - 1;
      SessionsWrites(p, humans, m, t, col, score);
      SessionsFailure(p, humans, m, t, col, score);
      SessionsUntouched(p, humans, m, t, col, score);
      var prev := Sessions(p, humans, m, t, col, score);
      var e := score(humans[m], t).value;
      var r := Sessions(p, humans, n, t, col, score);
      assert r.df == WriteSlot(prev.df, m, humans[m].name, col, e);
      forall h, q | 0 <= h < n && 0 <= q < 2
        ensures Slot(r.df, h, q) == HH.WriteCell(Slot(p.df, h, q), humans[h].name, q, col, Finite(Pick(score(humans[h], t).value, q)))
      {
        if h == m {
          assert Slot(p.df, m, q) == Slot(prev.df, m, q);
          if q == 0 {
            assert Slot(r.df, m, 0) == HH.WriteCell(prev.df[2 * m], humans[m].name, 0, col, Finite(e.0));
          } else {
            assert Slot(r.df, m, 1) == HH.WriteCell(prev.df[2 * m + 1], humans[m].name, 1, col, Finite(e.1));
          }
        } else {
          assert Slot(r.df, h, q) == Slot(prev.df, h, q);
        }
      }
    }
  }

  /** Once a trial raises, the later trials are not processed. */
  lemma {:induction false} TrialsStop(humans: seq<Session>, ts: seq<int>, k: nat, score: Scorer)
    requires k <= |ts| && Trials(humans, ts[..k], score).failure.Some?
    ensures Trials(humans, ts, score) == Trials(humans, ts[..k], score)
    decreases |ts|
  {
    if k < |ts| {
      var init := ts[..|ts| - 1];
      assert init[..k] == ts[..k];
      TrialsStop(humans, init, k, score);
    } else {
      assert ts[..k] == ts;
    }
  }

  /** A simulation's run ends without an exception exactly when every session passes every trial. */
  lemma {:induction false} TrialsOk(humans: seq<Session>, ts: seq<int>, score: Scorer)
    ensures Trials(humans, ts, score).failure.None? <==>
      forall i, h :: 0 <= i < |ts| && 0 <= h < |humans| ==> score(humans[h], ts[i]).Ok?
    ensures Trials(humans, ts, score).failure.Some? ==>
      exists i, h :: 0 <= i < |ts| && 0 <= h < |humans| && score(humans[h], ts[i]) == Err(Trials(humans, ts, score).failure.value)
    decreases |ts|
  {
    if |ts| > 0 {
      var m := |ts| - 1;
      var init := ts[..m];
      TrialsOk(humans, init, score);
      var prev := Trials(humans, init, score);
      assert forall i :: 0 <= i < m ==> init[i] == ts[i];
      if prev.failure.None? {
        var r := Trial(prev, humans, ts[m], score);
        assert Trials(humans, ts, score) == r;
        if r.failure.Some? {
          var h :| 0 <= h < |humans| && score(humans[h], ts[m]) == Err(r.failure.value);
          assert score(humans[h], ts[m]).Err?;
        }
      } else {
        assert Trials(humans, ts, score) == prev;
        var i, h :| 0 <= i < m && 0 <= h < |humans| && score(humans[h], init[i]) == Err(prev.failure.value);
        assert score(humans[h], ts[i]).Err?;
      }
    }
  }

  /** Without an exception and with a trial, row 2·h + p names session h and Player p + 1. */
  lemma TrialsHeader(humans: seq<Session>, ts: seq<int>, score: Scorer)
    requires |ts| > 0 && Trials(humans, ts, score).failure.None?
    ensures forall h, q :: 0 <= h < |humans| && 0 <= q < 2 ==>
      Slot(Trials(humans, ts, score).df, h, q).session == Some(humans[h].name) &&
      Slot(Trials(humans, ts, score).df, h, q).player == Some(q + 1)
  {
    var prev := Trials(humans, ts[..|ts| - 1], score);
    assert Trials(humans, ts, score) == Trial(prev, humans, ts[|ts| - 1], score);
  }

  /** Without an exception, every row's cells are exactly the trials' columns. */
  lemma {:induction false} TrialsKeys(humans: seq<Session>, ts: seq<int>, score: Scorer)
    requires Trials(humans, ts, score).failure.None?
    ensures forall h, q :: 0 <= h < |humans| && 0 <= q < 2 ==>
      Slot(Trials(humans, ts, score).df, h, q).cells.Keys == set i | 0 <= i < |ts| :: IntToString(ts[i])
    decreases |ts|
  {
    if |ts| > 0 {
      var m := |ts| - 1;
      var init := ts[..m];
      var prev := Trials(humans, init, score);
      TrialsKeys(humans, init, score);
      assert Trials(humans, ts, score) == Trial(prev, humans, ts[m], score);
      assert (set i | 0 <= i < |ts| :: IntToString(ts[i])) == (set i | 0 <= i < m :: IntToString(init[i])) + {IntToString(ts[m])} by {
        assert forall i :: 0 <= i < m ==> init[i] == ts[i];
      }
    } else {
      forall h, q | 0 <= h < |humans| && 0 <= q < 2
        ensures Slot(Trials(humans, ts, score).df, h, q).cells.Keys == {}
      {
        assert Slot(Trials(humans, ts, score).df, h, q) == HH.Blank;
      }
    }
  }

  /** Without an exception, row 2·h + p holds player p's error of every trial in that trial's column. */
  lemma {:induction false} TrialsValues(humans: seq<Session>, ts: seq<int>, score: Scorer)
    requires forall i, j :: 0 <= i < j < |ts| ==> ts[i] != ts[j]
    requires Trials(humans, ts, score).failure.None?
    ensures forall h, i :: 0 <= h < |humans| && 0 <= i < |ts| ==> score(humans[h], ts[i]).Ok?
    ensures forall h, q, i :: 0 <= h < |humans| && 0 <= q < 2 && 0 <= i < |ts| ==>
      IntToString(ts[i]) in Slot(Trials(humans, ts, score).df, h, q).cells &&
      Slot(Trials(humans, ts, score).df, h, q).cells[IntToString(ts[i])] == Finite(Pick(score(humans[h], ts[i]).value, q))
    decreases |ts|
  {
    TrialsOk(humans, ts, score);
    if |ts| > 0 {
      var m := |ts| - 1;
      var init := ts[..m];
      var prev := Trials(humans, init, score);
      TrialsValues(humans, init, score);
      var r := Trial(prev, humans, ts[m], score);
      assert Trials(humans, ts, score) == r;
      BinaryTraceEvaluator.TrialKeysDistinct(ts);
      forall h, q, i | 0 <= h < |humans| && 0 <= q < 2 && 0 <= i < m
        ensures IntToString(ts[i]) in Slot(r.df, h, q).cells
        ensures Slot(r.df, h, q).cells[IntToString(ts[i])] == Finite(Pick(score(humans[h], ts[i]).value, q))
      {
        assert init[i] == ts[i];
        assert IntToString(init[i]) in Slot(prev.df, h, q).cells;
        assert IntToString(ts[i]) != IntToString(ts[m]);
      }
    }
  }

  // ---------------------------------------------------------------------------
  // The simulation loop
  // ---------------------------------------------------------------------------

  /** How one simulation folder is run against the human sessions. */
  type Runner = Session -> Progress

  function RunnerFn(humans: seq<Session>, ts: seq<int>, dtw: CalcAllDtw.Dtw): (run: Runner)
    ensures forall sim :: run(sim) == Trials(humans, ts, ScorerFn(sim, dtw))
  {
    sim => Trials(humans, ts, ScorerFn(sim, dtw))
  }

  /**
   * The `for simulation_key in trange(len(simulations))` loop over the first
   * k types: a type's file, when it was written at all, holds its last frame;
   * the first exception ends the script. `sims` maps each simulation folder
   * that exists to its SessionSIM files.
   */
  function Saves(sims: map<string, Session>, run: Runner, k: nat): HH.Outcome
    requires k <= |Simulations|
  {
    if k == 0 then HH.Outcome([], None)
    else
      var o := Saves(sims, run, k - 1);
      if o.failure.Some? then o
      else
        var sim := Simulations[k - 1];
        var pr := run(HH.SimFolder(sims, DisplayName(sim)));
        var saved := if pr.written then o.saved + [(OutputName(sim), HH.Table(Columns, pr.df))] else o.saved;
        HH.Outcome(saved, pr.failure)
  }

  /** The whole script over the listed human entries. */
  function Run(humans: seq<Session>, sims: map<string, Session>, dtw: CalcAllDtw.Dtw): HH.Outcome
  {
    Saves(sims, RunnerFn(humans, AnalysedTrials(), dtw), |Simulations|)
  }

  /**
   * With at least one session and one trial, the types run in order: every
   * type before the last one processed ended without an exception and
   * saved its full frame; the run ends without an exception exactly when
   * every type was saved.
   */
  lemma {:induction false} SavesInOrder(sims: map<string, Session>, run: Runner, k: nat)
    requires k <= |Simulations|
    requires forall sim :: run(sim).failure.None? ==> run(sim).written
    ensures var o := Saves(sims, run, k);
      |o.saved| <= k && (o.failure.None? ==> |o.saved| == k) &&
      forall j :: 0 <= j < |o.saved| ==>
        o.saved[j] == (OutputName(Simulations[j]), HH.Table(Columns, run(HH.SimFolder(sims, DisplayName(Simulations[j]))).df)) &&
        (j + 1 < |o.saved| || o.failure.None? ==> run(HH.SimFolder(sims, DisplayName(Simulations[j]))).failure.None?)
    decreases k
  {
    if k > 0 {
      SavesInOrder(sims, run, k - 1);
      var o := Saves(sims, run, k - 1);
      if o.failure.None? {
        var sim := Simulations[k - 1];
        var pr := run(HH.SimFolder(sims, DisplayName(sim)));
        var r := Saves(sims, run, k);
        if pr.written {
          assert r.saved == o.saved + [(OutputName(sim), HH.Table(Columns, pr.df))];
          forall j | 0 <= j < |o.saved|
            ensures r.saved[j] == o.saved[j]
          {
          }
        } else {
          assert r.saved == o.saved && r.failure.Some?;
        }
      }
    }
  }

  /** Once a type raises, the later types are not run. */
  lemma {:induction false} SavesStop(sims: map<string, Session>, run: Runner, k: nat, n: nat)
    requires k <= n <= |Simulations| && Saves(sims, run, k).failure.Some?
    ensures Saves(sims, run, n) == Saves(sims, run, k)
    decreases n
  {
    if k < n {
      SavesStop(sims, run, k, n - 1);
    }
  }

  /** With sessions to read, a type that ends without an exception has written its CSV. */
  lemma WrittenWhenOk(humans: seq<Session>, ts: seq<int>, score: Scorer)
    requires |humans| > 0 && |ts| > 0 && Trials(humans, ts, score).failure.None?
    ensures Trials(humans, ts, score).written
  {
    var m := |ts| - 1;
    var prev := Trials(humans, ts[..m], score);
    assert Trials(humans, ts, score) == Trial(prev, humans, ts[m], score);
  }

  /** The script saves every type's full frame, in order, unless some session raises. */
  lemma RunInOrder(humans: seq<Session>, sims: map<string, Session>, dtw: CalcAllDtw.Dtw)
    requires |humans| > 0
    ensures var o := Run(humans, sims, dtw);
      |o.saved| <= |Simulations| && (o.failure.None? ==> |o.saved| == |Simulations|) &&
      forall j :: 0 <= j < |o.saved| ==>
        var pr := Trials(humans, AnalysedTrials(), ScorerFn(HH.SimFolder(sims, DisplayName(Simulations[j])), dtw));
        o.saved[j] == (OutputName(Simulations[j]), HH.Table(Columns, pr.df)) &&
        (j + 1 < |o.saved| || o.failure.None? ==> pr.failure.None?)
  {
    var run := RunnerFn(humans, AnalysedTrials(), dtw);
    forall sim | run(sim).failure.None? ensures run(sim).written {
      WrittenWhenOk(humans, AnalysedTrials(), ScorerFn(sim, dtw));
    }
    SavesInOrder(sims, run, |Simulations|);
  }

  // ---------------------------------------------------------------------------
  // The loops
  // ---------------------------------------------------------------------------

  /** The six `df.loc[2*hcount (+ 1), ...] = ...` writes, in place. */
  method PutSlot(df: array<Row>, k: nat, name: string, col: string, e: (real, real))
    requires 2 * k + 1 < df.Length
    modifies df
    ensures df[..] == WriteSlot(old(df[..]), k, name, col, e)
  {
    df[2 * k] := HH.WriteCell(df[2 * k], name, 0, col, Finite(e.0));
    df[2 * k + 1] := HH.WriteCell(df[2 * k + 1], name, 1, col, Finite(e.1));
  }

  /** One trial: every session's six writes, each followed by `df.to_csv`, until one raises. */
  method SessionLoop(df: array<Row>, humans: seq<Session>, t: int, sim: Session, dtw: CalcAllDtw.Dtw, written: bool)
    returns (w: bool, err: Option<Error>)
    requires df.Length == 2 * |humans|
    modifies df
    ensures var r := Sessions(Progress(old(df[..]), written, None), humans, |humans|, t, IntToString(t), ScorerFn(sim, dtw));
      df[..] == r.df && w == r.written && err == r.failure
  {
    ghost var p := Progress(df[..], written, None);
    ghost var score := ScorerFn(sim, dtw);
    var col := IntToString(t);
    w := written;
    for hcount := 0 to |humans|
      invariant Sessions(p, humans, hcount, t, col, score) == Progress(df[..], w, None)
    {
      var e := SessionErrors(humans[hcount], t, sim, dtw);
      assert score(humans[hcount], t) == e;
      SessionsNext(p, humans, hcount, t, col, score, df[..], w);
      if e.Err? {
        SessionsStop(p, humans, hcount + 1, |humans|, t, col, score);
        return w, Some(e.error);
      }
      PutSlot(df, hcount, humans[hcount].name, col, e.value);
      w := true;
    }
    err := None;
  }

  /** One simulation type: the trial loop on a fresh frame. */
  method SimulationRun(humans: seq<Session>, ts: seq<int>, sim: Session, dtw: CalcAllDtw.Dtw) returns (pr: Progress)
    ensures pr == Trials(humans, ts, ScorerFn(sim, dtw))
  {
    ghost var score := ScorerFn(sim, dtw);
    var df := new Row[2 * |humans|](_ => HH.Blank);
    var written := false;
    assert df[..] == BlankFrame(|humans|);
    for i := 0 to |ts|
      invariant Trials(humans, ts[..i], score) == Progress(df[..], written, None)
    {
      assert ts[..i + 1][..i] == ts[..i];
      var w, err := SessionLoop(df, humans, ts[i], sim, dtw, written);
      written := w;
      if err.Some? {
        TrialsStop(humans, ts, i + 1, score);
        return Progress(df[..], written, err);
      }
    }
    assert ts[..|ts|] == ts;
    return Progress(df[..], written, None);
  }

  /** One more type run after k clean ones: its frame saved when written, and the run ended when it raised. */
  lemma SavesStep(sims: map<string, Session>, run: Runner, k: nat, saved: seq<(string, HH.Table)>, pr: Progress)
    requires k < |Simulations| && Saves(sims, run, k) == HH.Outcome(saved, None)
    requires pr == run(HH.SimFolder(sims, DisplayName(Simulations[k])))
    ensures var saved' := if pr.written then saved + [(OutputName(Simulations[k]), HH.Table(Columns, pr.df))] else saved;
      (pr.failure.Some? ==> Saves(sims, run, |Simulations|) == HH.Outcome(saved', pr.failure)) &&
      (pr.failure.None? ==> Saves(sims, run, k + 1) == HH.Outcome(saved', None))
  {
    if pr.failure.Some? {
      SavesStop(sims, run, k + 1, |Simulations|);
    }
  }

  /** The script: each simulation type in turn, until one raises. */
  method RunAll(humans: seq<Session>, sims: map<string, Session>, dtw: CalcAllDtw.Dtw) returns (o: HH.Outcome)
    ensures o == Run(humans, sims, dtw)
  {
    ghost var run := RunnerFn(humans, AnalysedTrials(), dtw);
    var saved: seq<(string, HH.Table)> := [];
    for k := 0 to |Simulations|
      invariant Saves(sims, run, k) == HH.Outcome(saved, None)
    {
      var name := DisplayName(Simulations[k]);
      var sim := if name in sims then sims[name] else Session(name, map[]);
      var pr := SimulationRun(humans, AnalysedTrials(), sim, dtw);
      SavesStep(sims, run, k, saved, pr);
      if pr.written {
        saved := saved + [(OutputName(Simulations[k]), HH.Table(Columns, pr.df))];
      }
      if pr.failure.Some? {
        return HH.Outcome(saved, pr.failure);
      }
    }
    return HH.Outcome(saved, None);
  }
}
