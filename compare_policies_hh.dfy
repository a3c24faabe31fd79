/**
 * The normalised DTW error between a human session's and a simulation's
 * engagement series, trial by trial, in experiment 1's form:
 *   - hidden entries of the human folder are skipped, and so is a session
 *     whose human or simulation file of the trial is not there;
 *   - a pair whose TrialID or numTargs disagree raises ValueError, and each
 *     player's error is d / (n + m), as in the older script;
 *   - the rows are written at a counter `df_row` that restarts at 0 every
 *     trial and advances by 2 only for a session that passed, so the k-th
 *     passing session of a trial fills rows 2·k and 2·k + 1 whatever its
 *     place in the listing;
 *   - each simulation's CSV is written once, after all its trials.
 */
module ComparePoliciesHH {
  import opened Common
  import CalcAllDtw
  import HH = HumanHumanTraceEvaluator
  import CP = ComparePolicies
  import BinaryTraceEvaluator

  /** `simulations`, without the older script's leading backslash. */
  const Simulations: seq<string> := ["CollinearAngle", "Angle", "CollinearDistance", "Distance", "ContainmentZone"]

  /** `"Successive" + simulations[simulation_key] + "_DTW_Errors.csv"`. */
  function OutputName(sim: string): string
  {
    "Successive" + sim + "_DTW_Errors.csv"
  }

  /** Both scripts run the same five types, in the same order, into the same file names. */
  lemma SameTypes()
    ensures |Simulations| == |CP.Simulations|
    ensures forall i :: 0 <= i < |Simulations| ==>
      CP.DisplayName(CP.Simulations[i]) == Simulations[i] && CP.OutputName(CP.Simulations[i]) == OutputName(Simulations[i])
  {
    forall i | 0 <= i < |Simulations|
      ensures CP.DisplayName(CP.Simulations[i]) == Simulations[i]
    {
      assert CP.Simulations[i] == ['\\'] + Simulations[i];
    }
  }

  // ---------------------------------------------------------------------------
  // One session at one trial
  // ---------------------------------------------------------------------------

  /**
   * Session h against the simulation at trial t: Ok(None) when the loop
   * `continue`s (a hidden entry, or a file that is not there), the raised
   * error, or the two players' errors.
   */
  function Check(h: Session, t: int, sim: Session, dtw: CalcAllDtw.Dtw): Result<Option<(real, real)>>
  {
    if IsHidden(h.name) || t !in h.files || t !in sim.files then Ok(None)
    else
      var e :- CP.Errors(h.files[t], sim.files[t], t, dtw);
      Ok(Some(e))
  }

  /** A session is skipped when it is hidden or a file is not there.
   *  Otherwise it passes exactly when both files are readable and agree on TrialID and numTargs.
   *  A failing session raises the consistency ValueError or a KeyError. */
  lemma CheckMeaning(h: Session, t: int, sim: Session, dtw: CalcAllDtw.Dtw)
    ensures Check(h, t, sim, dtw) == Ok(None) <==> IsHidden(h.name) || t !in h.files || t !in sim.files
    ensures Check(h, t, sim, dtw).Ok? <==>
      IsHidden(h.name) || t !in h.files || t !in sim.files ||
      (CP.Readable(h.files[t]) && CP.Readable(sim.files[t]) &&
       h.files[t].columns["TrialID"][0] == sim.files[t].columns["TrialID"][0] &&
       h.files[t].columns["numTargs"][0] == sim.files[t].columns["numTargs"][0])
    ensures Check(h, t, sim, dtw).Err? ==>
      Check(h, t, sim, dtw).error == ConsistencyViolation(t) || Check(h, t, sim, dtw).error.MissingValue?
    ensures Check(h, t, sim, dtw).Ok? && Check(h, t, sim, dtw).value.Some? ==>
      Check(h, t, sim, dtw).value.value == CP.Errors(h.files[t], sim.files[t], t, dtw).value
  {
    if !(IsHidden(h.name) || t !in h.files || t !in sim.files) {
      CP.ErrorsMeaning(h.files[t], sim.files[t], t, dtw);
    }
  }

  /** How a human session is checked against the simulation at a trial. */
  type Scorer = (Session, int) -> Result<Option<(real, real)>>

  function ScorerFn(sim: Session, dtw: CalcAllDtw.Dtw): (score: Scorer)
    ensures forall h, t :: score(h, t) == Check(h, t, sim, dtw)
  {
    (h, t) => Check(h, t, sim, dtw)
  }

  // ---------------------------------------------------------------------------
  // One trial
  // ---------------------------------------------------------------------------

  /** The session reaches the writes: it neither raised nor was skipped. */
  predicate Writes(c: Result<Option<(real, real)>>)
  {
    c.Ok? && c.value.Some?
  }

  /** A session that passed a trial: its name and its two players' errors. */
  datatype Pass = Pass(name: string, errors: (real, real))

  /** The sessions among the first n that reach the writes, in listing order, or the first error raised. */
  function Passes(humans: seq<Session>, n: nat, t: int, score: Scorer): (r: Result<seq<Pass>>)
    requires n <= |humans|
    ensures r.Ok? ==> |r.value| <= n
    decreases n
  {
    if n == 0 then Ok([])
    else
      var prev :- Passes(humans, n - 1, t, score);
      var c :- score(humans[n - 1], t);
      if c.Some? then Ok(prev + [Pass(humans[n - 1].name, c.value)]) else Ok(prev)
  }

  /** The writes at `df_row`, `df_row + 1` of each passing session in turn, `df_row` advancing by 2. */
  function Stamp(df: seq<CP.Row>, ps: seq<Pass>, col: string): (r: seq<CP.Row>)
    requires 2 * |ps| <= |df|
    ensures |r| == |df|
    decreases |ps|
  {
    if |ps| == 0 then df
    else
      var k := |ps| - 1;
      CP.WriteSlot(Stamp(df, ps[..k], col), k, ps[k].name, col, ps[k].errors)
  }

  /** `df_row = 0`, then the session loop of one trial: the frame after it, or the error raised. */
  function Trial(df: seq<CP.Row>, humans: seq<Session>, t: int, score: Scorer): (r: Result<seq<CP.Row>>)
    requires |df| == 2 * |humans|
  {
    var ps :- Passes(humans, |humans|, t, score);
    Ok(Stamp(df, ps, IntToString(t)))
  }

  /** The `for trial in range(firstTrial, lastTrial)` loop over `ts`, from the blank frame. */
  function Trials(humans: seq<Session>, ts: seq<int>, score: Scorer): (r: Result<seq<CP.Row>>)
    ensures r.Ok? ==> |r.value| == 2 * |humans|
    decreases |ts|
  {
    if |ts| == 0 then Ok(CP.BlankFrame(|humans|))
    else
      var df :- Trials(humans, ts[..|ts| - 1], score);
      Trial(df, humans, ts[|ts| - 1], score)
  }

  /** A trial raises exactly when some session raises; the error is that session's. */
  lemma {:induction false} PassesOk(humans: seq<Session>, n: nat, t: int, score: Scorer)
    requires n <= |humans|
    ensures Passes(humans, n, t, score).Ok? <==> forall h :: 0 <= h < n ==> score(humans[h], t).Ok?
    ensures Passes(humans, n, t, score).Err? ==>
      exists h :: 0 <= h < n && score(humans[h], t) == Err(Passes(humans, n, t, score).error)
    decreases n
  {
    if n > 0 {
      PassesOk(humans, n - 1, t, score);
      var prev := Passes(humans, n - 1, t, score);
      if prev.Err? {
        var h :| 0 <= h < n - 1 && score(humans[h], t) == Err(prev.error);
        assert score(humans[h], t) == Err(Passes(humans, n, t, score).error);
      }
    }
  }

  /**
   * The k-th passing session is session h for some h >= k: a skipped
   * session moves the later ones up by two rows.
   */
  lemma {:induction false} PassesFrom(humans: seq<Session>, n: nat, t: int, score: Scorer)
    requires n <= |humans| && Passes(humans, n, t, score).Ok?
    ensures var ps := Passes(humans, n, t, score).value;
      forall k :: 0 <= k < |ps| ==>
        exists h :: k <= h < n && humans[h].name == ps[k].name && score(humans[h], t) == Ok(Some(ps[k].errors))
    decreases n
  {
    if n > 0 {
      PassesFrom(humans, n - 1, t, score);
      var prev := Passes(humans, n - 1, t, score).value;
      var ps := Passes(humans, n, t, score).value;
      forall k | 0 <= k < |ps|
        ensures exists h :: k <= h < n && humans[h].name == ps[k].name && score(humans[h], t) == Ok(Some(ps[k].errors))
      {
        if k < |prev| {
          assert ps[k] == prev[k];
          var h :| k <= h < n - 1 && humans[h].name == prev[k].name && score(humans[h], t) == Ok(Some(prev[k].errors));
        } else {
          assert k <= n - 1 && humans[n - 1].name == ps[k].name && score(humans[n - 1], t) == Ok(Some(ps[k].errors));
        }
      }
    }
  }

  /**
   * Every session passes exactly when no session is skipped, and then the
   * k-th pass is session k, so `df_row` is 2·hcount as in the older script.
   */
  lemma {:induction false} PassesAligned(humans: seq<Session>, n: nat, t: int, score: Scorer)
    requires n <= |humans| && Passes(humans, n, t, score).Ok?
    ensures |Passes(humans, n, t, score).value| == n <==> forall h :: 0 <= h < n ==> Writes(score(humans[h], t))
    ensures (forall h :: 0 <= h < n ==> Writes(score(humans[h], t))) ==>
      forall k :: 0 <= k < n ==> Passes(humans, n, t, score).value[k] == Pass(humans[k].name, score(humans[k], t).value.value)
    decreases n
  {
    PassesOk(humans, n, t, score);
    if n > 0 {
      PassesAligned(humans, n - 1, t, score);
      var c := score(humans[n - 1], t);
      var prev := Passes(humans, n - 1, t, score).value;
      if c.value.None? {
        assert Passes(humans, n, t, score).value == prev;
      }
    }
  }

  /**
   * The rows the k-th pass owns hold its name, Player 1 or 2, and its error
   * in the trial's column; the rows past the passes are untouched.
   */
  lemma {:induction false} StampRows(df: seq<CP.Row>, ps: seq<Pass>, col: string)
    requires 2 * |ps| <= |df|
    ensures forall j :: 2 * |ps| <= j < |df| ==> Stamp(df, ps, col)[j] == df[j]
    ensures forall k, q :: 0 <= k < |ps| && 0 <= q < 2 ==>
      CP.Slot(Stamp(df, ps, col), k, q) == HH.WriteCell(CP.Slot(df, k, q), ps[k].name, q, col, Finite(CP.Pick(ps[k].errors, q)))
    decreases |ps|
  {
    if |ps| > 0 {
      var k := |ps| - 1;
      var init := ps[..k];
      StampRows(df, init, col);
      var prev := Stamp(df, init, col);
      assert Stamp(df, ps, col) == CP.WriteSlot(prev, k, ps[k].name, col, ps[k].errors);
      forall i, q | 0 <= i < |ps| && 0 <= q < 2
        ensures CP.Slot(Stamp(df, ps, col), i, q) == HH.WriteCell(CP.Slot(df, i, q), ps[i].name, q, col, Finite(CP.Pick(ps[i].errors, q)))
      {
        if i < k {
          assert init[i] == ps[i];
          assert CP.Slot(Stamp(df, ps, col), i, q) == CP.Slot(prev, i, q);
        } else {
          assert CP.Slot(prev, i, q) == CP.Slot(df, i, q);
        }
      }
    }
  }

  /** The script raises exactly when some session raises at some trial. */
  lemma {:induction false} TrialsOk(humans: seq<Session>, ts: seq<int>, score: Scorer)
    ensures Trials(humans, ts, score).Ok? <==>
      forall i, h :: 0 <= i < |ts| && 0 <= h < |humans| ==> score(humans[h], ts[i]).Ok?
    ensures Trials(humans, ts, score).Err? ==>
      exists i, h :: 0 <= i < |ts| && 0 <= h < |humans| && score(humans[h], ts[i]) == Err(Trials(humans, ts, score).error)
    decreases |ts|
  {
    if |ts| > 0 {
      var m := |ts| - 1;
      var init := ts[..m];
      TrialsOk(humans, init, score);
      PassesOk(humans, |humans|, ts[m], score);
      var prev := Trials(humans, init, score);
      assert forall i :: 0 <= i < m ==> init[i] == ts[i];
      if prev.Ok? {
        var ps := Passes(humans, |humans|, ts[m], score);
        if ps.Err? {
          var h :| 0 <= h < |humans| && score(humans[h], ts[m]) == Err(ps.error);
          assert Trials(humans, ts, score) == Err(ps.error);
        }
      } else {
        var i, h :| 0 <= i < m && 0 <= h < |humans| && score(humans[h], init[i]) == Err(prev.error);
        assert score(humans[h], ts[i]).Err?;
      }
    }
  }

  /** The passes of trial t over every listed session. */
  function PassesAt(humans: seq<Session>, t: int, score: Scorer): Result<seq<Pass>>
  {
    Passes(humans, |humans|, t, score)
  }

  /** How many sessions reach the writes at trial t (none when the trial raises). */
  function PassCount(humans: seq<Session>, t: int, score: Scorer): nat
  {
    var r := PassesAt(humans, t, score);
    if r.Ok? then |r.value| else 0
  }

  /** Stamping a trial's column leaves every other column of every row as it was. */
  lemma {:induction false} StampOthers(df: seq<CP.Row>, ps: seq<Pass>, col: string)
    requires 2 * |ps| <= |df|
    ensures forall j, c :: 0 <= j < |df| && c != col ==>
      (c in Stamp(df, ps, col)[j].cells <==> c in df[j].cells) &&
      (c in df[j].cells ==> Stamp(df, ps, col)[j].cells[c] == df[j].cells[c])
    decreases |ps|
  {
    if |ps| > 0 {
      var k := |ps| - 1;
      StampOthers(df, ps[..k], col);
    }
  }

  /**
   * Without an exception, a trial's column of rows 2·k and 2·k + 1 holds the
   * errors of that trial's k-th passing session, and is empty in the rows
   * past that trial's passes.
   */
  lemma TrialsCells(humans: seq<Session>, ts: seq<int>, score: Scorer)
    requires forall i, j :: 0 <= i < j < |ts| ==> ts[i] != ts[j]
    requires Trials(humans, ts, score).Ok?
    ensures forall i :: 0 <= i < |ts| ==> PassesAt(humans, ts[i], score).Ok?
    ensures forall k, q, i :: 0 <= k < |humans| && 0 <= q < 2 && 0 <= i < |ts| ==>
      var ps := PassesAt(humans, ts[i], score).value;
      var row := CP.Slot(Trials(humans, ts, score).value, k, q);
      (k < |ps| ==> IntToString(ts[i]) in row.cells && row.cells[IntToString(ts[i])] == Finite(CP.Pick(ps[k].errors, q))) &&
      (k >= |ps| ==> IntToString(ts[i]) !in row.cells)
  {
    TrialsOk(humans, ts, score);
    forall i | 0 <= i < |ts| ensures PassesAt(humans, ts[i], score).Ok? {
      PassesOk(humans, |humans|, ts[i], score);
    }
    forall k, q, i | 0 <= k < |humans| && 0 <= q < 2 && 0 <= i < |ts|
      ensures var ps := PassesAt(humans, ts[i], score).value;
        var row := CP.Slot(Trials(humans, ts, score).value, k, q);
        (k < |ps| ==> IntToString(ts[i]) in row.cells && row.cells[IntToString(ts[i])] == Finite(CP.Pick(ps[k].errors, q))) &&
        (k >= |ps| ==> IntToString(ts[i]) !in row.cells)
    {
      TrialsCellAt(humans, ts, score, k, q, i);
    }
  }

  /** The cell of trial ts[i] in row 2·k + q, one trial at a time. */
  lemma {:induction false} TrialsCellAt(humans: seq<Session>, ts: seq<int>, score: Scorer, k: nat, q: nat, i: nat)
    requires forall i, j :: 0 <= i < j < |ts| ==> ts[i] != ts[j]
    requires Trials(humans, ts, score).Ok? && k < |humans| && q < 2 && i < |ts|
    ensures PassesAt(humans, ts[i], score).Ok?
    ensures var ps := PassesAt(humans, ts[i], score).value;
      var row := CP.Slot(Trials(humans, ts, score).value, k, q);
      (k < |ps| ==> IntToString(ts[i]) in row.cells && row.cells[IntToString(ts[i])] == Finite(CP.Pick(ps[k].errors, q))) &&
      (k >= |ps| ==> IntToString(ts[i]) !in row.cells)
    decreases |ts|
  {
    var m := |ts| - 1;
    var init := ts[..m];
    var prev := Trials(humans, init, score).value;
    var ps := PassesAt(humans, ts[m], score).value;
    var col := IntToString(ts[m]);
    assert Trials(humans, ts, score).value == Stamp(prev, ps, col);
    BinaryTraceEvaluator.TrialKeysDistinct(ts);
    if i < m {
      assert init[i] == ts[i];
      TrialsCellAt(humans, init, score, k, q, i);
      StampKeeps(prev, ps, col, IntToString(ts[i]), k, q);
    } else {
      StampCell(prev, ps, col, k, q);
      if k >= |ps| {
        TrialsColumnAbsent(humans, init, score, col);
        assert CP.Slot(prev, k, q) == prev[2 * k + q];
      }
    }
  }

  /** Stamping column col leaves any other column of row 2·k + q as it was. */
  lemma StampKeeps(df: seq<CP.Row>, ps: seq<Pass>, col: string, c: string, k: nat, q: nat)
    requires 2 * |ps| <= |df| && 2 * k + q < |df| && c != col
    ensures (c in CP.Slot(Stamp(df, ps, col), k, q).cells <==> c in CP.Slot(df, k, q).cells)
    ensures c in CP.Slot(df, k, q).cells ==> CP.Slot(Stamp(df, ps, col), k, q).cells[c] == CP.Slot(df, k, q).cells[c]
  {
    StampOthers(df, ps, col);
    assert CP.Slot(Stamp(df, ps, col), k, q) == Stamp(df, ps, col)[2 * k + q];
    assert CP.Slot(df, k, q) == df[2 * k + q];
  }

  /** Stamping column col writes the k-th pass's error into row 2·k + q and leaves the rows past the passes alone. */
  lemma StampCell(df: seq<CP.Row>, ps: seq<Pass>, col: string, k: nat, q: nat)
    requires 2 * |ps| <= |df| && 2 * k + q < |df| && q < 2
    ensures k < |ps| ==>
      col in CP.Slot(Stamp(df, ps, col), k, q).cells && CP.Slot(Stamp(df, ps, col), k, q).cells[col] == Finite(CP.Pick(ps[k].errors, q))
    ensures k >= |ps| ==> CP.Slot(Stamp(df, ps, col), k, q) == CP.Slot(df, k, q)
  {
    StampRows(df, ps, col);
    if k >= |ps| {
      assert 2 * |ps| <= 2 * k + q;
    }
  }

  /** A column no earlier trial wrote is in no row. */
  lemma {:induction false} TrialsColumnAbsent(humans: seq<Session>, ts: seq<int>, score: Scorer, col: string)
    requires Trials(humans, ts, score).Ok?
    requires forall i :: 0 <= i < |ts| ==> IntToString(ts[i]) != col
    ensures forall j :: 0 <= j < 2 * |humans| ==> col !in Trials(humans, ts, score).value[j].cells
    decreases |ts|
  {
    if |ts| > 0 {
      var m := |ts| - 1;
      var init := ts[..m];
      assert forall i :: 0 <= i < m ==> init[i] == ts[i];
      TrialsColumnAbsent(humans, init, score, col);
      var prev := Trials(humans, init, score).value;
      var ps := PassesAt(humans, ts[m], score).value;
      StampOthers(prev, ps, IntToString(ts[m]));
      assert Trials(humans, ts, score).value == Stamp(prev, ps, IntToString(ts[m]));
    }
  }

  /**
   * Without an exception, rows 2·k and 2·k + 1 carry Player 1 and 2 once
   * written, and the name of the k-th passing session of the last trial that
   * had k + 1 passes.
   */
  lemma {:induction false} TrialsHeader(humans: seq<Session>, ts: seq<int>, score: Scorer)
    requires Trials(humans, ts, score).Ok?
    ensures forall k, q :: 0 <= k < |humans| && 0 <= q < 2 ==>
      var row := CP.Slot(Trials(humans, ts, score).value, k, q);
      (row.player.Some? ==> row.player == Some(q + 1)) &&
      (row.session.Some? <==> exists i :: 0 <= i < |ts| && k < PassCount(humans, ts[i], score))
    ensures |ts| > 0 ==> forall k, q :: 0 <= k < |humans| && 0 <= q < 2 ==>
      var ps := PassesAt(humans, ts[|ts| - 1], score).value;
      k < |ps| ==> CP.Slot(Trials(humans, ts, score).value, k, q).session == Some(ps[k].name)
    decreases |ts|
  {
    TrialsOk(humans, ts, score);
    if |ts| > 0 {
      var m := |ts| - 1;
      var init := ts[..m];
      var prev := Trials(humans, init, score).value;
      TrialsHeader(humans, init, score);
      PassesOk(humans, |humans|, ts[m], score);
      var ps := PassesAt(humans, ts[m], score).value;
      var col := IntToString(ts[m]);
      var df := Trials(humans, ts, score).value;
      assert df == Stamp(prev, ps, col);
      StampRows(prev, ps, col);
      assert PassCount(humans, ts[m], score) == |ps|;
      forall k, q | 0 <= k < |humans| && 0 <= q < 2
        ensures CP.Slot(df, k, q).player.Some? ==> CP.Slot(df, k, q).player == Some(q + 1)
        ensures CP.Slot(df, k, q).session.Some? <==> exists i :: 0 <= i < |ts| && k < PassCount(humans, ts[i], score)
      {
        if k < |ps| {
          assert k < PassCount(humans, ts[m], score);
        } else {
          assert CP.Slot(df, k, q) == CP.Slot(prev, k, q);
          if exists i :: 0 <= i < |ts| && k < PassCount(humans, ts[i], score) {
            var i :| 0 <= i < |ts| && k < PassCount(humans, ts[i], score);
            assert i != m;
            assert init[i] == ts[i];
          }
          if exists i :: 0 <= i < m && k < PassCount(humans, init[i], score) {
            var i :| 0 <= i < m && k < PassCount(humans, init[i], score);
            assert ts[i] == init[i];
          }
        }
      }
    } else {
      forall k, q | 0 <= k < |humans| && 0 <= q < 2
        ensures CP.Slot(Trials(humans, ts, score).value, k, q) == HH.Blank
      {
      }
    }
  }

  /**
   * The shift leaves stale cells: two sessions that pass the first trial,
   * then only the second one passing the next trial, leave row 0 named after
   * the second session while its first-trial cell is still the first
   * session's error.
   */
  lemma StaleRow(a: Session, b: Session, t1: int, t2: int, ea: (real, real), eb: (real, real), fb: (real, real), score: Scorer)
    requires t1 != t2
    requires score(a, t1) == Ok(Some(ea)) && score(b, t1) == Ok(Some(eb))
    requires score(a, t2) == Ok(None) && score(b, t2) == Ok(Some(fb))
    ensures var r := Trials([a, b], [t1, t2], score);
      r.Ok? && r.value[0].session == Some(b.name) &&
      IntToString(t1) in r.value[0].cells && r.value[0].cells[IntToString(t1)] == Finite(ea.0)
  {
    var humans := [a, b];
    var ts := [t1, t2];
    TrialsOk(humans, ts, score);
    var r := Trials(humans, ts, score);
    TrialsCells(humans, ts, score);
    TrialsHeader(humans, ts, score);
    assert PassesAt(humans, t1, score).value == [Pass(a.name, ea), Pass(b.name, eb)];
    assert PassesAt(humans, t2, score).value == [Pass(b.name, fb)];
    assert r.value[0] == CP.Slot(r.value, 0, 0);
  }

  // ---------------------------------------------------------------------------
  // The simulation loop
  // ---------------------------------------------------------------------------

  /** How one simulation folder is run against the human listing. */
  type Runner = Session -> Result<seq<CP.Row>>

  function RunnerFn(humans: seq<Session>, ts: seq<int>, dtw: CalcAllDtw.Dtw): (run: Runner)
    ensures forall sim :: run(sim) == Trials(humans, ts, ScorerFn(sim, dtw))
  {
    sim => Trials(humans, ts, ScorerFn(sim, dtw))
  }

  /**
   * The `for simulation_key in trange(len(simulations))` loop over the first
   * k types: a type that ends without an exception writes its frame once;
   * the first exception ends the script before that type's CSV.
   */
  function Saves(sims: map<string, Session>, run: Runner, k: nat): HH.Outcome
    requires k <= |Simulations|
  {
    if k == 0 then HH.Outcome([], None)
    else
      var o := Saves(sims, run, k - 1);
      if o.failure.Some? then o
      else
        var sim := Simulations[k - 1];
        match run(HH.SimFolder(sims, sim))
        case Err(e) => HH.Outcome(o.saved, Some(e))
        case Ok(df) => HH.Outcome(o.saved + [(OutputName(sim), HH.Table(CP.Columns, df))], None)
  }

  /** The whole script over the listed human entries. */
  function Run(humans: seq<Session>, sims: map<string, Session>, dtw: CalcAllDtw.Dtw): HH.Outcome
  {
    Saves(sims, RunnerFn(humans, AnalysedTrials(), dtw), |Simulations|)
  }

  /**
   * The types run in order: the j-th file saved is the j-th type's frame;
   * the script ends without an exception exactly when every type ran
   * through, and otherwise the type after the saved ones raised.
   */
  lemma {:induction false} SavesInOrder(sims: map<string, Session>, run: Runner, k: nat)
    requires k <= |Simulations|
    ensures var o := Saves(sims, run, k);
      (o.failure.None? <==> forall j :: 0 <= j < k ==> run(HH.SimFolder(sims, Simulations[j])).Ok?) &&
      (o.failure.None? ==> |o.saved| == k) &&
      (o.failure.Some? ==> |o.saved| < k && run(HH.SimFolder(sims, Simulations[|o.saved|])) == Err(o.failure.value)) &&
      forall j :: 0 <= j < |o.saved| ==>
        run(HH.SimFolder(sims, Simulations[j])).Ok? &&
        o.saved[j] == (OutputName(Simulations[j]), HH.Table(CP.Columns, run(HH.SimFolder(sims, Simulations[j])).value))
    decreases k
  {
    if k > 0 {
      SavesInOrder(sims, run, k - 1);
    }
  }

  /** Once a type raises, the later types are not run. */
  lemma {:induction false} SavesStop(sims: map<string, Session>, run: Runner, k: nat, n: nat)
    requires k <= n <= |Simulations| && Saves(sims, run, k).failure.Some?
    ensures Saves(sims, run, n) == Saves(sims, run, k)
    decreases n
  {
    if k < n {
      SavesStop(sims, run, k, n - 1);
    }
  }

  // ---------------------------------------------------------------------------
  // The loops
  // ---------------------------------------------------------------------------

  /** The six `df.loc[df_row (+ 1), ...] = ...` writes, in place. */
  method PutRows(df: array<CP.Row>, dfRow: nat, ghost k: nat, name: string, col: string, e: (real, real))
    requires dfRow == 2 * k && dfRow + 1 < df.Length
    modifies df
    ensures df[..] == CP.WriteSlot(old(df[..]), k, name, col, e)
  {
    df[dfRow] := HH.WriteCell(df[dfRow], name, 0, col, Finite(e.0));
    df[dfRow + 1] := HH.WriteCell(df[dfRow + 1], name, 1, col, Finite(e.1));
  }

  /** One passing session appended to the passes stamps its two rows over the earlier ones. */
  lemma StampNext(df: seq<CP.Row>, ps: seq<Pass>, p: Pass, col: string)
    requires 2 * |ps| + 2 <= |df|
    ensures Stamp(df, ps + [p], col) == CP.WriteSlot(Stamp(df, ps, col), |ps|, p.name, col, p.errors)
  {
    assert (ps + [p])[..|ps|] == ps;
  }

  /** One trial: `df_row = 0`, then every session's checks and writes, until one raises. */
  method TrialLoop(df: array<CP.Row>, humans: seq<Session>, t: int, sim: Session, dtw: CalcAllDtw.Dtw)
    returns (err: Option<Error>)
    requires df.Length == 2 * |humans|
    modifies df
    ensures var r := Trial(old(df[..]), humans, t, ScorerFn(sim, dtw));
      (err.None? <==> r.Ok?) && (r.Err? ==> err == Some(r.error)) && (r.Ok? ==> df[..] == r.value)
  {
    ghost var df0 := df[..];
    ghost var score := ScorerFn(sim, dtw);
    var col := IntToString(t);
    var dfRow := 0;
    ghost var ps: seq<Pass> := [];
    for hcount := 0 to |humans|
      invariant Passes(humans, hcount, t, score) == Ok(ps)
      invariant dfRow == 2 * |ps| && |ps| <= hcount
      invariant df[..] == Stamp(df0, ps, col)
    {
      var c := Check(humans[hcount], t, sim, dtw);
      assert score(humans[hcount], t) == c;
      PassesNext(humans, hcount, t, score, ps);
      if c.Err? {
        PassesStopAt(humans, hcount + 1, |humans|, t, score);
        assert Trial(df0, humans, t, score) == Err(c.error);
        return Some(c.error);
      }
      if c.value.Some? {
        var p := Pass(humans[hcount].name, c.value.value);
        StampNext(df0, ps, p, col);
        PutRows(df, dfRow, |ps|, p.name, col, p.errors);
        ps := ps + [p];
        dfRow := dfRow + 2;
      }
    }
    assert Trial(df0, humans, t, score) == Ok(Stamp(df0, ps, col));
    err := None;
  }

  /** One more session after the first n passed: its error stops the trial, its pair joins the passes. */
  lemma PassesNext(humans: seq<Session>, n: nat, t: int, score: Scorer, ps: seq<Pass>)
    requires n < |humans| && Passes(humans, n, t, score) == Ok(ps)
    ensures score(humans[n], t).Err? ==> Passes(humans, n + 1, t, score) == Err(score(humans[n], t).error)
    ensures score(humans[n], t) == Ok(None) ==> Passes(humans, n + 1, t, score) == Ok(ps)
    ensures score(humans[n], t).Ok? && score(humans[n], t).value.Some? ==>
      Passes(humans, n + 1, t, score) == Ok(ps + [Pass(humans[n].name, score(humans[n], t).value.value)])
  {
  }

  /** Once a session raises, the trial raises that error. */
  lemma {:induction false} PassesStopAt(humans: seq<Session>, k: nat, n: nat, t: int, score: Scorer)
    requires k <= n <= |humans| && Passes(humans, k, t, score).Err?
    ensures Passes(humans, n, t, score) == Passes(humans, k, t, score)
    decreases n
  {
    if k < n {
      PassesStopAt(humans, k, n - 1, t, score);
    }
  }

  /** Once a trial raises, the simulation type raises that error. */
  lemma {:induction false} TrialsStop(humans: seq<Session>, ts: seq<int>, k: nat, score: Scorer)
    requires k <= |ts| && Trials(humans, ts[..k], score).Err?
    ensures Trials(humans, ts, score) == Trials(humans, ts[..k], score)
    decreases |ts|
  {
    if k < |ts| {
      var init := ts[..|ts| - 1];
      assert init[..k] == ts[..k];
      TrialsStop(humans, init, k, score);
    } else {
      assert ts[..k] == ts;
    }
  }

  /** One simulation type: the trial loop on a fresh frame. */
  method SimulationRun(humans: seq<Session>, ts: seq<int>, sim: Session, dtw: CalcAllDtw.Dtw) returns (r: Result<seq<CP.Row>>)
    ensures r == Trials(humans, ts, ScorerFn(sim, dtw))
  {
    ghost var score := ScorerFn(sim, dtw);
    var df := new CP.Row[2 * |humans|](_ => HH.Blank);
    assert df[..] == CP.BlankFrame(|humans|);
    for i := 0 to |ts|
      invariant Trials(humans, ts[..i], score) == Ok(df[..])
    {
      assert ts[..i + 1][..i] == ts[..i];
      var err := TrialLoop(df, humans, ts[i], sim, dtw);
      if err.Some? {
        TrialsStop(humans, ts, i + 1, score);
        return Err(err.value);
      }
    }
    assert ts[..|ts|] == ts;
    return Ok(df[..]);
  }

  /** One more type: its frame is saved when it runs through, and its error ends the script otherwise. */
  lemma SavesStep(sims: map<string, Session>, run: Runner, k: nat, saved: seq<(string, HH.Table)>, r: Result<seq<CP.Row>>)
    requires k < |Simulations| && Saves(sims, run, k) == HH.Outcome(saved, None)
    requires r == run(HH.SimFolder(sims, Simulations[k]))
    ensures r.Err? ==> Saves(sims, run, |Simulations|) == HH.Outcome(saved, Some(r.error))
    ensures r.Ok? ==> Saves(sims, run, k + 1) == HH.Outcome(saved + [(OutputName(Simulations[k]), HH.Table(CP.Columns, r.value))], None)
  {
    if r.Err? {
      SavesStop(sims, run, k + 1, |Simulations|);
    }
  }

  /** The script: each simulation type in turn, its CSV once at the end, until one raises. */
  method RunAll(humans: seq<Session>, sims: map<string, Session>, dtw: CalcAllDtw.Dtw) returns (o: HH.Outcome)
    ensures o == Run(humans, sims, dtw)
  {
    ghost var run := RunnerFn(humans, AnalysedTrials(), dtw);
    var saved: seq<(string, HH.Table)> := [];
    for k := 0 to |Simulations|
      invariant Saves(sims, run, k) == HH.Outcome(saved, None)
    {
      var name := Simulations[k];
      var sim := if name in sims then sims[name] else Session(name, map[]);
      var r := SimulationRun(humans, AnalysedTrials(), sim, dtw);
      SavesStep(sims, run, k, saved, r);
      if r.Err? {
        return HH.Outcome(saved, Some(r.error));
      }
      saved := saved + [(OutputName(name), HH.Table(CP.Columns, r.value))];
    }
    return HH.Outcome(saved, None);
  }
}
