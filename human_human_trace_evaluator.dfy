/**
 * The experiment-1 binary-trace evaluator over the raw human-human sessions.
 * For each AA type whose output file is not there yet, a data frame of two
 * rows per directory entry is filled in place:
 *   - entry `count` (hidden names included) owns rows 2·count and
 *     2·count + 1, one per player;
 *   - a visible entry's cell for a trial is rewritten after every background
 *     session's positions are appended, so it ends as the binary trace of the
 *     whole pool against the simulation's hA{player} agent;
 *   - the cell is NaN when the simulation folder has no file for the trial;
 *   - a background session without the trial's file ends the run.
 */
module HumanHumanTraceEvaluator {
  import opened Common
  import opened TrajUtils
  import TraceScores
  import BinaryTraceEvaluator

  /** `AA_SIM_types`, in processing order. */
  const AATypes: seq<string> := ["CollinearAngle", "CollinearDistance", "Angle", "Distance", "ContainmentZone"]

  /** `intermediary_columns`. */
  const Columns: seq<string> := ["Session", "Player", "7", "8", "9", "10", "11", "12", "13", "14", "15", "16", "17", "18", "19", "20", "21", "22", "23", "24"]

  /** The written header is Session, Player, then `str(trial)` for every trial of the loop, in order. */
  lemma ColumnsAreTrials()
    ensures |Columns| == 2 + NumTrials && Columns[..2] == ["Session", "Player"]
    ensures forall i :: 0 <= i < NumTrials ==> Columns[2 + i] == IntToString(AnalysedTrials()[i])
  {
    forall i | 0 <= i < NumTrials ensures Columns[2 + i] == IntToString(AnalysedTrials()[i]) {
      if i < 3 {
        ColumnAt(FirstTrial + i);
      } else {
        ColumnAtTwoDigits(FirstTrial + i);
      }
    }
  }

  lemma ColumnAt(t: int)
    requires FirstTrial <= t < 10
    ensures Columns[2 + t - FirstTrial] == IntToString(t)
  {
    assert NatToString(t) == [Digit(t)];
  }

  lemma ColumnAtTwoDigits(t: int)
    requires 10 <= t <= LastTrial
    ensures Columns[2 + t - FirstTrial] == IntToString(t)
  {
    assert NatToString(t) == [Digit(t / 10), Digit(t % 10)];
    if t < 20 {
      assert t / 10 == 1;
    } else {
      assert t / 10 == 2;
    }
  }

  // ---------------------------------------------------------------------------
  // Rows and cells
  // ---------------------------------------------------------------------------

  /** A row of the data frame: Session, Player and the trial cells; an unwritten entry is absent. */
  datatype Row = Row(session: Option<string>, player: Option<int>, cells: map<string, Float>)

  /** A row as `pd.DataFrame(index=..., columns=...)` creates it. */
  const Blank: Row := Row(None, None, map[])

  /** The three `df.loc[count*2 + player, ...]` writes of one trial. */
  function WriteCell(row: Row, name: string, player: nat, col: string, v: Float): (r: Row)
    ensures r.session == Some(name) && r.player == Some(player + 1)
    ensures r.cells == row.cells[col := v]
  {
    Row(Some(name), Some(player + 1), row.cells[col := v])
  }

  /** Writing the same trial again replaces the earlier writes: only the last one is seen. */
  lemma WriteCellOverwrites(row: Row, name: string, player: nat, col: string, a: Float, b: Float)
    ensures WriteCell(WriteCell(row, name, player, col, a), name, player, col, b) == WriteCell(row, name, player, col, b)
  {
    assert row.cells[col := a][col := b] == row.cells[col := b];
  }

  /** The outcome of one trial on the row: written with a value, or left as it was. */
  function Written(row: Row, name: string, player: nat, col: string, v: Option<Float>): Row
  {
    if v.None? then row else WriteCell(row, name, player, col, v.value)
  }

  /** `get_binary_trace(X, Z, simulation, agent)`, or NaN when the simulation folder has no file for the trial. */
  function SimScore(xs: seq<real>, zs: seq<real>, sim: Session, t: int, agent: string, trace: BinaryTraceEvaluator.Tracer): Float
  {
    if t in sim.files then Finite(trace(xs, zs, sim.files[t], agent)) else NonFinite
  }

  /**
   * The cell of trial t after the background loop: nothing is written for an
   * empty background; the first background session without the file raises;
   * otherwise the last write scores the whole pool.
   */
  function TrialCell(bg: seq<Session>, t: int, cx: string, cz: string, agent: string, sim: Session, trace: BinaryTraceEvaluator.Tracer): Result<Option<Float>>
  {
    if |bg| == 0 then Ok(None)
    else match FirstMissing(bg, t)
      case Some(i) => Err(MissingFile(bg[i].name, t))
      case None => Ok(Some(SimScore(TraceScores.PoolColumn(bg, t, cx), TraceScores.PoolColumn(bg, t, cz), sim, t, agent, trace)))
  }

  function CellFn(bg: seq<Session>, cx: string, cz: string, agent: string, sim: Session, trace: BinaryTraceEvaluator.Tracer): (cell: int -> Result<Option<Float>>)
    ensures forall t :: cell(t) == TrialCell(bg, t, cx, cz, agent, sim, trace)
  {
    t => TrialCell(bg, t, cx, cz, agent, sim, trace)
  }

  /** The `for trial in range(first_trial, last_trial)` loop over `ts`, on a row that starts blank. */
  function Fill(ts: seq<int>, cell: int -> Result<Option<Float>>, key: int -> string, name: string, player: nat): Result<Row>
    decreases |ts|
  {
    if |ts| == 0 then Ok(Blank)
    else
      var prev :- Fill(ts[..|ts| - 1], cell, key, name, player);
      var v :- cell(ts[|ts| - 1]);
      Ok(Written(prev, name, player, key(ts[|ts| - 1]), v))
  }

  lemma {:induction false} FillPrefixErr(ts: seq<int>, k: nat, cell: int -> Result<Option<Float>>, key: int -> string, name: string, player: nat)
    requires k <= |ts| && Fill(ts[..k], cell, key, name, player).Err?
    ensures Fill(ts, cell, key, name, player) == Fill(ts[..k], cell, key, name, player)
    decreases |ts|
  {
    if k < |ts| {
      var init := ts[..|ts| - 1];
      assert init[..k] == ts[..k];
      FillPrefixErr(init, k, cell, key, name, player);
    } else {
      assert ts[..k] == ts;
    }
  }

  /** A row is filled exactly when no trial's cell raises. */
  lemma {:induction false} FillOk(ts: seq<int>, cell: int -> Result<Option<Float>>, key: int -> string, name: string, player: nat)
    ensures Fill(ts, cell, key, name, player).Ok? <==> forall i :: 0 <= i < |ts| ==> cell(ts[i]).Ok?
    decreases |ts|
  {
    if |ts| > 0 {
      var n := |ts| - 1;
      var init := ts[..n];
      FillOk(init, cell, key, name, player);
      if forall i :: 0 <= i < |ts| ==> cell(ts[i]).Ok? {
        forall i | 0 <= i < n ensures cell(init[i]).Ok? {
          assert init[i] == ts[i];
        }
      } else {
        var i :| 0 <= i < |ts| && cell(ts[i]).Err?;
        if i < n {
          assert init[i] == ts[i];
        }
      }
    }
  }

  /** When no trial writes, the row stays blank. */
  lemma {:induction false} FillNoWrites(ts: seq<int>, cell: int -> Result<Option<Float>>, key: int -> string, name: string, player: nat)
    requires forall i :: 0 <= i < |ts| ==> cell(ts[i]) == Ok(None)
    ensures Fill(ts, cell, key, name, player) == Ok(Blank)
    decreases |ts|
  {
    if |ts| > 0 {
      var init := ts[..|ts| - 1];
      assert forall i :: 0 <= i < |init| ==> init[i] == ts[i];
      FillNoWrites(init, cell, key, name, player);
    }
  }

  /**
   * When every trial writes, the row names the session and Player = player + 1,
   * and its cells are exactly the trials' columns.
   */
  lemma {:induction false} FillAllWrites(ts: seq<int>, cell: int -> Result<Option<Float>>, key: int -> string, name: string, player: nat)
    requires forall i :: 0 <= i < |ts| ==> cell(ts[i]).Ok? && cell(ts[i]).value.Some?
    ensures Fill(ts, cell, key, name, player).Ok?
    ensures var r := Fill(ts, cell, key, name, player).value;
      (|ts| > 0 ==> r.session == Some(name) && r.player == Some(player + 1)) &&
      forall col :: col in r.cells <==> col in BinaryTraceEvaluator.ColumnsOf(ts, key)
    decreases |ts|
  {
    if |ts| > 0 {
      var n := |ts| - 1;
      var init := ts[..n];
      assert forall i :: 0 <= i < n ==> init[i] == ts[i];
      FillAllWrites(init, cell, key, name, player);
      var prev := Fill(init, cell, key, name, player).value;
      assert Fill(ts, cell, key, name, player) == Ok(WriteCell(prev, name, player, key(ts[n]), cell(ts[n]).value.value));
      assert BinaryTraceEvaluator.ColumnsOf(ts, key) == BinaryTraceEvaluator.ColumnsOf(init, key) + [key(ts[n])];
    }
  }

  /** When every trial writes and no two trials share a column, each column holds its own trial's value. */
  lemma {:induction false} FillValues(ts: seq<int>, cell: int -> Result<Option<Float>>, key: int -> string, name: string, player: nat)
    requires forall i :: 0 <= i < |ts| ==> cell(ts[i]).Ok? && cell(ts[i]).value.Some?
    requires forall i, j :: 0 <= i < j < |ts| ==> key(ts[i]) != key(ts[j])
    requires Fill(ts, cell, key, name, player).Ok?
    ensures forall i :: 0 <= i < |ts| ==>
      key(ts[i]) in Fill(ts, cell, key, name, player).value.cells &&
      Fill(ts, cell, key, name, player).value.cells[key(ts[i])] == cell(ts[i]).value.value
    decreases |ts|
  {
    if |ts| > 0 {
      var n := |ts| - 1;
      var init := ts[..n];
      assert forall i :: 0 <= i < n ==> init[i] == ts[i];
      FillAllWrites(init, cell, key, name, player);
      FillValues(init, cell, key, name, player);
      var prev := Fill(init, cell, key, name, player).value;
      assert Fill(ts, cell, key, name, player) == Ok(WriteCell(prev, name, player, key(ts[n]), cell(ts[n]).value.value));
    }
  }

  // ---------------------------------------------------------------------------
  // The data frame of one AA type
  // ---------------------------------------------------------------------------

  /** A visible entry's row of player p, as its trial loop computes it. */
  function VisibleRow(all: seq<Session>, c: nat, p: nat, ts: seq<int>, sim: Session, trace: BinaryTraceEvaluator.Tracer): Result<Row>
    requires c < |all|
  {
    Fill(ts, CellFn(VisibleBackground(all, all[c].name), BinaryTraceEvaluator.HumanX(p), BinaryTraceEvaluator.HumanZ(p),
                                  BinaryTraceEvaluator.SimAgent(p), sim, trace), IntToString, all[c].name, p)
  }

  /** Row 2·c + player: blank for a hidden entry, otherwise the player's trials against the visible others. */
  function RowOf(all: seq<Session>, c: nat, player: nat, ts: seq<int>, sim: Session, trace: BinaryTraceEvaluator.Tracer): Result<Row>
    requires c < |all|
  {
    if IsHidden(all[c].name) then Ok(Blank) else VisibleRow(all, c, player, ts, sim, trace)
  }

  function RowFn(all: seq<Session>, ts: seq<int>, sim: Session, trace: BinaryTraceEvaluator.Tracer): (rowFn: (nat, nat) -> Result<Row>)
  {
    (c: nat, p: nat) => if c < |all| then RowOf(all, c, p, ts, sim, trace) else Ok(Blank)
  }

  /**
   * The frame as the `for count, evaluee_session in enumerate(all_sessions)`
   * and `for player in (0,1)` loops leave it on reaching player p of entry c:
   * the rows of every earlier entry, then entry c's first p rows.
   */
  function RowsTo(c: nat, p: nat, rowFn: (nat, nat) -> Result<Row>): (r: Result<seq<Row>>)
    requires p <= 2
    ensures r.Ok? ==> |r.value| == 2 * c + p
    decreases c, p
  {
    if p > 0 then
      var prev :- RowsTo(c, p - 1, rowFn);
      var row :- rowFn(c, p - 1);
      Ok(prev + [row])
    else if c == 0 then Ok([])
    else RowsTo(c - 1, 2, rowFn)
  }

  /** Once a row fails, the rest of the entry's rows are not reached. */
  lemma {:induction false} EntryErr(c: nat, p: nat, rowFn: (nat, nat) -> Result<Row>)
    requires p <= 2 && RowsTo(c, p, rowFn).Err?
    ensures RowsTo(c, 2, rowFn) == RowsTo(c, p, rowFn)
    decreases 2 - p
  {
    if p < 2 {
      EntryErr(c, p + 1, rowFn);
    }
  }

  /** A failure at entry c stops the whole frame of n > c entries. */
  lemma {:induction false} RowsPrefixErr(n: nat, c: nat, p: nat, rowFn: (nat, nat) -> Result<Row>)
    requires p <= 2 && c < n && RowsTo(c, p, rowFn).Err?
    ensures RowsTo(n, 0, rowFn) == RowsTo(c, p, rowFn)
    decreases n
  {
    EntryErr(c, p, rowFn);
    if c < n - 1 {
      RowsPrefixErr(n - 1, c, p, rowFn);
      EntryErr(n - 1, 0, rowFn);
    }
  }

  /** One more row: the prefix grows by it, or its failure is the failure of the whole frame. */
  lemma RowsStep(n: nat, c: nat, p: nat, rowFn: (nat, nat) -> Result<Row>, prefix: seq<Row>)
    requires p < 2 && c < n && RowsTo(c, p, rowFn) == Ok(prefix)
    ensures rowFn(c, p).Ok? ==> RowsTo(c, p + 1, rowFn) == Ok(prefix + [rowFn(c, p).value])
    ensures rowFn(c, p).Err? ==> RowsTo(n, 0, rowFn) == Err(rowFn(c, p).error)
  {
    if rowFn(c, p).Err? {
      RowsPrefixErr(n, c, p + 1, rowFn);
    }
  }

  /** The frame of the first n entries is filled exactly when none of their rows fails. */
  lemma {:induction false} RowsOk(n: nat, rowFn: (nat, nat) -> Result<Row>)
    ensures RowsTo(n, 0, rowFn).Ok? <==> forall c, p :: 0 <= c < n && 0 <= p < 2 ==> rowFn(c, p).Ok?
    decreases n
  {
    if n > 0 {
      var m := n - 1;
      RowsOk(m, rowFn);
      if RowsTo(m, 0, rowFn).Err? {
        EntryErr(m, 0, rowFn);
      } else if rowFn(m, 0).Err? {
        EntryErr(m, 1, rowFn);
      }
    }
  }

  /** Two rows per entry, in order: row 2·c + p is entry c's row of player p. */
  lemma {:induction false} RowsAt(n: nat, rowFn: (nat, nat) -> Result<Row>)
    requires RowsTo(n, 0, rowFn).Ok?
    ensures forall c, p :: 0 <= c < n && 0 <= p < 2 ==> rowFn(c, p).Ok? && RowsTo(n, 0, rowFn).value[2 * c + p] == rowFn(c, p).value
    decreases n
  {
    if n > 0 {
      var m := n - 1;
      RowsOk(n, rowFn);
      RowsOk(m, rowFn);
      RowsAt(m, rowFn);
      var prev := RowsTo(m, 0, rowFn).value;
      var rows := RowsTo(n, 0, rowFn).value;
      assert RowsTo(m, 1, rowFn) == Ok(prev + [rowFn(m, 0).value]);
      assert rows == prev + [rowFn(m, 0).value] + [rowFn(m, 1).value];
      forall c, p | 0 <= c < n && 0 <= p < 2 ensures rows[2 * c + p] == rowFn(c, p).value {
        if c < m {
          assert rows[2 * c + p] == prev[2 * c + p];
        }
      }
    }
  }

  /** The data frame of one AA type, whose simulation folder is `sim`. */
  function Evaluate(all: seq<Session>, ts: seq<int>, sim: Session, trace: BinaryTraceEvaluator.Tracer): Result<seq<Row>>
  {
    RowsTo(|all|, 0, RowFn(all, ts, sim, trace))
  }

  /** Entry c is hidden, or every visible other session has every trial's file. */
  predicate CompanyComplete(all: seq<Session>, c: nat, ts: seq<int>)
    requires c < |all|
  {
    !IsHidden(all[c].name) ==> forall t, s :: t in ts && s in VisibleBackground(all, all[c].name) ==> t in s.files
  }

  /**
   * An AA type's frame exists exactly when every entry's company is
   * complete; it then has two rows per listed entry, row 2·c + p being entry
   * c's row of player p.
   */
  lemma EvaluateOk(all: seq<Session>, ts: seq<int>, sim: Session, trace: BinaryTraceEvaluator.Tracer)
    ensures Evaluate(all, ts, sim, trace).Ok? <==> forall c :: 0 <= c < |all| ==> CompanyComplete(all, c, ts)
    ensures Evaluate(all, ts, sim, trace).Ok? ==>
      var rows := Evaluate(all, ts, sim, trace).value;
      |rows| == 2 * |all| &&
      forall c, p :: 0 <= c < |all| && 0 <= p < 2 ==> RowOf(all, c, p, ts, sim, trace).Ok? && rows[2 * c + p] == RowOf(all, c, p, ts, sim, trace).value
  {
    var rowFn := RowFn(all, ts, sim, trace);
    RowsOk(|all|, rowFn);
    assert forall c, p :: 0 <= c < |all| && 0 <= p < 2 ==> rowFn(c, p) == RowOf(all, c, p, ts, sim, trace);
    if forall c :: 0 <= c < |all| ==> CompanyComplete(all, c, ts) {
      forall c, p | 0 <= c < |all| && 0 <= p < 2 ensures rowFn(c, p).Ok? {
        assert CompanyComplete(all, c, ts);
        RowOk(all, c, p, ts, sim, trace);
        assert rowFn(c, p) == RowOf(all, c, p, ts, sim, trace);
      }
      RowsAt(|all|, rowFn);
    } else {
      var c :| 0 <= c < |all| && !CompanyComplete(all, c, ts);
      RowOk(all, c, 0, ts, sim, trace);
      assert rowFn(c, 0).Err?;
    }
  }

  /**
   * Entry c's row of player p: blank when the entry is hidden or has no
   * visible company; otherwise Session is its name, Player is p + 1, and the
   * cell of every trial is the binary trace of the visible others' pooled
   * p{p}x / p{p}z samples against the simulation's hA{p} agent, or NaN when
   * the simulation has no file for the trial.
   */
  lemma RowLayout(all: seq<Session>, c: nat, p: nat, ts: seq<int>, sim: Session, trace: BinaryTraceEvaluator.Tracer)
    requires c < |all| && RowOf(all, c, p, ts, sim, trace).Ok?
    requires forall i, j :: 0 <= i < j < |ts| ==> ts[i] != ts[j]
    ensures var r := RowOf(all, c, p, ts, sim, trace).value;
      var bg := VisibleBackground(all, all[c].name);
      (IsHidden(all[c].name) || |bg| == 0 ==> r == Blank) &&
      (!IsHidden(all[c].name) && |bg| > 0 ==>
        (|ts| > 0 ==> r.session == Some(all[c].name) && r.player == Some(p + 1)) &&
        (forall col :: col in r.cells <==> col in BinaryTraceEvaluator.ColumnsOf(ts, IntToString)) &&
        forall i :: 0 <= i < |ts| ==>
          IntToString(ts[i]) in r.cells &&
          r.cells[IntToString(ts[i])] == SimScore(TraceScores.PoolColumn(bg, ts[i], BinaryTraceEvaluator.HumanX(p)),
                                                 TraceScores.PoolColumn(bg, ts[i], BinaryTraceEvaluator.HumanZ(p)),
                                                 sim, ts[i], BinaryTraceEvaluator.SimAgent(p), trace))
  {
    if !IsHidden(all[c].name) {
      var bg := VisibleBackground(all, all[c].name);
      var cell := CellFn(bg, BinaryTraceEvaluator.HumanX(p), BinaryTraceEvaluator.HumanZ(p), BinaryTraceEvaluator.SimAgent(p), sim, trace);
      FillOk(ts, cell, IntToString, all[c].name, p);
      if |bg| == 0 {
        FillNoWrites(ts, cell, IntToString, all[c].name, p);
      } else {
        BinaryTraceEvaluator.TrialKeysDistinct(ts);
        FillAllWrites(ts, cell, IntToString, all[c].name, p);
        FillValues(ts, cell, IntToString, all[c].name, p);
      }
    }
  }

  /** No trial's cell raises exactly when there is no company or every one of them has every trial's file. */
  lemma CellsOk(bg: seq<Session>, ts: seq<int>, cx: string, cz: string, agent: string, sim: Session, trace: BinaryTraceEvaluator.Tracer)
    ensures var cell := CellFn(bg, cx, cz, agent, sim, trace);
      (forall i :: 0 <= i < |ts| ==> cell(ts[i]).Ok?) <==> |bg| == 0 || forall t, s :: t in ts && s in bg ==> t in s.files
  {
    var cell := CellFn(bg, cx, cz, agent, sim, trace);
    if |bg| > 0 {
      if forall t, s :: t in ts && s in bg ==> t in s.files {
        forall i | 0 <= i < |ts| ensures cell(ts[i]).Ok? {
          assert ts[i] in ts;
          assert FirstMissing(bg, ts[i]).None?;
        }
      } else {
        var t, s :| t in ts && s in bg && t !in s.files;
        var i :| 0 <= i < |ts| && ts[i] == t;
        assert cell(ts[i]).Err?;
      }
    }
  }

  /** A trial's cell raises only for a company session without the trial's file, and names it. */
  lemma CellErr(bg: seq<Session>, t: int, cx: string, cz: string, agent: string, sim: Session, trace: BinaryTraceEvaluator.Tracer)
    requires TrialCell(bg, t, cx, cz, agent, sim, trace).Err?
    ensures exists s :: s in bg && t !in s.files && TrialCell(bg, t, cx, cz, agent, sim, trace).error == MissingFile(s.name, t)
  {
    var j := FirstMissing(bg, t).value;
    assert bg[j] in bg;
  }

  /**
   * A visible entry's row raises exactly when it has visible company and one
   * of those sessions lacks a trial's file.
   */
  lemma RowOk(all: seq<Session>, c: nat, p: nat, ts: seq<int>, sim: Session, trace: BinaryTraceEvaluator.Tracer)
    requires c < |all|
    ensures var bg := VisibleBackground(all, all[c].name);
      RowOf(all, c, p, ts, sim, trace).Ok? <==>
        IsHidden(all[c].name) || |bg| == 0 || forall t, s :: t in ts && s in bg ==> t in s.files
    ensures RowOf(all, c, p, ts, sim, trace).Err? ==>
      exists s, t :: s in VisibleBackground(all, all[c].name) && t in ts && t !in s.files &&
        RowOf(all, c, p, ts, sim, trace).error == MissingFile(s.name, t)
  {
    if !IsHidden(all[c].name) {
      var bg := VisibleBackground(all, all[c].name);
      var cx, cz, agent := BinaryTraceEvaluator.HumanX(p), BinaryTraceEvaluator.HumanZ(p), BinaryTraceEvaluator.SimAgent(p);
      var cell := CellFn(bg, cx, cz, agent, sim, trace);
      FillOk(ts, cell, IntToString, all[c].name, p);
      CellsOk(bg, ts, cx, cz, agent, sim, trace);
      if RowOf(all, c, p, ts, sim, trace).Err? {
        FillFirstErr(ts, cell, IntToString, all[c].name, p);
        var i :| 0 <= i < |ts| && cell(ts[i]).Err? && RowOf(all, c, p, ts, sim, trace).error == cell(ts[i]).error;
        CellErr(bg, ts[i], cx, cz, agent, sim, trace);
        assert ts[i] in ts;
      }
    }
  }

  /** A failed row reports the error of some trial's cell. */
  lemma {:induction false} FillFirstErr(ts: seq<int>, cell: int -> Result<Option<Float>>, key: int -> string, name: string, player: nat)
    requires Fill(ts, cell, key, name, player).Err?
    ensures exists i :: 0 <= i < |ts| && cell(ts[i]).Err? && Fill(ts, cell, key, name, player).error == cell(ts[i]).error
    decreases |ts|
  {
    var n := |ts| - 1;
    var init := ts[..n];
    if Fill(init, cell, key, name, player).Err? {
      FillFirstErr(init, cell, key, name, player);
      var i :| 0 <= i < |init| && cell(init[i]).Err? && Fill(init, cell, key, name, player).error == cell(init[i]).error;
      assert init[i] == ts[i];
    }
  }

  // ---------------------------------------------------------------------------
  // The in-place loops
  // ---------------------------------------------------------------------------

  /** The first background session without the file is the one the loop stops at. */
  lemma FirstMissingAt(bg: seq<Session>, i: nat, t: int)
    requires i < |bg| && FirstMissing(bg[..i], t).None? && t !in bg[i].files
    ensures FirstMissing(bg, t) == Some(i)
  {
    assert forall j :: 0 <= j < i ==> bg[..i][j] == bg[j];
  }

  /**
   * One trial of one row: each background session's positions are appended
   * and the cell is rewritten, so after the last session it holds the score of
   * the whole pool; a session without the file ends the loop with the error.
   */
  method TrialPass(df: array<Row>, k: nat, name: string, player: nat, bg: seq<Session>, t: int,
                   cx: string, cz: string, agent: string, sim: Session, trace: BinaryTraceEvaluator.Tracer)
    returns (err: Option<Error>)
    requires k < df.Length
    modifies df
    ensures var c := TrialCell(bg, t, cx, cz, agent, sim, trace);
      (c.Err? <==> err.Some?) && (c.Err? ==> err == Some(c.error)) &&
      (c.Ok? ==> df[..] == old(df[..])[k := Written(old(df[k]), name, player, IntToString(t), c.value)])
  {
    var col := IntToString(t);
    var xs: seq<real>, zs: seq<real> := [], [];
    assert old(df[..])[k := old(df[k])] == old(df[..]);
    for i := 0 to |bg|
      invariant FirstMissing(bg[..i], t).None?
      invariant xs == TraceScores.PoolColumn(bg[..i], t, cx) && zs == TraceScores.PoolColumn(bg[..i], t, cz)
      invariant df[..] == old(df[..])[k := if i == 0 then old(df[k]) else WriteCell(old(df[k]), name, player, col, SimScore(xs, zs, sim, t, agent, trace))]
    {
      assert bg[..i + 1][..i] == bg[..i];
      if t !in bg[i].files {
        FirstMissingAt(bg, i, t);
        return Some(MissingFile(bg[i].name, t));
      }
      xs := xs + Col(bg[i].files[t], cx);
      zs := zs + Col(bg[i].files[t], cz);
      var v := SimScore(xs, zs, sim, t, agent, trace);
      if i > 0 {
        WriteCellOverwrites(old(df[k]), name, player, col, df[k].cells[col], v);
      }
      if t !in sim.files {
        df[k] := WriteCell(df[k], name, player, col, NonFinite);
      } else {
        var score := trace(xs, zs, sim.files[t], agent);
        df[k] := WriteCell(df[k], name, player, col, Finite(score));
      }
    }
    assert bg[..|bg|] == bg;
    return None;
  }

  /** One row: the trial loop on a row that starts blank. */
  method FillRow(df: array<Row>, k: nat, name: string, player: nat, ts: seq<int>, bg: seq<Session>,
                 cx: string, cz: string, agent: string, sim: Session, trace: BinaryTraceEvaluator.Tracer)
    returns (err: Option<Error>)
    requires k < df.Length && df[k] == Blank
    modifies df
    ensures var r := Fill(ts, CellFn(bg, cx, cz, agent, sim, trace), IntToString, name, player);
      (r.Err? <==> err.Some?) && (r.Err? ==> err == Some(r.error)) && (r.Ok? ==> df[..] == old(df[..])[k := r.value])
  {
    ghost var cell := CellFn(bg, cx, cz, agent, sim, trace);
    assert old(df[..])[k := Blank] == old(df[..]);
    for i := 0 to |ts|
      invariant Fill(ts[..i], cell, IntToString, name, player).Ok?
      invariant df[..] == old(df[..])[k := Fill(ts[..i], cell, IntToString, name, player).value]
    {
      assert ts[..i + 1][..i] == ts[..i];
      err := TrialPass(df, k, name, player, bg, ts[i], cx, cz, agent, sim, trace);
      if err.Some? {
        FillPrefixErr(ts, i + 1, cell, IntToString, name, player);
        return;
      }
    }
    assert ts[..|ts|] == ts;
    return None;
  }

  /** `rowFn` gives every listed entry's row of each player as `RowOf` computes it. */
  ghost predicate RowsBy(rowFn: (nat, nat) -> Result<Row>, all: seq<Session>, ts: seq<int>, sim: Session, trace: BinaryTraceEvaluator.Tracer)
  {
    forall c: nat, p: nat {:trigger RowOf(all, c, p, ts, sim, trace)} :: c < |all| ==> rowFn(c, p) == RowOf(all, c, p, ts, sim, trace)
  }

  /** The frame grows by a visible entry's row, or its failure is the AA type's failure. */
  lemma NextRowStep(all: seq<Session>, c: nat, p: nat, ts: seq<int>, sim: Session, trace: BinaryTraceEvaluator.Tracer,
                    rowFn: (nat, nat) -> Result<Row>, prefix: seq<Row>)
    requires c < |all| && p < 2 && !IsHidden(all[c].name) && RowsBy(rowFn, all, ts, sim, trace)
    requires RowsTo(c, p, rowFn) == Ok(prefix)
    ensures var r := VisibleRow(all, c, p, ts, sim, trace);
      (r.Ok? ==> RowsTo(c, p + 1, rowFn) == Ok(prefix + [r.value])) &&
      (r.Err? ==> RowsTo(|all|, 0, rowFn) == Err(r.error))
  {
    assert RowOf(all, c, p, ts, sim, trace) == VisibleRow(all, c, p, ts, sim, trace);
    RowsStep(|all|, c, p, rowFn, prefix);
  }

  /**
   * One visible entry's row of one player: the trial loop on its slot, after
   * which the frame's filled prefix has grown by that row and nothing past it
   * has changed; a failure is the failure of the whole AA type.
   */
  method NextRow(df: array<Row>, all: seq<Session>, c: nat, p: nat, ts: seq<int>, sim: Session, trace: BinaryTraceEvaluator.Tracer,
                 ghost rowFn: (nat, nat) -> Result<Row>)
    returns (err: Option<Error>)
    requires c < |all| && p < 2 && df.Length == 2 * |all| && !IsHidden(all[c].name) && RowsBy(rowFn, all, ts, sim, trace)
    requires RowsTo(c, p, rowFn) == Ok(df[..2 * c + p]) && df[2 * c + p] == Blank
    modifies df
    ensures err.None? ==> RowsTo(c, p + 1, rowFn) == Ok(df[..2 * c + p + 1])
    ensures err.None? ==> forall j :: 2 * c + p < j < df.Length ==> df[j] == old(df[j])
    ensures err.Some? ==> RowsTo(|all|, 0, rowFn) == Err(err.value)
  {
    var k := 2 * c + p;
    NextRowStep(all, c, p, ts, sim, trace, rowFn, df[..k]);
    var name := all[c].name;
    err := FillRow(df, k, name, p, ts, VisibleBackground(all, name), BinaryTraceEvaluator.HumanX(p), BinaryTraceEvaluator.HumanZ(p),
                   BinaryTraceEvaluator.SimAgent(p), sim, trace);
    if err.None? {
      assert df[..k + 1] == old(df[..k]) + [VisibleRow(all, c, p, ts, sim, trace).value];
    }
  }

  /** A hidden entry's two rows stay blank. */
  lemma HiddenEntryStep(all: seq<Session>, c: nat, ts: seq<int>, sim: Session, trace: BinaryTraceEvaluator.Tracer,
                        rowFn: (nat, nat) -> Result<Row>, prefix: seq<Row>)
    requires c < |all| && IsHidden(all[c].name) && RowsBy(rowFn, all, ts, sim, trace)
    requires RowsTo(c, 0, rowFn) == Ok(prefix)
    ensures RowsTo(c + 1, 0, rowFn) == Ok(prefix + [Blank, Blank])
  {
    assert RowOf(all, c, 0, ts, sim, trace) == Ok(Blank) && RowOf(all, c, 1, ts, sim, trace) == Ok(Blank);
    RowsStep(|all|, c, 0, rowFn, prefix);
    RowsStep(|all|, c, 1, rowFn, prefix + [Blank]);
    assert prefix + [Blank] + [Blank] == prefix + [Blank, Blank];
  }

  /**
   * One entry of the `enumerate(all_sessions)` loop: a hidden entry leaves
   * its two rows blank, a visible one fills them player by player; either
   * way the filled prefix grows by the entry's two rows and nothing past
   * them changes, and a failure is the failure of the whole AA type.
   */
  method NextEntry(df: array<Row>, all: seq<Session>, c: nat, ts: seq<int>, sim: Session, trace: BinaryTraceEvaluator.Tracer,
                   ghost rowFn: (nat, nat) -> Result<Row>)
    returns (err: Option<Error>)
    requires c < |all| && df.Length == 2 * |all| && RowsBy(rowFn, all, ts, sim, trace)
    requires RowsTo(c, 0, rowFn) == Ok(df[..2 * c])
    requires forall j :: 2 * c <= j < df.Length ==> df[j] == Blank
    modifies df
    ensures err.None? ==> RowsTo(c + 1, 0, rowFn) == Ok(df[..2 * c + 2])
    ensures err.None? ==> forall j :: 2 * c + 2 <= j < df.Length ==> df[j] == Blank
    ensures err.Some? ==> RowsTo(|all|, 0, rowFn) == Err(err.value)
  {
    if IsHidden(all[c].name) {
      HiddenEntryStep(all, c, ts, sim, trace, rowFn, df[..2 * c]);
      assert df[..2 * c + 2] == df[..2 * c] + [Blank, Blank];
      return None;
    }
    err := VisibleEntry(df, all, c, ts, sim, trace, rowFn);
    assert RowsTo(c + 1, 0, rowFn) == RowsTo(c, 2, rowFn);
  }

  /** `for player in (0, 1)` for a visible entry: its two rows, one player each. */
  method VisibleEntry(df: array<Row>, all: seq<Session>, c: nat, ts: seq<int>, sim: Session, trace: BinaryTraceEvaluator.Tracer,
                      ghost rowFn: (nat, nat) -> Result<Row>)
    returns (err: Option<Error>)
    requires c < |all| && df.Length == 2 * |all| && !IsHidden(all[c].name) && RowsBy(rowFn, all, ts, sim, trace)
    requires RowsTo(c, 0, rowFn) == Ok(df[..2 * c])
    requires forall j :: 2 * c <= j < df.Length ==> df[j] == Blank
    modifies df
    ensures err.None? ==> RowsTo(c, 2, rowFn) == Ok(df[..2 * c + 2])
    ensures err.None? ==> forall j :: 2 * c + 2 <= j < df.Length ==> df[j] == Blank
    ensures err.Some? ==> RowsTo(|all|, 0, rowFn) == Err(err.value)
  {
    for player := 0 to 2
      invariant RowsTo(c, player, rowFn) == Ok(df[..2 * c + player])
      invariant forall j :: 2 * c + player <= j < df.Length ==> df[j] == Blank
    {
      err := NextRow(df, all, c, player, ts, sim, trace, rowFn);
      if err.Some? {
        return;
      }
    }
    return None;
  }

  /** `main`'s body for one AA type: a blank frame of 2·len(all_sessions) rows filled entry by entry. */
  method EvaluateType(all: seq<Session>, ts: seq<int>, sim: Session, trace: BinaryTraceEvaluator.Tracer) returns (r: Result<seq<Row>>)
    ensures r == Evaluate(all, ts, sim, trace)
  {
    ghost var rowFn := RowFn(all, ts, sim, trace);
    var df := new Row[2 * |all|](_ => Blank);
    for count := 0 to |all|
      invariant RowsTo(count, 0, rowFn) == Ok(df[..2 * count])
      invariant forall j :: 2 * count <= j < df.Length ==> df[j] == Blank
    {
      var err := NextEntry(df, all, count, ts, sim, trace, rowFn);
      if err.Some? {
        return Err(err.value);
      }
    }
    assert df[..2 * |all|] == df[..];
    return Ok(df[..]);
  }

  // ---------------------------------------------------------------------------
  // The AA-type loop of `main`
  // ---------------------------------------------------------------------------

  /** What `df.to_csv(output_file, index=False)` writes: the header, then the rows in order. */
  datatype Table = Table(columns: seq<string>, rows: seq<Row>)

  /** The CSV files written, in order, and the exception that ended the script, if any. */
  datatype Outcome = Outcome(saved: seq<(string, Table)>, failure: Option<Error>)

  /** How one simulation folder is evaluated against the human sessions. */
  type Evaluator = Session -> Result<seq<Row>>

  function EvaluateFn(all: seq<Session>, ts: seq<int>, trace: BinaryTraceEvaluator.Tracer): (eval: Evaluator)
    ensures forall sim :: eval(sim) == Evaluate(all, ts, sim, trace)
  {
    sim => Evaluate(all, ts, sim, trace)
  }

  /**
   * The simulation folder of an AA type: `rglob` over a folder that is not
   * there finds nothing, so every cell of that type is NaN.
   */
  function SimFolder(sims: map<string, Session>, aaType: string): (sim: Session)
    ensures aaType in sims ==> sim == sims[aaType]
    ensures aaType !in sims ==> sim.files == map[]
  {
    if aaType in sims then sims[aaType] else Session(aaType, map[])
  }

  /** The types whose output file is not there yet, in order: the ones the loop does not skip. */
  function Todo(aaTypes: seq<string>, existing: set<string>): (todo: seq<string>)
    ensures forall t :: t in todo <==> t in aaTypes && BinaryTraceEvaluator.OutputName(t) !in existing
    ensures |todo| <= |aaTypes|
  {
    if |aaTypes| == 0 then []
    else
      var n := |aaTypes| - 1;
      var prev := Todo(aaTypes[..n], existing);
      assert forall t :: t in aaTypes <==> t in aaTypes[..n] || t == aaTypes[n];
      if BinaryTraceEvaluator.OutputName(aaTypes[n]) in existing then prev else prev + [aaTypes[n]]
  }

  /**
   * The `for AA_type in AA_SIM_types` loop over the first k types; `existing`
   * is the set of output files present when the script starts.
   */
  function Saves(aaTypes: seq<string>, sims: map<string, Session>, existing: set<string>, eval: Evaluator, k: nat): Outcome
    requires k <= |aaTypes|
  {
    if k == 0 then Outcome([], None)
    else
      var o := Saves(aaTypes, sims, existing, eval, k - 1);
      var aaType := aaTypes[k - 1];
      if o.failure.Some? || BinaryTraceEvaluator.OutputName(aaType) in existing then o
      else match eval(SimFolder(sims, aaType))
        case Err(e) => Outcome(o.saved, Some(e))
        case Ok(rows) => Outcome(o.saved + [(BinaryTraceEvaluator.OutputName(aaType), Table(Columns, rows))], None)
  }

  /** The whole script over the listed entries `all` and the simulation folders `sims`. */
  function Run(all: seq<Session>, sims: map<string, Session>, existing: set<string>, trace: BinaryTraceEvaluator.Tracer): Outcome
  {
    Saves(AATypes, sims, existing, EvaluateFn(all, AnalysedTrials(), trace), |AATypes|)
  }

  /**
   * The files saved are, in order, the tables of the types not skipped, each
   * with the header and its own folder's frame; they stop at the first type
   * whose frame fails, and that failure is the script's.
   */
  lemma {:induction false} SavesInOrder(aaTypes: seq<string>, sims: map<string, Session>, existing: set<string>, eval: Evaluator, k: nat)
    requires k <= |aaTypes|
    ensures var o := Saves(aaTypes, sims, existing, eval, k);
      var todo := Todo(aaTypes[..k], existing);
      |o.saved| <= |todo| && (o.failure.None? ==> |o.saved| == |todo|) &&
      (forall j :: 0 <= j < |o.saved| ==>
        eval(SimFolder(sims, todo[j])).Ok? &&
        o.saved[j] == (BinaryTraceEvaluator.OutputName(todo[j]), Table(Columns, eval(SimFolder(sims, todo[j])).value))) &&
      (o.failure.Some? ==> |o.saved| < |todo| && eval(SimFolder(sims, todo[|o.saved|])) == Err(o.failure.value))
    decreases k
  {
    if k > 0 {
      SavesInOrder(aaTypes, sims, existing, eval, k - 1);
      assert aaTypes[..k][..k - 1] == aaTypes[..k - 1];
    }
  }

  /** After the first failure the remaining types are not processed. */
  lemma {:induction false} SavesStop(aaTypes: seq<string>, sims: map<string, Session>, existing: set<string>, eval: Evaluator, k: nat)
    requires k <= |aaTypes| && Saves(aaTypes, sims, existing, eval, k).failure.Some?
    ensures Saves(aaTypes, sims, existing, eval, |aaTypes|) == Saves(aaTypes, sims, existing, eval, k)
    decreases |aaTypes| - k
  {
    if k < |aaTypes| {
      SavesStop(aaTypes, sims, existing, eval, k + 1);
    }
  }

  /**
   * The script never overwrites an output file that was there at the start,
   * and without a failure it writes one file for every AA type whose output
   * was missing.
   */
  lemma RunSkipsExisting(all: seq<Session>, sims: map<string, Session>, existing: set<string>, trace: BinaryTraceEvaluator.Tracer)
    ensures var o := Run(all, sims, existing, trace);
      (forall j :: 0 <= j < |o.saved| ==> o.saved[j].0 !in existing) &&
      (o.failure.None? ==> forall t :: t in AATypes && BinaryTraceEvaluator.OutputName(t) !in existing ==>
        exists j :: 0 <= j < |o.saved| && o.saved[j].0 == BinaryTraceEvaluator.OutputName(t))
  {
    var eval := EvaluateFn(all, AnalysedTrials(), trace);
    SavesInOrder(AATypes, sims, existing, eval, |AATypes|);
    assert AATypes[..|AATypes|] == AATypes;
    var todo := Todo(AATypes, existing);
    var o := Run(all, sims, existing, trace);
    forall j | 0 <= j < |o.saved| ensures o.saved[j].0 !in existing {
      assert todo[j] in todo;
    }
    if o.failure.None? {
      forall t | t in AATypes && BinaryTraceEvaluator.OutputName(t) !in existing
        ensures exists j :: 0 <= j < |o.saved| && o.saved[j].0 == BinaryTraceEvaluator.OutputName(t)
      {
        var j :| 0 <= j < |todo| && todo[j] == t;
        assert o.saved[j].0 == BinaryTraceEvaluator.OutputName(t);
      }
    }
  }

  /** Without any simulation folder for the type, every score cell the frame holds is NaN. */
  lemma MissingSimulationIsNaN(all: seq<Session>, ts: seq<int>, sim: Session, trace: BinaryTraceEvaluator.Tracer, c: nat, p: nat)
    requires sim.files == map[] && c < |all| && RowOf(all, c, p, ts, sim, trace).Ok?
    requires forall i, j :: 0 <= i < j < |ts| ==> ts[i] != ts[j]
    ensures var r := RowOf(all, c, p, ts, sim, trace).value;
      forall col :: col in r.cells ==> r.cells[col] == NonFinite
  {
    RowLayout(all, c, p, ts, sim, trace);
    var r := RowOf(all, c, p, ts, sim, trace).value;
    forall col | col in r.cells ensures r.cells[col] == NonFinite {
      var cols := BinaryTraceEvaluator.ColumnsOf(ts, IntToString);
      var i :| 0 <= i < |cols| && cols[i] == col;
      assert col == IntToString(ts[i]);
    }
  }

  /** One pass of the type loop on a type that is not skipped: the frame of its simulation folder. */
  method SaveType(all: seq<Session>, sims: map<string, Session>, trace: BinaryTraceEvaluator.Tracer, aaType: string)
    returns (r: Result<seq<Row>>)
    ensures r == EvaluateFn(all, AnalysedTrials(), trace)(SimFolder(sims, aaType))
  {
    var sim := if aaType in sims then sims[aaType] else Session(aaType, map[]);
    r := EvaluateType(all, AnalysedTrials(), sim, trace);
  }

  /** `main`: each type not yet on disk is evaluated and saved before the next type starts. */
  method RunAll(all: seq<Session>, sims: map<string, Session>, existing: set<string>, trace: BinaryTraceEvaluator.Tracer)
    returns (o: Outcome)
    ensures o == Run(all, sims, existing, trace)
  {
    ghost var eval := EvaluateFn(all, AnalysedTrials(), trace);
    var saved: seq<(string, Table)> := [];
    for k := 0 to |AATypes|
      invariant Saves(AATypes, sims, existing, eval, k) == Outcome(saved, None)
    {
      var outputFile := BinaryTraceEvaluator.OutputName(AATypes[k]);
      if outputFile in existing {
        continue;
      }
      var rows := SaveType(all, sims, trace, AATypes[k]);
      if rows.Err? {
        o := Outcome(saved, Some(rows.error));
        SavesStop(AATypes, sims, existing, eval, k + 1);
        return o;
      }
      saved := saved + [(outputFile, Table(Columns, rows.value))];
    }
    return Outcome(saved, None);
  }
}
