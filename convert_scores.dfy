/**
 * The long-format merge of experiment 2's score tables: the AA, human and
 * surrogate-team tables each get a `pair` column when they have none and an
 * `agent_type` column naming their kind; they are stacked human, AA,
 * surrogate; and the result keeps exactly pair, agent_type and the trial
 * columns 7 to 24, in that order.
 */
module ConvertScores {
  import opened Common
  import HH = HumanHumanTraceEvaluator
  import BinaryTraceEvaluator

  // ---------------------------------------------------------------------------
  // Tables
  // ---------------------------------------------------------------------------

  /** A cell of a score table: an integer, a score, a label, or NaN. */
  datatype Value = Int(i: int) | Num(r: real) | Text(s: string) | NaN

  /**
   * A table as pandas holds it: the header in order and the rows; a column
   * a row has no entry for is NaN in that row.
   */
  datatype Table = Table(header: seq<string>, rows: seq<map<string, Value>>)

  predicate Distinct(s: seq<string>)
  {
    forall i, j :: 0 <= i < j < |s| ==> s[i] != s[j]
  }

  /** The header names each column once, and no row has an entry outside it. */
  ghost predicate WellFormed(t: Table)
  {
    Distinct(t.header) && forall i, c :: 0 <= i < |t.rows| && c in t.rows[i] ==> c in t.header
  }

  /** Row i's value in column c. */
  function Cell(t: Table, i: nat, c: string): Value
    requires i < |t.rows|
  {
    if c in t.rows[i] then t.rows[i][c] else NaN
  }

  /** `if 'pair' not in df.columns: df.insert(0, 'pair', range(len(df)))`. */
  function WithPair(t: Table): Table
  {
    if "pair" in t.header then t
    else Table(["pair"] + t.header, seq(|t.rows|, i requires 0 <= i < |t.rows| => t.rows[i]["pair" := Int(i)]))
  }

  /** `df[c] = s`: the column is replaced where it stands, or appended at the end. */
  function Assign(t: Table, c: string, s: string): Table
  {
    Table(if c in t.header then t.header else t.header + [c], seq(|t.rows|, i requires 0 <= i < |t.rows| => t.rows[i][c := Text(s)]))
  }

  /**
   * The pair column leads the table and numbers its rows when it was not
   * there; the table is unchanged when it was; no other column changes.
   */
  lemma WithPairMeaning(t: Table)
    requires WellFormed(t)
    ensures WellFormed(WithPair(t)) && |WithPair(t).rows| == |t.rows|
    ensures "pair" in t.header ==> WithPair(t) == t
    ensures "pair" !in t.header ==>
      WithPair(t).header == ["pair"] + t.header && forall i :: 0 <= i < |t.rows| ==> Cell(WithPair(t), i, "pair") == Int(i)
    ensures forall c :: c in WithPair(t).header <==> c in t.header || c == "pair"
    ensures forall i, c :: 0 <= i < |t.rows| && c != "pair" ==> Cell(WithPair(t), i, c) == Cell(t, i, c)
  {
    if "pair" !in t.header {
      var r := WithPair(t);
      forall i, j | 0 <= i < j < |r.header| ensures r.header[i] != r.header[j] {
        if i == 0 {
          assert r.header[j] == t.header[j - 1];
        } else {
          assert r.header[i] == t.header[i - 1] && r.header[j] == t.header[j - 1];
        }
      }
      forall i, c | 0 <= i < |r.rows| && c in r.rows[i] ensures c in r.header {
        if c != "pair" {
          assert c in t.rows[i];
        }
      }
    }
  }

  /** Inserting the pair column twice is inserting it once. */
  lemma WithPairIdempotent(t: Table)
    ensures WithPair(WithPair(t)) == WithPair(t)
  {
  }

  /**
   * After `df[c] = s` every row holds s in column c, c is in the header
   * once, and every other column and the header order are as before.
   */
  lemma AssignMeaning(t: Table, c: string, s: string)
    requires WellFormed(t)
    ensures WellFormed(Assign(t, c, s)) && |Assign(t, c, s).rows| == |t.rows|
    ensures c in t.header ==> Assign(t, c, s).header == t.header
    ensures c !in t.header ==> Assign(t, c, s).header == t.header + [c]
    ensures forall d :: d in Assign(t, c, s).header <==> d in t.header || d == c
    ensures forall i :: 0 <= i < |t.rows| ==> Cell(Assign(t, c, s), i, c) == Text(s)
    ensures forall i, d :: 0 <= i < |t.rows| && d != c ==> Cell(Assign(t, c, s), i, d) == Cell(t, i, d)
  {
    var r := Assign(t, c, s);
    if c !in t.header {
      forall i, j | 0 <= i < j < |r.header| ensures r.header[i] != r.header[j] {
        if j == |t.header| {
          assert r.header[i] == t.header[i];
        } else {
          assert r.header[i] == t.header[i] && r.header[j] == t.header[j];
        }
      }
    }
    forall i, d | 0 <= i < |r.rows| && d in r.rows[i] ensures d in r.header {
      if d != c {
        assert d in t.rows[i];
      }
    }
  }

  // ---------------------------------------------------------------------------
  // `pd.concat([...], ignore_index=True)`
  // ---------------------------------------------------------------------------

  /** The header of a concatenation: the earlier names, then each new name in order of first appearance. */
  function Extend(h: seq<string>, extra: seq<string>): (r: seq<string>)
    ensures forall c :: c in r <==> c in h || c in extra
    ensures |h| <= |r| && r[..|h|] == h
    ensures Distinct(h) ==> Distinct(r)
    decreases |extra|
  {
    if |extra| == 0 then h
    else
      var p := Extend(h, extra[..|extra| - 1]);
      var c := extra[|extra| - 1];
      assert forall d :: d in extra <==> d in extra[..|extra| - 1] || d == c;
      if c in p then p else p + [c]
  }

  /** The rows of b below the rows of a, under the union of their headers. */
  function Append(a: Table, b: Table): Table
  {
    Table(Extend(a.header, b.header), a.rows + b.rows)
  }

  /** The table with no columns and no rows. */
  const Empty: Table := Table([], [])

  /** The tables stacked in order. */
  function Concat(ts: seq<Table>): Table
    decreases |ts|
  {
    if |ts| == 0 then Empty else Append(Concat(ts[..|ts| - 1]), ts[|ts| - 1])
  }

  /** The number of rows of the tables together. */
  function TotalLength(ts: seq<Table>): nat
    decreases |ts|
  {
    if |ts| == 0 then 0 else TotalLength(ts[..|ts| - 1]) + |ts[|ts| - 1].rows|
  }

  /** No row of the concatenation has an entry outside its header. */
  lemma {:induction false} ConcatShape(ts: seq<Table>)
    requires forall k :: 0 <= k < |ts| ==> WellFormed(ts[k])
    ensures WellFormed(Concat(ts))
    decreases |ts|
  {
    if |ts| > 0 {
      var m := |ts| - 1;
      var prev := Concat(ts[..m]);
      ConcatShape(ts[..m]);
      var r := Concat(ts);
      assert r == Append(prev, ts[m]);
      forall i, c | 0 <= i < |r.rows| && c in r.rows[i] ensures c in r.header {
        if i < |prev.rows| {
          assert r.rows[i] == prev.rows[i];
        } else {
          assert r.rows[i] == ts[m].rows[i - |prev.rows|];
        }
      }
    }
  }

  /** The concatenation has every table's columns and no other. */
  lemma {:induction false} ConcatColumns(ts: seq<Table>)
    ensures forall c :: c in Concat(ts).header <==> exists k :: 0 <= k < |ts| && c in ts[k].header
    decreases |ts|
  {
    if |ts| > 0 {
      var m := |ts| - 1;
      var init := ts[..m];
      ConcatColumns(init);
      var prev := Concat(init);
      forall c ensures c in Concat(ts).header <==> exists k :: 0 <= k < |ts| && c in ts[k].header {
        if c in prev.header {
          var k :| 0 <= k < m && c in init[k].header;
          assert ts[k] == init[k];
        }
        if exists k :: 0 <= k < |ts| && c in ts[k].header {
          var k :| 0 <= k < |ts| && c in ts[k].header;
          if k < m {
            assert init[k] == ts[k];
          }
        }
      }
    }
  }

  /** The concatenation has as many rows as the tables together. */
  lemma {:induction false} ConcatLength(ts: seq<Table>)
    ensures |Concat(ts).rows| == TotalLength(ts)
    decreases |ts|
  {
    if |ts| > 0 {
      ConcatLength(ts[..|ts| - 1]);
    }
  }

  /** Row i of the k-th table is row i after the rows of the tables before it. */
  lemma {:induction false} ConcatRowAt(ts: seq<Table>, k: nat, i: nat)
    requires k < |ts| && i < |ts[k].rows|
    ensures TotalLength(ts[..k]) + i < |Concat(ts).rows| && Concat(ts).rows[TotalLength(ts[..k]) + i] == ts[k].rows[i]
    decreases |ts|
  {
    var m := |ts| - 1;
    var init := ts[..m];
    ConcatLength(init);
    assert Concat(ts).rows == Concat(init).rows + ts[m].rows;
    if k < m {
      assert init[k] == ts[k] && init[..k] == ts[..k];
      ConcatRowAt(init, k, i);
    } else {
      assert ts[..k] == init;
    }
  }

  // ---------------------------------------------------------------------------
  // `all_scores[[...]]` and the merge
  // ---------------------------------------------------------------------------

  /** The columns kept, in the order written. */
  const OutputColumns: seq<string> := ["pair", "agent_type", "7", "8", "9", "10", "11", "12", "13", "14", "15", "16", "17", "18", "19", "20", "21", "22", "23", "24"]

  /** The kept columns are pair, agent_type, then `str(trial)` for every analysed trial, in order. */
  lemma OutputColumnsAreTrials()
    ensures |OutputColumns| == 2 + NumTrials && OutputColumns[..2] == ["pair", "agent_type"]
    ensures forall i :: 0 <= i < NumTrials ==> OutputColumns[2 + i] == IntToString(AnalysedTrials()[i])
    ensures Distinct(OutputColumns)
  {
    HH.ColumnsAreTrials();
    assert OutputColumns[2..] == HH.Columns[2..];
    BinaryTraceEvaluator.TrialKeysDistinct(AnalysedTrials());
    forall i, j | 0 <= i < j < |OutputColumns| ensures OutputColumns[i] != OutputColumns[j] {
      if 2 <= i {
        assert OutputColumns[i] == IntToString(AnalysedTrials()[i - 2]);
        assert OutputColumns[j] == IntToString(AnalysedTrials()[j - 2]);
      } else if 2 <= j {
        assert OutputColumns[j] == IntToString(AnalysedTrials()[j - 2]);
        assert IsDigit(OutputColumns[j][0]);
      }
    }
  }

  /** The first of the columns that the table does not have. */
  function FirstMissing(t: Table, cols: seq<string>): (c: string)
    requires exists c :: c in cols && c !in t.header
    ensures c in cols && c !in t.header
  {
    if cols[0] !in t.header then cols[0]
    else
      assert forall c :: c in cols && c != cols[0] ==> c in cols[1..];
      FirstMissing(t, cols[1..])
  }

  /** `df[cols]`: the listed columns in the listed order, or the KeyError of a column that is not there. */
  function Select(t: Table, cols: seq<string>): Result<Table>
  {
    if forall c :: c in cols ==> c in t.header then
      Ok(Table(cols, seq(|t.rows|, i requires 0 <= i < |t.rows| => map c | c in cols :: Cell(t, i, c))))
    else Err(MissingValue(FirstMissing(t, cols)))
  }

  /** A selection succeeds exactly when every listed column is there, and keeps those columns of every row. */
  lemma SelectMeaning(t: Table, cols: seq<string>)
    requires Distinct(cols)
    ensures Select(t, cols).Ok? <==> forall c :: c in cols ==> c in t.header
    ensures Select(t, cols).Err? ==> exists c :: c in cols && c !in t.header && Select(t, cols).error == MissingValue(c)
    ensures Select(t, cols).Ok? ==>
      WellFormed(Select(t, cols).value) && Select(t, cols).value.header == cols && |Select(t, cols).value.rows| == |t.rows| &&
      forall i, c :: 0 <= i < |t.rows| && c in cols ==> Cell(Select(t, cols).value, i, c) == Cell(t, i, c)
  {
  }

  /** A table with its pair column ensured and its agent_type set to `kind`. */
  function Labelled(t: Table, kind: string): Table
  {
    Assign(WithPair(t), "agent_type", kind)
  }

  /**
   * What a row of a labelled table holds: its kind in agent_type, its own
   * pair or its position in pair, and the table's own value (or NaN) elsewhere.
   */
  function Expected(t: Table, kind: string, c: string, i: nat): Value
    requires i < |t.rows|
  {
    if c == "agent_type" then Text(kind)
    else if c == "pair" then (if "pair" in t.header then Cell(t, i, "pair") else Int(i))
    else Cell(t, i, c)
  }

  /** The labelled table has the input's rows, with agent_type, pair and the input's columns. */
  lemma LabelledMeaning(t: Table, kind: string)
    requires WellFormed(t)
    ensures WellFormed(Labelled(t, kind)) && |Labelled(t, kind).rows| == |t.rows|
    ensures forall c :: c in Labelled(t, kind).header <==> c in t.header || c == "pair" || c == "agent_type"
    ensures forall i, c :: 0 <= i < |t.rows| ==> Cell(Labelled(t, kind), i, c) == Expected(t, kind, c, i)
  {
    WithPairMeaning(t);
    AssignMeaning(WithPair(t), "agent_type", kind);
  }

  /** `pd.concat([human, AA, surrogate])` of the labelled tables. */
  function Stacked(aa: Table, human: Table, team: Table): Table
  {
    Concat([Labelled(human, "Human"), Labelled(aa, "Artificial"), Labelled(team, "Surrogate")])
  }

  /** The stacked table, then the kept columns. */
  function Convert(aa: Table, human: Table, team: Table): Result<Table>
  {
    Select(Stacked(aa, human, team), OutputColumns)
  }

  /** The input table that holds row i of the merge, its kind, and that row's index there. */
  function Origin(aa: Table, human: Table, team: Table, i: nat): (Table, string, nat)
  {
    if i < |human.rows| then (human, "Human", i)
    else if i < |human.rows| + |aa.rows| then (aa, "Artificial", i - |human.rows|)
    else (team, "Surrogate", i - |human.rows| - |aa.rows|)
  }

  /** Three tables stacked: their rows in order. */
  lemma Concat3(x: Table, y: Table, z: Table)
    ensures Concat([x, y, z]).rows == x.rows + y.rows + z.rows
  {
    assert Concat([x]) == Append(Empty, x) by { assert [x][..0] == []; }
    assert Concat([x, y]) == Append(Concat([x]), y) by { assert [x, y][..1] == [x]; }
    assert Concat([x, y, z]) == Append(Concat([x, y]), z) by { assert [x, y, z][..2] == [x, y]; }
    assert Empty.rows + x.rows == x.rows;
  }

  /** Three tables stacked: the columns of any of them. */
  lemma Concat3Header(x: Table, y: Table, z: Table)
    ensures forall c :: c in Concat([x, y, z]).header <==> c in x.header || c in y.header || c in z.header
  {
    assert Concat([x]) == Append(Empty, x) by { assert [x][..0] == []; }
    assert Concat([x, y]) == Append(Concat([x]), y) by { assert [x, y][..1] == [x]; }
    assert Concat([x, y, z]) == Append(Concat([x, y]), z) by { assert [x, y, z][..2] == [x, y]; }
  }

  /** The labelled tables stacked: every column of any of them, and rows in no other column. */
  lemma StackedColumns(aa: Table, human: Table, team: Table)
    requires WellFormed(aa) && WellFormed(human) && WellFormed(team)
    ensures var all := Stacked(aa, human, team);
      WellFormed(all) && |all.rows| == |human.rows| + |aa.rows| + |team.rows| &&
      forall c :: c in all.header <==> c in human.header || c in aa.header || c in team.header || c == "pair" || c == "agent_type"
  {
    var ts := [Labelled(human, "Human"), Labelled(aa, "Artificial"), Labelled(team, "Surrogate")];
    LabelledMeaning(human, "Human");
    LabelledMeaning(aa, "Artificial");
    LabelledMeaning(team, "Surrogate");
    ConcatShape(ts);
    Concat3(ts[0], ts[1], ts[2]);
    Concat3Header(ts[0], ts[1], ts[2]);
  }

  /** Labelling keeps the number of rows. */
  lemma LabelledLength(t: Table, kind: string)
    ensures |Labelled(t, kind).rows| == |t.rows|
  {
  }

  /** A row copied from a labelled table holds what that labelled row holds. */
  lemma LabelledRowAt(all: Table, t: Table, kind: string, k: nat, j: nat)
    requires WellFormed(t) && j < |t.rows| && k < |all.rows|
    requires all.rows[k] == Labelled(t, kind).rows[j]
    ensures forall c :: Cell(all, k, c) == Expected(t, kind, c, j)
  {
    LabelledMeaning(t, kind);
    assert forall c :: Cell(all, k, c) == Cell(Labelled(t, kind), j, c);
  }

  /** Row i of the stacked tables is the labelled row it came from. */
  lemma StackedRowAt(aa: Table, human: Table, team: Table, i: nat)
    requires WellFormed(aa) && WellFormed(human) && WellFormed(team)
    requires i < |human.rows| + |aa.rows| + |team.rows|
    ensures i < |Stacked(aa, human, team).rows| && Origin(aa, human, team, i).2 < |Origin(aa, human, team, i).0.rows|
    ensures forall c :: Cell(Stacked(aa, human, team), i, c) == Expected(Origin(aa, human, team, i).0, Origin(aa, human, team, i).1, c, Origin(aa, human, team, i).2)
  {
    var hu, a, te := Labelled(human, "Human"), Labelled(aa, "Artificial"), Labelled(team, "Surrogate");
    LabelledLength(human, "Human");
    LabelledLength(aa, "Artificial");
    LabelledLength(team, "Surrogate");
    Concat3(hu, a, te);
    var all := Stacked(aa, human, team);
    if i < |human.rows| {
      LabelledRowAt(all, human, "Human", i, i);
    } else if i < |human.rows| + |aa.rows| {
      LabelledRowAt(all, aa, "Artificial", i, i - |human.rows|);
    } else {
      LabelledRowAt(all, team, "Surrogate", i, i - |human.rows| - |aa.rows|);
    }
  }

  /**
   * Every row of v holds, in each of the columns cols, what its origin row
   * among the human, AA and surrogate rows, taken in that order, says.
   */
  ghost predicate RowsFrom(v: Table, aa: Table, human: Table, team: Table, cols: seq<string>)
  {
    |v.rows| == |human.rows| + |aa.rows| + |team.rows| &&
    forall i, c :: 0 <= i < |v.rows| && c in cols ==>
      Origin(aa, human, team, i).2 < |Origin(aa, human, team, i).0.rows| &&
      Cell(v, i, c) == Expected(Origin(aa, human, team, i).0, Origin(aa, human, team, i).1, c, Origin(aa, human, team, i).2)
  }

  /** The labelled tables stacked hold the human rows, then the AA rows, then the surrogate rows, in any columns. */
  lemma StackedRows(aa: Table, human: Table, team: Table, cols: seq<string>)
    requires WellFormed(aa) && WellFormed(human) && WellFormed(team)
    ensures RowsFrom(Stacked(aa, human, team), aa, human, team, cols)
  {
    var hu, a, te := Labelled(human, "Human"), Labelled(aa, "Artificial"), Labelled(team, "Surrogate");
    LabelledLength(human, "Human");
    LabelledLength(aa, "Artificial");
    LabelledLength(team, "Surrogate");
    Concat3(hu, a, te);
    forall i | 0 <= i < |Stacked(aa, human, team).rows|
      ensures Origin(aa, human, team, i).2 < |Origin(aa, human, team, i).0.rows|
      ensures forall c :: Cell(Stacked(aa, human, team), i, c) == Expected(Origin(aa, human, team, i).0, Origin(aa, human, team, i).1, c, Origin(aa, human, team, i).2)
    {
      StackedRowAt(aa, human, team, i);
    }
  }

  /** The trial columns are neither pair nor agent_type. */
  lemma TrialColumnsUnlabelled()
    ensures forall c :: c in OutputColumns <==> c in OutputColumns[2..] || c == "pair" || c == "agent_type"
    ensures "pair" !in OutputColumns[2..] && "agent_type" !in OutputColumns[2..]
  {
    OutputColumnsAreTrials();
    forall k | 2 <= k < |OutputColumns| ensures OutputColumns[k] != "pair" && OutputColumns[k] != "agent_type" {
      assert OutputColumns[k] != OutputColumns[0] && OutputColumns[k] != OutputColumns[1];
    }
    assert forall c :: c in OutputColumns[2..] ==> exists k :: 2 <= k < |OutputColumns| && OutputColumns[k] == c;
  }

  /**
   * The merge fails exactly when some trial column is in none of the three
   * tables, with the KeyError of such a column.
   */
  lemma ConvertOutcome(aa: Table, human: Table, team: Table)
    requires WellFormed(aa) && WellFormed(human) && WellFormed(team)
    ensures Convert(aa, human, team).Ok? <==>
      forall c :: c in OutputColumns[2..] ==> c in human.header || c in aa.header || c in team.header
    ensures Convert(aa, human, team).Err? ==>
      exists c :: c in OutputColumns[2..] && c !in human.header && c !in aa.header && c !in team.header &&
        Convert(aa, human, team).error == MissingValue(c)
  {
    StackedColumns(aa, human, team);
    OutputColumnsAreTrials();
    SelectMeaning(Stacked(aa, human, team), OutputColumns);
    TrialColumnsUnlabelled();
  }

  /** Selecting columns keeps what the selected columns of every row hold. */
  lemma SelectRowsFrom(t: Table, aa: Table, human: Table, team: Table, cols: seq<string>)
    requires Distinct(cols) && Select(t, cols).Ok? && RowsFrom(t, aa, human, team, cols)
    ensures RowsFrom(Select(t, cols).value, aa, human, team, cols)
  {
    SelectMeaning(t, cols);
    var v := Select(t, cols).value;
    forall i, c | 0 <= i < |v.rows| && c in cols
      ensures Origin(aa, human, team, i).2 < |Origin(aa, human, team, i).0.rows| &&
        Cell(v, i, c) == Expected(Origin(aa, human, team, i).0, Origin(aa, human, team, i).1, c, Origin(aa, human, team, i).2)
    {
      assert Cell(v, i, c) == Cell(t, i, c);
    }
  }

  /**
   * A successful merge has exactly the kept columns, the rows of the human,
   * AA and surrogate tables in that order, and each row's kind, pair and
   * trial values from its own table.
   */
  lemma ConvertRows(aa: Table, human: Table, team: Table)
    requires WellFormed(aa) && WellFormed(human) && WellFormed(team)
    ensures Convert(aa, human, team).Ok? ==>
      WellFormed(Convert(aa, human, team).value) && Convert(aa, human, team).value.header == OutputColumns &&
      RowsFrom(Convert(aa, human, team).value, aa, human, team, OutputColumns)
  {
    var all := Stacked(aa, human, team);
    StackedRows(aa, human, team, OutputColumns);
    OutputColumnsAreTrials();
    SelectMeaning(all, OutputColumns);
    if Select(all, OutputColumns).Ok? {
      SelectRowsFrom(all, aa, human, team, OutputColumns);
    }
  }

  // ---------------------------------------------------------------------------
  // File names and the script
  // ---------------------------------------------------------------------------

  /** `input_folder`, as configured. */
  const InputFolder: string := "TSp_DTWs"

  /** The surrogate table read: the trace table for the binary-trace scores, the DTW table otherwise. */
  function TeamFile(folder: string): string
  {
    if folder == "binaryTraceOverlaps" then "humanTeamTraces.csv" else "humanTeamDTWs.csv"
  }

  /** The merged file written, chosen by the same test. */
  function OutputFile(folder: string): string
  {
    if folder == "binaryTraceOverlaps" then "human_AHA_binarytracescores_heur.csv" else "human_AHA_TSpDTWscores_heur.csv"
  }

  /** The surrogate input and the output name follow the same choice of folder. */
  lemma FilesAgree(folder: string)
    ensures TeamFile(folder) == "humanTeamTraces.csv" <==> OutputFile(folder) == "human_AHA_binarytracescores_heur.csv"
    ensures TeamFile(folder) == "humanTeamDTWs.csv" <==> OutputFile(folder) == "human_AHA_TSpDTWscores_heur.csv"
  {
    assert "humanTeamTraces.csv" != "humanTeamDTWs.csv" by {
      assert "humanTeamTraces.csv"[9] != "humanTeamDTWs.csv"[9];
    }
    assert "human_AHA_binarytracescores_heur.csv" != "human_AHA_TSpDTWscores_heur.csv" by {
      assert "human_AHA_binarytracescores_heur.csv"[10] != "human_AHA_TSpDTWscores_heur.csv"[10];
    }
  }

  /** `for df in [AA_scores_heur, human_scores_heur, humanTeamScores]`: the pair column of each, in place. */
  method EnsurePairs(tables: array<Table>)
    modifies tables
    ensures forall k :: 0 <= k < tables.Length ==> tables[k] == WithPair(old(tables[k]))
  {
    for k := 0 to tables.Length
      invariant forall j :: 0 <= j < k ==> tables[j] == WithPair(old(tables[j]))
      invariant forall j :: k <= j < tables.Length ==> tables[j] == old(tables[j])
    {
      if "pair" !in tables[k].header {
        tables[k] := WithPair(tables[k]);
      }
    }
  }

  /** The script on the three tables read from `folder`: the merged table and the name it is saved under. */
  method Script(folder: string, aa: Table, human: Table, team: Table) returns (r: Result<(string, Table)>)
    ensures Convert(aa, human, team).Err? ==> r == Err(Convert(aa, human, team).error)
    ensures Convert(aa, human, team).Ok? ==> r == Ok((OutputFile(folder), Convert(aa, human, team).value))
  {
    var tables := new Table[3][aa, human, team];
    EnsurePairs(tables);
    var a := Assign(tables[0], "agent_type", "Artificial");
    var hu := Assign(tables[1], "agent_type", "Human");
    var te := Assign(tables[2], "agent_type", "Surrogate");
    var merged := Select(Concat([hu, a, te]), OutputColumns);
    if merged.Err? {
      return Err(merged.error);
    }
    return Ok((OutputFile(folder), merged.value));
  }
}
