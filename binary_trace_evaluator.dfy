/**
 * The structured binary-trace evaluator of experiment 1: every human session's
 * players are scored against each AA simulation cohort, one table per cohort.
 * For player p and trial t:
 *   - the occupancy pool is all other sessions' p{p}x / p{p}z samples;
 *   - the scored trajectory is the simulation's hA{p} agent in that trial;
 *   - lookups follow the rule "first glob match wins, no match is fatal";
 *   - simulation files are memoised per cohort.
 */
module BinaryTraceEvaluator {
  import opened Common
  import opened TrajUtils

  // ---------------------------------------------------------------------------
  // Configuration
  // ---------------------------------------------------------------------------

  /** `BinaryTraceConfig` without its three directory paths. */
  datatype Config = Config(firstTrial: int, lastTrial: int, aaTypes: seq<string>)

  /** The frozen dataclass's constructor with `__post_init__`: a ValueError unless first <= last. */
  function MakeConfig(firstTrial: int, lastTrial: int, aaTypes: seq<string>): (r: Result<Config>)
    ensures r.Ok? <==> firstTrial <= lastTrial
    ensures r.Ok? ==> r.value.firstTrial == firstTrial && r.value.lastTrial == lastTrial && r.value.aaTypes == aaTypes
    ensures r.Err? ==> r.error == InvalidConfig
  {
    if firstTrial > lastTrial then Err(InvalidConfig) else Ok(Config(firstTrial, lastTrial, aaTypes))
  }

  /** `range(first_trial, last_trial + 1)`: every trial from first to last, inclusive and ascending. */
  function Trials(c: Config): (ts: seq<int>)
    ensures c.firstTrial <= c.lastTrial ==> |ts| == c.lastTrial - c.firstTrial + 1
    ensures forall i :: 0 <= i < |ts| ==> ts[i] == c.firstTrial + i
  {
    var n := if c.firstTrial <= c.lastTrial then c.lastTrial - c.firstTrial + 1 else 0;
    seq(n, i requires 0 <= i < n => c.firstTrial + i)
  }

  /** The trials are exactly first..last. */
  lemma TrialsSpan(c: Config)
    ensures forall t :: t in Trials(c) <==> c.firstTrial <= t <= c.lastTrial
  {
    forall t | c.firstTrial <= t <= c.lastTrial ensures t in Trials(c) {
      assert Trials(c)[t - c.firstTrial] == t;
    }
  }

  /** The name of each trial's column, in order. */
  function ColumnsOf(ts: seq<int>, key: int -> string): (cols: seq<string>)
    ensures |cols| == |ts| && forall i :: 0 <= i < |ts| ==> cols[i] == key(ts[i])
  {
    seq(|ts|, i requires 0 <= i < |ts| => key(ts[i]))
  }

  /** `tuple(str(t) for t in self.trials)`. */
  function TrialColumns(c: Config): (cols: seq<string>)
  {
    ColumnsOf(Trials(c), IntToString)
  }

  /** The trial columns name every trial, in order, and no two coincide. */
  lemma TrialColumnsDistinct(c: Config)
    ensures forall i :: 0 <= i < |TrialColumns(c)| ==> TrialColumns(c)[i] == IntToString(c.firstTrial + i)
    ensures forall i, j :: 0 <= i < j < |TrialColumns(c)| ==> TrialColumns(c)[i] != TrialColumns(c)[j]
  {
    var cols := TrialColumns(c);
    TrialKeysDistinct(Trials(c));
    forall i, j | 0 <= i < j < |cols| ensures cols[i] != cols[j] {
      assert cols[i] == IntToString(Trials(c)[i]) && cols[j] == IntToString(Trials(c)[j]);
    }
  }

  /** Distinct trials have distinct column names. */
  lemma TrialKeysDistinct(ts: seq<int>)
    requires forall i, j :: 0 <= i < j < |ts| ==> ts[i] != ts[j]
    ensures forall i, j :: 0 <= i < j < |ts| ==> IntToString(ts[i]) != IntToString(ts[j])
  {
    forall i, j | 0 <= i < j < |ts| ensures IntToString(ts[i]) != IntToString(ts[j]) {
      if IntToString(ts[i]) == IntToString(ts[j]) {
        IntToStringInjective(ts[i], ts[j]);
      }
    }
  }

  /** `f"{trial:02}"`: at least two digits, the sign counting towards the width. */
  function TrialId(t: int): (id: string)
    ensures 0 <= t < 100 ==> id == TwoDigits(t)
  {
    if t >= 0 then TwoDigits(t) else "-" + NatToString(-t)
  }

  /** `f"hA{player}"`: the simulation agent scored for human player `player`. */
  function SimAgent(player: nat): string { "hA" + NatToString(player) }

  /** `f"p{player}x"`, `f"p{player}z"`. */
  function HumanX(player: nat): string { "p" + NatToString(player) + "x" }
  function HumanZ(player: nat): string { "p" + NatToString(player) + "z" }

  // ---------------------------------------------------------------------------
  // Folders and the trial-file lookup
  // ---------------------------------------------------------------------------

  /** A CSV file `rglob` yields below a folder, in the order it yields them. */
  datatype Entry = Entry(name: string, data: Frame)

  /** A session folder, or a simulation cohort's folder. */
  datatype Folder = Folder(name: string, entries: seq<Entry>)

  /** The glob `*pat*`: `pat` occurs somewhere in `s`. */
  predicate Contains(s: string, pat: string)
    decreases |s|
  {
    |pat| <= |s| && (s[..|pat|] == pat || Contains(s[1..], pat))
  }

  function Pattern(id: string): string { "trialIdentifier" + id }

  /** `list(folder.rglob(f"*trialIdentifier{trial_id}*"))`. */
  function Matches(entries: seq<Entry>, pat: string): (ms: seq<Entry>)
    ensures forall e :: e in ms ==> e in entries && Contains(e.name, pat)
    ensures |ms| == 0 <==> forall i :: 0 <= i < |entries| ==> !Contains(entries[i].name, pat)
  {
    if |entries| == 0 then []
    else if Contains(entries[0].name, pat) then [entries[0]] + Matches(entries[1..], pat)
    else
      var rest := Matches(entries[1..], pat);
      assert forall i :: 1 <= i < |entries| ==> entries[i] == entries[1..][i - 1];
      rest
  }

  /** `matches[0]` when there is a match. */
  function FindMatch(f: Folder, id: string): Option<Frame>
  {
    var ms := Matches(f.entries, Pattern(id));
    if |ms| == 0 then None else Some(ms[0].data)
  }

  /** The lookup ends in the earliest entry whose name contains the pattern, and fails only when no entry does. */
  lemma {:induction false} FirstMatchWins(entries: seq<Entry>, pat: string)
    ensures var ms := Matches(entries, pat);
      |ms| > 0 ==> exists i :: 0 <= i < |entries| && ms[0] == entries[i] && Contains(entries[i].name, pat) &&
                              forall j :: 0 <= j < i ==> !Contains(entries[j].name, pat)
    decreases |entries|
  {
    if |entries| > 0 {
      if Contains(entries[0].name, pat) {
        assert Matches(entries, pat)[0] == entries[0];
      } else {
        var tail := entries[1..];
        FirstMatchWins(tail, pat);
        var ms := Matches(tail, pat);
        assert Matches(entries, pat) == ms;
        if |ms| > 0 {
          var i :| 0 <= i < |tail| && ms[0] == tail[i] && Contains(tail[i].name, pat) &&
            forall j :: 0 <= j < i ==> !Contains(tail[j].name, pat);
          assert entries[i + 1] == tail[i];
          forall j | 0 <= j < i + 1 ensures !Contains(entries[j].name, pat) {
            if j > 0 {
              assert entries[j] == tail[j - 1];
            }
          }
        }
      }
    }
  }

  /** `_find_trial_file`: the first match, or the FileNotFoundError. */
  function FindTrialFile(f: Folder, t: int): (r: Result<Frame>)
    ensures r.Err? ==> r.error == MissingFile(f.name, t)
  {
    match FindMatch(f, TrialId(t))
    case None => Err(MissingFile(f.name, t))
    case Some(data) => Ok(data)
  }

  // ---------------------------------------------------------------------------
  // The background pool
  // ---------------------------------------------------------------------------

  /** `[s for s in sessions if s != evaluee_session]`. */
  function Others(sessions: seq<Folder>, evaluee: Folder): (bg: seq<Folder>)
    ensures |bg| <= |sessions|
    ensures forall s :: s in bg <==> s in sessions && s != evaluee
  {
    if |sessions| == 0 then []
    else
      var rest := Others(sessions[..|sessions| - 1], evaluee);
      var last := sessions[|sessions| - 1];
      assert sessions == sessions[..|sessions| - 1] + [last];
      if last == evaluee then rest else rest + [last]
  }

  /** In a listing without repeats, the background is the listing with the evaluee cut out. */
  lemma {:induction false} OthersCutsOne(sessions: seq<Folder>, i: nat)
    requires i < |sessions| && forall a, b :: 0 <= a < b < |sessions| ==> sessions[a] != sessions[b]
    ensures Others(sessions, sessions[i]) == sessions[..i] + sessions[i + 1..]
    decreases |sessions|
  {
    var n := |sessions| - 1;
    var init := sessions[..n];
    if i < n {
      OthersCutsOne(init, i);
      assert init[..i] == sessions[..i];
      assert init[i + 1..] + [sessions[n]] == sessions[i + 1..];
    } else {
      assert init == sessions[..i] && sessions[i + 1..] == [];
      OthersKeepsAll(init, sessions[i]);
    }
  }

  lemma {:induction false} OthersKeepsAll(sessions: seq<Folder>, evaluee: Folder)
    requires evaluee !in sessions
    ensures Others(sessions, evaluee) == sessions
    decreases |sessions|
  {
    if |sessions| > 0 {
      OthersKeepsAll(sessions[..|sessions| - 1], evaluee);
      assert sessions == sessions[..|sessions| - 1] + [sessions[|sessions| - 1]];
    }
  }

  /** How the pool finds a session's trial file; `FindTrialFile` in the script. */
  type Finder = (Folder, int) -> Result<Frame>

  /** The `for session in background_sessions` loop: each session's trial file, X and Z appended in order. */
  function Gather(bg: seq<Folder>, t: int, cx: string, cz: string, find: Finder): Result<(seq<real>, seq<real>)>
    decreases |bg|
  {
    if |bg| == 0 then Ok(([], []))
    else
      var prev :- Gather(bg[..|bg| - 1], t, cx, cz, find);
      var data :- find(bg[|bg| - 1], t);
      Ok((prev.0 + Col(data, cx), prev.1 + Col(data, cz)))
  }

  /** `_load_background_positions`: the loop, then the RuntimeError when nothing was collected. */
  function BackgroundPositions(bg: seq<Folder>, t: int, player: nat): Result<(seq<real>, seq<real>)>
  {
    var pos :- Gather(bg, t, HumanX(player), HumanZ(player), FindTrialFile);
    if |bg| == 0 then Err(EmptyPool(t)) else Ok(pos)
  }

  /**
   * The pool is gathered exactly when every background session's file is
   * found, and otherwise fails on the first session in order whose file is not.
   */
  lemma {:induction false} GatherOk(bg: seq<Folder>, t: int, cx: string, cz: string, find: Finder)
    ensures Gather(bg, t, cx, cz, find).Ok? <==> forall k :: 0 <= k < |bg| ==> find(bg[k], t).Ok?
    ensures Gather(bg, t, cx, cz, find).Err? ==>
      exists k :: 0 <= k < |bg| && find(bg[k], t).Err? && Gather(bg, t, cx, cz, find).error == find(bg[k], t).error &&
                  forall j :: 0 <= j < k ==> find(bg[j], t).Ok?
    decreases |bg|
  {
    if |bg| > 0 {
      var init := bg[..|bg| - 1];
      GatherOk(init, t, cx, cz, find);
      assert forall k :: 0 <= k < |init| ==> init[k] == bg[k];
    }
  }

  /** A failure among the first k sessions is the failure of the whole loop. */
  lemma {:induction false} GatherPrefixErr(bg: seq<Folder>, k: nat, t: int, cx: string, cz: string, find: Finder)
    requires k <= |bg| && Gather(bg[..k], t, cx, cz, find).Err?
    ensures Gather(bg, t, cx, cz, find) == Gather(bg[..k], t, cx, cz, find)
    decreases |bg|
  {
    if k < |bg| {
      var init := bg[..|bg| - 1];
      assert init[..k] == bg[..k];
      GatherPrefixErr(init, k, t, cx, cz, find);
    } else {
      assert bg[..k] == bg;
    }
  }

  /** `_load_background_positions`, with the per-session arrays concatenated as they are appended. */
  method LoadBackgroundPositions(bg: seq<Folder>, t: int, player: nat) returns (r: Result<(seq<real>, seq<real>)>)
    ensures r == BackgroundPositions(bg, t, player)
  {
    var xs, zs := [], [];
    for i := 0 to |bg|
      invariant Gather(bg[..i], t, HumanX(player), HumanZ(player), FindTrialFile) == Ok((xs, zs))
    {
      assert bg[..i + 1][..i] == bg[..i];
      var data := FindTrialFile(bg[i], t);
      if data.Err? {
        GatherPrefixErr(bg, i + 1, t, HumanX(player), HumanZ(player), FindTrialFile);
        return Err(data.error);
      }
      xs, zs := xs + Col(data.value, HumanX(player)), zs + Col(data.value, HumanZ(player));
    }
    assert bg[..|bg|] == bg;
    if |bg| == 0 {
      return Err(EmptyPool(t));
    }
    return Ok((xs, zs));
  }

  // ---------------------------------------------------------------------------
  // The simulation-file cache
  // ---------------------------------------------------------------------------

  /** The `cache` dictionary of one AA type's evaluation, keyed by trial id. */
  class TrialCache {
    const dir: Folder
    var frames: map<string, Frame>
    /** Every trial id whose file was looked up, in lookup order. */
    ghost var lookups: seq<string>

    /** Each id was read once, the cached ids are the ids read, and each holds what the lookup finds. */
    ghost predicate Valid()
      reads this
    {
      (forall i, j :: 0 <= i < j < |lookups| ==> lookups[i] != lookups[j]) &&
      (forall id :: id in frames <==> id in lookups) &&
      (forall id :: id in frames ==> FindMatch(dir, id) == Some(frames[id]))
    }

    /** `cache: Dict[str, pd.DataFrame] = {}`. */
    constructor (dir: Folder)
      ensures Valid() && this.dir == dir && frames == map[] && lookups == []
    {
      this.dir := dir;
      frames := map[];
      lookups := [];
    }

    /**
     * `_get_simulation_trial`: what a fresh lookup would give. A hit changes
     * nothing; a miss reads the file, and stores it when it exists.
     */
    method Get(t: int) returns (r: Result<Frame>)
      requires Valid()
      modifies this
      ensures r == FindTrialFile(dir, t)
      ensures TrialId(t) in old(frames) ==> frames == old(frames) && lookups == old(lookups)
      ensures TrialId(t) !in old(frames) ==> lookups == old(lookups) + [TrialId(t)]
      ensures r.Ok? ==> Valid() && frames == old(frames)[TrialId(t) := r.value]
      ensures r.Err? ==> frames == old(frames)
    {
      var id := TrialId(t);
      if id !in frames {
        var ms := Matches(dir.entries, Pattern(id));
        lookups := lookups + [id];
        if |ms| == 0 {
          return Err(MissingFile(dir.name, t));
        }
        frames := frames[id := ms[0].data];
      }
      return Ok(frames[id]);
    }
  }

  // ---------------------------------------------------------------------------
  // `evaluate_aa_type`
  // ---------------------------------------------------------------------------

  /** `record`: the session's name, Player = player + 1, and one score per `str(trial)` key. */
  datatype Record = Record(session: string, player: int, cells: map<string, real>)

  /** `pd.DataFrame.from_records(records, columns=columns)`. */
  datatype Table = Table(columns: seq<string>, rows: seq<Record>)

  /** `get_binary_trace(X, Z, data, agent)`, the score every cell is given. */
  type Tracer = (seq<real>, seq<real>, Frame, string) -> real

  /** The script's `get_binary_trace`: the external trace scorer over the pooled mask and the agent's positions. */
  function TracerOf(score: TraceScorer): (trace: Tracer)
    ensures forall xs, zs, data, agent :: trace(xs, zs, data, agent) == TraceScore(score, xs, zs, data, agent)
  {
    (xs: seq<real>, zs: seq<real>, data: Frame, agent: string) => TraceScore(score, xs, zs, data, agent)
  }

  /** One cell: the pool of the other sessions, the cohort's simulation file, then the trace score. */
  function Cell(sessions: seq<Folder>, evaluee: Folder, player: nat, t: int, dir: Folder, trace: Tracer): Result<real>
  {
    var pos :- BackgroundPositions(Others(sessions, evaluee), t, player);
    var sim :- FindTrialFile(dir, t);
    Ok(trace(pos.0, pos.1, sim, SimAgent(player)))
  }

  /** The cells of one record, trial by trial. */
  function CellOf(sessions: seq<Folder>, evaluee: Folder, player: nat, dir: Folder, trace: Tracer): (cell: int -> Result<real>)
    ensures forall t :: cell(t) == Cell(sessions, evaluee, player, t, dir, trace)
  {
    t => Cell(sessions, evaluee, player, t, dir, trace)
  }

  /** The `for trial in config.trials` loop over `ts`, writing `record[str(trial)]`. */
  function Cells(ts: seq<int>, cell: int -> Result<real>, key: int -> string): Result<map<string, real>>
    decreases |ts|
  {
    if |ts| == 0 then Ok(map[])
    else
      var m :- Cells(ts[..|ts| - 1], cell, key);
      var v :- cell(ts[|ts| - 1]);
      Ok(m[key(ts[|ts| - 1]) := v])
  }

  lemma {:induction false} CellsPrefixErr(ts: seq<int>, k: nat, cell: int -> Result<real>, key: int -> string)
    requires k <= |ts| && Cells(ts[..k], cell, key).Err?
    ensures Cells(ts, cell, key) == Cells(ts[..k], cell, key)
    decreases |ts|
  {
    if k < |ts| {
      var init := ts[..|ts| - 1];
      assert init[..k] == ts[..k];
      CellsPrefixErr(init, k, cell, key);
    } else {
      assert ts[..k] == ts;
    }
  }

  /** A record is filled exactly when every trial's cell can be scored. */
  lemma {:induction false} CellsOk(ts: seq<int>, cell: int -> Result<real>, key: int -> string)
    ensures Cells(ts, cell, key).Ok? <==> forall i :: 0 <= i < |ts| ==> cell(ts[i]).Ok?
    decreases |ts|
  {
    if |ts| > 0 {
      var n := |ts| - 1;
      var init := ts[..n];
      CellsOk(init, cell, key);
      if forall i :: 0 <= i < |ts| ==> cell(ts[i]).Ok? {
        forall i | 0 <= i < n ensures cell(init[i]).Ok? {
          assert init[i] == ts[i];
        }
        assert Cells(init, cell, key).Ok? && cell(ts[n]).Ok?;
      } else {
        var i :| 0 <= i < |ts| && cell(ts[i]).Err?;
        if i < n {
          assert init[i] == ts[i];
          assert Cells(init, cell, key).Err?;
        }
      }
    }
  }

  /** A filled record's keys are exactly the trials' column names. */
  lemma {:induction false} CellsKeys(ts: seq<int>, cell: int -> Result<real>, key: int -> string)
    requires Cells(ts, cell, key).Ok?
    ensures forall col :: col in Cells(ts, cell, key).value <==> col in ColumnsOf(ts, key)
    decreases |ts|
  {
    if |ts| > 0 {
      var n := |ts| - 1;
      var init := ts[..n];
      CellsKeys(init, cell, key);
      var m := Cells(init, cell, key).value;
      assert Cells(ts, cell, key).value == m[key(ts[n]) := cell(ts[n]).value];
      assert ColumnsOf(ts, key) == ColumnsOf(init, key) + [key(ts[n])];
    }
  }

  /** When no two trials share a column, each trial's column holds that trial's score. */
  lemma {:induction false} CellsValues(ts: seq<int>, cell: int -> Result<real>, key: int -> string)
    requires Cells(ts, cell, key).Ok? && forall i, j :: 0 <= i < j < |ts| ==> key(ts[i]) != key(ts[j])
    ensures forall i :: 0 <= i < |ts| ==>
      cell(ts[i]).Ok? && key(ts[i]) in Cells(ts, cell, key).value && Cells(ts, cell, key).value[key(ts[i])] == cell(ts[i]).value
    decreases |ts|
  {
    if |ts| > 0 {
      var n := |ts| - 1;
      var init := ts[..n];
      CellsValues(init, cell, key);
      var m := Cells(init, cell, key).value;
      assert Cells(ts, cell, key).value == m[key(ts[n]) := cell(ts[n]).value];
      forall i | 0 <= i < n
        ensures cell(ts[i]).Ok? && key(ts[i]) in Cells(ts, cell, key).value && Cells(ts, cell, key).value[key(ts[i])] == cell(ts[i]).value
      {
        assert init[i] == ts[i];
      }
    }
  }

  /** The record of `player` of the session `evaluee`: Player is player + 1. */
  function RecordOf(sessions: seq<Folder>, evaluee: Folder, player: nat, ts: seq<int>, dir: Folder, trace: Tracer): Result<Record>
  {
    var cells :- Cells(ts, CellOf(sessions, evaluee, player, dir, trace), IntToString);
    Ok(Record(evaluee.name, player + 1, cells))
  }

  function RecordFn(sessions: seq<Folder>, ts: seq<int>, dir: Folder, trace: Tracer): (rec: (Folder, nat) -> Result<Record>)
  {
    (evaluee: Folder, player: nat) => RecordOf(sessions, evaluee, player, ts, dir, trace)
  }

  /** `rec` gives every (session, player) the record `RecordOf` fills for it. */
  ghost predicate RecordsBy(rec: (Folder, nat) -> Result<Record>, sessions: seq<Folder>, ts: seq<int>, dir: Folder, trace: Tracer)
  {
    forall evaluee: Folder, player: nat {:trigger RecordOf(sessions, evaluee, player, ts, dir, trace)} ::
      rec(evaluee, player) == RecordOf(sessions, evaluee, player, ts, dir, trace)
  }

  /** The (session, player) pairs in the order of the `for session ... for player in (0, 1)` loops. */
  function Schedule(sessions: seq<Folder>): (s: seq<(Folder, nat)>)
    ensures |s| == 2 * |sessions|
    decreases |sessions|
  {
    if |sessions| == 0 then []
    else Schedule(sessions[..|sessions| - 1]) + [(sessions[|sessions| - 1], 0), (sessions[|sessions| - 1], 1)]
  }

  /** Session i's two records come at 2i and 2i + 1: Player 1, then Player 2. */
  lemma {:induction false} ScheduleAt(sessions: seq<Folder>, i: nat, p: nat)
    requires i < |sessions| && p < 2
    ensures Schedule(sessions)[2 * i + p] == (sessions[i], p)
    decreases |sessions|
  {
    var init := sessions[..|sessions| - 1];
    if i < |init| {
      ScheduleAt(init, i, p);
      assert init[i] == sessions[i];
    }
  }

  /** `records.append(record)` over the pairs in order. */
  function Records(pairs: seq<(Folder, nat)>, rec: (Folder, nat) -> Result<Record>): Result<seq<Record>>
    decreases |pairs|
  {
    if |pairs| == 0 then Ok([])
    else
      var rs :- Records(pairs[..|pairs| - 1], rec);
      var r :- rec(pairs[|pairs| - 1].0, pairs[|pairs| - 1].1);
      Ok(rs + [r])
  }

  lemma {:induction false} RecordsPrefixErr(pairs: seq<(Folder, nat)>, k: nat, rec: (Folder, nat) -> Result<Record>)
    requires k <= |pairs| && Records(pairs[..k], rec).Err?
    ensures Records(pairs, rec) == Records(pairs[..k], rec)
    decreases |pairs|
  {
    if k < |pairs| {
      var init := pairs[..|pairs| - 1];
      assert init[..k] == pairs[..k];
      RecordsPrefixErr(init, k, rec);
    } else {
      assert pairs[..k] == pairs;
    }
  }

  /** The next pair's record is appended, or its failure is the failure of the whole loop. */
  lemma RecordsStep(pairs: seq<(Folder, nat)>, k: nat, rec: (Folder, nat) -> Result<Record>)
    requires k < |pairs| && Records(pairs[..k], rec).Ok?
    ensures rec(pairs[k].0, pairs[k].1).Ok? ==>
      Records(pairs[..k + 1], rec) == Ok(Records(pairs[..k], rec).value + [rec(pairs[k].0, pairs[k].1).value])
    ensures rec(pairs[k].0, pairs[k].1).Err? ==> Records(pairs[..k + 1], rec) == Err(rec(pairs[k].0, pairs[k].1).error)
  {
    assert pairs[..k + 1][..k] == pairs[..k];
  }

  /** One record per pair, in order, and the first pair whose record fails decides the failure. */
  lemma {:induction false} RecordsOk(pairs: seq<(Folder, nat)>, rec: (Folder, nat) -> Result<Record>)
    ensures var r := Records(pairs, rec);
      (r.Ok? <==> forall j :: 0 <= j < |pairs| ==> rec(pairs[j].0, pairs[j].1).Ok?) &&
      (r.Ok? ==> |r.value| == |pairs| && forall j :: 0 <= j < |pairs| ==> r.value[j] == rec(pairs[j].0, pairs[j].1).value) &&
      (r.Err? ==> exists j :: 0 <= j < |pairs| && rec(pairs[j].0, pairs[j].1).Err? && r.error == rec(pairs[j].0, pairs[j].1).error &&
                             forall i :: 0 <= i < j ==> rec(pairs[i].0, pairs[i].1).Ok?)
    decreases |pairs|
  {
    if |pairs| > 0 {
      var init := pairs[..|pairs| - 1];
      RecordsOk(init, rec);
      assert forall j :: 0 <= j < |init| ==> init[j] == pairs[j];
    }
  }

  /** `evaluate_aa_type` against the cohort folder `dir`. */
  function Evaluate(config: Config, sessions: seq<Folder>, dir: Folder, trace: Tracer): Result<Table>
  {
    var rows :- Records(Schedule(sessions), RecordFn(sessions, Trials(config), dir, trace));
    Ok(Table(["Session", "Player"] + TrialColumns(config), rows))
  }

  /**
   * A cohort's table has the columns Session, Player and the trial strings,
   * and two rows per session in listing order: row 2i + p is session i's
   * record of player p.
   */
  lemma EvaluateRows(config: Config, sessions: seq<Folder>, dir: Folder, trace: Tracer)
    requires Evaluate(config, sessions, dir, trace).Ok?
    ensures var tab := Evaluate(config, sessions, dir, trace).value;
      tab.columns == ["Session", "Player"] + TrialColumns(config) &&
      |tab.rows| == 2 * |sessions| &&
      forall i, p :: 0 <= i < |sessions| && 0 <= p < 2 ==>
        RecordOf(sessions, sessions[i], p, Trials(config), dir, trace).Ok? &&
        tab.rows[2 * i + p] == RecordOf(sessions, sessions[i], p, Trials(config), dir, trace).value
  {
    var ts := Trials(config);
    var rec := RecordFn(sessions, ts, dir, trace);
    var pairs := Schedule(sessions);
    var rows := Records(pairs, rec).value;
    RecordsOk(pairs, rec);
    forall i, p | 0 <= i < |sessions| && 0 <= p < 2
      ensures RecordOf(sessions, sessions[i], p, ts, dir, trace).Ok? && rows[2 * i + p] == RecordOf(sessions, sessions[i], p, ts, dir, trace).value
    {
      ScheduleAt(sessions, i, p);
    }
  }

  /**
   * A record names its session and Player = player + 1, has exactly the trial
   * columns, and the column of trial t holds the score of the player's
   * background pool against the simulation's hA{player} agent.
   */
  lemma RecordLayout(config: Config, sessions: seq<Folder>, evaluee: Folder, player: nat, dir: Folder, trace: Tracer)
    requires RecordOf(sessions, evaluee, player, Trials(config), dir, trace).Ok?
    ensures var r := RecordOf(sessions, evaluee, player, Trials(config), dir, trace).value;
      r.session == evaluee.name && r.player == player + 1 &&
      (forall col :: col in r.cells <==> col in TrialColumns(config)) &&
      forall t :: config.firstTrial <= t <= config.lastTrial ==>
        Cell(sessions, evaluee, player, t, dir, trace).Ok? && IntToString(t) in r.cells &&
        r.cells[IntToString(t)] == Cell(sessions, evaluee, player, t, dir, trace).value
  {
    var ts := Trials(config);
    var cell := CellOf(sessions, evaluee, player, dir, trace);
    CellsKeys(ts, cell, IntToString);
    TrialKeysDistinct(ts);
    CellsValues(ts, cell, IntToString);
    var r := RecordOf(sessions, evaluee, player, ts, dir, trace).value;
    forall t | config.firstTrial <= t <= config.lastTrial
      ensures Cell(sessions, evaluee, player, t, dir, trace).Ok? && IntToString(t) in r.cells &&
        r.cells[IntToString(t)] == Cell(sessions, evaluee, player, t, dir, trace).value
    {
      assert ts[t - config.firstTrial] == t;
    }
  }

  /**
   * A cell can be scored exactly when the evaluee has company, every other
   * session has the trial's file, and so does the cohort folder.
   */
  lemma CellOk(sessions: seq<Folder>, evaluee: Folder, player: nat, t: int, dir: Folder, trace: Tracer)
    ensures var bg := Others(sessions, evaluee);
      Cell(sessions, evaluee, player, t, dir, trace).Ok? <==>
        |bg| > 0 && (forall s :: s in bg ==> FindTrialFile(s, t).Ok?) && FindTrialFile(dir, t).Ok?
  {
    var bg := Others(sessions, evaluee);
    GatherOk(bg, t, HumanX(player), HumanZ(player), FindTrialFile);
    if forall s :: s in bg ==> FindTrialFile(s, t).Ok? {
      assert forall k :: 0 <= k < |bg| ==> FindTrialFile(bg[k], t).Ok?;
    }
  }

  /** One pass of the trial loop: the background pool, the memoised simulation file, the score. */
  method ScoreCell(sessions: seq<Folder>, evaluee: Folder, player: nat, t: int, cache: TrialCache, trace: Tracer) returns (r: Result<real>)
    requires cache.Valid()
    modifies cache
    ensures r == Cell(sessions, evaluee, player, t, cache.dir, trace)
    ensures r.Ok? ==> cache.Valid()
  {
    var pos := LoadBackgroundPositions(Others(sessions, evaluee), t, player);
    if pos.Err? {
      return Err(pos.error);
    }
    var sim := cache.Get(t);
    if sim.Err? {
      return Err(sim.error);
    }
    return Ok(trace(pos.value.0, pos.value.1, sim.value, SimAgent(player)));
  }

  /** The record of one (session, player): Session, Player, then `record[str(trial)] = score` trial by trial. */
  method FillRecord(sessions: seq<Folder>, evaluee: Folder, player: nat, ts: seq<int>, cache: TrialCache, trace: Tracer)
    returns (r: Result<Record>)
    requires cache.Valid()
    modifies cache
    ensures r == RecordOf(sessions, evaluee, player, ts, cache.dir, trace)
    ensures r.Ok? ==> cache.Valid()
  {
    ghost var cell := CellOf(sessions, evaluee, player, cache.dir, trace);
    var cells: map<string, real> := map[];
    for k := 0 to |ts|
      invariant cache.Valid()
      invariant Cells(ts[..k], cell, IntToString) == Ok(cells)
    {
      assert ts[..k + 1][..k] == ts[..k];
      var v := ScoreCell(sessions, evaluee, player, ts[k], cache, trace);
      if v.Err? {
        CellsPrefixErr(ts, k + 1, cell, IntToString);
        return Err(v.error);
      }
      cells := cells[IntToString(ts[k]) := v.value];
    }
    assert ts[..|ts|] == ts;
    return Ok(Record(evaluee.name, player + 1, cells));
  }

  /** One pass of the player loop: the record of player `player` of session i, appended or failing. */
  method NextRecord(sessions: seq<Folder>, i: nat, player: nat, ts: seq<int>, cache: TrialCache, trace: Tracer,
                    ghost rec: (Folder, nat) -> Result<Record>, records: seq<Record>)
    returns (r: Result<seq<Record>>)
    requires i < |sessions| && player < 2 && cache.Valid() && RecordsBy(rec, sessions, ts, cache.dir, trace)
    requires Records(Schedule(sessions)[..2 * i + player], rec) == Ok(records)
    modifies cache
    ensures r.Ok? ==> cache.Valid() && Records(Schedule(sessions)[..2 * i + player + 1], rec) == r
    ensures r.Err? ==> Records(Schedule(sessions)[..2 * i + 2], rec) == r
  {
    ghost var pairs := Schedule(sessions)[..2 * i + 2];
    ScheduleAt(sessions, i, player);
    assert pairs[..2 * i + player] == Schedule(sessions)[..2 * i + player];
    assert pairs[2 * i + player] == (sessions[i], player);
    RecordsStep(pairs, 2 * i + player, rec);
    var next := FillRecord(sessions, sessions[i], player, ts, cache, trace);
    if next.Err? {
      RecordsPrefixErr(pairs, 2 * i + player + 1, rec);
      return Err(next.error);
    }
    assert pairs[..2 * i + player + 1] == Schedule(sessions)[..2 * i + player + 1];
    return Ok(records + [next.value]);
  }

  /** The player loop for session i: its two records appended in order, or the first failure. */
  method SessionRecords(sessions: seq<Folder>, i: nat, ts: seq<int>, cache: TrialCache, trace: Tracer,
                        ghost rec: (Folder, nat) -> Result<Record>, records: seq<Record>)
    returns (r: Result<seq<Record>>)
    requires i < |sessions| && cache.Valid() && RecordsBy(rec, sessions, ts, cache.dir, trace)
    requires Records(Schedule(sessions)[..2 * i], rec) == Ok(records)
    modifies cache
    ensures r.Ok? ==> cache.Valid() && Records(Schedule(sessions)[..2 * i + 2], rec) == r
    ensures r.Err? ==> Records(Schedule(sessions)[..2 * i + 2], rec) == r
  {
    var acc := records;
    for player := 0 to 2
      invariant cache.Valid()
      invariant Records(Schedule(sessions)[..2 * i + player], rec) == Ok(acc)
    {
      var next := NextRecord(sessions, i, player, ts, cache, trace, rec, acc);
      if next.Err? {
        return next;
      }
      acc := next.value;
    }
    return Ok(acc);
  }

  /** `evaluate_aa_type`: a fresh cache, the session and player loops, then the table. */
  method EvaluateAAType(config: Config, sessions: seq<Folder>, dir: Folder, trace: Tracer) returns (r: Result<Table>)
    ensures r == Evaluate(config, sessions, dir, trace)
  {
    var ts := Trials(config);
    ghost var rec := RecordFn(sessions, ts, dir, trace);
    ghost var pairs := Schedule(sessions);
    var cache := new TrialCache(dir);
    var records: seq<Record> := [];
    for i := 0 to |sessions|
      invariant cache.Valid() && cache.dir == dir
      invariant Records(pairs[..2 * i], rec) == Ok(records)
    {
      var next := SessionRecords(sessions, i, ts, cache, trace, rec, records);
      if next.Err? {
        RecordsPrefixErr(pairs, 2 * i + 2, rec);
        return Err(next.error);
      }
      records := next.value;
    }
    assert pairs[..2 * |sessions|] == pairs;
    return Ok(Table(["Session", "Player"] + TrialColumns(config), records));
  }

  // ---------------------------------------------------------------------------
  // `run` and `main`
  // ---------------------------------------------------------------------------

  /** `f"AA_scores_traces_Successive{aa_type}.csv"`. */
  function OutputName(aaType: string): string { "AA_scores_traces_Successive" + aaType + ".csv" }

  /** The CSV files written, in order, and the exception that ended the run, if any. */
  datatype Outcome = Outcome(saved: seq<(string, Table)>, failure: Option<Error>)

  /** How one cohort folder is evaluated. */
  type Evaluator = Folder -> Result<Table>

  /** `evaluate_aa_type(config, sessions, ...)` as a function of the cohort folder. */
  function EvaluateFn(config: Config, sessions: seq<Folder>, trace: Tracer): (eval: Evaluator)
    ensures forall dir :: eval(dir) == Evaluate(config, sessions, dir, trace)
  {
    dir => Evaluate(config, sessions, dir, trace)
  }

  /**
   * The `for aa_type in config.aa_types` loop over the first k types;
   * `simulations` maps each existing cohort folder's name to it.
   */
  function Saves(aaTypes: seq<string>, simulations: map<string, Folder>, eval: Evaluator, k: nat): Outcome
    requires k <= |aaTypes|
  {
    if k == 0 then Outcome([], None)
    else
      var o := Saves(aaTypes, simulations, eval, k - 1);
      var aaType := aaTypes[k - 1];
      if o.failure.Some? then o
      else match TypeTable(simulations, eval, aaType)
        case Err(e) => Outcome(o.saved, Some(e))
        case Ok(tab) => Outcome(o.saved + [(OutputName(aaType), tab)], None)
  }

  /** One pass of the loop: the FileNotFoundError for a missing cohort folder, otherwise its evaluation. */
  function TypeTable(simulations: map<string, Folder>, eval: Evaluator, aaType: string): (r: Result<Table>)
    ensures aaType !in simulations ==> r == Err(MissingDirectory(aaType))
    ensures aaType in simulations ==> r == eval(simulations[aaType])
  {
    if aaType !in simulations then Err(MissingDirectory(aaType)) else eval(simulations[aaType])
  }

  /** `run(config)`: `_discover_sessions` raises when there is no session folder. */
  function Run(config: Config, sessions: seq<Folder>, simulations: map<string, Folder>, trace: Tracer): Outcome
  {
    if |sessions| == 0 then Outcome([], Some(NoSessions))
    else Saves(config.aaTypes, simulations, EvaluateFn(config, sessions, trace), |config.aaTypes|)
  }

  /** `main()` from the parsed first and last trial onwards. */
  function Main(firstTrial: int, lastTrial: int, aaTypes: seq<string>, sessions: seq<Folder>, simulations: map<string, Folder>, score: TraceScorer): Outcome
  {
    match MakeConfig(firstTrial, lastTrial, aaTypes)
    case Err(e) => Outcome([], Some(e))
    case Ok(config) => Run(config, sessions, simulations, TracerOf(score))
  }

  /**
   * The types are processed in order: the files saved are the first types'
   * tables, each what the evaluation of its own folder gives, and they stop
   * at the first type whose folder is missing or whose evaluation fails.
   */
  lemma {:induction false} SavesInOrder(aaTypes: seq<string>, simulations: map<string, Folder>, eval: Evaluator, k: nat)
    requires k <= |aaTypes|
    ensures var o := Saves(aaTypes, simulations, eval, k);
      |o.saved| <= k && (o.failure.None? ==> |o.saved| == k) &&
      forall j :: 0 <= j < |o.saved| ==>
        aaTypes[j] in simulations && eval(simulations[aaTypes[j]]).Ok? &&
        o.saved[j] == (OutputName(aaTypes[j]), eval(simulations[aaTypes[j]]).value)
    ensures var o := Saves(aaTypes, simulations, eval, k);
      o.failure.Some? ==> (|o.saved| < k &&
        var aaType := aaTypes[|o.saved|];
        if aaType !in simulations then o.failure == Some(MissingDirectory(aaType))
        else (eval(simulations[aaType]).Err? && o.failure == Some(eval(simulations[aaType]).error)))
    decreases k
  {
    if k > 0 {
      SavesInOrder(aaTypes, simulations, eval, k - 1);
    }
  }

  /**
   * A run with sessions saves, type by type, each cohort's own table
   * (a fresh cache per type), and stops at the first missing folder or
   * failed evaluation; a run without sessions saves nothing.
   */
  lemma RunInOrder(config: Config, sessions: seq<Folder>, simulations: map<string, Folder>, trace: Tracer)
    ensures var o := Run(config, sessions, simulations, trace);
      (|sessions| == 0 ==> o == Outcome([], Some(NoSessions))) &&
      |o.saved| <= |config.aaTypes| && (o.failure.None? ==> |o.saved| == |config.aaTypes|) &&
      forall j :: 0 <= j < |o.saved| ==>
        config.aaTypes[j] in simulations && Evaluate(config, sessions, simulations[config.aaTypes[j]], trace).Ok? &&
        o.saved[j] == (OutputName(config.aaTypes[j]), Evaluate(config, sessions, simulations[config.aaTypes[j]], trace).value)
  {
    if |sessions| > 0 {
      SavesInOrder(config.aaTypes, simulations, EvaluateFn(config, sessions, trace), |config.aaTypes|);
    }
  }

  /** An invalid range saves nothing; otherwise every type is saved exactly when none fails. */
  lemma MainOk(firstTrial: int, lastTrial: int, aaTypes: seq<string>, sessions: seq<Folder>, simulations: map<string, Folder>, score: TraceScorer)
    ensures var o := Main(firstTrial, lastTrial, aaTypes, sessions, simulations, score);
      (firstTrial > lastTrial ==> o == Outcome([], Some(InvalidConfig))) &&
      (firstTrial <= lastTrial && |sessions| == 0 ==> o == Outcome([], Some(NoSessions))) &&
      (o.failure.None? ==> |o.saved| == |aaTypes|)
  {
    if firstTrial <= lastTrial {
      RunInOrder(Config(firstTrial, lastTrial, aaTypes), sessions, simulations, TracerOf(score));
    }
  }

  /** After the first failure the remaining types are not processed. */
  lemma {:induction false} SavesStop(aaTypes: seq<string>, simulations: map<string, Folder>, eval: Evaluator, k: nat)
    requires k <= |aaTypes| && Saves(aaTypes, simulations, eval, k).failure.Some?
    ensures Saves(aaTypes, simulations, eval, |aaTypes|) == Saves(aaTypes, simulations, eval, k)
    decreases |aaTypes| - k
  {
    if k < |aaTypes| {
      SavesStop(aaTypes, simulations, eval, k + 1);
    }
  }

  /** One type's table: the folder check, then `evaluate_aa_type` with its own fresh cache. */
  method SaveType(config: Config, sessions: seq<Folder>, simulations: map<string, Folder>, trace: Tracer, aaType: string)
    returns (r: Result<Table>)
    ensures r == TypeTable(simulations, EvaluateFn(config, sessions, trace), aaType)
  {
    if aaType !in simulations {
      return Err(MissingDirectory(aaType));
    }
    r := EvaluateAAType(config, sessions, simulations[aaType], trace);
  }

  /** One more type after k clean ones: its table saved, or the run ended by its exception. */
  lemma SavesStep(aaTypes: seq<string>, simulations: map<string, Folder>, eval: Evaluator, k: nat, saved: seq<(string, Table)>, tab: Result<Table>)
    requires k < |aaTypes| && Saves(aaTypes, simulations, eval, k) == Outcome(saved, None)
    requires tab == TypeTable(simulations, eval, aaTypes[k])
    ensures tab.Err? ==> Saves(aaTypes, simulations, eval, |aaTypes|) == Outcome(saved, Some(tab.error))
    ensures tab.Ok? ==> Saves(aaTypes, simulations, eval, k + 1) == Outcome(saved + [(OutputName(aaTypes[k]), tab.value)], None)
  {
    if tab.Err? {
      SavesStop(aaTypes, simulations, eval, k + 1);
    }
  }

  /** `run(config)`: each type's table is computed and saved before the next type starts. */
  method RunAll(config: Config, sessions: seq<Folder>, simulations: map<string, Folder>, trace: Tracer) returns (o: Outcome)
    ensures o == Run(config, sessions, simulations, trace)
  {
    if |sessions| == 0 {
      return Outcome([], Some(NoSessions));
    }
    ghost var eval := EvaluateFn(config, sessions, trace);
    var aaTypes := config.aaTypes;
    var saved: seq<(string, Table)> := [];
    for k := 0 to |aaTypes|
      invariant Saves(aaTypes, simulations, eval, k) == Outcome(saved, None)
    {
      var tab := SaveType(config, sessions, simulations, trace, aaTypes[k]);
      SavesStep(aaTypes, simulations, eval, k, saved, tab);
      if tab.Err? {
        return Outcome(saved, Some(tab.error));
      }
      saved := saved + [(OutputName(aaTypes[k]), tab.value)];
    }
    return Outcome(saved, None);
  }
}
