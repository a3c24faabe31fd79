/**
 * The per-session score dictionaries of the human-AA comparisons
 * (`human_scores` and `AA_scores`: one `np.zeros(18)` array per session) and the
 * routing of each human-AA file to one of them: a file found under
 * HumanPlayerN updates the human half when the loop's player is N and the AA
 * half when it is the other seat.
 */
module ScoreTables {
  import opened Common

  type Table = map<string, seq<Float>>

  /** The human-half and the AA-half dictionaries. */
  datatype Tables = Tables(human: Table, aa: Table)

  function Zeros(): (z: seq<Float>)
    ensures |z| == NumTrials && forall i :: 0 <= i < |z| ==> z[i] == Finite(0.0)
  {
    seq(NumTrials, _ => Finite(0.0))
  }

  /** Both dictionaries are keyed by exactly `keys` and hold one cell per analysed trial. */
  predicate Shaped(st: Tables, keys: set<string>)
  {
    st.human.Keys == keys && st.aa.Keys == keys &&
    (forall n :: n in st.human ==> |st.human[n]| == NumTrials) &&
    (forall n :: n in st.aa ==> |st.aa[n]| == NumTrials)
  }

  function KeySet(names: seq<string>): set<string>
  {
    set n | n in names
  }

  /** `d[session] = np.zeros(num_trials)` for every discovered session, in both dictionaries. */
  function NewTables(names: seq<string>): (st: Tables)
    ensures Shaped(st, KeySet(names))
    ensures forall n :: n in st.human ==> st.human[n] == Zeros() && st.aa[n] == Zeros()
  {
    var m := map n | n in names :: Zeros();
    Tables(m, m)
  }

  /** `player == 0 and subFolder == HumanPlayer0 or player == 1 and subFolder == HumanPlayer1`. */
  predicate HumanHalf(player: nat, sub: nat)
  {
    (player == 0 && sub == 0) || (player == 1 && sub == 1)
  }

  /** `player == 0 and subFolder == HumanPlayer1 or player == 1 and subFolder == HumanPlayer0`. */
  predicate AAHalf(player: nat, sub: nat)
  {
    (player == 0 && sub == 1) || (player == 1 && sub == 0)
  }

  predicate Routed(player: nat, sub: nat)
  {
    HumanHalf(player, sub) || AAHalf(player, sub)
  }

  /** For the two seats the routes are complementary: the human half exactly when player == subfolder. */
  lemma RoutingComplementary(player: nat, sub: nat)
    requires player < 2 && sub < 2
    ensures HumanHalf(player, sub) <==> player == sub
    ensures AAHalf(player, sub) <==> player != sub
    ensures Routed(player, sub)
  {
  }

  /** `properHeader`: the human's columns for the human half, the agent's for the AA half. */
  function Header(human: bool): string
  {
    if human then "p0" else "hA0"
  }

  /** The new value of one cell, computed from the file and the cell's current value. */
  type CellStep = (HumanAAFile, bool, Float) -> Float

  /**
   * `d[session][trial - first_trial] <- step(...)`: a KeyError for a session the
   * dictionary does not hold; otherwise exactly that cell changes.
   */
  function Update(m: Table, f: HumanAAFile, human: bool, ti: nat, step: CellStep): (r: Result<Table>)
    ensures r.Ok? <==> f.session in m && ti < |m[f.session]|
    ensures r.Err? ==> r.error == UnknownSession(f.session)
    ensures r.Ok? ==> r.value.Keys == m.Keys && |r.value[f.session]| == |m[f.session]|
    ensures r.Ok? ==> r.value[f.session][ti] == step(f, human, m[f.session][ti])
    ensures r.Ok? ==> forall j :: 0 <= j < |m[f.session]| && j != ti ==> r.value[f.session][j] == m[f.session][j]
    ensures r.Ok? ==> forall n :: n in m && n != f.session ==> r.value[n] == m[n]
  {
    if f.session in m && ti < |m[f.session]| then
      Ok(m[f.session := m[f.session][ti := step(f, human, m[f.session][ti])]])
    else
      Err(UnknownSession(f.session))
  }

  /** One human-AA file of trial t seen in the pass of `player`. */
  function FileStep(st: Tables, f: HumanAAFile, player: nat, t: int, step: CellStep): (r: Result<Tables>)
    requires IsAnalysedTrial(t)
    ensures r.Ok? && HumanHalf(player, f.humanPlayer) ==> r.value.aa == st.aa
    ensures r.Ok? && AAHalf(player, f.humanPlayer) ==> r.value.human == st.human
    ensures !Routed(player, f.humanPlayer) ==> r == Ok(st)
  {
    var ti := TrialIndex(t);
    if HumanHalf(player, f.humanPlayer) then
      var h :- Update(st.human, f, true, ti, step);
      Ok(Tables(h, st.aa))
    else if AAHalf(player, f.humanPlayer) then
      var a :- Update(st.aa, f, false, ti, step);
      Ok(Tables(st.human, a))
    else
      Ok(st)
  }

  /** The files of one trial, visited in order; the first KeyError ends the run. */
  function FilesFold(st: Tables, files: seq<HumanAAFile>, player: nat, t: int, step: CellStep): Result<Tables>
    requires IsAnalysedTrial(t)
    decreases |files|
  {
    if |files| == 0 then Ok(st)
    else
      var st' :- FileStep(st, files[0], player, t, step);
      FilesFold(st', files[1..], player, t, step)
  }

  /** Every routed file names a session the dictionaries were created with. */
  predicate FilesKnown(files: seq<HumanAAFile>, player: nat, keys: set<string>)
  {
    forall i :: 0 <= i < |files| && Routed(player, files[i].humanPlayer) ==> files[i].session in keys
  }

  /** A pass over the files fails exactly on a routed file of an unknown session, and keeps the shape. */
  lemma {:induction false} FilesFoldOk(st: Tables, files: seq<HumanAAFile>, player: nat, t: int, step: CellStep, keys: set<string>)
    requires IsAnalysedTrial(t) && Shaped(st, keys)
    ensures FilesFold(st, files, player, t, step).Ok? <==> FilesKnown(files, player, keys)
    ensures FilesFold(st, files, player, t, step).Ok? ==> Shaped(FilesFold(st, files, player, t, step).value, keys)
    decreases |files|
  {
    if |files| > 0 {
      var f := files[0];
      var r := FileStep(st, f, player, t, step);
      assert r.Ok? <==> !Routed(player, f.humanPlayer) || f.session in keys;
      if r.Ok? {
        assert Shaped(r.value, keys);
        FilesFoldOk(r.value, files[1..], player, t, step, keys);
        assert forall i :: 1 <= i < |files| ==> files[i] == files[1..][i - 1];
      }
    }
  }

  /** files[i] is the only file of its session in the list. */
  predicate OnlyFileOf(files: seq<HumanAAFile>, i: nat)
  {
    i < |files| && forall j :: 0 <= j < |files| && files[j].session == files[i].session ==> j == i
  }

  /**
   * The files of trial t leave session s's cell j as it was in both
   * dictionaries when j is another trial's cell or no file belongs to s.
   */
  lemma {:induction false} FilesFoldKeeps(st: Tables, files: seq<HumanAAFile>, player: nat, t: int, step: CellStep,
                                          keys: set<string>, s: string, j: nat)
    requires IsAnalysedTrial(t) && Shaped(st, keys) && s in keys && j < NumTrials
    requires j != TrialIndex(t) || forall k :: 0 <= k < |files| ==> files[k].session != s
    requires FilesFold(st, files, player, t, step).Ok?
    ensures var r := FilesFold(st, files, player, t, step).value;
      s in r.human && s in r.aa && j < |r.human[s]| && j < |r.aa[s]| &&
      r.human[s][j] == st.human[s][j] && r.aa[s][j] == st.aa[s][j]
    decreases |files|
  {
    FilesFoldOk(st, files, player, t, step, keys);
    if |files| > 0 {
      var r := FileStep(st, files[0], player, t, step);
      assert Shaped(r.value, keys);
      assert r.value.human[s][j] == st.human[s][j] && r.value.aa[s][j] == st.aa[s][j];
      FilesFoldKeeps(r.value, files[1..], player, t, step, keys, s, j);
    }
  }

  /**
   * When files[i] is the only file of its session s, the files of trial t
   * change s's cell of trial t once, by the step: in `human_scores` when the
   * pass routes files[i] there, in `AA_scores` when it routes it there.
   */
  lemma {:induction false} FilesFoldOwnCell(st: Tables, files: seq<HumanAAFile>, player: nat, t: int, step: CellStep,
                                            keys: set<string>, i: nat)
    requires IsAnalysedTrial(t) && Shaped(st, keys) && OnlyFileOf(files, i) && files[i].session in keys
    requires FilesFold(st, files, player, t, step).Ok?
    ensures var f, ti, r := files[i], TrialIndex(t), FilesFold(st, files, player, t, step).value;
      f.session in r.human && f.session in r.aa && ti < |r.human[f.session]| && ti < |r.aa[f.session]| &&
      r.human[f.session][ti] == (if HumanHalf(player, f.humanPlayer) then step(f, true, st.human[f.session][ti]) else st.human[f.session][ti]) &&
      r.aa[f.session][ti] == (if AAHalf(player, f.humanPlayer) then step(f, false, st.aa[f.session][ti]) else st.aa[f.session][ti])
    decreases |files|
  {
    var f, ti := files[i], TrialIndex(t);
    var r := FileStep(st, files[0], player, t, step);
    FilesFoldOk(st, files, player, t, step, keys);
    assert Shaped(r.value, keys);
    if i == 0 {
      forall k | 0 <= k < |files[1..]| ensures files[1..][k].session != f.session {
        assert files[1..][k] == files[k + 1];
      }
      FilesFoldKeeps(r.value, files[1..], player, t, step, keys, f.session, ti);
    } else {
      assert files[0].session != f.session;
      assert r.value.human[f.session] == st.human[f.session] && r.value.aa[f.session] == st.aa[f.session];
      assert files[1..][i - 1] == f;
      forall k | 0 <= k < |files[1..]| && files[1..][k].session == f.session ensures k == i - 1 {
        assert files[1..][k] == files[k + 1];
      }
      FilesFoldOwnCell(r.value, files[1..], player, t, step, keys, i - 1);
    }
  }

  /** Every human-AA file of trial t belongs to a session the dictionaries hold. */
  ghost predicate KnownAt(files: Lookup, t: int, keys: set<string>)
  {
    forall i :: 0 <= i < |files(t)| ==> files(t)[i].session in keys
  }

  /** Every human-AA file of every analysed trial belongs to a session the dictionaries hold. */
  ghost predicate AllKnown(files: Lookup, keys: set<string>)
  {
    forall t :: IsAnalysedTrial(t) ==> KnownAt(files, t, keys)
  }

  lemma KnownForPlayer(files: Lookup, t: int, player: nat, keys: set<string>)
    requires player < 2 && Seated(files)
    ensures FilesKnown(files(t), player, keys) <==> KnownAt(files, t, keys)
  {
    forall i | 0 <= i < |files(t)|
      ensures Routed(player, files(t)[i].humanPlayer)
    {
    }
  }

  /** The dictionary's rows in key order. */
  function RowsOf(keys: seq<string>, m: Table): (rows: seq<seq<Float>>)
    requires forall i :: 0 <= i < |keys| ==> keys[i] in m
    ensures |rows| == |keys| && forall i :: 0 <= i < |keys| ==> rows[i] == m[keys[i]]
  {
    seq(|keys|, i requires 0 <= i < |keys| => m[keys[i]])
  }
}
