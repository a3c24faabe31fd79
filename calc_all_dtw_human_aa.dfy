/**
 * The human-AA experiment's copy of the fixed-denominator DTW comparison: the
 * same surrogate matrix and the same `human_scores` / `AA_scores` loops, over
 * the Heuristic human-AA folders only. The script does nothing when its three
 * output files already exist; otherwise it saves the surrogate matrix and then
 * keeps only the "Session1" rows, raising a ValueError when there are none.
 */
module CalcAllDtwHumanAA {
  import opened Common
  import opened ScoreTables
  import Cohorts
  import CalcAllDtw

  /** `AA_types = ["Heuristic"]`. */
  const AATypes: seq<string> := ["Heuristic"]

  /** The heuristic AA and human lists, each divided by 21. */
  datatype Heuristic = Heuristic(aa: seq<seq<Float>>, human: seq<seq<Float>>)

  /**
   * What the script leaves behind: nothing new when the outputs already exist;
   * otherwise the surrogate matrix, which is saved before the heuristic lists
   * are built, and the lists or the ValueError.
   */
  datatype Outcome = Skipped | Computed(team: seq<seq<Float>>, heuristic: Result<Heuristic>)

  /** The heuristic rows of both dictionaries, or the ValueError when no key starts with "Session1". */
  function HeuristicOf(keys: seq<string>, tables: Tables): Result<Heuristic>
    requires forall i :: 0 <= i < |keys| ==> keys[i] in tables.aa && keys[i] in tables.human
  {
    var aa := Cohorts.Members(keys, RowsOf(keys, tables.aa), 0);
    var human := Cohorts.Members(keys, RowsOf(keys, tables.human), 0);
    if |aa| > 0 then Ok(Heuristic(CalcAllDtw.Over21(aa), CalcAllDtw.Over21(human)))
    else Err(EmptyCohort("Session1"))
  }

  /** The whole script; `outputsExist` is the check that all three output files are already there. */
  function Run(hh: seq<Session>, listing: seq<HumanAASession>, names: seq<string>, dtw: CalcAllDtw.Dtw, outputsExist: bool): Result<Outcome>
  {
    if outputsExist then Ok(Skipped)
    else
      var team :- CalcAllDtw.TeamScores(hh, dtw);
      var tables :- CalcAllDtw.AARun(NewTables(names), hh, ExpLookup(listing, AATypes), dtw);
      ExpLookupSeated(listing, AATypes);
      CalcAllDtw.AARunOk(NewTables(names), hh, ExpLookup(listing, AATypes), dtw, KeySet(names));
      var keys := Cohorts.DictKeys(names);
      Ok(Computed(team, HeuristicOf(keys, tables)))
  }

  /** The heuristic lists exist exactly when some session name starts with "Session1". */
  lemma HeuristicOfOk(names: seq<string>, tables: Tables)
    requires forall n :: n in names ==> n in tables.aa && n in tables.human
    ensures var keys := Cohorts.DictKeys(names);
      (forall i :: 0 <= i < |keys| ==> keys[i] in tables.aa && keys[i] in tables.human) &&
      (HeuristicOf(keys, tables).Ok? <==> exists n :: n in names && StartsWith(n, "Session1")) &&
      (HeuristicOf(keys, tables).Err? ==> HeuristicOf(keys, tables).error == EmptyCohort("Session1"))
  {
    var keys := Cohorts.DictKeys(names);
    assert forall i :: 0 <= i < |keys| ==> keys[i] in names;
    var rows := RowsOf(keys, tables.aa);
    Cohorts.HeuristicEmpty(keys, rows);
    Cohorts.DictKeysSession1(names);
  }

  /**
   * Without the skip, the script fails on the same missing files and unknown
   * sessions as the three-type version, over the Heuristic files; the
   * heuristic lists exist exactly when some session name starts with "Session1".
   */
  lemma RunOk(hh: seq<Session>, listing: seq<HumanAASession>, names: seq<string>, dtw: CalcAllDtw.Dtw, outputsExist: bool)
    ensures outputsExist ==> Run(hh, listing, names, dtw, outputsExist) == Ok(Skipped)
    ensures !outputsExist ==> (Run(hh, listing, names, dtw, outputsExist).Ok? <==>
      (forall c :: 0 <= c < |hh| ==> HasAllTrials(hh[c])) && (|hh| > 0 ==> AllKnown(ExpLookup(listing, AATypes), KeySet(names))))
    ensures var r := Run(hh, listing, names, dtw, outputsExist);
      r.Ok? && r.value.Computed? ==>
        r.value.team == CalcAllDtw.TeamRows(hh, dtw) &&
        (r.value.heuristic.Ok? <==> exists n :: n in names && StartsWith(n, "Session1")) &&
        (r.value.heuristic.Err? ==> r.value.heuristic.error == EmptyCohort("Session1"))
  {
    if !outputsExist {
      var files := ExpLookup(listing, AATypes);
      var keys := KeySet(names);
      CalcAllDtw.TeamScoresOk(hh, dtw);
      if CalcAllDtw.TeamScores(hh, dtw).Ok? {
        ExpLookupSeated(listing, AATypes);
        CalcAllDtw.AARunOk(NewTables(names), hh, files, dtw, keys);
        TrialsOkWhenAllPresent(hh, files, keys);
        var r := CalcAllDtw.AARun(NewTables(names), hh, files, dtw);
        if r.Ok? {
          HeuristicOfOk(names, r.value);
        }
      } else {
        assert !(forall c :: 0 <= c < |hh| ==> HasAllTrials(hh[c]));
      }
    }
  }

  /** With every human-human trial file present, the human-AA part fails only on an unknown session. */
  lemma TrialsOkWhenAllPresent(hh: seq<Session>, files: Lookup, keys: set<string>)
    requires forall c :: 0 <= c < |hh| ==> HasAllTrials(hh[c])
    ensures (forall t :: IsAnalysedTrial(t) ==> CalcAllDtw.TrialOk(hh, files, t, keys)) <==> (|hh| > 0 ==> AllKnown(files, keys))
  {
    forall t | IsAnalysedTrial(t) ensures AllHave(hh, t) {
      forall i | 0 <= i < |hh| ensures t in hh[i].files {
      }
    }
  }

  /**
   * Only the Heuristic folders are read: a listing entry of another AA type
   * changes nothing.
   */
  lemma OtherTypesIgnored(hh: seq<Session>, listing: seq<HumanAASession>, other: HumanAASession, names: seq<string>, dtw: CalcAllDtw.Dtw, outputsExist: bool)
    requires other.aaType != "Heuristic"
    ensures Run(hh, listing + [other], names, dtw, outputsExist) == Run(hh, listing, names, dtw, outputsExist)
  {
    var f1, f2 := ExpLookup(listing + [other], AATypes), ExpLookup(listing, AATypes);
    forall u ensures f1(u) == f2(u) {
      ExpFilesIgnoresOtherTypes(listing, AATypes, u, other);
    }
    CalcAllDtw.AARunSameFiles(NewTables(names), hh, f1, f2, dtw);
  }

  /** `__main__`: the skip check, the surrogate matrix, the human-AA dictionaries, then the heuristic lists. */
  method CalcAll(hh: seq<Session>, listing: seq<HumanAASession>, names: seq<string>, dtw: CalcAllDtw.Dtw, outputsExist: bool)
    returns (res: Result<Outcome>)
    ensures res == Run(hh, listing, names, dtw, outputsExist)
  {
    if outputsExist {
      return Ok(Skipped);
    }
    var team := CalcAllDtw.TeamMatrix(hh, dtw);
    if team.Err? {
      return Err(team.error);
    }
    var tables := CalcAllDtw.AAScores(hh, listing, names, AATypes, dtw);
    if tables.Err? {
      return Err(tables.error);
    }
    ExpLookupSeated(listing, AATypes);
    CalcAllDtw.AARunOk(NewTables(names), hh, ExpLookup(listing, AATypes), dtw, KeySet(names));
    var keys := Cohorts.DictKeys(names);
    var heuristic := HeuristicLists(keys, tables.value);
    return Ok(Computed(team.value, heuristic));
  }

  /** The `for session in AA_DTWs.keys()` loop keeping "Session1" rows, then the length check and `/ 21`. */
  method HeuristicLists(keys: seq<string>, tables: Tables) returns (r: Result<Heuristic>)
    requires forall i :: 0 <= i < |keys| ==> keys[i] in tables.aa && keys[i] in tables.human
    ensures r == HeuristicOf(keys, tables)
  {
    var aaRows := RowsOf(keys, tables.aa);
    var humanRows := RowsOf(keys, tables.human);
    var aa := Cohorts.HeuristicOnly(keys, aaRows);
    Cohorts.HeuristicEmpty(keys, aaRows);
    if aa.Err? {
      return Err(aa.error);
    }
    var human, _, _ := Cohorts.Partition(keys, humanRows);
    return Ok(Heuristic(CalcAllDtw.Over21(aa.value), CalcAllDtw.Over21(human)));
  }
}
