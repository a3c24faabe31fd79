/**
 * The engagement signals of the human-AA experiment: the same one-hot rows and
 * collapse rule as for human-human data, with the human's columns headed `p0`,
 * the artificial agent's headed `hA0`, and `get_chaser_v2` as the chaser test.
 */
module EngagementHumanAA {
  import opened Common
  import opened Engagement

  /** Herder 0 is the human (`p0`), herder 1 the artificial agent (`hA0`). */
  const HumanAAScheme: Scheme := Scheme("p0", "hA0")

  const Columns: seq<string> :=
    ["time", "TrialID", "numTargs", "p0TA0", "p0TA1", "p0TA2", "p0TA3", "p0TA4",
     "hA0TA0", "hA0TA1", "hA0TA2", "hA0TA3", "hA0TA4"]

  /** The table's 13 columns follow the time, TrialID, numTargs, p0TA0..4, hA0TA0..4 scheme. */
  lemma ColumnsFollowScheme()
    ensures |Columns| == NumColumns
    ensures Columns == PolicyColumns("p0", "hA0")
  {
    var cols := PolicyColumns("p0", "hA0");
    assert NatToString(0) == "0" && NatToString(1) == "1" && NatToString(2) == "2";
    assert NatToString(3) == "3" && NatToString(4) == "4";
    assert forall c :: 0 <= c < NumColumns ==> Columns[c] == cols[c];
  }

  /** `get_actual_Dynamic_Policy_as_csv(trial, trialData)` with `get_chaser_v2` as `chaserV2`. */
  method BuildPolicy(tr: Trial, trial: int, chaserV2: ChaserFn) returns (out: array2<real>)
    requires TargetsPresent(tr)
    ensures fresh(out) && out.Length0 == |tr.steps| && out.Length1 == NumColumns
    ensures forall i, c :: 0 <= i < |tr.steps| && 0 <= c < NumColumns ==> out[i, c] == PolicyCell(tr, trial, chaserV2, i, c)
  {
    out := Engagement.BuildPolicy(tr, trial, chaserV2);
  }

  /** `collapse_actual_dynamic_engagement`: columns p0_engagement and hA0_engagement. */
  method Collapse(policy: array2<real>, tr: Trial) returns (out: array2<real>)
    requires Collapsible(policy, tr, HumanAAScheme)
    ensures fresh(out) && out.Length0 == policy.Length0 && out.Length1 == 5
    ensures forall i, c :: 0 <= i < policy.Length0 && 0 <= c < 3 ==> out[i, c] == policy[i, c]
    ensures forall i :: 0 <= i < policy.Length0 ==>
      out[i, 3] == CollapsedCell(policy, tr, HumanAAScheme, i, 3) &&
      out[i, 4] == CollapsedCell(policy, tr, HumanAAScheme, i, 4)
  {
    out := Engagement.Collapse(policy, tr, HumanAAScheme);
  }

  /**
   * The labels of the human-AA pipeline: -1 exactly when the herder chases no
   * running counted target, j when j is the only target it chases, and the
   * nearest target measured from the herder's own columns (`p0` for the human,
   * `hA0` for the agent) when it chases two or more.
   */
  lemma HumanAALabels(tr: Trial, chaserV2: ChaserFn, i: nat, h: nat, j: nat, a: nat, b: nat)
    requires TargetsPresent(tr) && AgentsPresent(tr, HumanAAScheme) && i < |tr.steps| && h < NumHerders
    ensures var agent := if h == 0 then "p0" else "hA0";
      EngagementLabel(StepFlags(tr, chaserV2, i, h), tr.steps[i], agent, tr.numTargets) == -1 <==>
        forall t :: 0 <= t < MaxTargets ==> !Chases(tr, chaserV2, i, h, t)
    ensures var agent := if h == 0 then "p0" else "hA0";
      Chases(tr, chaserV2, i, h, j) && (forall t :: 0 <= t < MaxTargets && t != j ==> !Chases(tr, chaserV2, i, h, t)) ==>
        EngagementLabel(StepFlags(tr, chaserV2, i, h), tr.steps[i], agent, tr.numTargets) == j
    ensures var agent := if h == 0 then "p0" else "hA0";
      a < b < MaxTargets && Chases(tr, chaserV2, i, h, a) && Chases(tr, chaserV2, i, h, b) ==>
        IsFirstArgMin(Distances(tr.steps[i], agent, tr.numTargets),
                      EngagementLabel(StepFlags(tr, chaserV2, i, h), tr.steps[i], agent, tr.numTargets))
  {
    var agent := if h == 0 then "p0" else "hA0";
    assert agent in tr.steps[i].agents;
    PipelineLabels(tr, chaserV2, agent, i, h, j);
    var flags := StepFlags(tr, chaserV2, i, h);
    if a < b < MaxTargets && Chases(tr, chaserV2, i, h, a) && Chases(tr, chaserV2, i, h, b) {
      LabelSeveral(flags, tr.steps[i], agent, tr.numTargets, a, b);
    }
  }

  // ---------------------------------------------------------------------------
  // File names
  // ---------------------------------------------------------------------------

  /** The two-digit id the trial files are looked up by: `'*trialIdentifier' + "{:02}".format(trial) + '*'`. */
  function LookupId(trial: nat): string
  {
    "trialIdentifier" + TwoDigits(trial)
  }

  /** The output file name: `"trialIdentifier_" + str(trial) + ".csv"`. */
  function OutputName(trial: nat): string
  {
    "trialIdentifier_" + NatToString(trial) + ".csv"
  }

  /**
   * Lookup and output use different spellings of the trial: for the single-digit
   * trials 7..9 the lookup id is zero-padded and the output is not; output names of
   * different trials in 7..24 never coincide.
   */
  lemma NamingDiffers(t: nat, u: nat)
    requires IsAnalysedTrial(t) && IsAnalysedTrial(u)
    ensures t < 10 ==> TwoDigits(t) == "0" + NatToString(t) && TwoDigits(t) != NatToString(t)
    ensures t >= 10 ==> TwoDigits(t) == NatToString(t)
    ensures OutputName(t) == OutputName(u) ==> t == u
  {
    NatToStringLength(t);
    if OutputName(t) == OutputName(u) {
      var p := "trialIdentifier_";
      NatToStringLength(u);
      var st, su := NatToString(t), NatToString(u);
      assert |st| == |su|;
      assert st == OutputName(t)[|p|..|p| + |st|];
      assert su == OutputName(u)[|p|..|p| + |su|];
      NatToStringInjective(t, u);
    }
  }
}
