/**
 * Engagement signals of the two herders in a trial. Each timestep's target-running
 * flags and chaser flags become a 13-column one-hot row (time, trial, number of
 * targets, five flags for herder 0, five for herder 1). Each herder's five flags
 * are then collapsed into one label: -1 when no flag is set, the flagged target
 * when exactly one is, and the nearest target (first minimum of distance over all
 * targets) when two or more are.
 */
module Engagement {
  import opened Common

  const MaxTargets: nat := 5
  const NumHerders: nat := 2
  const NumColumns: nat := 13

  datatype Point = Point(x: real, z: real)

  /**
   * One row of a trial file: the time stamp, the running flag (`t<j>run`) and
   * position (`t<j>x`, `t<j>z`) of each target, and the positions of the herders
   * keyed by their column prefix (`p0`, `p1`, `hA0`, `hA1`).
   */
  datatype Step = Step(time: real, running: seq<bool>, targets: seq<Point>, agents: map<string, Point>)

  /** A trial file; numTargets is what `get_num_targets(trialData, 5)` reports for it. */
  datatype Trial = Trial(steps: seq<Step>, numTargets: nat)

  /** `get_chaser(row, target)[herder]`: does this herder chase this running target. */
  type ChaserFn = (Step, nat, nat) -> bool

  /** The position columns used for herder 0 and herder 1 when a tie between flags is broken. */
  datatype Scheme = Scheme(head0: string, head1: string)

  /** Human data is read from p0/p1, simulation data from hA0/hA1. */
  function PlayerScheme(simulation: bool): (s: Scheme)
    ensures simulation ==> s == Scheme("hA0", "hA1")
    ensures !simulation ==> s == Scheme("p0", "p1")
  {
    if simulation then Scheme("hA0", "hA1") else Scheme("p0", "p1")
  }

  /** Every row names the running flag and position of each counted target. */
  predicate TargetsPresent(tr: Trial)
  {
    tr.numTargets <= MaxTargets &&
    forall i :: 0 <= i < |tr.steps| ==> |tr.steps[i].running| >= tr.numTargets && |tr.steps[i].targets| >= tr.numTargets
  }

  predicate AgentsPresent(tr: Trial, sc: Scheme)
  {
    forall i :: 0 <= i < |tr.steps| ==> sc.head0 in tr.steps[i].agents && sc.head1 in tr.steps[i].agents
  }

  // ---------------------------------------------------------------------------
  // Distance and the nearest target
  // ---------------------------------------------------------------------------

  /** The square of `dist(X, Y)`; the root itself is not computed. */
  function SqDist(a: Point, b: Point): (d: real)
    ensures d >= 0.0
  {
    (a.x - b.x) * (a.x - b.x) + (a.z - b.z) * (a.z - b.z)
  }

  /** w is `dist(a, b)`: the non-negative root of the squared distance. */
  predicate IsDist(w: real, a: Point, b: Point)
  {
    w >= 0.0 && w * w == SqDist(a, b)
  }

  lemma MulPositive(a: real, b: real)
    requires a > 0.0 && b > 0.0
    ensures a * b > 0.0
  {
  }

  lemma SquareStrict(x: real, y: real)
    requires 0.0 <= x < y
    ensures x * x < y * y
  {
    MulPositive(y - x, y + x);
    assert (y - x) * (y + x) == y * y - x * x;
  }

  lemma RootsAgree(w: real, w': real)
    requires w >= 0.0 && w' >= 0.0 && w * w == w' * w'
    ensures w == w'
  {
    if w < w' {
      SquareStrict(w, w');
    } else if w' < w {
      SquareStrict(w', w);
    }
  }

  /** Non-negative roots order like the values they are roots of. */
  lemma RootsOrder(w: real, a: real, w': real, a': real)
    requires w >= 0.0 && w' >= 0.0 && w * w == a && w' * w' == a'
    ensures w <= w' <==> a <= a'
  {
    if w < w' {
      SquareStrict(w, w');
    } else if w' < w {
      SquareStrict(w', w);
    }
  }

  /** `dist` is non-negative, symmetric, and zero on equal points. */
  lemma DistProperties(w: real, w': real, a: Point, b: Point)
    requires IsDist(w, a, b) && IsDist(w', b, a)
    ensures w >= 0.0
    ensures w == w'
    ensures a == b ==> w == 0.0
  {
    assert SqDist(a, b) == SqDist(b, a);
    RootsAgree(w, w');
    if a == b {
      assert SqDist(a, b) == 0.0 * 0.0;
      RootsAgree(w, 0.0);
    }
  }

  /** j is the index np.argmin returns: a minimum, and the first one. */
  predicate IsFirstArgMin(s: seq<real>, j: int)
  {
    0 <= j < |s| &&
    (forall k :: 0 <= k < |s| ==> s[j] <= s[k]) &&
    (forall k :: 0 <= k < j ==> s[k] > s[j])
  }

  function FirstArgMin(s: seq<real>): (j: nat)
    requires |s| > 0
    ensures IsFirstArgMin(s, j)
  {
    if |s| == 1 then 0
    else
      var init := s[..|s| - 1];
      var j := FirstArgMin(init);
      assert forall k :: 0 <= k < |s| - 1 ==> init[k] == s[k];
      if s[|s| - 1] < s[j] then |s| - 1 else j
  }

  lemma FirstArgMinUnique(s: seq<real>, j: int)
    requires IsFirstArgMin(s, j)
    ensures j == FirstArgMin(s)
  {
    var m := FirstArgMin(s);
  }

  /** Taking the roots of the squared distances does not move the first minimum. */
  lemma ArgMinOfRoots(ds: seq<real>, ws: seq<real>, j: int)
    requires |ds| == |ws|
    requires forall k :: 0 <= k < |ws| ==> ws[k] >= 0.0 && ws[k] * ws[k] == ds[k]
    ensures IsFirstArgMin(ws, j) <==> IsFirstArgMin(ds, j)
  {
    if 0 <= j < |ds| {
      forall k | 0 <= k < |ds|
        ensures ws[j] <= ws[k] <==> ds[j] <= ds[k]
        ensures ws[k] > ws[j] <==> ds[k] > ds[j]
      {
        RootsOrder(ws[j], ds[j], ws[k], ds[k]);
        RootsOrder(ws[k], ds[k], ws[j], ds[j]);
      }
    }
  }

  /** Squared distances from the herder `agent` to each of the first nt targets. */
  function Distances(st: Step, agent: string, nt: nat): (ds: seq<real>)
    requires agent in st.agents && |st.targets| >= nt
    ensures |ds| == nt
    ensures forall j :: 0 <= j < nt ==> ds[j] == SqDist(st.agents[agent], st.targets[j])
  {
    seq(nt, j requires 0 <= j < nt => SqDist(st.agents[agent], st.targets[j]))
  }

  /** The target nearest to the herder, first one on ties. */
  function NearestTarget(st: Step, agent: string, nt: nat): (j: nat)
    requires agent in st.agents && 1 <= nt <= |st.targets|
    ensures j < nt
  {
    FirstArgMin(Distances(st, agent, nt))
  }

  /** `get_closest_HA_TA_pair(trialData, i, agent)`. */
  method ClosestTarget(tr: Trial, i: nat, agent: string) returns (j: nat)
    requires i < |tr.steps| && agent in tr.steps[i].agents
    requires 1 <= tr.numTargets <= |tr.steps[i].targets|
    ensures IsFirstArgMin(Distances(tr.steps[i], agent, tr.numTargets), j)
    ensures j == NearestTarget(tr.steps[i], agent, tr.numTargets)
  {
    var st := tr.steps[i];
    var nt := tr.numTargets;
    var here := st.agents[agent];
    var dists := new real[nt](_ => -1.0);
    for k := 0 to nt
      invariant forall m :: 0 <= m < k ==> dists[m] == SqDist(here, st.targets[m])
    {
      dists[k] := SqDist(here, st.targets[k]);
    }
    assert dists[..] == Distances(st, agent, nt);
    j := 0;
    for k := 1 to nt
      invariant IsFirstArgMin(dists[..k], j)
    {
      if dists[k] < dists[j] {
        j := k;
      }
    }
    assert dists[..nt] == dists[..];
    FirstArgMinUnique(dists[..], j);
  }

  // ---------------------------------------------------------------------------
  // The one-hot policy table
  // ---------------------------------------------------------------------------

  /** `observedOrder[h, t]`: 1 iff t is a counted target that is running and chased by herder h. */
  function Flag(st: Step, chaser: ChaserFn, nt: nat, h: nat, t: nat): (f: int)
    requires t < nt ==> t < |st.running|
    ensures f == 0 || f == 1
    ensures f == 1 <==> t < nt && st.running[t] && chaser(st, t, h)
  {
    if t < nt && st.running[t] && chaser(st, t, h) then 1 else 0
  }

  /** Column c of row i in the output of `get_actual_Dynamic_Policy_as_csv`. */
  function PolicyCell(tr: Trial, trial: int, chaser: ChaserFn, i: nat, c: nat): real
    requires TargetsPresent(tr) && i < |tr.steps| && c < NumColumns
  {
    var st := tr.steps[i];
    if c == 0 then st.time
    else if c == 1 then trial as real
    else if c == 2 then tr.numTargets as real
    else if c < 3 + MaxTargets then Flag(st, chaser, tr.numTargets, 0, c - 3) as real
    else Flag(st, chaser, tr.numTargets, 1, c - 3 - MaxTargets) as real
  }

  /** The 2 x 5 `observedOrder` matrix of one row. */
  method ObservedOrder(st: Step, chaser: ChaserFn, nt: nat) returns (order: array2<int>)
    requires nt <= MaxTargets && |st.running| >= nt
    ensures fresh(order) && order.Length0 == NumHerders && order.Length1 == MaxTargets
    ensures forall h, t :: 0 <= h < NumHerders && 0 <= t < MaxTargets ==> order[h, t] == Flag(st, chaser, nt, h, t)
  {
    order := new int[NumHerders, MaxTargets]((_, _) => 0);
    for t := 0 to nt
      invariant forall h, u :: 0 <= h < NumHerders && 0 <= u < MaxTargets ==>
        order[h, u] == (if u < t then Flag(st, chaser, nt, h, u) else 0)
    {
      if st.running[t] {
        for h := 0 to NumHerders
          invariant forall g, u :: 0 <= g < NumHerders && 0 <= u < MaxTargets ==>
            order[g, u] == (if u < t || (u == t && g < h) then Flag(st, chaser, nt, g, u) else 0)
        {
          if chaser(st, t, h) {
            order[h, t] := 1;
          }
        }
      }
    }
  }

  /** `get_actual_Dynamic_Policy_as_csv(trial, trialData)`: one 13-entry row per input row. */
  method BuildPolicy(tr: Trial, trial: int, chaser: ChaserFn) returns (out: array2<real>)
    requires TargetsPresent(tr)
    ensures fresh(out) && out.Length0 == |tr.steps| && out.Length1 == NumColumns
    ensures forall i, c :: 0 <= i < |tr.steps| && 0 <= c < NumColumns ==> out[i, c] == PolicyCell(tr, trial, chaser, i, c)
  {
    out := new real[|tr.steps|, NumColumns]((_, _) => -1.0);
    for i := 0 to |tr.steps|
      invariant forall r, c :: 0 <= r < i && 0 <= c < NumColumns ==> out[r, c] == PolicyCell(tr, trial, chaser, r, c)
    {
      var st := tr.steps[i];
      var order := ObservedOrder(st, chaser, tr.numTargets);
      out[i, 0] := st.time;
      out[i, 1] := trial as real;
      out[i, 2] := tr.numTargets as real;
      for c := 3 to NumColumns
        invariant forall g, u :: 0 <= g < NumHerders && 0 <= u < MaxTargets ==> order[g, u] == Flag(st, chaser, tr.numTargets, g, u)
        invariant forall r, c' :: 0 <= r < i && 0 <= c' < NumColumns ==> out[r, c'] == PolicyCell(tr, trial, chaser, r, c')
        invariant forall c' :: 0 <= c' < c ==> out[i, c'] == PolicyCell(tr, trial, chaser, i, c')
      {
        out[i, c] := if c < 3 + MaxTargets then order[0, c - 3] as real else order[1, c - 3 - MaxTargets] as real;
      }
    }
  }

  /** Flags are never set for targets beyond numTargets. */
  lemma PolicyRespectsNumTargets(tr: Trial, trial: int, chaser: ChaserFn, i: nat, t: nat)
    requires TargetsPresent(tr) && i < |tr.steps| && tr.numTargets <= t < MaxTargets
    ensures PolicyCell(tr, trial, chaser, i, 3 + t) == 0.0
    ensures PolicyCell(tr, trial, chaser, i, 3 + MaxTargets + t) == 0.0
  {
  }

  /** The column names of the 13-column table whose herders are headed h0 and h1. */
  function PolicyColumns(h0: string, h1: string): (cols: seq<string>)
    ensures |cols| == NumColumns
    ensures cols[..3] == ["time", "TrialID", "numTargs"]
    ensures forall t :: 0 <= t < MaxTargets ==>
      cols[3 + t] == h0 + "TA" + NatToString(t) && cols[3 + MaxTargets + t] == h1 + "TA" + NatToString(t)
  {
    ["time", "TrialID", "numTargs"] +
    seq(MaxTargets, t requires 0 <= t => h0 + "TA" + NatToString(t)) +
    seq(MaxTargets, t requires 0 <= t => h1 + "TA" + NatToString(t))
  }

  const Columns: seq<string> :=
    ["time", "TrialID", "numTargs", "HA0TA0", "HA0TA1", "HA0TA2", "HA0TA3", "HA0TA4",
     "HA1TA0", "HA1TA1", "HA1TA2", "HA1TA3", "HA1TA4"]

  lemma ColumnsFollowScheme()
    ensures Columns == PolicyColumns("HA0", "HA1")
  {
    var cols := PolicyColumns("HA0", "HA1");
    assert NatToString(0) == "0" && NatToString(1) == "1" && NatToString(2) == "2";
    assert NatToString(3) == "3" && NatToString(4) == "4";
    assert forall c :: 0 <= c < NumColumns ==> Columns[c] == cols[c];
  }

  // ---------------------------------------------------------------------------
  // Collapsing the one-hot rows
  // ---------------------------------------------------------------------------

  /** `flags.count(1)`. */
  function CountOnes(flags: seq<real>): (n: nat)
    ensures n <= |flags|
  {
    if |flags| == 0 then 0
    else CountOnes(flags[..|flags| - 1]) + (if flags[|flags| - 1] == 1.0 then 1 else 0)
  }

  /** The first index from `from` on whose flag equals 1, or -1. */
  function FirstOne(flags: seq<real>, from: nat): (j: int)
    decreases |flags| - from
  {
    if from >= |flags| then -1
    else if flags[from] == 1.0 then from
    else FirstOne(flags, from + 1)
  }

  lemma {:induction false} FirstOneSpec(flags: seq<real>, from: nat)
    ensures FirstOne(flags, from) == -1 <==> forall k :: from <= k < |flags| ==> flags[k] != 1.0
    ensures FirstOne(flags, from) != -1 ==>
      from <= FirstOne(flags, from) < |flags| && flags[FirstOne(flags, from)] == 1.0 &&
      forall k :: from <= k < FirstOne(flags, from) ==> flags[k] != 1.0
    decreases |flags| - from
  {
    if from < |flags| && flags[from] != 1.0 {
      FirstOneSpec(flags, from + 1);
    }
  }

  lemma {:induction false} CountOnesZero(flags: seq<real>)
    ensures CountOnes(flags) == 0 <==> forall k :: 0 <= k < |flags| ==> flags[k] != 1.0
  {
    if |flags| > 0 {
      var init := flags[..|flags| - 1];
      CountOnesZero(init);
      assert forall k :: 0 <= k < |init| ==> init[k] == flags[k];
    }
  }

  /** A flag set at two different positions makes the count at least two. */
  lemma {:induction false} CountOnesTwo(flags: seq<real>, a: nat, b: nat)
    requires a < b < |flags| && flags[a] == 1.0 && flags[b] == 1.0
    ensures CountOnes(flags) >= 2
  {
    var init := flags[..|flags| - 1];
    if b < |flags| - 1 {
      CountOnesTwo(init, a, b);
    } else {
      assert init[a] == 1.0;
      CountOnesZero(init);
    }
  }

  /** With one flag position j at most, the count is at most one. */
  lemma {:induction false} CountOnesAtMostOne(flags: seq<real>, j: nat)
    requires j < |flags|
    requires forall k :: 0 <= k < |flags| && k != j ==> flags[k] != 1.0
    ensures CountOnes(flags) <= 1
  {
    var init := flags[..|flags| - 1];
    if |flags| - 1 == j {
      CountOnesZero(init);
    } else {
      CountOnesAtMostOne(init, j);
    }
  }

  /** No flag set beyond the counted targets, as in every table BuildPolicy produces. */
  predicate FlagsWithinTargets(flags: seq<real>, nt: nat)
  {
    forall t :: nt <= t < |flags| ==> flags[t] != 1.0
  }

  /** With no flag beyond position nt, at most nt flags are set. */
  lemma {:induction false} CountOnesBound(flags: seq<real>, nt: nat)
    requires FlagsWithinTargets(flags, nt)
    ensures CountOnes(flags) <= nt
  {
    if |flags| > 0 {
      var init := flags[..|flags| - 1];
      assert forall t :: nt <= t < |init| ==> init[t] == flags[t];
      CountOnesBound(init, nt);
    }
  }

  /**
   * The label the collapse rule gives one herder's five flags: the nearest
   * target when several are flagged, otherwise the flagged target, otherwise -1.
   */
  function EngagementLabel(flags: seq<real>, st: Step, agent: string, nt: nat): (engaged: int)
    requires FlagsWithinTargets(flags, nt)
    requires agent in st.agents && nt <= |st.targets|
    ensures engaged == -1 || 0 <= engaged < nt
  {
    if CountOnes(flags) > 1 then
      CountOnesBound(flags, nt);
      NearestTarget(st, agent, nt)
    else
      FirstOneSpec(flags, 0);
      FirstOne(flags, 0)
  }

  /** The label is -1 exactly when no flag is set. */
  lemma LabelNone(flags: seq<real>, st: Step, agent: string, nt: nat)
    requires FlagsWithinTargets(flags, nt) && agent in st.agents && nt <= |st.targets|
    ensures EngagementLabel(flags, st, agent, nt) == -1 <==> forall k :: 0 <= k < |flags| ==> flags[k] != 1.0
  {
    CountOnesZero(flags);
    FirstOneSpec(flags, 0);
  }

  /** A single flag j gives the label j. */
  lemma LabelSingle(flags: seq<real>, st: Step, agent: string, nt: nat, j: nat)
    requires FlagsWithinTargets(flags, nt) && agent in st.agents && nt <= |st.targets|
    requires j < |flags| && flags[j] == 1.0
    requires forall k :: 0 <= k < |flags| && k != j ==> flags[k] != 1.0
    ensures EngagementLabel(flags, st, agent, nt) == j
  {
    FirstOneSpec(flags, 0);
    CountOnesAtMostOne(flags, j);
  }

  /** Two or more flags give the nearest of all nt targets, flagged or not. */
  lemma LabelSeveral(flags: seq<real>, st: Step, agent: string, nt: nat, a: nat, b: nat)
    requires FlagsWithinTargets(flags, nt) && agent in st.agents && nt <= |st.targets|
    requires a < b < |flags| && flags[a] == 1.0 && flags[b] == 1.0
    ensures 2 <= nt
    ensures EngagementLabel(flags, st, agent, nt) == NearestTarget(st, agent, nt)
    ensures IsFirstArgMin(Distances(st, agent, nt), EngagementLabel(flags, st, agent, nt))
  {
    CountOnesTwo(flags, a, b);
    CountOnesBound(flags, nt);
  }

  /** Two flagged targets 0 and 1, yet the unflagged target 2 is nearest and wins. */
  lemma NearestMayBeUnflagged()
    ensures EngagementLabel([1.0, 1.0, 0.0, 0.0, 0.0],
                            Step(0.0, [true, true, true], [Point(10.0, 0.0), Point(0.0, 10.0), Point(1.0, 1.0)], map["p0" := Point(0.0, 0.0)]),
                            "p0", 3) == 2
  {
    var st := Step(0.0, [true, true, true], [Point(10.0, 0.0), Point(0.0, 10.0), Point(1.0, 1.0)], map["p0" := Point(0.0, 0.0)]);
    var ds := Distances(st, "p0", 3);
    assert ds == [100.0, 100.0, 2.0];
    assert IsFirstArgMin(ds, 2);
    FirstArgMinUnique(ds, 2);
    LabelSeveral([1.0, 1.0, 0.0, 0.0, 0.0], st, "p0", 3, 0, 1);
  }

  /** The five flags of herder h in row i of a policy table. */
  function RowFlags(policy: array2<real>, i: nat, h: nat): (flags: seq<real>)
    requires policy.Length1 == NumColumns && i < policy.Length0 && h < NumHerders
    reads policy
    ensures |flags| == MaxTargets
    ensures forall t :: 0 <= t < MaxTargets ==> flags[t] == policy[i, 3 + h * MaxTargets + t]
  {
    seq(MaxTargets, t requires 0 <= t < MaxTargets reads policy => policy[i, 3 + h * MaxTargets + t])
  }

  /** Column c holds a flag for a target at or beyond nt. */
  predicate IsUncountedFlag(c: nat, nt: nat)
  {
    (3 + nt <= c < 3 + MaxTargets) || (3 + MaxTargets + nt <= c < NumColumns)
  }

  /** The table's flags respect numTargets in every row. */
  predicate PolicyWithinTargets(policy: array2<real>, nt: nat)
    reads policy
  {
    forall i, c :: 0 <= i < policy.Length0 && 0 <= c < policy.Length1 && IsUncountedFlag(c, nt) ==> policy[i, c] != 1.0
  }

  lemma RowWithinTargets(policy: array2<real>, nt: nat, i: nat, h: nat)
    requires policy.Length1 == NumColumns && i < policy.Length0 && h < NumHerders
    requires PolicyWithinTargets(policy, nt)
    ensures FlagsWithinTargets(RowFlags(policy, i, h), nt)
  {
    var flags := RowFlags(policy, i, h);
    forall t | nt <= t < |flags|
      ensures flags[t] != 1.0
    {
      assert IsUncountedFlag(3 + h * MaxTargets + t, nt);
    }
  }

  /** Preconditions under which a policy table can be collapsed against its trial. */
  predicate Collapsible(policy: array2<real>, tr: Trial, sc: Scheme)
    reads policy
  {
    policy.Length1 == NumColumns && policy.Length0 <= |tr.steps| &&
    TargetsPresent(tr) && AgentsPresent(tr, sc) && PolicyWithinTargets(policy, tr.numTargets)
  }

  /** Cell (i, c) of the collapsed table: time, TrialID, numTargs, then one label per herder. */
  function CollapsedCell(policy: array2<real>, tr: Trial, sc: Scheme, i: nat, c: nat): real
    requires Collapsible(policy, tr, sc) && i < policy.Length0 && c < 5
    reads policy
  {
    if c < 3 then policy[i, c]
    else
      var h := c - 3;
      RowWithinTargets(policy, tr.numTargets, i, h);
      EngagementLabel(RowFlags(policy, i, h), tr.steps[i], if h == 0 then sc.head0 else sc.head1, tr.numTargets) as real
  }

  /** One herder's branch of `collapse_actual_dynamic_engagement` for row idx. */
  method CollapseHerder(policy: array2<real>, idx: nat, h: nat, tr: Trial, sc: Scheme) returns (engaged: int)
    requires Collapsible(policy, tr, sc) && idx < policy.Length0 && h < NumHerders
    ensures engaged as real == CollapsedCell(policy, tr, sc, idx, 3 + h)
  {
    var agent := if h == 0 then sc.head0 else sc.head1;
    RowWithinTargets(policy, tr.numTargets, idx, h);
    var flags := RowFlags(policy, idx, h);
    var base := 3 + h * MaxTargets;
    assert forall k :: 0 <= k < MaxTargets ==> flags[k] == policy[idx, base + k];
    FirstOneSpec(flags, 0);
    assert CollapsedCell(policy, tr, sc, idx, 3 + h) == EngagementLabel(flags, tr.steps[idx], agent, tr.numTargets) as real;
    engaged := -1;
    if CountOnes(flags) > 1 {
      CountOnesBound(flags, tr.numTargets);
      engaged := ClosestTarget(tr, idx, agent);
    } else if policy[idx, base] == 1.0 {
      assert flags[0] == 1.0;
      engaged := 0;
    } else if policy[idx, base + 1] == 1.0 {
      assert flags[1] == 1.0 && forall m :: 0 <= m < 1 ==> flags[m] != 1.0;
      engaged := 1;
    } else if policy[idx, base + 2] == 1.0 {
      assert flags[2] == 1.0 && forall m :: 0 <= m < 2 ==> flags[m] != 1.0;
      engaged := 2;
    } else if policy[idx, base + 3] == 1.0 {
      assert flags[3] == 1.0 && forall m :: 0 <= m < 3 ==> flags[m] != 1.0;
      engaged := 3;
    } else if policy[idx, base + 4] == 1.0 {
      assert flags[4] == 1.0 && forall m :: 0 <= m < 4 ==> flags[m] != 1.0;
      engaged := 4;
    }
  }

  /**
   * `collapse_actual_dynamic_engagement(policy, trialData)`: a 5-column table
   * (time, TrialID, numTargs, herder 0 label, herder 1 label) with one row per
   * policy row; the two herders are collapsed independently.
   */
  method Collapse(policy: array2<real>, tr: Trial, sc: Scheme) returns (out: array2<real>)
    requires Collapsible(policy, tr, sc)
    ensures fresh(out) && out.Length0 == policy.Length0 && out.Length1 == 5
    ensures forall i, c :: 0 <= i < policy.Length0 && 0 <= c < 5 ==> out[i, c] == CollapsedCell(policy, tr, sc, i, c)
  {
    out := CopyHeader(policy);
    for idx := 0 to policy.Length0
      invariant forall r, c :: 0 <= r < policy.Length0 && 0 <= c < 3 ==> out[r, c] == policy[r, c]
      invariant forall r :: 0 <= r < idx ==>
        out[r, 3] == CollapsedCell(policy, tr, sc, r, 3) && out[r, 4] == CollapsedCell(policy, tr, sc, r, 4)
    {
      var l0 := CollapseHerder(policy, idx, 0, tr, sc);
      var l1 := CollapseHerder(policy, idx, 1, tr, sc);
      SetLabels(out, idx, l0 as real, l1 as real);
    }
  }

  /** Writes the two herder labels of row idx. */
  method SetLabels(out: array2<real>, idx: nat, l0: real, l1: real)
    requires idx < out.Length0 && out.Length1 == 5
    modifies out
    ensures out[idx, 3] == l0 && out[idx, 4] == l1
    ensures forall r, c :: 0 <= r < out.Length0 && 0 <= c < 5 && (r != idx || c < 3) ==> out[r, c] == old(out[r, c])
  {
    out[idx, 3] := l0;
    out[idx, 4] := l1;
  }

  /** The column copies and the -1 defaults that open `collapse_actual_dynamic_engagement`. */
  method CopyHeader(policy: array2<real>) returns (out: array2<real>)
    requires policy.Length1 == NumColumns
    ensures fresh(out) && out.Length0 == policy.Length0 && out.Length1 == 5
    ensures forall r, c :: 0 <= r < policy.Length0 && 0 <= c < 3 ==> out[r, c] == policy[r, c]
    ensures forall r :: 0 <= r < policy.Length0 ==> out[r, 3] == -1.0 && out[r, 4] == -1.0
  {
    var n := policy.Length0;
    out := new real[n, 5]((_, _) => 0.0);
    for i := 0 to n
      invariant forall r, c :: 0 <= r < i && 0 <= c < 3 ==> out[r, c] == policy[r, c]
      invariant forall r :: 0 <= r < i ==> out[r, 3] == -1.0 && out[r, 4] == -1.0
    {
      out[i, 0] := policy[i, 0];
      out[i, 1] := policy[i, 1];
      out[i, 2] := policy[i, 2];
      out[i, 3] := -1.0;
      out[i, 4] := -1.0;
    }
  }

  /** The flags BuildPolicy writes for herder h in row i. */
  function StepFlags(tr: Trial, chaser: ChaserFn, i: nat, h: nat): (flags: seq<real>)
    requires TargetsPresent(tr) && i < |tr.steps|
    ensures |flags| == MaxTargets
    ensures FlagsWithinTargets(flags, tr.numTargets)
    ensures forall t :: 0 <= t < MaxTargets ==> flags[t] == Flag(tr.steps[i], chaser, tr.numTargets, h, t) as real
  {
    seq(MaxTargets, t requires 0 <= t < MaxTargets => Flag(tr.steps[i], chaser, tr.numTargets, h, t) as real)
  }

  /** Herder h chases target t, a running counted target, at row i. */
  predicate Chases(tr: Trial, chaser: ChaserFn, i: nat, h: nat, t: nat)
    requires TargetsPresent(tr) && i < |tr.steps|
  {
    t < tr.numTargets && tr.steps[i].running[t] && chaser(tr.steps[i], t, h)
  }

  /**
   * Over the whole pipeline: a herder is labelled -1 exactly when it chases no
   * running counted target, and labelled j when j is the only one it chases.
   */
  lemma PipelineLabels(tr: Trial, chaser: ChaserFn, agent: string, i: nat, h: nat, j: nat)
    requires TargetsPresent(tr) && i < |tr.steps| && agent in tr.steps[i].agents
    ensures EngagementLabel(StepFlags(tr, chaser, i, h), tr.steps[i], agent, tr.numTargets) == -1 <==>
            forall t :: 0 <= t < MaxTargets ==> !Chases(tr, chaser, i, h, t)
    ensures Chases(tr, chaser, i, h, j) && (forall t :: 0 <= t < MaxTargets && t != j ==> !Chases(tr, chaser, i, h, t)) ==>
            EngagementLabel(StepFlags(tr, chaser, i, h), tr.steps[i], agent, tr.numTargets) == j
  {
    var flags := StepFlags(tr, chaser, i, h);
    assert forall t :: 0 <= t < MaxTargets ==> (flags[t] == 1.0 <==> Chases(tr, chaser, i, h, t));
    LabelNone(flags, tr.steps[i], agent, tr.numTargets);
    if Chases(tr, chaser, i, h, j) && (forall t :: 0 <= t < MaxTargets && t != j ==> !Chases(tr, chaser, i, h, t)) {
      LabelSingle(flags, tr.steps[i], agent, tr.numTargets, j);
    }
  }

  /** The table BuildPolicy produces holds StepFlags in every row and respects numTargets. */
  lemma BuiltRowsAreStepFlags(tr: Trial, trial: int, chaser: ChaserFn, policy: array2<real>, i: nat, h: nat)
    requires TargetsPresent(tr) && i < |tr.steps| && h < NumHerders
    requires policy.Length0 == |tr.steps| && policy.Length1 == NumColumns
    requires forall r, c :: 0 <= r < |tr.steps| && 0 <= c < NumColumns ==> policy[r, c] == PolicyCell(tr, trial, chaser, r, c)
    ensures RowFlags(policy, i, h) == StepFlags(tr, chaser, i, h)
    ensures PolicyWithinTargets(policy, tr.numTargets)
  {
    forall t | 0 <= t < MaxTargets
      ensures RowFlags(policy, i, h)[t] == StepFlags(tr, chaser, i, h)[t]
    {
      var c := 3 + h * MaxTargets + t;
      assert policy[i, c] == PolicyCell(tr, trial, chaser, i, c);
    }
  }
}
