/**
 * The iteration order of the scoring scripts' nested loops
 * `for evaluee: for player in (0, 1): for trial in range(7, 25)`, flattened into
 * one numbered schedule. The loops over (player, trial) alone are the first 36
 * entries, those of evaluee 0.
 */
module Passes {
  import opened Common

  /** One iteration of the nested loops: evaluee index, player and trial. */
  datatype Pass = Pass(evaluee: nat, player: nat, trial: int)

  /**
   * The k-th iteration of `for evaluee: for player in [0, 1]: for trial in range(7, 25)`:
   * each evaluee makes 36 iterations, 18 trials for each of the two players.
   */
  function PassAt(k: nat): (p: Pass)
    ensures p.player < 2 && IsAnalysedTrial(p.trial)
    ensures p.evaluee == k / 36
  {
    Pass(k / 36, (k % 36) / 18, FirstTrial + k % 18)
  }

  /** Quotient and remainder of c * 36 + r by 36. */
  lemma Split36(c: nat, r: nat)
    requires r < 36
    ensures (c * 36 + r) / 36 == c && (c * 36 + r) % 36 == r
  {
  }

  /** Quotient and remainder of q * 18 + r by 18. */
  lemma Split18(q: nat, r: nat)
    requires r < 18
    ensures (q * 18 + r) / 18 == q && (q * 18 + r) % 18 == r
  {
  }

  /** Iteration (c, player, trial) is number c * 36 + player * 18 + (trial - 7). */
  lemma PassIndex(c: nat, player: nat, t: int)
    requires player < 2 && IsAnalysedTrial(t)
    ensures PassAt(c * 36 + player * 18 + TrialIndex(t)) == Pass(c, player, t)
  {
    var i := TrialIndex(t);
    var k := c * 36 + player * 18 + i;
    Split36(c, player * 18 + i);
    Split18(player, i);
    Split18(2 * c + player, i);
    assert k == (2 * c + player) * 18 + i;
  }

  /** All iterations over n evaluees, in loop order. */
  function Schedule(n: nat): (ps: seq<Pass>)
    ensures |ps| == n * 36
    ensures forall k :: 0 <= k < |ps| ==> ps[k].evaluee < n && ps[k].player < 2 && IsAnalysedTrial(ps[k].trial)
  {
    seq(n * 36, (k: int) requires 0 <= k => PassAt(k))
  }

  /** Every evaluee, player and trial is visited. */
  lemma ScheduleCovers(n: nat, c: nat, player: nat, t: int)
    requires c < n && player < 2 && IsAnalysedTrial(t)
    ensures Pass(c, player, t) in Schedule(n)
  {
    PassIndex(c, player, t);
    assert Schedule(n)[c * 36 + player * 18 + TrialIndex(t)] == Pass(c, player, t);
  }

  /** The inner loop `for trial in range(7, 25)` of evaluee c for one player. */
  function Sweep(c: nat, player: nat): (ps: seq<Pass>)
    ensures |ps| == NumTrials
    ensures forall i :: 0 <= i < NumTrials ==> ps[i] == Pass(c, player, FirstTrial + i)
  {
    seq(NumTrials, (i: int) => Pass(c, player, FirstTrial + i))
  }

  /** One more evaluee appends its player-0 sweep and then its player-1 sweep. */
  lemma ScheduleNext(n: nat)
    ensures Schedule(n + 1) == Schedule(n) + Sweep(n, 0) + Sweep(n, 1)
  {
    var a, b := Schedule(n + 1), Schedule(n) + Sweep(n, 0) + Sweep(n, 1);
    forall k | 0 <= k < |a| ensures a[k] == b[k] {
      if n * 36 <= k < n * 36 + 18 {
        PassIndex(n, 0, FirstTrial + (k - n * 36));
      } else if n * 36 + 18 <= k {
        PassIndex(n, 1, FirstTrial + (k - n * 36 - 18));
      }
    }
  }
}
