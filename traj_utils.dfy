/**
 * The occupancy grid behind the binary trace score: pooled (x, z) samples are
 * binned into a 24 x 18 histogram over [-60, 60] x [-45, 45] with 5-unit bins,
 * the histogram is transposed and its rows reversed, square-rooted and
 * thresholded at 10; the resulting mask is handed, with the trajectory under
 * test, to the external `trace` scorer.
 */
module TrajUtils {
  import opened Common

  const BinSize: int := 5
  const XLim: int := 60
  const ZLim: int := 45
  const Threshold: int := 10

  /** `int(120 / bin_size)` x-bins and `int(90 / bin_size)` z-bins. */
  const NumXBins: nat := 24
  const NumZBins: nat := 18

  datatype Sample = Sample(x: real, z: real)

  // ---------------------------------------------------------------------------
  // Binning (numpy histogram2d with an explicit range)
  // ---------------------------------------------------------------------------

  /**
   * Reference definition of the i-th of n equal bins of width 5 over [-lim, lim]:
   * half-open [lo, lo + 5), except that the last bin also holds the right edge.
   */
  predicate InBin(v: real, lim: int, n: nat, i: nat)
  {
    var lo := -lim as real + (BinSize * i) as real;
    i < n && lo <= v && (v < lo + BinSize as real || (i == n - 1 && v == lim as real))
  }

  /** The bin numpy assigns to v; None when v lies outside [-lim, lim]. */
  function BinIndex(v: real, lim: int, n: nat): (b: Option<nat>)
    requires n > 0 && lim * 2 == BinSize * n
    ensures b.Some? <==> -lim as real <= v <= lim as real
    ensures b.Some? ==> b.value < n
  {
    if v < -lim as real || v > lim as real then None
    else if v == lim as real then Some(n - 1)
    else
      var i := ((v + lim as real) / BinSize as real).Floor;
      assert 0 <= i;
      assert (i as real) * (BinSize as real) <= v + lim as real;
      Some(i as nat)
  }

  /** Every in-range value lies in exactly the bin BinIndex names, and in no other. */
  lemma BinIndexIsTheBin(v: real, lim: int, n: nat, i: nat)
    requires n > 0 && lim * 2 == BinSize * n
    ensures InBin(v, lim, n, i) <==> BinIndex(v, lim, n) == Some(i)
  {
    var lo := -lim as real + (BinSize * i) as real;
    if i < n {
      assert BinSize * (i + 1) <= BinSize * n;
      assert lo + BinSize as real <= lim as real;
    }
    if -lim as real <= v < lim as real {
      var k := ((v + lim as real) / BinSize as real).Floor;
      assert k as real <= (v + lim as real) / 5.0 < k as real + 1.0;
      assert (i as real) <= (v + lim as real) / 5.0 < i as real + 1.0 ==> k == i;
    }
  }

  lemma RightEdgeIsLastBin()
    ensures BinIndex(XLim as real, XLim, NumXBins) == Some(NumXBins - 1)
    ensures BinIndex(ZLim as real, ZLim, NumZBins) == Some(NumZBins - 1)
    ensures BinIndex(-XLim as real, XLim, NumXBins) == Some(0)
  {
  }

  /** The histogram cell (x-bin, z-bin) of a sample, if it is inside the grid. */
  function CellOf(p: Sample): (c: Option<(nat, nat)>)
    ensures c.Some? <==> -60.0 <= p.x <= 60.0 && -45.0 <= p.z <= 45.0
    ensures c.Some? ==> c.value.0 < NumXBins && c.value.1 < NumZBins
  {
    var bx := BinIndex(p.x, XLim, NumXBins);
    var bz := BinIndex(p.z, ZLim, NumZBins);
    if bx.Some? && bz.Some? then Some((bx.value, bz.value)) else None
  }

  predicate InRange(p: Sample) { CellOf(p).Some? }

  // ---------------------------------------------------------------------------
  // Histogram
  // ---------------------------------------------------------------------------

  /** How many samples fall in cell (cx, cz). */
  function Count(s: seq<Sample>, cx: nat, cz: nat): nat
  {
    if |s| == 0 then 0
    else Count(s[..|s| - 1], cx, cz) + (if CellOf(s[|s| - 1]) == Some((cx, cz)) then 1 else 0)
  }

  /** How many samples fall anywhere in the grid. */
  function InRangeCount(s: seq<Sample>): nat
  {
    if |s| == 0 then 0
    else InRangeCount(s[..|s| - 1]) + (if InRange(s[|s| - 1]) then 1 else 0)
  }

  /** `h` of `np.histogram2d(x, z, bins=(24, 18), range=((-60, 60), (-45, 45)))`. */
  function Histogram(s: seq<Sample>): (h: seq<seq<nat>>)
    ensures |h| == NumXBins
    ensures forall cx :: 0 <= cx < NumXBins ==> |h[cx]| == NumZBins
    ensures forall cx, cz :: 0 <= cx < NumXBins && 0 <= cz < NumZBins ==> h[cx][cz] == Count(s, cx, cz)
  {
    seq(NumXBins, cx requires 0 <= cx => seq(NumZBins, cz requires 0 <= cz => Count(s, cx, cz)))
  }

  lemma {:induction false} CountConcat(a: seq<Sample>, b: seq<Sample>, cx: nat, cz: nat)
    ensures Count(a + b, cx, cz) == Count(a, cx, cz) + Count(b, cx, cz)
  {
    if |b| == 0 {
      assert a + b == a;
    } else {
      assert (a + b)[..|a + b| - 1] == a + b[..|b| - 1];
      CountConcat(a, b[..|b| - 1], cx, cz);
    }
  }

  /** Sum of column cx of the histogram over its first k z-bins. */
  function ColumnTotal(s: seq<Sample>, cx: nat, k: nat): nat
  {
    if k == 0 then 0 else ColumnTotal(s, cx, k - 1) + Count(s, cx, k - 1)
  }

  /** Sum of the first j columns of the histogram. */
  function GridTotal(s: seq<Sample>, j: nat): nat
  {
    if j == 0 then 0 else GridTotal(s, j - 1) + ColumnTotal(s, j - 1, NumZBins)
  }

  /** The sum of all histogram entries. */
  function TotalCount(s: seq<Sample>): nat
  {
    GridTotal(s, NumXBins)
  }

  lemma {:induction false} ColumnTotalAppend(s: seq<Sample>, p: Sample, cx: nat, k: nat)
    ensures ColumnTotal(s + [p], cx, k) ==
            ColumnTotal(s, cx, k) + (if CellOf(p).Some? && CellOf(p).value.0 == cx && CellOf(p).value.1 < k then 1 else 0)
  {
    if k > 0 {
      ColumnTotalAppend(s, p, cx, k - 1);
      assert (s + [p])[..|s|] == s;
    }
  }

  lemma {:induction false} GridTotalAppend(s: seq<Sample>, p: Sample, j: nat)
    ensures GridTotal(s + [p], j) ==
            GridTotal(s, j) + (if CellOf(p).Some? && CellOf(p).value.0 < j then 1 else 0)
  {
    if j > 0 {
      GridTotalAppend(s, p, j - 1);
      ColumnTotalAppend(s, p, j - 1, NumZBins);
    }
  }

  lemma {:induction false} GridTotalEmpty(j: nat)
    ensures GridTotal([], j) == 0
  {
    if j > 0 {
      GridTotalEmpty(j - 1);
      ColumnTotalEmpty(j - 1, NumZBins);
    }
  }

  lemma {:induction false} ColumnTotalEmpty(cx: nat, k: nat)
    ensures ColumnTotal([], cx, k) == 0
  {
    if k > 0 {
      ColumnTotalEmpty(cx, k - 1);
    }
  }

  /**
   * Each in-range sample increments exactly one bin and an out-of-range sample
   * none, so the histogram's total is the number of in-range samples.
   */
  lemma {:induction false} TotalIsInRangeCount(s: seq<Sample>)
    ensures TotalCount(s) == InRangeCount(s)
  {
    if |s| > 0 {
      var init := s[..|s| - 1];
      TotalIsInRangeCount(init);
      var p := s[|s| - 1];
      assert s == init + [p];
      GridTotalAppend(init, p, NumXBins);
      assert TotalCount(s) == GridTotal(init + [p], NumXBins);
      assert InRangeCount(s) == InRangeCount(init) + (if InRange(p) then 1 else 0);
      assert TotalCount(init) == GridTotal(init, NumXBins);
      assert InRange(p) <==> (CellOf(p).Some? && CellOf(p).value.0 < NumXBins);
    } else {
      assert s == [];
      GridTotalEmpty(NumXBins);
    }
  }

  /** Taking the matching sample p out of t leaves what is left of s plus p equal, as a multiset. */
  lemma RemoveMatching(init: seq<Sample>, p: Sample, t: seq<Sample>, k: nat)
    requires k < |t| && t[k] == p && multiset(init + [p]) == multiset(t)
    ensures multiset(init) == multiset(t[..k] + t[k + 1..])
  {
    var rest := t[..k] + t[k + 1..];
    assert t == t[..k] + [p] + t[k + 1..];
    assert multiset(t) == multiset(t[..k]) + multiset{p} + multiset(t[k + 1..]);
    assert multiset(init + [p]) == multiset(init) + multiset{p};
    assert multiset(rest) == multiset(t[..k]) + multiset(t[k + 1..]);
    assert multiset(init) + multiset{p} == multiset(rest) + multiset{p};
    forall x
      ensures multiset(init)[x] == multiset(rest)[x]
    {
      assert (multiset(init) + multiset{p})[x] == multiset(init)[x] + multiset{p}[x];
      assert (multiset(rest) + multiset{p})[x] == multiset(rest)[x] + multiset{p}[x];
    }
  }

  /** Taking sample k out of t takes its own contribution out of every histogram entry. */
  lemma CountRemove(t: seq<Sample>, k: nat, cx: nat, cz: nat)
    requires k < |t|
    ensures Count(t, cx, cz) == Count(t[..k] + t[k + 1..], cx, cz) + Count([t[k]], cx, cz)
  {
    var p := t[k];
    assert t == (t[..k] + [p]) + t[k + 1..];
    CountConcat(t[..k], t[k + 1..], cx, cz);
    CountConcat(t[..k] + [p], t[k + 1..], cx, cz);
    CountConcat(t[..k], [p], cx, cz);
  }

  /** Reordering the pooled samples leaves every histogram entry unchanged. */
  lemma {:induction false} CountDependsOnMultiset(s: seq<Sample>, t: seq<Sample>, cx: nat, cz: nat)
    requires multiset(s) == multiset(t)
    ensures Count(s, cx, cz) == Count(t, cx, cz)
    decreases |s|
  {
    if |s| > 0 {
      var p := s[|s| - 1];
      var init := s[..|s| - 1];
      assert s == init + [p];
      assert p in multiset(t);
      var k :| 0 <= k < |t| && t[k] == p;
      RemoveMatching(init, p, t, k);
      CountDependsOnMultiset(init, t[..k] + t[k + 1..], cx, cz);
      CountRemove(t, k, cx, cz);
      CountConcat(init, [p], cx, cz);
    } else {
      assert |t| == 0;
    }
  }

  // ---------------------------------------------------------------------------
  // Weighted and binary heat maps
  // ---------------------------------------------------------------------------

  function Transpose<T>(m: seq<seq<T>>, cols: nat): (t: seq<seq<T>>)
    requires forall i :: 0 <= i < |m| ==> |m[i]| == cols
    ensures |t| == cols
    ensures forall j :: 0 <= j < cols ==> |t[j]| == |m|
    ensures forall j, i :: 0 <= j < cols && 0 <= i < |m| ==> t[j][i] == m[i][j]
  {
    seq(cols, j requires 0 <= j < cols => seq(|m|, i requires 0 <= i < |m| => m[i][j]))
  }

  function ReverseRows<T>(m: seq<seq<T>>): (r: seq<seq<T>>)
    ensures |r| == |m|
    ensures forall i :: 0 <= i < |m| ==> r[i] == m[|m| - 1 - i]
  {
    seq(|m|, i requires 0 <= i < |m| => m[|m| - 1 - i])
  }

  /** `h.T[::-1]`: an 18 x 24 count map whose row 0 is the highest z band. */
  function FlippedCounts(s: seq<Sample>): (w: seq<seq<nat>>)
    ensures |w| == NumZBins
    ensures forall r :: 0 <= r < NumZBins ==> |w[r]| == NumXBins
    ensures forall r, c :: 0 <= r < NumZBins && 0 <= c < NumXBins ==> w[r][c] == Histogram(s)[c][NumZBins - 1 - r]
  {
    ReverseRows(Transpose(Histogram(s), NumZBins))
  }

  /** w is `np.sqrt` of the count map cs, entry by entry. */
  ghost predicate IsSqrtMap(w: seq<seq<real>>, cs: seq<seq<nat>>)
  {
    |w| == |cs| &&
    forall r :: 0 <= r < |w| ==>
      (|w[r]| == |cs[r]| &&
       forall c :: 0 <= c < |w[r]| ==> w[r][c] >= 0.0 && w[r][c] * w[r][c] == cs[r][c] as real)
  }

  /** For a non-negative root w of a count c: w > 10 exactly when c > 100. */
  lemma SqrtThreshold(w: real, c: nat)
    requires w >= 0.0 && w * w == c as real
    ensures w > Threshold as real <==> c > Threshold * Threshold
  {
    if w > 10.0 {
      assert w * w > 10.0 * w >= 100.0;
    } else {
      assert w * w <= 10.0 * w <= 100.0;
    }
  }

  /** `np.sqrt(h.T[::-1]) > threshold`, computed on integer counts. */
  function Mask(s: seq<Sample>): (m: seq<seq<bool>>)
    ensures |m| == NumZBins
    ensures forall r :: 0 <= r < NumZBins ==> |m[r]| == NumXBins
  {
    var cs := FlippedCounts(s);
    seq(NumZBins, r requires 0 <= r < NumZBins => seq(NumXBins, c requires 0 <= c < NumXBins => cs[r][c] > Threshold * Threshold))
  }

  /** A mask cell is visited iff its bin, in transposed and flipped position, holds more than 100 samples. */
  lemma MaskCell(s: seq<Sample>, r: nat, c: nat)
    requires r < NumZBins && c < NumXBins
    ensures Mask(s)[r][c] <==> Count(s, c, NumZBins - 1 - r) > 100
  {
  }

  /** The mask agrees with thresholding the square-rooted (weighted) heat map at 10. */
  lemma MaskIsThresholdedSqrt(s: seq<Sample>, w: seq<seq<real>>)
    requires IsSqrtMap(w, FlippedCounts(s))
    ensures forall r, c :: 0 <= r < NumZBins && 0 <= c < NumXBins ==> (Mask(s)[r][c] <==> w[r][c] > Threshold as real)
  {
    forall r, c | 0 <= r < NumZBins && 0 <= c < NumXBins
      ensures Mask(s)[r][c] <==> w[r][c] > Threshold as real
    {
      SqrtThreshold(w[r][c], FlippedCounts(s)[r][c]);
    }
  }

  /** The mask depends only on the multiset of pooled samples. */
  lemma MaskIgnoresOrder(s: seq<Sample>, t: seq<Sample>)
    requires multiset(s) == multiset(t)
    ensures Mask(s) == Mask(t)
  {
    forall r, c | 0 <= r < NumZBins && 0 <= c < NumXBins
      ensures Mask(s)[r][c] == Mask(t)[r][c]
    {
      CountDependsOnMultiset(s, t, c, NumZBins - 1 - r);
    }
    assert forall r :: 0 <= r < NumZBins ==> Mask(s)[r] == Mask(t)[r];
  }

  /** Adding samples to the pool never clears a visited cell. */
  lemma MaskMonotone(s: seq<Sample>, extra: seq<Sample>, r: nat, c: nat)
    requires r < NumZBins && c < NumXBins
    requires Mask(s)[r][c]
    ensures Mask(s + extra)[r][c]
  {
    CountConcat(s, extra, c, NumZBins - 1 - r);
  }

  lemma {:induction false} CountRepeated(p: Sample, n: nat)
    requires CellOf(p).Some?
    ensures Count(seq(n, _ => p), CellOf(p).value.0, CellOf(p).value.1) == n
  {
    if n > 0 {
      assert seq(n, _ => p)[..n - 1] == seq(n - 1, _ => p);
      CountRepeated(p, n - 1);
    }
  }

  /** 101 samples at the field centre light mask cell (8, 12); 100 do not. */
  lemma CentreExample()
    ensures Mask(seq(101, _ => Sample(0.0, 0.0)))[8][12]
    ensures !Mask(seq(100, _ => Sample(0.0, 0.0)))[8][12]
  {
    var p := Sample(0.0, 0.0);
    assert CellOf(p) == Some((12, 9));
    CountRepeated(p, 101);
    CountRepeated(p, 100);
  }

  // ---------------------------------------------------------------------------
  // The binary trace score
  // ---------------------------------------------------------------------------

  /** Pairs the flattened X and Z arrays position by position. */
  function Zip(xs: seq<real>, zs: seq<real>): (s: seq<Sample>)
    requires |xs| == |zs|
    ensures |s| == |xs|
    ensures forall i :: 0 <= i < |s| ==> s[i] == Sample(xs[i], zs[i])
  {
    seq(|xs|, i requires 0 <= i < |xs| => Sample(xs[i], zs[i]))
  }

  lemma ZipConcat(xs1: seq<real>, zs1: seq<real>, xs2: seq<real>, zs2: seq<real>)
    requires |xs1| == |zs1| && |xs2| == |zs2|
    ensures Zip(xs1 + xs2, zs1 + zs2) == Zip(xs1, zs1) + Zip(xs2, zs2)
  {
  }

  /** The trajectory under test: columns agent+"x" and agent+"z" paired row by row. */
  function Trajectory(f: Frame, agent: string): (path: seq<Sample>)
    requires HasColumn(f, agent + "x") && HasColumn(f, agent + "z")
    ensures |path| == f.length
    ensures forall i :: 0 <= i < |path| ==> path[i] == Sample(f.columns[agent + "x"][i], f.columns[agent + "z"][i])
  {
    Zip(f.columns[agent + "x"], f.columns[agent + "z"])
  }

  /** The external scorer `trace(binary_heatmap, path)`. */
  type TraceScorer = (seq<seq<bool>>, seq<Sample>) -> real

  /** `get_binary_trace(X, Z, data, agent)`. */
  function BinaryTrace(score: TraceScorer, xs: seq<real>, zs: seq<real>, data: Frame, agent: string): real
    requires |xs| == |zs|
    requires HasColumn(data, agent + "x") && HasColumn(data, agent + "z")
  {
    score(Mask(Zip(xs, zs)), Trajectory(data, agent))
  }

  /** The score depends on the pool only through its multiset of (x, z) samples. */
  lemma BinaryTraceIgnoresPoolOrder(score: TraceScorer, xs: seq<real>, zs: seq<real>, xs': seq<real>, zs': seq<real>, data: Frame, agent: string)
    requires |xs| == |zs| && |xs'| == |zs'|
    requires multiset(Zip(xs, zs)) == multiset(Zip(xs', zs'))
    requires HasColumn(data, agent + "x") && HasColumn(data, agent + "z")
    ensures BinaryTrace(score, xs, zs, data, agent) == BinaryTrace(score, xs', zs', data, agent)
  {
    MaskIgnoresOrder(Zip(xs, zs), Zip(xs', zs'));
  }

  /**
   * `np.array([x, z]).T` for two numeric series read from a file or pooled
   * from several: the positions paired row by row. Only equal-length series
   * reach the scorer in the scripts (a missing column raises), so pairing the
   * common prefix changes nothing there.
   */
  function Pairs(xs: seq<real>, zs: seq<real>): (s: seq<Sample>)
    ensures |s| == if |xs| <= |zs| then |xs| else |zs|
    ensures forall i :: 0 <= i < |s| ==> s[i] == Sample(xs[i], zs[i])
  {
    var n := if |xs| <= |zs| then |xs| else |zs|;
    seq(n, i requires 0 <= i < n => Sample(xs[i], zs[i]))
  }

  /** Pairing two concatenations whose first parts have equal length pairs the parts. */
  lemma PairsConcat(xs1: seq<real>, zs1: seq<real>, xs2: seq<real>, zs2: seq<real>)
    requires |xs1| == |zs1|
    ensures Pairs(xs1 + xs2, zs1 + zs2) == Pairs(xs1, zs1) + Pairs(xs2, zs2)
  {
  }

  /** The positions of `agent` in a trial file: columns agent+"x" and agent+"z". */
  function Positions(f: Frame, agent: string): seq<Sample>
  {
    Pairs(Col(f, agent + "x"), Col(f, agent + "z"))
  }

  /** `get_binary_trace(X, Z, data, agent)` over the pooled X and Z arrays. */
  function TraceScore(score: TraceScorer, xs: seq<real>, zs: seq<real>, data: Frame, agent: string): real
  {
    score(Mask(Pairs(xs, zs)), Positions(data, agent))
  }

  /** On a well-formed pool and file, the score is the binary trace of the pooled samples and the file's trajectory. */
  lemma TraceScoreIsBinaryTrace(score: TraceScorer, xs: seq<real>, zs: seq<real>, data: Frame, agent: string)
    requires |xs| == |zs|
    requires HasColumn(data, agent + "x") && HasColumn(data, agent + "z")
    ensures TraceScore(score, xs, zs, data, agent) == BinaryTrace(score, xs, zs, data, agent)
  {
    assert Pairs(xs, zs) == Zip(xs, zs);
    assert Positions(data, agent) == Trajectory(data, agent);
  }
}
