/**
 * Shared vocabulary of the scoring core: failure-compatible results, numpy-style
 * float cells that may be NaN, the trial range, trial files as column tables,
 * session directories, background pools and the decimal formatting of trial ids.
 */
module Common {

  datatype Option<T> = None | Some(value: T)

  /** The fatal conditions the scripts raise (an uncaught exception ends the run). */
  datatype Error =
    | MissingFile(session: string, trial: int)        // `[...][0]` on an empty match list, read_csv on a missing path
    | ConsistencyViolation(trial: int)                // TrialID / numTargs disagree between the two compared files
    | EmptyCohort(prefix: string)                     // the ValueError raised for an empty cohort
    | InvalidConfig                                   // first_trial > last_trial
    | EmptyPool(trial: int)                           // no background positions could be collected
    | UnknownSession(session: string)                 // KeyError: a score dictionary has no entry for the session
    | NoSessions                                      // no session folder under the human data root
    | MissingDirectory(name: string)                  // a simulation directory that does not exist
    | MissingValue(column: string)                    // KeyError: `df[column][0]` on a file without the column or without rows

  datatype Result<T> = Ok(value: T) | Err(error: Error) {
    predicate IsFailure() { Err? }
    function PropagateFailure<U>(): Result<U>
      requires Err?
    {
      Err(error)
    }
    function Extract(): T
      requires Ok?
    {
      value
    }
  }

  /** The first failure of a loop over the indices lo..hi-1, visited in order. */
  function FirstError(fails: int -> Option<Error>, lo: int, hi: int): Option<Error>
    decreases hi - lo
  {
    if lo >= hi then None
    else if fails(lo).Some? then fails(lo)
    else FirstError(fails, lo + 1, hi)
  }

  /** The loop fails exactly when some index fails, and then with that index's failure. */
  lemma {:induction false} FirstErrorIs(fails: int -> Option<Error>, lo: int, hi: int)
    ensures FirstError(fails, lo, hi).None? <==> forall i :: lo <= i < hi ==> fails(i).None?
    ensures FirstError(fails, lo, hi).Some? ==> exists i :: lo <= i < hi && FirstError(fails, lo, hi) == fails(i)
    decreases hi - lo
  {
    if lo < hi {
      FirstErrorIs(fails, lo + 1, hi);
    }
  }

  /** The first failing index decides: a failure at i after none in [lo, i) is the first failure. */
  lemma {:induction false} FirstErrorAt(fails: int -> Option<Error>, lo: int, hi: int, i: int)
    requires lo <= i < hi && fails(i).Some?
    requires forall j :: lo <= j < i ==> fails(j).None?
    ensures FirstError(fails, lo, hi) == fails(i)
    decreases i - lo
  {
    if lo < i {
      FirstErrorAt(fails, lo + 1, hi, i);
    }
  }

  // ---------------------------------------------------------------------------
  // numpy float64 cells
  // ---------------------------------------------------------------------------

  /**
   * A float64 value as the scripts see it. Positions and scores are taken as exact
   * reals; NonFinite stands for NaN and for +-inf, which numpy produces on a
   * division by zero and which absorb every later addition or division.
   */
  datatype Float = Finite(v: real) | NonFinite

  function Plus(a: Float, b: Float): (r: Float)
    ensures r.Finite? <==> a.Finite? && b.Finite?
    ensures r.Finite? ==> r.v == a.v + b.v
  {
    if a.Finite? && b.Finite? then Finite(a.v + b.v) else NonFinite
  }

  /** numpy division of a float64 by an integer count: dividing by zero gives NaN or inf. */
  function DivBy(a: Float, n: int): (r: Float)
    ensures r.Finite? <==> a.Finite? && n != 0
  {
    if a.Finite? && n != 0 then Finite(a.v / n as real) else NonFinite
  }

  /**
   * A finite quotient times the count gives back the dividend. Kept out of
   * DivBy's own contract so that the product is only in scope where it is needed.
   */
  lemma DivByScales(a: Float, n: int)
    requires DivBy(a, n).Finite?
    ensures DivBy(a, n).v * n as real == a.v
  {
  }

  function SumFloats(s: seq<Float>): (r: Float)
    ensures r.Finite? <==> forall i :: 0 <= i < |s| ==> s[i].Finite?
  {
    if |s| == 0 then Finite(0.0)
    else
      var r := Plus(SumFloats(s[..|s| - 1]), s[|s| - 1]);
      assert forall i :: 0 <= i < |s| - 1 ==> s[..|s| - 1][i] == s[i];
      r
  }

  /** ndarray.mean(): NaN for an empty array, NaN/inf as soon as one entry is. */
  function MeanOf(s: seq<Float>): (r: Float)
    ensures r.Finite? <==> |s| > 0 && forall i :: 0 <= i < |s| ==> s[i].Finite?
  {
    DivBy(SumFloats(s), |s|)
  }

  function SumReals(s: seq<real>): real
  {
    if |s| == 0 then 0.0 else SumReals(s[..|s| - 1]) + s[|s| - 1]
  }

  lemma {:induction false} SumRealsAppend(s: seq<real>, t: seq<real>)
    ensures SumReals(s + t) == SumReals(s) + SumReals(t)
  {
    if |t| > 0 {
      assert (s + t)[..|s + t| - 1] == s + t[..|t| - 1];
      SumRealsAppend(s, t[..|t| - 1]);
    } else {
      assert s + t == s;
    }
  }

  /** Python's int() on a float truncates toward zero. */
  function Trunc(r: real): (n: int)
    ensures r >= 0.0 ==> 0 <= n && n as real <= r < n as real + 1.0
    ensures r < 0.0 ==> n <= 0 && n as real - 1.0 < r <= n as real
  {
    if r >= 0.0 then r.Floor else -((-r).Floor)
  }

  /** The rows of a numpy matrix as a value. */
  function Matrix<T>(a: array2<T>): (m: seq<seq<T>>)
    reads a
    ensures |m| == a.Length0
    ensures forall i :: 0 <= i < |m| ==> |m[i]| == a.Length1
    ensures forall i, j :: 0 <= i < a.Length0 && 0 <= j < a.Length1 ==> m[i][j] == a[i, j]
  {
    seq(a.Length0, i requires 0 <= i < a.Length0 reads a =>
      seq(a.Length1, j requires 0 <= j < a.Length1 reads a => a[i, j]))
  }

  // ---------------------------------------------------------------------------
  // Trials
  // ---------------------------------------------------------------------------

  /** The analysed trials are 7..24 inclusive: `range(7, 24 + 1)`. */
  const FirstTrial: int := 7
  const LastTrial: int := 24
  const NumTrials: nat := 18

  predicate IsAnalysedTrial(t: int) { FirstTrial <= t <= LastTrial }

  /** The column of a trial in a per-session score array (`trial - first_trial`). */
  function TrialIndex(t: int): (i: nat)
    requires IsAnalysedTrial(t)
    ensures i < NumTrials && i + FirstTrial == t
  {
    t - FirstTrial
  }

  /** The analysed trials in loop order. */
  function AnalysedTrials(): (ts: seq<int>)
    ensures |ts| == NumTrials
    ensures forall i :: 0 <= i < |ts| ==> ts[i] == FirstTrial + i && IsAnalysedTrial(ts[i])
  {
    seq(NumTrials, i => FirstTrial + i)
  }

  // ---------------------------------------------------------------------------
  // Strings
  // ---------------------------------------------------------------------------

  predicate StartsWith(s: string, prefix: string)
  {
    |prefix| <= |s| && s[..|prefix|] == prefix
  }

  /** Directory entries such as `.DS_Store`. */
  predicate IsHidden(name: string) { StartsWith(name, ".") }

  function Digit(d: nat): (c: char)
    requires d < 10
    ensures '0' <= c <= '9'
  {
    ('0' as int + d) as char
  }

  predicate IsDigit(c: char) { '0' <= c <= '9' }

  /** `str(n)` for a natural number. */
  function NatToString(n: nat): (s: string)
    ensures |s| >= 1 && forall i :: 0 <= i < |s| ==> IsDigit(s[i])
    decreases n
  {
    if n < 10 then [Digit(n)] else NatToString(n / 10) + [Digit(n % 10)]
  }

  /** `"{:02}".format(n)`: zero-padded to two digits. */
  function TwoDigits(n: nat): (s: string)
    ensures n < 10 ==> s == "0" + NatToString(n)
    ensures n >= 10 ==> s == NatToString(n)
  {
    if n < 10 then "0" + NatToString(n) else NatToString(n)
  }

  lemma {:induction false} NatToStringLength(n: nat)
    ensures n < 10 <==> |NatToString(n)| == 1
    ensures 10 <= n < 100 <==> |NatToString(n)| == 2
  {
    if n >= 10 {
      NatToStringLength(n / 10);
    }
  }

  /** Distinct naturals print differently. */
  lemma {:induction false} NatToStringInjective(a: nat, b: nat)
    requires NatToString(a) == NatToString(b)
    ensures a == b
    decreases a
  {
    var s := NatToString(a);
    if a < 10 && b < 10 {
      assert s[0] == Digit(a) && s[0] == Digit(b);
    } else if a >= 10 && b >= 10 {
      assert s[|s| - 1] == Digit(a % 10) && s[|s| - 1] == Digit(b % 10);
      assert s[..|s| - 1] == NatToString(a / 10) && s[..|s| - 1] == NatToString(b / 10);
      NatToStringInjective(a / 10, b / 10);
    }
  }

  /** `str(n)` for any integer. */
  function IntToString(n: int): (s: string)
    ensures |s| >= 1 && (n >= 0 <==> IsDigit(s[0]))
  {
    if n >= 0 then NatToString(n) else "-" + NatToString(-n)
  }

  lemma IntToStringInjective(a: int, b: int)
    requires IntToString(a) == IntToString(b)
    ensures a == b
  {
    if a >= 0 && b >= 0 {
      NatToStringInjective(a, b);
    } else if a < 0 && b < 0 {
      assert IntToString(a)[1..] == NatToString(-a) && IntToString(b)[1..] == NatToString(-b);
      NatToStringInjective(-a, -b);
    }
  }

  // ---------------------------------------------------------------------------
  // Trial files and session directories
  // ---------------------------------------------------------------------------

  /** A CSV trial file read into pandas: named numeric columns of `length` rows. */
  datatype Frame = Frame(columns: map<string, seq<real>>, length: nat)

  predicate HasColumn(f: Frame, c: string)
  {
    c in f.columns && |f.columns[c]| == f.length
  }

  /** `df[c][0]`. */
  function First(f: Frame, c: string): real
    requires HasColumn(f, c) && f.length > 0
  {
    f.columns[c][0]
  }

  /** `df[c]`, read as an empty series when the file has no such column. */
  function Col(f: Frame, c: string): seq<real>
  {
    if c in f.columns then f.columns[c] else []
  }

  /**
   * A session folder. `files` holds the file the trial-identifier lookup finds
   * for each trial (the first match); a trial with no matching file is absent.
   */
  datatype Session = Session(name: string, files: map<int, Frame>)

  predicate HasTrial(s: Session, t: int) { t in s.files }

  /** Every session of the pool has a file for trial t. */
  predicate AllHave(pool: seq<Session>, t: int)
  {
    forall i :: 0 <= i < |pool| ==> t in pool[i].files
  }

  /** `[s for s in sessions if s != evaluee]`, in listing order. */
  function Background(sessions: seq<Session>, evaluee: string): (bg: seq<Session>)
    ensures |bg| <= |sessions|
    ensures forall s :: s in bg <==> s in sessions && s.name != evaluee
  {
    if |sessions| == 0 then []
    else
      var rest := Background(sessions[..|sessions| - 1], evaluee);
      var last := sessions[|sessions| - 1];
      assert sessions == sessions[..|sessions| - 1] + [last];
      if last.name != evaluee then rest + [last] else rest
  }

  /** The same with hidden entries also removed, as in the scripts that filter `'.'` names. */
  function VisibleBackground(sessions: seq<Session>, evaluee: string): (bg: seq<Session>)
    ensures |bg| <= |sessions|
    ensures forall s :: s in bg <==> s in sessions && s.name != evaluee && !IsHidden(s.name)
  {
    if |sessions| == 0 then []
    else
      var rest := VisibleBackground(sessions[..|sessions| - 1], evaluee);
      var last := sessions[|sessions| - 1];
      assert sessions == sessions[..|sessions| - 1] + [last];
      if last.name != evaluee && !IsHidden(last.name) then rest + [last] else rest
  }

  predicate DistinctNames(sessions: seq<Session>)
  {
    forall i, j :: 0 <= i < j < |sessions| ==> sessions[i].name != sessions[j].name
  }

  /** How many sessions hold a file for trial t. */
  function CountPresent(sessions: seq<Session>, t: int): (n: nat)
    ensures n <= |sessions|
  {
    if |sessions| == 0 then 0
    else CountPresent(sessions[..|sessions| - 1], t) + (if HasTrial(sessions[|sessions| - 1], t) then 1 else 0)
  }

  /** The cell after `+= score` for each background file of trial t that could be read, in order. */
  function PoolFold(cell: Float, bg: seq<Session>, t: int, score: Frame -> Float): Float
  {
    if |bg| == 0 then cell
    else
      var acc := PoolFold(cell, bg[..|bg| - 1], t, score);
      var s := bg[|bg| - 1];
      if t in s.files then Plus(acc, score(s.files[t])) else acc
  }

  /** The scores of the readable background files, in order. */
  function PresentScores(bg: seq<Session>, t: int, score: Frame -> Float): (s: seq<Float>)
    ensures |s| == CountPresent(bg, t)
  {
    if |bg| == 0 then []
    else
      var init := PresentScores(bg[..|bg| - 1], t, score);
      var b := bg[|bg| - 1];
      if t in b.files then init + [score(b.files[t])] else init
  }

  /** The first session of the pool with no file for trial t, if any. */
  function FirstMissing(pool: seq<Session>, t: int): (r: Option<nat>)
    ensures r.Some? ==> r.value < |pool| && t !in pool[r.value].files && forall j :: 0 <= j < r.value ==> t in pool[j].files
    ensures r.None? ==> forall j :: 0 <= j < |pool| ==> t in pool[j].files
  {
    if |pool| == 0 then None
    else
      var n := |pool| - 1;
      var init := FirstMissing(pool[..n], t);
      assert forall j :: 0 <= j < n ==> pool[..n][j] == pool[j];
      if init.Some? then init
      else if t in pool[n].files then None
      else Some(n)
  }

  lemma {:induction false} SumFloatsSnoc(s: seq<Float>, x: Float)
    ensures SumFloats(s + [x]) == Plus(SumFloats(s), x)
  {
    assert (s + [x])[..|s|] == s;
  }

  /** The running cell is the starting value plus the sum of the readable files' scores. */
  lemma {:induction false} PoolFoldIsSum(cell: Float, bg: seq<Session>, t: int, score: Frame -> Float)
    ensures PoolFold(cell, bg, t, score) == Plus(cell, SumFloats(PresentScores(bg, t, score)))
  {
    if |bg| > 0 {
      var init := bg[..|bg| - 1];
      var b := bg[|bg| - 1];
      PoolFoldIsSum(cell, init, t, score);
      if t in b.files {
        SumFloatsSnoc(PresentScores(init, t, score), score(b.files[t]));
      }
    }
  }

  /** A sum of ones is the number of terms. */
  lemma {:induction false} SumOfOnes(s: seq<Float>)
    requires forall i :: 0 <= i < |s| ==> s[i] == Finite(1.0)
    ensures SumFloats(s) == Finite(|s| as real)
  {
    if |s| > 0 {
      SumOfOnes(s[..|s| - 1]);
    }
  }

  /** How many sessions lack a file for trial t. */
  function CountMissing(sessions: seq<Session>, t: int): nat
  {
    if |sessions| == 0 then 0
    else CountMissing(sessions[..|sessions| - 1], t) + (if HasTrial(sessions[|sessions| - 1], t) then 0 else 1)
  }

  /** With M of N background files missing, the denominator is N - M. */
  lemma {:induction false} PresentIsTotalMinusMissing(sessions: seq<Session>, t: int)
    ensures CountPresent(sessions, t) == |sessions| - CountMissing(sessions, t)
  {
    if |sessions| > 0 {
      PresentIsTotalMinusMissing(sessions[..|sessions| - 1], t);
    }
  }

  lemma {:induction false} NoneMissingMeansAllCounted(sessions: seq<Session>, t: int)
    requires forall s :: s in sessions ==> HasTrial(s, t)
    ensures CountPresent(sessions, t) == |sessions|
  {
    if |sessions| > 0 {
      assert sessions[|sessions| - 1] in sessions;
      assert forall s :: s in sessions[..|sessions| - 1] ==> s in sessions;
      NoneMissingMeansAllCounted(sessions[..|sessions| - 1], t);
    }
  }

  lemma {:induction false} BackgroundDropsOne(sessions: seq<Session>, evaluee: nat)
    requires evaluee < |sessions| && DistinctNames(sessions)
    ensures |Background(sessions, sessions[evaluee].name)| == |sessions| - 1
  {
    var n := |sessions|;
    var init := sessions[..n - 1];
    var name := sessions[evaluee].name;
    var last := sessions[n - 1];
    assert forall i :: 0 <= i < n - 1 ==> init[i] == sessions[i];
    if evaluee == n - 1 {
      BackgroundKeepsAll(init, name);
      assert Background(sessions, name) == Background(init, name);
    } else {
      assert DistinctNames(init);
      assert last.name != name && init[evaluee] == sessions[evaluee];
      BackgroundDropsOne(init, evaluee);
      assert Background(sessions, name) == Background(init, name) + [last];
    }
  }

  lemma {:induction false} BackgroundKeepsAll(sessions: seq<Session>, name: string)
    requires forall i :: 0 <= i < |sessions| ==> sessions[i].name != name
    ensures Background(sessions, name) == sessions
  {
    var n := |sessions|;
    if n > 0 {
      BackgroundKeepsAll(sessions[..n - 1], name);
      assert sessions == sessions[..n - 1] + [sessions[n - 1]];
    }
  }

  // ---------------------------------------------------------------------------
  // Human-AA session folders
  // ---------------------------------------------------------------------------

  /**
   * A human-AA session: its folder name, the AA type folder it sits under and the
   * HumanPlayerN subfolder (N = the seat the human took), with its trial files.
   */
  datatype HumanAASession = HumanAASession(name: string, aaType: string, humanPlayer: nat, files: map<int, Frame>)

  /** The session has a file for every analysed trial. */
  ghost predicate HasAllTrials(s: Session)
  {
    forall t :: IsAnalysedTrial(t) ==> t in s.files
  }

  /** One file found by the per-trial lookup, with the session it belongs to. */
  datatype HumanAAFile = HumanAAFile(session: string, humanPlayer: nat, data: Frame)

  /** The files of one (subfolder, AA type) pair for trial t, in listing order. */
  function FolderFiles(listing: seq<HumanAASession>, sub: nat, aaType: string, t: int): (fs: seq<HumanAAFile>)
    ensures forall f :: f in fs ==> f.humanPlayer == sub
  {
    if |listing| == 0 then []
    else
      var rest := FolderFiles(listing[..|listing| - 1], sub, aaType, t);
      var e := listing[|listing| - 1];
      if e.humanPlayer == sub && e.aaType == aaType && t in e.files
      then rest + [HumanAAFile(e.name, sub, e.files[t])]
      else rest
  }

  function TypeFiles(listing: seq<HumanAASession>, sub: nat, aaTypes: seq<string>, t: int): (fs: seq<HumanAAFile>)
    ensures forall f :: f in fs ==> f.humanPlayer == sub
  {
    if |aaTypes| == 0 then []
    else TypeFiles(listing, sub, aaTypes[..|aaTypes| - 1], t) + FolderFiles(listing, sub, aaTypes[|aaTypes| - 1], t)
  }

  /**
   * The files the loops `for subFolder in [HumanPlayer0, HumanPlayer1]: for AA_type
   * in AA_types: for expFile in rglob(...)` visit for trial t, in that order.
   */
  function ExpFiles(listing: seq<HumanAASession>, aaTypes: seq<string>, t: int): (fs: seq<HumanAAFile>)
    ensures forall f :: f in fs ==> f.humanPlayer < 2
  {
    TypeFiles(listing, 0, aaTypes, t) + TypeFiles(listing, 1, aaTypes, t)
  }

  lemma {:induction false} FolderFilesIgnoresOtherTypes(listing: seq<HumanAASession>, sub: nat, aaType: string, t: int, other: HumanAASession)
    requires other.aaType != aaType
    ensures FolderFiles(listing + [other], sub, aaType, t) == FolderFiles(listing, sub, aaType, t)
  {
    assert (listing + [other])[..|listing|] == listing;
  }

  lemma {:induction false} TypeFilesIgnoresOtherTypes(listing: seq<HumanAASession>, sub: nat, aaTypes: seq<string>, t: int, other: HumanAASession)
    requires other.aaType !in aaTypes
    ensures TypeFiles(listing + [other], sub, aaTypes, t) == TypeFiles(listing, sub, aaTypes, t)
  {
    if |aaTypes| > 0 {
      assert aaTypes[|aaTypes| - 1] in aaTypes;
      assert forall a :: a in aaTypes[..|aaTypes| - 1] ==> a in aaTypes;
      TypeFilesIgnoresOtherTypes(listing, sub, aaTypes[..|aaTypes| - 1], t, other);
      FolderFilesIgnoresOtherTypes(listing, sub, aaTypes[|aaTypes| - 1], t, other);
    }
  }

  /** Sessions filed under an AA type that is not processed contribute no file. */
  lemma ExpFilesIgnoresOtherTypes(listing: seq<HumanAASession>, aaTypes: seq<string>, t: int, other: HumanAASession)
    requires other.aaType !in aaTypes
    ensures ExpFiles(listing + [other], aaTypes, t) == ExpFiles(listing, aaTypes, t)
  {
    TypeFilesIgnoresOtherTypes(listing, 0, aaTypes, t, other);
    TypeFilesIgnoresOtherTypes(listing, 1, aaTypes, t, other);
  }

  /** The human-AA files the per-trial lookup visits, trial by trial, in visiting order. */
  type Lookup = int -> seq<HumanAAFile>

  function ExpLookup(listing: seq<HumanAASession>, aaTypes: seq<string>): Lookup
  {
    (t: int) => ExpFiles(listing, aaTypes, t)
  }

  /** Every file found sits under HumanPlayer0 or HumanPlayer1. */
  ghost predicate Seated(files: Lookup)
  {
    forall t, i :: 0 <= i < |files(t)| ==> files(t)[i].humanPlayer < 2
  }

  lemma ExpLookupSeated(listing: seq<HumanAASession>, aaTypes: seq<string>)
    ensures Seated(ExpLookup(listing, aaTypes))
  {
    forall t, i | 0 <= i < |ExpLookup(listing, aaTypes)(t)|
      ensures ExpLookup(listing, aaTypes)(t)[i].humanPlayer < 2
    {
      assert ExpLookup(listing, aaTypes)(t)[i] in ExpFiles(listing, aaTypes, t);
    }
  }
}
