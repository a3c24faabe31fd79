/**
 * The cohort reduction at the end of the aggregation scripts: the score
 * dictionaries are walked in key order and each session's row is appended to
 * the heuristic, hybrid or self-play list according to the first of the prefixes
 * "Session1", "Session2", "Session3" its name starts with; other names are dropped.
 */
module Cohorts {
  import opened Common

  const Prefixes: seq<string> := ["Session1", "Session2", "Session3"]

  /** The cohort a session name falls into: 0 heuristic, 1 hybrid, 2 self-play. */
  function CohortOf(name: string): (c: Option<nat>)
    ensures c.Some? <==> exists j :: 0 <= j < |Prefixes| && StartsWith(name, Prefixes[j])
    ensures c.Some? ==> c.value < |Prefixes| && StartsWith(name, Prefixes[c.value])
    ensures c.Some? ==> forall j :: 0 <= j < c.value ==> !StartsWith(name, Prefixes[j])
  {
    if StartsWith(name, Prefixes[0]) then Some(0)
    else if StartsWith(name, Prefixes[1]) then Some(1)
    else if StartsWith(name, Prefixes[2]) then Some(2)
    else None
  }

  /**
   * The three prefixes exclude each other, so "first match wins" never has to
   * choose: a name starting with one of them starts with no other.
   */
  lemma PrefixesExclusive(name: string, i: nat, j: nat)
    requires i < |Prefixes| && j < |Prefixes|
    requires StartsWith(name, Prefixes[i]) && StartsWith(name, Prefixes[j])
    ensures i == j
  {
    assert name[7] == Prefixes[i][7] && name[7] == Prefixes[j][7];
  }

  /** A prefix, not a session number: "Session12" and "Session1_b" are heuristic sessions. */
  lemma PrefixNotNumber()
    ensures CohortOf("Session12") == Some(0)
    ensures CohortOf("Session1_b") == Some(0)
    ensures CohortOf("Session4") == None
    ensures CohortOf("session1") == None
  {
    assert "Session12"[..8] == "Session1";
    assert "Session1_b"[..8] == "Session1";
    assert "Session4"[..8][7] == '4';
    assert "session1"[0] != "Session1"[0];
  }

  /**
   * The key order of a dictionary filled by `d[name] = ...` over `names`: the
   * first occurrence of each name, in order.
   */
  function DictKeys(names: seq<string>): (keys: seq<string>)
    ensures forall n :: n in keys <==> n in names
    ensures forall i, j :: 0 <= i < j < |keys| ==> keys[i] != keys[j]
  {
    if |names| == 0 then []
    else
      var keys := DictKeys(names[..|names| - 1]);
      var n := names[|names| - 1];
      assert names == names[..|names| - 1] + [n];
      if n in keys then keys else keys + [n]
  }

  /** The rows whose key falls into cohort c, in key order. */
  function Members<X>(keys: seq<string>, rows: seq<X>, c: nat): (out: seq<X>)
    requires |rows| == |keys|
    ensures |out| <= |keys|
  {
    if |keys| == 0 then []
    else
      var n := |keys| - 1;
      var init := Members(keys[..n], rows[..n], c);
      if CohortOf(keys[n]) == Some(c) then init + [rows[n]] else init
  }

  /** How many keys fall into no cohort. */
  function Dropped(keys: seq<string>): nat
  {
    if |keys| == 0 then 0
    else Dropped(keys[..|keys| - 1]) + (if CohortOf(keys[|keys| - 1]).None? then 1 else 0)
  }

  /** A row is in cohort c exactly when some key of cohort c carries it. */
  lemma {:induction false} MembersAre<X>(keys: seq<string>, rows: seq<X>, c: nat, x: X)
    requires |rows| == |keys|
    ensures x in Members(keys, rows, c) <==> exists i :: 0 <= i < |keys| && CohortOf(keys[i]) == Some(c) && rows[i] == x
  {
    if |keys| > 0 {
      var n := |keys| - 1;
      MembersAre(keys[..n], rows[..n], c, x);
      if x in Members(keys, rows, c) && !(x in Members(keys[..n], rows[..n], c)) {
        assert CohortOf(keys[n]) == Some(c) && rows[n] == x;
      }
      if exists i :: 0 <= i < |keys| && CohortOf(keys[i]) == Some(c) && rows[i] == x {
        var i :| 0 <= i < |keys| && CohortOf(keys[i]) == Some(c) && rows[i] == x;
        if i < n {
          assert keys[..n][i] == keys[i] && rows[..n][i] == rows[i];
        }
      }
    }
  }

  /** Every key lands in exactly one of the three cohorts or is dropped. */
  lemma {:induction false} PartitionSizes<X>(keys: seq<string>, rows: seq<X>)
    requires |rows| == |keys|
    ensures |Members(keys, rows, 0)| + |Members(keys, rows, 1)| + |Members(keys, rows, 2)| + Dropped(keys) == |keys|
  {
    if |keys| > 0 {
      var n := |keys| - 1;
      PartitionSizes(keys[..n], rows[..n]);
    }
  }

  /** The cohorts' key lists are disjoint (the key order has no repeated name). */
  lemma CohortsDisjoint(keys: seq<string>, c: nat, c': nat, k: string)
    requires k in Members(keys, keys, c) && k in Members(keys, keys, c')
    ensures c == c'
  {
    MembersAre(keys, keys, c, k);
    MembersAre(keys, keys, c', k);
  }

  /** The `for session in d.keys(): if ... elif ... elif ...: append` loop. */
  method Partition<X>(keys: seq<string>, rows: seq<X>) returns (heur: seq<X>, hybr: seq<X>, self: seq<X>)
    requires |rows| == |keys|
    ensures heur == Members(keys, rows, 0)
    ensures hybr == Members(keys, rows, 1)
    ensures self == Members(keys, rows, 2)
  {
    heur, hybr, self := [], [], [];
    for i := 0 to |keys|
      invariant heur == Members(keys[..i], rows[..i], 0)
      invariant hybr == Members(keys[..i], rows[..i], 1)
      invariant self == Members(keys[..i], rows[..i], 2)
    {
      assert keys[..i + 1][..i] == keys[..i] && rows[..i + 1][..i] == rows[..i];
      if StartsWith(keys[i], "Session1") {
        heur := heur + [rows[i]];
      } else if StartsWith(keys[i], "Session2") {
        hybr := hybr + [rows[i]];
      } else if StartsWith(keys[i], "Session3") {
        self := self + [rows[i]];
      }
    }
    assert keys[..|keys|] == keys && rows[..|rows|] == rows;
  }

  /**
   * The human-AA experiment's variant: only "Session1" rows are collected, and an
   * empty collection raises the ValueError.
   */
  method HeuristicOnly<X>(keys: seq<string>, rows: seq<X>) returns (r: Result<seq<X>>)
    requires |rows| == |keys|
    ensures r.Ok? <==> exists i :: 0 <= i < |keys| && StartsWith(keys[i], "Session1")
    ensures r.Ok? ==> r.value == Members(keys, rows, 0)
    ensures r.Err? ==> r.error == EmptyCohort("Session1")
  {
    var heur := [];
    for i := 0 to |keys|
      invariant heur == Members(keys[..i], rows[..i], 0)
    {
      assert keys[..i + 1][..i] == keys[..i] && rows[..i + 1][..i] == rows[..i];
      if StartsWith(keys[i], "Session1") {
        heur := heur + [rows[i]];
      }
    }
    assert keys[..|keys|] == keys && rows[..|rows|] == rows;
    HeuristicEmpty(keys, rows);
    if |heur| > 0 {
      r := Ok(heur);
    } else {
      r := Err(EmptyCohort("Session1"));
    }
  }

  /** Some listed name starts with "Session1" exactly when some key of the dictionary built from the list does. */
  lemma DictKeysSession1(names: seq<string>)
    ensures var keys := DictKeys(names);
      (exists i :: 0 <= i < |keys| && StartsWith(keys[i], "Session1")) <==> exists n :: n in names && StartsWith(n, "Session1")
  {
    var keys := DictKeys(names);
    assert forall i :: 0 <= i < |keys| ==> keys[i] in names;
    if exists n :: n in names && StartsWith(n, "Session1") {
      var n :| n in names && StartsWith(n, "Session1");
      var i :| 0 <= i < |keys| && keys[i] == n;
    }
  }

  lemma {:induction false} HeuristicEmpty<X>(keys: seq<string>, rows: seq<X>)
    requires |rows| == |keys|
    ensures |Members(keys, rows, 0)| > 0 <==> exists i :: 0 <= i < |keys| && StartsWith(keys[i], "Session1")
  {
    if |keys| > 0 {
      var n := |keys| - 1;
      HeuristicEmpty(keys[..n], rows[..n]);
      if exists i :: 0 <= i < |keys| && StartsWith(keys[i], "Session1") {
        var i :| 0 <= i < |keys| && StartsWith(keys[i], "Session1");
        if i < n {
          assert keys[..n][i] == keys[i];
        }
      }
      if exists i :: 0 <= i < n && StartsWith(keys[..n][i], "Session1") {
        var i :| 0 <= i < n && StartsWith(keys[..n][i], "Session1");
        assert keys[i] == keys[..n][i];
      }
    }
  }
}
