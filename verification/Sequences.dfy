/** Selection by key and decomposition into maximal runs of equal key. */
module Sequences {

  datatype Option<+T> = None | Some(value: T)

  function Last<A>(s: seq<A>): A
    requires s != []
  {
    s[|s| - 1]
  }

  function Front<A>(s: seq<A>): seq<A>
    requires s != []
  {
    s[..|s| - 1]
  }

  lemma FrontLast<A>(s: seq<A>)
    requires s != []
    ensures s == Front(s) + [Last(s)]
  {}

  function Map<A, B>(f: A -> B, s: seq<A>): (r: seq<B>)
    ensures |r| == |s| && forall i :: 0 <= i < |s| ==> r[i] == f(s[i])
  {
    seq(|s|, i requires 0 <= i < |s| => f(s[i]))
  }

  /** The elements whose key is `v`, in order. */
  function Select<A, B(==)>(f: A -> B, v: B, s: seq<A>): (r: seq<A>)
    ensures forall i :: 0 <= i < |r| ==> f(r[i]) == v && r[i] in s
  {
    if s == [] then []
    else
      var r := Select(f, v, Front(s));
      if f(Last(s)) == v then r + [Last(s)] else r
  }

  lemma {:induction false} SelectSnoc<A, B>(f: A -> B, v: B, s: seq<A>, x: A)
    ensures Select(f, v, s + [x]) == if f(x) == v then Select(f, v, s) + [x] else Select(f, v, s)
  {
    assert Front(s + [x]) == s;
  }

  lemma {:induction false} SelectConcat<A, B>(f: A -> B, v: B, s: seq<A>, t: seq<A>)
    ensures Select(f, v, s + t) == Select(f, v, s) + Select(f, v, t)
  {
    if t == [] {
      assert s + t == s;
    } else {
      SelectConcat(f, v, s, Front(t));
      assert s + t == (s + Front(t)) + [Last(t)];
      SelectSnoc(f, v, s + Front(t), Last(t));
      FrontLast(t);
      SelectSnoc(f, v, Front(t), Last(t));
    }
  }

  /** Selecting keeps order: a selected sequence embeds increasingly in the original. */
  lemma {:induction false} SelectOrder<A, B>(f: A -> B, v: B, s: seq<A>, i: nat, j: nat)
      returns (p: nat, q: nat)
    requires i < j < |Select(f, v, s)|
    ensures p < q < |s| && s[p] == Select(f, v, s)[i] && s[q] == Select(f, v, s)[j]
  {
    var r := Select(f, v, Front(s));
    if j < |r| {
      p, q := SelectOrder(f, v, Front(s), i, j);
    } else {
      assert r[i] in Front(s);
      p :| 0 <= p < |Front(s)| && Front(s)[p] == r[i];
      q := |s| - 1;
    }
  }

  /** Every element with key `v` is selected. */
  lemma {:induction false} SelectComplete<A, B>(f: A -> B, v: B, s: seq<A>, x: A)
    requires x in s && f(x) == v
    ensures x in Select(f, v, s)
  {
    if x != Last(s) {
      assert x in Front(s);
      SelectComplete(f, v, Front(s), x);
    }
  }

  function Flatten<A>(runs: seq<seq<A>>): seq<A> {
    if runs == [] then [] else Flatten(Front(runs)) + Last(runs)
  }

  /** The maximal stretches of consecutive elements with one key. */
  function Runs<A, B(==)>(f: A -> B, s: seq<A>): (r: seq<seq<A>>)
    ensures (r == []) == (s == [])
    ensures forall i :: 0 <= i < |r| ==> r[i] != []
    ensures s != [] ==> Last(Last(r)) == Last(s)
  {
    if s == [] then []
    else
      var p := Runs(f, Front(s));
      if p != [] && f(Last(Front(s))) == f(Last(s))
      then Front(p) + [Last(p) + [Last(s)]]
      else p + [[Last(s)]]
  }

  lemma {:induction false} RunsSnoc<A, B>(f: A -> B, s: seq<A>, x: A)
    ensures Runs(f, s + [x]) ==
            if s != [] && f(Last(s)) == f(x) then Front(Runs(f, s)) + [Last(Runs(f, s)) + [x]] else Runs(f, s) + [[x]]
  {
    assert Front(s + [x]) == s;
  }

  ghost predicate Uniform<A, B>(f: A -> B, run: seq<A>) {
    run != [] && forall j :: 0 <= j < |run| ==> f(run[j]) == f(run[0])
  }

  ghost predicate NeighboursDiffer<A, B>(f: A -> B, runs: seq<seq<A>>)
    requires forall i :: 0 <= i < |runs| ==> runs[i] != []
  {
    forall i :: 0 < i < |runs| ==> f(runs[i - 1][0]) != f(runs[i][0])
  }

  /** What a run decomposition is, without saying how to compute one. */
  ghost predicate IsRunDecomposition<A, B>(f: A -> B, s: seq<A>, runs: seq<seq<A>>) {
    && Flatten(runs) == s
    && (forall i :: 0 <= i < |runs| ==> Uniform(f, runs[i]))
    && NeighboursDiffer(f, runs)
  }

  lemma {:induction false} FlattenSnoc<A>(runs: seq<seq<A>>, run: seq<A>)
    ensures Flatten(runs + [run]) == Flatten(runs) + run
  {
    assert Front(runs + [run]) == runs;
  }

  lemma UniformSnoc<A, B>(f: A -> B, run: seq<A>, x: A)
    requires Uniform(f, run) && f(x) == f(run[0])
    ensures Uniform(f, run + [x])
  {}

  lemma DecompositionGrows<A, B>(f: A -> B, s: seq<A>, runs: seq<seq<A>>, x: A)
    requires IsRunDecomposition(f, s, runs) && runs != [] && f(Last(runs)[0]) == f(x)
    ensures IsRunDecomposition(f, s + [x], Front(runs) + [Last(runs) + [x]])
  {
    var r := Front(runs) + [Last(runs) + [x]];
    assert Flatten(r) == s + [x] by {
      FlattenSnoc(Front(runs), Last(runs) + [x]);
      assert Flatten(Front(runs)) + (Last(runs) + [x]) == (Flatten(Front(runs)) + Last(runs)) + [x];
    }
    UniformSnoc(f, Last(runs), x);
    assert forall i :: 0 <= i < |runs| ==> Uniform(f, runs[i]);
    assert forall i :: 0 <= i < |runs| ==> r[i] != [] && r[i][0] == runs[i][0];
  }

  lemma DecompositionOpens<A, B>(f: A -> B, s: seq<A>, runs: seq<seq<A>>, x: A)
    requires IsRunDecomposition(f, s, runs) && (runs == [] || f(Last(runs)[0]) != f(x))
    ensures IsRunDecomposition(f, s + [x], runs + [[x]])
  {
    FlattenSnoc(runs, [x]);
    assert Uniform(f, [x]);
  }

  lemma {:induction false} RunsDecompose<A, B>(f: A -> B, s: seq<A>)
    ensures IsRunDecomposition(f, s, Runs(f, s))
  {
    if s != [] {
      RunsDecompose(f, Front(s));
      var p := Runs(f, Front(s));
      FrontLast(s);
      if p == [] {
        DecompositionOpens(f, Front(s), p, Last(s));
      } else {
        assert Uniform(f, Last(p));
        if f(Last(p)[0]) == f(Last(s)) {
          DecompositionGrows(f, Front(s), p, Last(s));
        } else {
          DecompositionOpens(f, Front(s), p, Last(s));
        }
      }
    }
  }

  /** Taking the last element off a decomposition leaves a decomposition. */
  lemma DecompositionShrinks<A, B>(f: A -> B, s: seq<A>, d: seq<seq<A>>)
    requires IsRunDecomposition(f, s, d) && d != []
    ensures s != [] && Last(s) == Last(Last(d))
    ensures |Last(d)| == 1 ==> IsRunDecomposition(f, Front(s), Front(d))
    ensures |Last(d)| > 1 ==> IsRunDecomposition(f, Front(s), Front(d) + [Front(Last(d))])
  {
    var D := Last(d);
    assert Uniform(f, D);
    if |D| == 1 {
      assert Front(s) == Flatten(Front(d));
    } else {
      var e := Front(d) + [Front(D)];
      FlattenSnoc(Front(d), Front(D));
      assert Front(s) == Flatten(e);
      assert Uniform(f, Front(D));
      assert forall i :: 0 <= i < |d| ==> e[i] != [] && e[i][0] == d[i][0];
    }
  }

  /** The run decomposition is unique, so `Runs` computes the only one. */
  lemma {:induction false} RunsUnique<A, B>(f: A -> B, s: seq<A>, d: seq<seq<A>>)
    requires IsRunDecomposition(f, s, d)
    ensures d == Runs(f, s)
    decreases |s|
  {
    if d != [] {
      var D := Last(d);
      DecompositionShrinks(f, s, d);
      FrontLast(s);
      FrontLast(d);
      FrontLast(D);
      assert Uniform(f, D);
      RunsSnoc(f, Front(s), Last(s));
      if |D| == 1 {
        RunsUnique(f, Front(s), Front(d));
        if |d| > 1 {
          var P := d[|d| - 2];
          assert Uniform(f, P) && Last(Front(d)) == P;
          assert f(P[|P| - 1]) == f(P[0]) != f(D[0]);
        }
      } else {
        var e := Front(d) + [Front(D)];
        RunsUnique(f, Front(s), e);
        assert Front(e) == Front(d) && Last(e) == Front(D);
      }
    }
  }

  /** Equal keys are never separated by another key. */
  ghost predicate Contiguous<A, B>(f: A -> B, s: seq<A>) {
    forall i, j, k :: 0 <= i < j < k < |s| && f(s[i]) == f(s[k]) ==> f(s[j]) == f(s[i])
  }

  ghost predicate DistinctRunKeys<A, B>(f: A -> B, runs: seq<seq<A>>)
    requires forall i :: 0 <= i < |runs| ==> runs[i] != []
  {
    forall i, j :: 0 <= i < j < |runs| ==> f(runs[i][0]) != f(runs[j][0])
  }

  /** In a contiguous sequence a run is a whole group: all elements with its key. */
  lemma {:induction false} RunIsGroup<A, B>(f: A -> B, s: seq<A>, i: nat)
    requires Contiguous(f, s) && i < |Runs(f, s)|
    ensures Runs(f, s)[i] == Select(f, f(Runs(f, s)[i][0]), s)
    ensures DistinctRunKeys(f, Runs(f, s))
  {
    ContiguousDistinct(f, s);
    RunsDecompose(f, s);
    var r := Runs(f, s);
    var p := Runs(f, Front(s));
    FrontLast(s);
    var v := f(r[i][0]);
    if i == |r| - 1 {
      assert Last(r)[0] == r[i][0] && Last(Last(r)) == Last(s);
      if |Last(r)| == 1 {
        assert Front(r) == p;
      } else {
        assert Last(r) == Last(p) + [Last(s)];
        RunIsGroup(f, Front(s), |p| - 1);
      }
    } else {
      assert f(Last(s)) == f(Last(r)[0]);
      assert r[i] == p[i];
      RunIsGroup(f, Front(s), i);
    }
  }

  lemma {:induction false} ContiguousDistinct<A, B>(f: A -> B, s: seq<A>)
    ensures Contiguous(f, s) ==> DistinctRunKeys(f, Runs(f, s))
  {
    if s != [] && Contiguous(f, s) {
      var p := Runs(f, Front(s));
      var r := Runs(f, s);
      ContiguousDistinct(f, Front(s));
      RunsDecompose(f, Front(s));
      if p != [] && f(Last(Front(s))) == f(Last(s)) {
        assert Last(r)[0] == Last(p)[0];
      } else {
        forall i | 0 <= i < |p|
          ensures f(p[i][0]) != f(Last(s))
        {
          RunElementOf(f, Front(s), i);
          var k :| 0 <= k < |Front(s)| && Front(s)[k] == p[i][0];
        }
      }
    }
  }

  lemma {:induction false} RunElementOf<A, B>(f: A -> B, s: seq<A>, i: nat)
    requires i < |Runs(f, s)|
    ensures Runs(f, s)[i][0] in s
  {
    var p := Runs(f, Front(s));
    if i < |p| {
      RunElementOf(f, Front(s), i);
      assert Runs(f, s)[i][0] == p[i][0];
    }
  }

  lemma {:induction false} RunCovers<A, B>(f: A -> B, s: seq<A>, k: nat) returns (i: nat)
    requires k < |s|
    ensures i < |Runs(f, s)| && f(Runs(f, s)[i][0]) == f(s[k])
  {
    var p := Runs(f, Front(s));
    if k < |s| - 1 {
      i := RunCovers(f, Front(s), k);
      assert Runs(f, s)[i][0] == p[i][0];
    } else {
      i := |Runs(f, s)| - 1;
      RunsDecompose(f, s);
      assert Uniform(f, Last(Runs(f, s)));
    }
  }

  lemma LastKeyDiffers<A, B>(f: A -> B, runs: seq<seq<A>>, x: A, i: nat)
    requires (forall j :: 0 <= j < |runs| ==> runs[j] != []) && DistinctRunKeys(f, runs + [[x]]) && i < |runs|
    ensures f(runs[i][0]) != f(x)
  {
    var r := runs + [[x]];
    assert r[i] == runs[i] && r[|runs|] == [x];
  }

  /** A new run's key has not occurred when the runs' keys are distinct. */
  lemma {:induction false} NewKeyIsNew<A, B>(f: A -> B, s: seq<A>, x: A, k: nat)
    requires DistinctRunKeys(f, Runs(f, s) + [[x]]) && k < |s|
    ensures f(s[k]) != f(x)
  {
    var i := RunCovers(f, s, k);
    LastKeyDiffers(f, Runs(f, s), x, i);
  }

  lemma ContiguousSnoc<A, B>(f: A -> B, s: seq<A>, x: A)
    requires Contiguous(f, s)
    requires (forall k :: 0 <= k < |s| ==> f(s[k]) != f(x)) || (s != [] && f(Last(s)) == f(x))
    ensures Contiguous(f, s + [x])
  {}

  lemma DistinctPrefix<A, B>(f: A -> B, p: seq<seq<A>>, r: seq<seq<A>>)
    requires (forall i :: 0 <= i < |p| ==> p[i] != []) && (forall i :: 0 <= i < |r| ==> r[i] != [])
    requires |p| <= |r| && (forall i :: 0 <= i < |p| ==> r[i][0] == p[i][0]) && DistinctRunKeys(f, r)
    ensures DistinctRunKeys(f, p)
  {
    forall i, j | 0 <= i < j < |p| ensures f(p[i][0]) != f(p[j][0]) {
      assert f(r[i][0]) != f(r[j][0]);
    }
  }

  lemma {:induction false} FirstsStay<A, B>(f: A -> B, s: seq<A>, x: A)
    ensures var p, r := Runs(f, s), Runs(f, s + [x]);
            |p| <= |r| && forall i :: 0 <= i < |p| ==> r[i][0] == p[i][0]
  {
    RunsSnoc(f, s, x);
  }

  lemma {:induction false} DistinctFront<A, B>(f: A -> B, s: seq<A>, x: A)
    requires DistinctRunKeys(f, Runs(f, s + [x]))
    ensures DistinctRunKeys(f, Runs(f, s))
  {
    FirstsStay(f, s, x);
    DistinctPrefix(f, Runs(f, s), Runs(f, s + [x]));
  }

  /** Runs have distinct keys exactly when equal keys stand together. */
  lemma {:induction false} DistinctIffContiguous<A, B>(f: A -> B, s: seq<A>)
    ensures DistinctRunKeys(f, Runs(f, s)) <==> Contiguous(f, s)
  {
    ContiguousDistinct(f, s);
    if s != [] && DistinctRunKeys(f, Runs(f, s)) {
      var before, x := Front(s), Last(s);
      FrontLast(s);
      DistinctFront(f, before, x);
      DistinctIffContiguous(f, before);
      RunsSnoc(f, before, x);
      if before == [] || f(Last(before)) != f(x) {
        forall k | 0 <= k < |before| ensures f(before[k]) != f(x) {
          NewKeyIsNew(f, before, x, k);
        }
      }
      ContiguousSnoc(f, before, x);
    }
  }
}
