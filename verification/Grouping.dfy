/** One pass over an interleaved log that keeps, per key, an accumulator for the open run and
    emits a row whenever a run closes. The functions are parameters: `key` splits the log, `group`
    delimits the runs, `acc` is what the accumulator stands for and `emit` the row of a closed run. */
module Grouping {
  import opened Sequences

  /** The rows of all runs but the last; a run's row may look at the element that closed it. */
  function Closed<X, K, R>(emit: (K, X, seq<X>, Option<X>) -> R, k: K, runs: seq<seq<X>>): (r: seq<R>)
    requires forall i :: 0 <= i < |runs| ==> runs[i] != []
    ensures |r| == if runs == [] then 0 else |runs| - 1
  {
    if |runs| < 2 then []
    else
      var run := runs[|runs| - 2];
      Closed(emit, k, Front(runs)) + [emit(k, run[0], run, Some(Last(runs)[0]))]
  }

  /** The rows of all runs, the last one still open. */
  function Emitted<X, K, R>(emit: (K, X, seq<X>, Option<X>) -> R, k: K, runs: seq<seq<X>>): (r: seq<R>)
    requires forall i :: 0 <= i < |runs| ==> runs[i] != []
    ensures |r| == |runs|
  {
    if runs == [] then [] else Closed(emit, k, runs) + [emit(k, Last(runs)[0], Last(runs), None)]
  }

  lemma {:induction false} ClosedAt<X, K, R>(emit: (K, X, seq<X>, Option<X>) -> R, k: K, runs: seq<seq<X>>, i: nat)
    requires i + 1 < |runs| && forall j :: 0 <= j < |runs| ==> runs[j] != []
    ensures Closed(emit, k, runs)[i] == emit(k, runs[i][0], runs[i], Some(runs[i + 1][0]))
  {
    if i + 2 < |runs| {
      ClosedAt(emit, k, Front(runs), i);
    }
  }

  lemma EmittedAt<X, K, R>(emit: (K, X, seq<X>, Option<X>) -> R, k: K, runs: seq<seq<X>>, i: nat)
    requires i < |runs| && forall j :: 0 <= j < |runs| ==> runs[j] != []
    ensures Emitted(emit, k, runs)[i]
         == emit(k, runs[i][0], runs[i], if i + 1 < |runs| then Some(runs[i + 1][0]) else None)
  {
    if i + 1 < |runs| {
      ClosedAt(emit, k, runs, i);
    }
  }

  /** What the pass maintains for one key: closed runs are written, the accumulator stands for the open run. */
  ghost predicate Tracks<X, K, B, S, R>(
    key: X -> K, group: X -> B, acc: (X, seq<X>) -> S, emit: (K, X, seq<X>, Option<X>) -> R, rowKey: R -> K,
    k: K, log: seq<X>, open: map<K, S>, written: seq<R>)
  {
    var runs := Runs(group, Select(key, k, log));
    && (k in open <==> runs != [])
    && Select(rowKey, k, written) == Closed(emit, k, runs)
    && (runs != [] ==> open[k] == acc(Last(runs)[0], Last(runs)))
  }

  lemma {:induction false} RunsExtend<X, B>(group: X -> B, s: seq<X>, x: X)
    ensures Runs(group, s + [x]) ==
            if s != [] && group(Last(Runs(group, s))[0]) == group(x)
            then Front(Runs(group, s)) + [Last(Runs(group, s)) + [x]]
            else Runs(group, s) + [[x]]
  {
    RunsSnoc(group, s, x);
    RunsDecompose(group, s);
    if s != [] {
      assert Uniform(group, Last(Runs(group, s)));
    }
  }

  lemma TracksOther<X, K, B, S, R>(
    key: X -> K, group: X -> B, acc: (X, seq<X>) -> S, emit: (K, X, seq<X>, Option<X>) -> R, rowKey: R -> K,
    k: K, log: seq<X>, open: map<K, S>, written: seq<R>, x: X, state: S, closed: seq<R>)
    requires Tracks(key, group, acc, emit, rowKey, k, log, open, written)
    requires key(x) != k && |closed| <= 1 && (closed != [] ==> rowKey(closed[0]) != k)
    ensures Tracks(key, group, acc, emit, rowKey, k, log + [x], open[key(x) := state], written + closed)
  {
    SelectSnoc(key, k, log, x);
    if closed == [] {
      assert written + closed == written;
    } else {
      assert closed == [closed[0]];
      SelectSnoc(rowKey, k, written, closed[0]);
    }
  }

  /** Growing the last run closes none. */
  lemma {:induction false} ClosedGrows<X, K, R>(emit: (K, X, seq<X>, Option<X>) -> R, k: K, runs: seq<seq<X>>, x: X)
    requires runs != [] && forall i :: 0 <= i < |runs| ==> runs[i] != []
    ensures Closed(emit, k, Front(runs) + [Last(runs) + [x]]) == Closed(emit, k, runs)
  {
    assert Front(Front(runs) + [Last(runs) + [x]]) == Front(runs);
  }

  /** The row continues the open run of its key. */
  lemma {:induction false} TracksGrow<X, K, B, S, R>(
    key: X -> K, group: X -> B, acc: (X, seq<X>) -> S, emit: (K, X, seq<X>, Option<X>) -> R, rowKey: R -> K,
    k: K, log: seq<X>, open: map<K, S>, written: seq<R>, x: X, run: seq<X>)
    requires Tracks(key, group, acc, emit, rowKey, k, log, open, written)
    requires key(x) == k && k in open && run == Last(Runs(group, Select(key, k, log))) && group(run[0]) == group(x)
    ensures Tracks(key, group, acc, emit, rowKey, k, log + [x], open[k := acc(run[0], run + [x])], written)
  {
    var runs := Runs(group, Select(key, k, log));
    SelectSnoc(key, k, log, x);
    RunsExtend(group, Select(key, k, log), x);
    ClosedGrows(emit, k, runs, x);
  }

  /** The row opens a run of its key, closing the previous one if there is one. */
  lemma {:induction false} TracksOpen<X, K, B, S, R>(
    key: X -> K, group: X -> B, acc: (X, seq<X>) -> S, emit: (K, X, seq<X>, Option<X>) -> R, rowKey: R -> K,
    k: K, log: seq<X>, open: map<K, S>, written: seq<R>, x: X, closed: seq<R>)
    requires Tracks(key, group, acc, emit, rowKey, k, log, open, written)
    requires key(x) == k
    requires var runs := Runs(group, Select(key, k, log));
             if runs == [] then closed == []
             else
               && group(Last(runs)[0]) != group(x)
               && closed == [emit(k, Last(runs)[0], Last(runs), Some(x))] && rowKey(closed[0]) == k
    ensures Tracks(key, group, acc, emit, rowKey, k, log + [x], open[k := acc(x, [x])], written + closed)
  {
    var runs := Runs(group, Select(key, k, log));
    SelectSnoc(key, k, log, x);
    RunsExtend(group, Select(key, k, log), x);
    assert Front(runs + [[x]]) == runs;
    if runs == [] {
      assert written + closed == written;
    } else {
      SelectSnoc(rowKey, k, written, closed[0]);
    }
  }
}
