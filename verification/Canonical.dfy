/** Rewriting keys in place under a unique constraint. `key` is the constrained value of a row and
    `norm` rewrites the row; both migrations 0124 and 0127 are instances. */
module Canonical {

  /** No two rows share a key: the unique constraint. */
  ghost predicate Unique<R, K>(key: R -> K, t: map<nat, R>) {
    forall a, b :: a in t && b in t && a != b ==> key(t[a]) != key(t[b])
  }

  /** No two rows share a normal key. */
  ghost predicate UniqueNormal<R, K>(key: R -> K, norm: R -> R, t: map<nat, R>) {
    forall a, b :: a in t && b in t && a != b ==> key(norm(t[a])) != key(norm(t[b]))
  }

  /** Normalising again changes no key, and equal keys normalise alike. */
  ghost predicate Normalizer<R(!new), K>(key: R -> K, norm: R -> R) {
    && (forall r {:trigger norm(norm(r))} :: key(norm(norm(r))) == key(norm(r)))
    && (forall r, s {:trigger norm(r), norm(s)} :: key(r) == key(s) ==> key(norm(r)) == key(norm(s)))
  }

  /** Some rows are rewritten and the others are not yet. */
  ghost predicate Mixed<R>(norm: R -> R, before: map<nat, R>, now: map<nat, R>) {
    now.Keys == before.Keys && forall id :: id in before ==> now[id] == before[id] || now[id] == norm(before[id])
  }

  lemma NormalKeyKept<R(!new), K>(key: R -> K, norm: R -> R, before: R, now: R)
    requires Normalizer(key, norm) && (now == before || now == norm(before))
    ensures key(norm(now)) == key(norm(before))
  {}

  /** Whichever rows are already rewritten, and in whatever order, the unique constraint holds. */
  lemma MixedIsUnique<R(!new), K>(key: R -> K, norm: R -> R, before: map<nat, R>, now: map<nat, R>)
    requires Normalizer(key, norm) && UniqueNormal(key, norm, before) && Mixed(norm, before, now)
    ensures Unique(key, now)
  {
    forall a, b | a in now && b in now && a != b
      ensures key(now[a]) != key(now[b])
    {
      NormalKeyKept(key, norm, before[a], now[a]);
      NormalKeyKept(key, norm, before[b], now[b]);
    }
  }

  lemma UpdatedIsUnique<R(!new), K>(key: R -> K, norm: R -> R, before: map<nat, R>, now: map<nat, R>, done: set<nat>)
    requires Normalizer(key, norm) && UniqueNormal(key, norm, before) && UpdatedBy(norm, before, now, done)
    ensures Unique(key, now)
  {
    MixedIsUnique(key, norm, before, now);
  }

  /** Exactly the rows in `done` are rewritten. */
  ghost predicate UpdatedBy<R>(norm: R -> R, before: map<nat, R>, now: map<nat, R>, done: set<nat>) {
    now.Keys == before.Keys &&
    forall id :: id in before ==> now[id] == if id in done then norm(before[id]) else before[id]
  }

  function IdSet(ids: seq<nat>): set<nat> { set id <- ids }

  lemma IdSetGrows(ids: seq<nat>, i: nat)
    requires i < |ids|
    ensures IdSet(ids[..i + 1]) == IdSet(ids[..i]) + {ids[i]}
  {
    assert ids[..i + 1] == ids[..i] + [ids[i]];
  }

  lemma IdSetAll(ids: seq<nat>)
    ensures IdSet(ids[..|ids|]) == IdSet(ids)
  {
    assert ids[..|ids|] == ids;
  }

  /** The tables after each single delete. */
  ghost predicate DeleteTrace<R>(before: map<nat, R>, ids: seq<nat>, states: seq<map<nat, R>>) {
    |states| == |ids| && forall i :: 0 <= i < |ids| ==> states[i] == before - IdSet(ids[..i + 1])
  }

  /** The tables after each single update. */
  ghost predicate UpdateTrace<R>(norm: R -> R, before: map<nat, R>, ids: seq<nat>, states: seq<map<nat, R>>) {
    |states| == |ids| && forall i :: 0 <= i < |ids| ==> UpdatedBy(norm, before, states[i], IdSet(ids[..i + 1]))
  }

  ghost predicate AllUnique<R, K>(key: R -> K, states: seq<map<nat, R>>) {
    forall i :: 0 <= i < |states| ==> Unique(key, states[i])
  }

  /** A listing of all ids, each once. */
  ghost predicate Lists(order: seq<nat>, ids: set<nat>) {
    && (forall i :: 0 <= i < |order| ==> order[i] in ids)
    && (forall id :: id in ids ==> id in order)
    && (forall i, j :: 0 <= i < j < |order| ==> order[i] != order[j])
  }

  /** No earlier row of the listing has the same normal key. */
  ghost predicate IsFirst<R, K>(key: R -> K, norm: R -> R, t: map<nat, R>, order: seq<nat>, i: nat)
    requires i < |order| && forall j :: 0 <= j < |order| ==> order[j] in t
  {
    forall j :: 0 <= j < i ==> key(norm(t[order[j]])) != key(norm(t[order[i]]))
  }

  /** Row `i` of the listing is a duplicate unless it is first, and an update if it is first and changes. */
  ghost predicate Classified<R, K>(
    key: R -> K, norm: R -> R, t: map<nat, R>, order: seq<nat>, i: nat, duplicates: seq<nat>, updates: seq<nat>)
    requires i < |order| && forall j :: 0 <= j < |order| ==> order[j] in t
  {
    && (order[i] in duplicates <==> !IsFirst(key, norm, t, order, i))
    && (order[i] in updates <==> IsFirst(key, norm, t, order, i) && norm(t[order[i]]) != t[order[i]])
  }

  /** The first `i` rows are classified and nothing else is listed. */
  ghost predicate Scanned<R, K>(
    key: R -> K, norm: R -> R, t: map<nat, R>, order: seq<nat>, i: nat, duplicates: seq<nat>, updates: seq<nat>)
    requires i <= |order| && forall j :: 0 <= j < |order| ==> order[j] in t
  {
    && (forall j :: 0 <= j < i ==> Classified(key, norm, t, order, j, duplicates, updates))
    && (forall j :: i <= j < |order| ==> order[j] !in duplicates && order[j] !in updates)
    && ListsOnce(updates, order)
  }

  /** Distinct members of the listing. */
  ghost predicate ListsOnce(ids: seq<nat>, order: seq<nat>) {
    && (forall k :: 0 <= k < |ids| ==> ids[k] in order)
    && (forall a, b :: 0 <= a < b < |ids| ==> ids[a] != ids[b])
  }

  lemma ListsOnceSnoc(ids: seq<nat>, order: seq<nat>, id: nat)
    requires ListsOnce(ids, order) && id in order && id !in ids
    ensures ListsOnce(ids + [id], order)
  {}

  /** Row `i` is added where it belongs, and the classes of the earlier rows stay. */
  lemma ScanStep<R, K>(
    key: R -> K, norm: R -> R, t: map<nat, R>, order: seq<nat>, i: nat, duplicates: seq<nat>, updates: seq<nat>,
    duplicates': seq<nat>, updates': seq<nat>)
    requires Lists(order, t.Keys) && i < |order| && Scanned(key, norm, t, order, i, duplicates, updates)
    requires duplicates' == if IsFirst(key, norm, t, order, i) then duplicates else duplicates + [order[i]]
    requires updates' == if IsFirst(key, norm, t, order, i) && norm(t[order[i]]) != t[order[i]]
                         then updates + [order[i]]
                         else updates
    ensures Scanned(key, norm, t, order, i + 1, duplicates', updates')
  {
    forall j | 0 <= j <= i ensures Classified(key, norm, t, order, j, duplicates', updates') {
      assert j < i ==> Classified(key, norm, t, order, j, duplicates, updates) && order[j] != order[i];
    }
    ListsOnceStep(updates, updates', order, order[i]);
  }

  lemma ListsOnceStep(ids: seq<nat>, ids': seq<nat>, order: seq<nat>, id: nat)
    requires ListsOnce(ids, order) && id in order && id !in ids && (ids' == ids || ids' == ids + [id])
    ensures ListsOnce(ids', order)
  {
    ListsOnceSnoc(ids, order, id);
  }

  /** The normal keys of the first `i` rows. */
  function SeenKeys<R, K>(key: R -> K, norm: R -> R, t: map<nat, R>, order: seq<nat>, i: nat): set<K>
    requires i <= |order| && forall j :: 0 <= j < |order| ==> order[j] in t
  {
    if i == 0 then {} else SeenKeys(key, norm, t, order, i - 1) + {key(norm(t[order[i - 1]]))}
  }

  lemma {:induction false} SeenKeysAre<R, K>(key: R -> K, norm: R -> R, t: map<nat, R>, order: seq<nat>, i: nat, k: K)
    requires i <= |order| && forall j :: 0 <= j < |order| ==> order[j] in t
    ensures k in SeenKeys(key, norm, t, order, i) <==> exists j :: 0 <= j < i && key(norm(t[order[j]])) == k
  {
    if i > 0 {
      SeenKeysAre(key, norm, t, order, i - 1, k);
    }
  }

  lemma {:induction false} FirstIffUnseen<R, K>(key: R -> K, norm: R -> R, t: map<nat, R>, order: seq<nat>, i: nat)
    requires i < |order| && forall j :: 0 <= j < |order| ==> order[j] in t
    ensures IsFirst(key, norm, t, order, i) <==> key(norm(t[order[i]])) !in SeenKeys(key, norm, t, order, i)
  {
    SeenKeysAre(key, norm, t, order, i, key(norm(t[order[i]])));
  }

  lemma TraceIsUnique<R(!new), K>(
    key: R -> K, norm: R -> R, before: map<nat, R>, ids: seq<nat>, states: seq<map<nat, R>>)
    requires Normalizer(key, norm) && UniqueNormal(key, norm, before) && UpdateTrace(norm, before, ids, states)
    ensures AllUnique(key, states)
  {
    forall i | 0 <= i < |states| ensures Unique(key, states[i]) {
      UpdatedIsUnique(key, norm, before, states[i], IdSet(ids[..i + 1]));
    }
  }

  class KeyedTable<R(==,!new), K(==)> {
    var table: map<nat, R>

    constructor (t: map<nat, R>)
      ensures table == t
    {
      table := t;
    }

    /** Delete rows one by one; `states` are the tables after each statement. */
    method DeleteAll(ghost key: R -> K, ids: seq<nat>) returns (ghost states: seq<map<nat, R>>)
      requires Unique(key, table)
      modifies this
      ensures table == old(table) - IdSet(ids)
      ensures DeleteTrace(old(table), ids, states) && AllUnique(key, states)
    {
      states := [];
      for i := 0 to |ids|
        invariant table == old(table) - IdSet(ids[..i])
        invariant |states| == i && forall j :: 0 <= j < i ==> states[j] == old(table) - IdSet(ids[..j + 1])
      {
        IdSetGrows(ids, i);
        table := table - {ids[i]};
        states := states + [table];
      }
      IdSetAll(ids);
    }

    /** Rewrite rows one by one; `states` are the tables after each statement. */
    method UpdateAll(ghost key: R -> K, norm: R -> R, ids: seq<nat>) returns (ghost states: seq<map<nat, R>>)
      requires Normalizer(key, norm) && UniqueNormal(key, norm, table)
      requires forall i :: 0 <= i < |ids| ==> ids[i] in table
      requires forall i, j :: 0 <= i < j < |ids| ==> ids[i] != ids[j]
      modifies this
      ensures UpdatedBy(norm, old(table), table, IdSet(ids))
      ensures UpdateTrace(norm, old(table), ids, states) && AllUnique(key, states)
    {
      ghost var before := table;
      states := [];
      for i := 0 to |ids|
        invariant UpdatedBy(norm, before, table, IdSet(ids[..i]))
        invariant |states| == i && forall j :: 0 <= j < i ==> UpdatedBy(norm, before, states[j], IdSet(ids[..j + 1]))
      {
        IdSetGrows(ids, i);
        table := table[ids[i] := norm(table[ids[i]])];
        states := states + [table];
      }
      IdSetAll(ids);
      TraceIsUnique(key, norm, before, ids, states);
    }

    /** Scan the listing: rows whose normal key was seen are duplicates, the other changed rows are updates. */
    method Scan(key: R -> K, norm: R -> R, order: seq<nat>) returns (duplicates: seq<nat>, updates: seq<nat>)
      requires Lists(order, table.Keys)
      ensures forall i :: 0 <= i < |order| ==> Classified(key, norm, table, order, i, duplicates, updates)
      ensures ListsOnce(updates, order)
    {
      var seen: set<K> := {};
      duplicates, updates := [], [];
      for i := 0 to |order|
        invariant seen == SeenKeys(key, norm, table, order, i)
        invariant Scanned(key, norm, table, order, i, duplicates, updates)
      {
        var row := table[order[i]];
        FirstIffUnseen(key, norm, table, order, i);
        ghost var d, u := duplicates, updates;
        if key(norm(row)) in seen {
          duplicates := duplicates + [order[i]];
        } else {
          seen := seen + {key(norm(row))};
          if norm(row) != row {
            updates := updates + [order[i]];
          }
        }
        ScanStep(key, norm, table, order, i, d, u, duplicates, updates);
      }
    }

    /** Keep the first row of each normal key and rewrite it: delete first, then rename. `states` are the tables after
        each statement. */
    method Deduplicate(key: R -> K, norm: R -> R, order: seq<nat>)
        returns (ghost states: seq<map<nat, R>>, ghost duplicates: seq<nat>, ghost updates: seq<nat>)
      requires Lists(order, table.Keys) && Unique(key, table) && Normalizer(key, norm)
      modifies this
      ensures table.Keys <= old(table.Keys)
      ensures forall i :: 0 <= i < |order| ==> (order[i] in table <==> IsFirst(key, norm, old(table), order, i))
      ensures forall id :: id in table ==> table[id] == norm(old(table)[id])
      ensures forall i :: 0 <= i < |order| ==> Classified(key, norm, old(table), order, i, duplicates, updates)
      ensures DedupTrace(norm, old(table), duplicates, updates, states, table) && AllUnique(key, states)
    {
      ghost var before := table;
      var d, u := Scan(key, norm, order);
      duplicates, updates := d, u;
      ghost var deleted := DeleteAll(key, d);
      forall i | 0 <= i < |order| ensures order[i] in table <==> IsFirst(key, norm, before, order, i) {
        assert Classified(key, norm, before, order, i, d, u);
      }
      FirstsAreUnique(key, norm, before, table, order);
      forall k | 0 <= k < |u| ensures u[k] in table {
        assert u[k] in order;
        var i :| 0 <= i < |order| && order[i] == u[k];
        assert Classified(key, norm, before, order, i, d, u);
      }
      ghost var renamed := UpdateAll(key, norm, u);
      forall id | id in table ensures table[id] == norm(before[id]) {
        var i :| 0 <= i < |order| && order[i] == id;
        assert Classified(key, norm, before, order, i, d, u);
      }
      states := deleted + renamed;
      JoinTraces(norm, before, d, u, deleted, renamed, table);
    }
  }

  /** Deletes, one table each, then updates, one table each; the last one is the final table. */
  ghost predicate DedupTrace<R>(
    norm: R -> R, before: map<nat, R>, duplicates: seq<nat>, updates: seq<nat>, states: seq<map<nat, R>>,
      after: map<nat, R>)
  {
    && |states| == |duplicates| + |updates|
    && DeleteTrace(before, duplicates, states[..|duplicates|])
    && UpdateTrace(norm, before - IdSet(duplicates), updates, states[|duplicates|..])
    && UpdatedBy(norm, before - IdSet(duplicates), after, IdSet(updates))
  }

  lemma JoinTraces<R>(
    norm: R -> R, before: map<nat, R>, duplicates: seq<nat>, updates: seq<nat>, deleted: seq<map<nat, R>>,
    renamed: seq<map<nat, R>>, after: map<nat, R>)
    requires DeleteTrace(before, duplicates, deleted)
    requires UpdateTrace(norm, before - IdSet(duplicates), updates, renamed)
    requires UpdatedBy(norm, before - IdSet(duplicates), after, IdSet(updates))
    ensures DedupTrace(norm, before, duplicates, updates, deleted + renamed, after)
  {
    var states := deleted + renamed;
    assert states[..|duplicates|] == deleted && states[|duplicates|..] == renamed;
  }

  /** Rows that are first for their normal key have distinct normal keys. */
  lemma FirstsAreUnique<R(!new), K>(key: R -> K, norm: R -> R, before: map<nat, R>, now: map<nat, R>, order: seq<nat>)
    requires Lists(order, before.Keys) && now.Keys <= before.Keys
    requires forall id :: id in now ==> now[id] == before[id]
    requires forall i :: 0 <= i < |order| && order[i] in now ==> IsFirst(key, norm, before, order, i)
    ensures UniqueNormal(key, norm, now)
  {
    forall a, b | a in now && b in now && a != b
      ensures key(norm(now[a])) != key(norm(now[b]))
    {
      var i :| 0 <= i < |order| && order[i] == a;
      var j :| 0 <= j < |order| && order[j] == b;
      assert IsFirst(key, norm, before, order, i) && IsFirst(key, norm, before, order, j);
    }
  }
}
