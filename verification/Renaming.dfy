/** Conflict resolution over an abstract renaming scheme: `key` is what must become unique,
    `shared` says which rows are preferred, `rename(id, row, n)` is the n-th new form of a row. */
module Renaming {

  /** No two forms of a row share a key, so a search through them cannot go on for ever. */
  ghost predicate Injective<R, K>(key: R -> K, rename: (nat, R, nat) -> R, id: nat, row: R) {
    forall m: nat, n: nat :: 1 <= m && 1 <= n && key(rename(id, row, m)) == key(rename(id, row, n)) ==> m == n
  }

  lemma {:induction false} SubsetSize<T>(a: set<T>, b: set<T>)
    requires a <= b
    ensures |a| <= |b|
  {
    if a != {} {
      var x :| x in a;
      SubsetSize(a - {x}, b - {x});
    }
  }

  /** The suffix search: the first form whose key is free. */
  method FreshForm<R, K(==)>(key: R -> K, rename: (nat, R, nat) -> R, id: nat, row: R, used: set<K>)
      returns (form: R, ghost n: nat)
    requires Injective(key, rename, id, row)
    ensures n >= 1 && form == rename(id, row, n) && key(form) !in used
    ensures forall m :: 1 <= m < n ==> key(rename(id, row, m)) in used
  {
    form, n := rename(id, row, 1), 1;
    var suffix := 2;
    ghost var tried: set<K> := {};
    while key(form) in used
      invariant n >= 1 && suffix == n + 1 && form == rename(id, row, n)
      invariant tried <= used && |tried| == n - 1
      invariant forall m :: 1 <= m < n ==> key(rename(id, row, m)) in used
      invariant forall k :: k in tried ==> exists m :: 1 <= m < n && k == key(rename(id, row, m))
      decreases |used| - |tried|
    {
      SubsetSize(tried + {key(form)}, used);
      assert key(form) !in tried;
      tried := tried + {key(form)};
      form := rename(id, row, suffix);
      suffix, n := suffix + 1, n + 1;
    }
  }

  /** `a` is preferred to `b`: shared rows first, then the lower id. */
  predicate Preferred<R>(shared: R -> bool, t: map<nat, R>, a: nat, b: nat)
    requires a in t && b in t
  {
    if shared(t[a]) == shared(t[b]) then a < b else shared(t[a])
  }

  /** The row of its group that stays as it is. */
  ghost predicate IsKeeper<R, K>(key: R -> K, shared: R -> bool, t: map<nat, R>, id: nat)
    requires id in t
  {
    forall other :: other in t && other != id && key(t[other]) == key(t[id]) ==> Preferred(shared, t, id, other)
  }

  /** The row's first form whose key was not used when it was renamed. */
  ghost predicate IsForm<R, K>(
    key: R -> K, rename: (nat, R, nat) -> R, id: nat, before: R, after: R, used: set<K>)
  {
    exists n: nat ::
      n >= 1 && after == rename(id, before, n) && forall m: nat :: 1 <= m < n ==> key(rename(id, before, m)) in used
  }

  function KeysOf<R, K>(key: R -> K, t: map<nat, R>): set<K> { set id | id in t :: key(t[id]) }

  ghost predicate Distinct<R, K>(key: R -> K, t: map<nat, R>) {
    forall a, b :: a in t && b in t && a != b ==> key(t[a]) != key(t[b])
  }

  /** Keepers are untouched, every other row takes one of its forms, skipping only keys that are in the table before or
      after, and all keys differ. */
  ghost predicate Resolved<R, K>(
    key: R -> K, shared: R -> bool, rename: (nat, R, nat) -> R, before: map<nat, R>, after: map<nat, R>)
  {
    && after.Keys == before.Keys && Distinct(key, after)
    && (forall id :: id in before ==>
          if IsKeeper(key, shared, before, id) then after[id] == before[id]
          else IsForm(key, rename, id, before[id], after[id], KeysOf(key, before) + KeysOf(key, after)))
  }

  /** Between two updates: `done` are the renamed ids, `used` exactly the keys that were ever in the table. */
  ghost predicate Progress<R, K>(
    key: R -> K, rename: (nat, R, nat) -> R,
    before: map<nat, R>, now: map<nat, R>, done: set<nat>, used: set<K>)
  {
    && now.Keys == before.Keys && done <= before.Keys
    && used == KeysOf(key, before) + KeysOf(key, now)
    && (forall id :: id in before && id !in done ==> now[id] == before[id])
    && (forall id :: id in done ==> IsForm(key, rename, id, before[id], now[id], used))
    && (forall a, b :: a in done && b in before && a != b ==> key(now[a]) != key(now[b]))
  }

  /** Every single update keeps the renamed keys apart from all keys in the table. */
  lemma ProgressStep<R, K>(
    key: R -> K, rename: (nat, R, nat) -> R,
    before: map<nat, R>, now: map<nat, R>, done: set<nat>, used: set<K>, id: nat, form: R)
    requires Progress(key, rename, before, now, done, used)
    requires id in before && id !in done
    requires IsForm(key, rename, id, before[id], form, used) && key(form) !in used
    ensures Progress(key, rename, before, now[id := form], done + {id}, used + {key(form)})
  {
    var now', used' := now[id := form], used + {key(form)};
    KeysAfterUpdate(key, before, now, id, form);
    forall other | other in done + {id} ensures IsForm(key, rename, other, before[other], now'[other], used') {
      FormsStay(key, rename, other, before[other], now'[other], used, used');
    }
    KeysStayApart(key, before, now, done, used, id, form);
  }

  lemma KeysStayApart<R, K>(
    key: R -> K, before: map<nat, R>, now: map<nat, R>, done: set<nat>, used: set<K>, id: nat, form: R)
    requires now.Keys == before.Keys && done <= before.Keys && id in before && id !in done
    requires used == KeysOf(key, before) + KeysOf(key, now)
    requires forall a, b :: a in done && b in before && a != b ==> key(now[a]) != key(now[b])
    requires key(form) !in used
    ensures var now' := now[id := form];
            forall a, b :: a in done + {id} && b in before && a != b ==> key(now'[a]) != key(now'[b])
  {
    forall other | other in now ensures key(now[other]) in used {
      assert key(now[other]) in KeysOf(key, now);
    }
  }

  lemma FormsStay<R, K>(
    key: R -> K, rename: (nat, R, nat) -> R, id: nat, before: R, after: R, used: set<K>, used': set<K>)
    requires IsForm(key, rename, id, before, after, used) && used <= used'
    ensures IsForm(key, rename, id, before, after, used')
  {}

  lemma KeysAfterUpdate<R, K>(key: R -> K, before: map<nat, R>, now: map<nat, R>, id: nat, form: R)
    requires id in before && id in now && now[id] == before[id]
    ensures KeysOf(key, before) + KeysOf(key, now[id := form]) ==
            KeysOf(key, before) + KeysOf(key, now) + {key(form)}
  {
    var now' := now[id := form];
    assert key(before[id]) in KeysOf(key, before) && now'[id] == form;
    forall k | k in KeysOf(key, now) ensures k in KeysOf(key, before) + KeysOf(key, now') {
      var other :| other in now && key(now[other]) == k;
      if other != id {
        assert now'[other] == now[other];
      }
    }
    forall k | k in KeysOf(key, now') ensures k in KeysOf(key, now) + {key(form)} {
      var other :| other in now' && key(now'[other]) == k;
      assert other == id || now'[other] == now[other];
    }
    assert key(now'[id]) == key(form) && id in now';
  }

  lemma {:induction false} LeastExists(ids: set<nat>) returns (m: nat)
    requires ids != {}
    ensures m in ids && forall x :: x in ids ==> m <= x
  {
    var y :| y in ids;
    m := y;
    if ids != {y} {
      var rest := LeastExists(ids - {y});
      m := if rest < y then rest else y;
      assert forall x :: x in ids ==> x == y || x in ids - {y};
    }
  }

  function Least(ids: set<nat>): (m: nat)
    requires ids != {}
    ensures m in ids && forall x :: x in ids ==> m <= x
  {
    assert exists m :: m in ids && forall x :: x in ids ==> m <= x by {
      var m := LeastExists(ids);
    }
    var m :| m in ids && forall x :: x in ids ==> m <= x;
    m
  }

  /** The ids of one group. */
  function Group<R, K(==)>(key: R -> K, t: map<nat, R>, k: K): set<nat> {
    set id | id in t && key(t[id]) == k
  }

  /** `min(shared or items)`: the lowest shared id, or the lowest id when none is shared. */
  function KeeperOf<R>(shared: R -> bool, t: map<nat, R>, items: set<nat>): (id: nat)
    requires items != {} && items <= t.Keys
    ensures id in items && forall other :: other in items && other != id ==> Preferred(shared, t, id, other)
  {
    var preferred := set id | id in items && shared(t[id]);
    assert forall id :: id in items ==> (id in preferred <==> shared(t[id]));
    if preferred != {} then Least(preferred) else Least(items)
  }

  lemma KeeperIsKeeper<R, K>(key: R -> K, shared: R -> bool, t: map<nat, R>, k: K, id: nat)
    requires id in Group(key, t, k)
    ensures IsKeeper(key, shared, t, id) <==> id == KeeperOf(shared, t, Group(key, t, k))
  {
    var keeper := KeeperOf(shared, t, Group(key, t, k));
    if id != keeper {
      assert Preferred(shared, t, keeper, id) && !Preferred(shared, t, id, keeper);
    }
  }

  /** The row is its group's keeper, as the migration computes it. */
  predicate Keeps<R, K(==)>(key: R -> K, shared: R -> bool, t: map<nat, R>, id: nat)
    requires id in t
  {
    assert id in Group(key, t, key(t[id]));
    id == KeeperOf(shared, t, Group(key, t, key(t[id])))
  }

  lemma AllRenamed<R, K>(
    key: R -> K, shared: R -> bool, rename: (nat, R, nat) -> R,
    before: map<nat, R>, now: map<nat, R>, done: set<nat>, used: set<K>)
    requires Progress(key, rename, before, now, done, used)
    requires forall id :: id in before ==> (id in done <==> !Keeps(key, shared, before, id))
    ensures Resolved(key, shared, rename, before, now)
  {
    forall id | id in before ensures IsKeeper(key, shared, before, id) <==> id !in done {
      KeeperIsKeeper(key, shared, before, key(before[id]), id);
    }
    forall a, b | a in now && b in now && a != b
      ensures key(now[a]) != key(now[b])
    {
      if a !in done && b !in done {
        assert IsKeeper(key, shared, before, a) && IsKeeper(key, shared, before, b);
      }
    }
  }

  lemma SingletonKeeps<R, K>(key: R -> K, shared: R -> bool, t: map<nat, R>, k: K)
    requires |Group(key, t, k)| < 2
    ensures forall id :: id in t && key(t[id]) == k ==> Keeps(key, shared, t, id)
  {
    var group := Group(key, t, k);
    forall id | id in t && key(t[id]) == k
      ensures Keeps(key, shared, t, id)
    {
      assert id in group;
      var keeper := KeeperOf(shared, t, group);
      if keeper != id {
        SubsetSize({id, keeper}, group);
      }
    }
  }

  class Definitions<R, K(==)> {
    var table: map<nat, R>

    constructor (t: map<nat, R>)
      ensures table == t
    {
      table := t;
    }

    /** Give one row its first free form: a single update of the table. */
    method RenameOne(
      key: R -> K, rename: (nat, R, nat) -> R, rows: map<nat, R>, id: nat, used: set<K>,
      ghost done: set<nat>) returns (used': set<K>)
      requires id in rows && id !in done && Injective(key, rename, id, rows[id])
      requires Progress(key, rename, rows, table, done, used)
      modifies this
      ensures Progress(key, rename, rows, table, done + {id}, used')
    {
      var form, n := FreshForm(key, rename, id, rows[id], used);
      assert IsForm(key, rename, id, rows[id], form, used);
      ProgressStep(key, rename, rows, table, done, used, id, form);
      table := table[id := form];
      used' := used + {key(form)};
    }

    /** Rename one row of a group, unless it is the keeper. */
    method RenameItem(
      key: R -> K, rename: (nat, R, nat) -> R, rows: map<nat, R>, id: nat, keeper: nat, used: set<K>,
      ghost done: set<nat>) returns (used': set<K>, ghost done': set<nat>)
      requires id in rows && id !in done && Injective(key, rename, id, rows[id])
      requires Progress(key, rename, rows, table, done, used)
      modifies this
      ensures Progress(key, rename, rows, table, done', used')
      ensures done' == done + ({id} - {keeper})
    {
      used', done' := used, done;
      if id != keeper {
        used' := RenameOne(key, rename, rows, id, used, done);
        done' := done + {id};
      }
    }

    /** Rename every row of one group but its keeper, in any order. */
    method RenameGroup(
      key: R -> K, rename: (nat, R, nat) -> R, rows: map<nat, R>, group: set<nat>, keeper: nat, used: set<K>,
      ghost done: set<nat>) returns (used': set<K>, ghost done': set<nat>)
      requires group <= rows.Keys && forall id :: id in rows ==> Injective(key, rename, id, rows[id])
      requires Progress(key, rename, rows, table, done, used) && group !! done
      modifies this
      ensures Progress(key, rename, rows, table, done', used')
      ensures done' == done + (group - {keeper})
    {
      used', done' := used, done;
      var items := group;
      while items != {}
        invariant items <= group && Progress(key, rename, rows, table, done', used')
        invariant done' == done + (group - items - {keeper})
        decreases items
      {
        var id :| id in items;
        used', done' := RenameItem(key, rename, rows, id, keeper, used', done');
        items := items - {id};
      }
    }

    /** The conflicts of one key: all rows of its group but the keeper get another name. */
    method RenameKey(
      key: R -> K, shared: R -> bool, rename: (nat, R, nat) -> R, rows: map<nat, R>, k: K, used: set<K>,
      ghost pending: set<K>, ghost done: set<nat>) returns (used': set<K>, ghost done': set<nat>)
      requires forall id :: id in rows ==> Injective(key, rename, id, rows[id])
      requires Progress(key, rename, rows, table, done, used)
      requires k in pending && Settles(key, shared, rows, done, pending)
      modifies this
      ensures Progress(key, rename, rows, table, done', used') && Settles(key, shared, rows, done', pending - {k})
    {
      used', done' := used, done;
      var group := Group(key, rows, k);
      if |group| >= 2 {
        var keeper := KeeperOf(shared, rows, group);
        used', done' := RenameGroup(key, rename, rows, group, keeper, used, done);
      } else {
        SingletonKeeps(key, shared, rows, k);
      }
    }

    /** `_rename_conflicts`. */
    method RenameConflicts(key: R -> K, shared: R -> bool, rename: (nat, R, nat) -> R)
      requires forall id :: id in table ==> Injective(key, rename, id, table[id])
      modifies this
      ensures Resolved(key, shared, rename, old(table), table)
    {
      var rows := table;
      var used := set id | id in rows :: key(rows[id]);
      var pending := used;
      ghost var done: set<nat> := {};
      while pending != {}
        invariant Progress(key, rename, rows, table, done, used)
        invariant Settles(key, shared, rows, done, pending)
        decreases pending
      {
        var k :| k in pending;
        used, done := RenameKey(key, shared, rename, rows, k, used, pending, done);
        pending := pending - {k};
      }
      AllRenamed(key, shared, rename, rows, table, done, used);
    }
  }

  /** Of the groups whose key is no longer pending, all rows but the keeper are renamed. */
  ghost predicate Settles<R, K>(key: R -> K, shared: R -> bool, rows: map<nat, R>, done: set<nat>, pending: set<K>) {
    forall id :: id in rows ==> (id in done <==> key(rows[id]) !in pending && !Keeps(key, shared, rows, id))
  }
}
