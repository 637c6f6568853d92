/** Migration 0127: trim persisted identities. Everything is validated before the first write, and
    trimming keeps identities unique after every single update. */
module IdentityTrim {
  import opened Sequences
  import opened Text
  import opened Canonical

  /** A row with its unique identity and, for accounts, a second one; None is a value that is not a string. */
  datatype Row = Account(identity: Option<string>, uid: Option<string>) | User(identity: Option<string>)

  function Trim(v: Option<string>): Option<string> {
    if v.Some? then Some(Strip(v.value)) else None
  }

  function KeyOf(r: Row): Option<string> { r.identity }
  function Normal(r: Row): Row {
    if r.Account? then Account(Trim(r.identity), Trim(r.uid)) else User(Trim(r.identity))
  }

  /** `_canonical_identity` accepts a string that is not blank. */
  predicate Accepted(v: Option<string>) {
    v.Some? && Strip(v.value) != ""
  }

  predicate RowAccepted(r: Row) {
    Accepted(r.identity) && (r.Account? ==> Accepted(r.uid))
  }

  /** What 0127 demands of one table before it writes: no missing or blank identity, and no two that trim alike. */
  ghost predicate Valid(t: map<nat, Row>) {
    (forall id :: id in t ==> RowAccepted(t[id])) && UniqueNormal(KeyOf, Normal, t)
  }

  lemma TrimNormalizes()
    ensures Normalizer(KeyOf, Normal)
  {
    forall r: Row ensures KeyOf(Normal(Normal(r))) == KeyOf(Normal(r)) {
      if r.identity.Some? {
        StripIdempotent(r.identity.value);
      }
    }
  }

  /** `TRIM(x)` of SQL, which removes spaces only. */
  predicate SqlTrimmed(s: string) {
    s != "" ==> s[0] != ' ' && s[|s| - 1] != ' '
  }

  /** The check constraints created afterwards: trimmed and not empty. */
  predicate MeetsCheck(v: Option<string>) {
    v.Some? && v.value != "" && SqlTrimmed(v.value)
  }

  lemma TrimIsCanonical(v: Option<string>)
    requires Accepted(v)
    ensures MeetsCheck(Trim(v))
  {
    var _, _ := StripCuts(v.value);
  }

  /** The canonical identity of the j-th row of the listing. */
  function KeyAt(t: map<nat, Row>, order: seq<nat>, j: nat): Option<string>
    requires Lists(order, t.Keys) && j < |order|
  {
    Trim(t[order[j]].identity)
  }

  ghost predicate AcceptedSoFar(t: map<nat, Row>, order: seq<nat>, i: nat)
    requires Lists(order, t.Keys) && i <= |order|
  {
    forall j :: 0 <= j < i ==> RowAccepted(t[order[j]])
  }

  /** Every key so far leads to its row. */
  ghost predicate SeenSoFar(t: map<nat, Row>, order: seq<nat>, i: nat, seen: map<string, nat>)
    requires Lists(order, t.Keys) && i <= |order|
  {
    forall j :: 0 <= j < i ==> var k := KeyAt(t, order, j); k.Some? && k.value in seen && seen[k.value] == order[j]
  }

  /** Every entry stems from a row. */
  ghost predicate SeenOnly(t: map<nat, Row>, order: seq<nat>, i: nat, seen: map<string, nat>)
    requires Lists(order, t.Keys) && i <= |order|
  {
    forall k <- seen :: exists j :: 0 <= j < i && order[j] == seen[k] && KeyAt(t, order, j) == Some(k)
  }

  /** What has been validated so far: rows accepted, keys seen with their row, nothing seen twice. */
  ghost predicate ValidSoFar(t: map<nat, Row>, order: seq<nat>, i: nat, seen: map<string, nat>)
    requires Lists(order, t.Keys) && i <= |order|
  {
    AcceptedSoFar(t, order, i) && SeenSoFar(t, order, i, seen) && SeenOnly(t, order, i, seen)
  }

  lemma SeenStep(t: map<nat, Row>, order: seq<nat>, i: nat, seen: map<string, nat>, k: string)
    requires Lists(order, t.Keys) && i < |order| && SeenSoFar(t, order, i, seen) && KeyAt(t, order, i) == Some(k)
    requires k in seen ==> seen[k] == order[i]
    ensures SeenSoFar(t, order, i + 1, seen[k := order[i]])
  {}

  lemma OnlyStep(t: map<nat, Row>, order: seq<nat>, i: nat, seen: map<string, nat>, k: string)
    requires Lists(order, t.Keys) && i < |order| && SeenOnly(t, order, i, seen) && KeyAt(t, order, i) == Some(k)
    ensures SeenOnly(t, order, i + 1, seen[k := order[i]])
  {
    var seen' := seen[k := order[i]];
    forall key | key in seen'
      ensures exists j :: 0 <= j < i + 1 && order[j] == seen'[key] && KeyAt(t, order, j) == Some(key)
    {
      if key != k {
        var j :| 0 <= j < i && order[j] == seen[key] && KeyAt(t, order, j) == Some(key);
      } else {
        assert KeyAt(t, order, i) == Some(key);
      }
    }
  }

  lemma ValidStep(t: map<nat, Row>, order: seq<nat>, i: nat, seen: map<string, nat>, k: string)
    requires Lists(order, t.Keys) && i < |order| && ValidSoFar(t, order, i, seen) && RowAccepted(t[order[i]])
    requires KeyAt(t, order, i) == Some(k) && (k in seen ==> seen[k] == order[i])
    ensures ValidSoFar(t, order, i + 1, seen[k := order[i]])
  {
    SeenStep(t, order, i, seen, k);
    OnlyStep(t, order, i, seen, k);
  }

  lemma CollisionIsInvalid(t: map<nat, Row>, order: seq<nat>, i: nat, seen: map<string, nat>, k: string)
    requires Lists(order, t.Keys) && i < |order| && SeenOnly(t, order, i, seen)
    requires KeyAt(t, order, i) == Some(k) && k in seen && seen[k] != order[i]
    ensures !Valid(t)
  {
    var j :| 0 <= j < i && order[j] == seen[k] && KeyAt(t, order, j) == Some(k);
    assert KeyOf(Normal(t[seen[k]])) == KeyOf(Normal(t[order[i]]));
  }

  /** Validate one table in listing order: canonical identities, no trim collision. */
  method Validate(t: map<nat, Row>, order: seq<nat>) returns (ok: bool)
    requires Lists(order, t.Keys)
    ensures ok <==> Valid(t)
  {
    var seen: map<string, nat> := map[];
    for i := 0 to |order|
      invariant ValidSoFar(t, order, i, seen)
    {
      var id := order[i];
      if !RowAccepted(t[id]) {
        return false;
      }
      var normalized := Strip(t[id].identity.value);
      if normalized in seen && seen[normalized] != id {
        CollisionIsInvalid(t, order, i, seen, normalized);
        return false;
      }
      ValidStep(t, order, i, seen, normalized);
      seen := seen[normalized := id];
    }
    AllValid(t, order, seen);
    ok := true;
  }

  lemma AllValid(t: map<nat, Row>, order: seq<nat>, seen: map<string, nat>)
    requires Lists(order, t.Keys) && ValidSoFar(t, order, |order|, seen)
    ensures Valid(t)
  {
    forall id | id in t ensures RowAccepted(t[id]) {
      var j :| 0 <= j < |order| && order[j] == id;
    }
    forall a, b | a in t && b in t && a != b
      ensures KeyOf(Normal(t[a])) != KeyOf(Normal(t[b]))
    {
      var i :| 0 <= i < |order| && order[i] == a;
      var j :| 0 <= j < |order| && order[j] == b;
      assert KeyAt(t, order, i).value in seen && KeyAt(t, order, j).value in seen;
    }
  }

  // ----- the same in terms of the texts -----

  /** An identity is there and not blank. */
  predicate IsNamed(v: Option<string>) { v.Some? && exists i :: 0 <= i < |v.value| && !IsSpace(v.value[i]) }

  ghost predicate TrimsTo(v: Option<string>, after: Option<string>) {
    v.Some? && after.Some? && IsTrim(v.value, after.value)
  }

  /** The identity and the uid lose the blanks at their ends and nothing else. */
  ghost predicate IsTrimmedRow(before: Row, after: Row) {
    && TrimsTo(before.identity, after.identity)
    && if before.Account? then after.Account? && TrimsTo(before.uid, after.uid) else after.User?
  }

  /** All identities and uids are there and not blank, and no two identities trim to the same text. */
  ghost predicate IsSound(t: map<nat, Row>) {
    && (forall id :: id in t ==> IsNamed(t[id].identity) && (t[id].Account? ==> IsNamed(t[id].uid)))
    && (forall a, b, text :: a in t && b in t && a != b && TrimsTo(t[a].identity, text) ==>
          !TrimsTo(t[b].identity, text))
  }

  lemma NamedIff(v: Option<string>)
    ensures IsNamed(v) <==> Accepted(v)
  {
    if v.Some? {
      var _, _ := StripCuts(v.value);
    }
  }

  lemma TrimsToIff(v: Option<string>, text: Option<string>)
    requires v.Some?
    ensures TrimsTo(v, text) <==> text == Trim(v)
  {
    StripIsTrim(v.value);
    if TrimsTo(v, text) {
      TrimIsStrip(v.value, text.value);
    }
  }

  lemma ValidIff(t: map<nat, Row>)
    ensures Valid(t) <==> IsSound(t)
  {
    forall v ensures IsNamed(v) <==> Accepted(v) {
      NamedIff(v);
    }
    forall v: Option<string>, text: Option<string> | v.Some? ensures TrimsTo(v, text) <==> text == Trim(v) {
      TrimsToIff(v, text);
    }
    if IsSound(t) {
      forall a, b | a in t && b in t && a != b ensures KeyOf(Normal(t[a])) != KeyOf(Normal(t[b])) {
        assert TrimsTo(t[a].identity, Trim(t[a].identity));
      }
    }
    if Valid(t) {
      forall a, b, text | a in t && b in t && a != b && TrimsTo(t[a].identity, text)
        ensures !TrimsTo(t[b].identity, text)
      {
        assert KeyOf(Normal(t[a])) != KeyOf(Normal(t[b]));
      }
    }
  }

  lemma RenamedIsTrimmed(before: map<nat, Row>, after: map<nat, Row>)
    requires IsSound(before) && Renamed(before, after)
    ensures forall id :: id in before ==> IsTrimmedRow(before[id], after[id])
  {
    forall id | id in before ensures IsTrimmedRow(before[id], after[id]) {
      TrimsToIff(before[id].identity, after[id].identity);
      if before[id].Account? {
        TrimsToIff(before[id].uid, after[id].uid);
      }
    }
  }

  /** The data part of 0127's `upgrade` over accounts and users; the states are the tables after each update, accounts
      first. */
  method UpgradeIdentities(
    accounts: KeyedTable<Row, Option<string>>, accountOrder: seq<nat>,
    users: KeyedTable<Row, Option<string>>, userOrder: seq<nat>)
      returns (ok: bool, ghost accountStates: seq<map<nat, Row>>, ghost userStates: seq<map<nat, Row>>)
    requires accounts != users
    requires Lists(accountOrder, accounts.table.Keys) && Lists(userOrder, users.table.Keys)
    modifies accounts, users
    ensures ok <==> old(Valid(accounts.table)) && old(Valid(users.table))
    ensures ok <==> old(IsSound(accounts.table)) && old(IsSound(users.table))
    ensures !ok ==> accounts.table == old(accounts.table) && users.table == old(users.table)
    ensures !ok ==> accountStates == [] == userStates
    ensures ok ==> Renamed(old(accounts.table), accounts.table) && Renamed(old(users.table), users.table)
    ensures ok ==> forall id :: id in accounts.table ==> IsTrimmedRow(old(accounts.table)[id], accounts.table[id])
    ensures ok ==> forall id :: id in users.table ==> IsTrimmedRow(old(users.table)[id], users.table[id])
    ensures ok ==> UpdateTrace(Normal, old(accounts.table), accountOrder, accountStates)
    ensures ok ==> UpdateTrace(Normal, old(users.table), userOrder, userStates)
    ensures AllUnique(KeyOf, accountStates) && AllUnique(KeyOf, userStates)
  {
    accountStates, userStates := [], [];
    ValidIff(accounts.table);
    ValidIff(users.table);
    var accountsOk := Validate(accounts.table, accountOrder);
    if !accountsOk {
      return false, [], [];
    }
    var usersOk := Validate(users.table, userOrder);
    if !usersOk {
      return false, [], [];
    }
    TrimNormalizes();
    accountStates := accounts.UpdateAll(KeyOf, Normal, accountOrder);
    AllRenamed(old(accounts.table), accounts.table, accountOrder);
    userStates := users.UpdateAll(KeyOf, Normal, userOrder);
    AllRenamed(old(users.table), users.table, userOrder);
    RenamedIsTrimmed(old(accounts.table), accounts.table);
    RenamedIsTrimmed(old(users.table), users.table);
    ok := true;
  }

  /** Every row is trimmed, and the new check constraints hold. */
  ghost predicate Renamed(before: map<nat, Row>, after: map<nat, Row>) {
    && after.Keys == before.Keys
    && forall id :: id in before ==>
         after[id] == Normal(before[id]) && MeetsCheck(after[id].identity) &&
           (after[id].Account? ==> MeetsCheck(after[id].uid))
  }

  lemma AllRenamed(before: map<nat, Row>, after: map<nat, Row>, order: seq<nat>)
    requires Valid(before) && Lists(order, before.Keys) && UpdatedBy(Normal, before, after, IdSet(order))
    ensures Renamed(before, after)
  {
    forall id | id in before
      ensures after[id] == Normal(before[id]) && MeetsCheck(after[id].identity)
      ensures after[id].Account? ==> MeetsCheck(after[id].uid)
    {
      TrimIsCanonical(before[id].identity);
      if before[id].Account? {
        TrimIsCanonical(before[id].uid);
      }
    }
  }
}
