/** The loops of migrations 0034, 0059 and 0078 over the tag tables. */
module TagBackfill {
  import opened Sequences
  import opened Text
  import opened TagLinks
  import opened TagRows
  import opened TagRoundTrip

  /** `_parse_legacy_tags`. */
  method ParseLegacyTags(raw: Raw) returns (normalized: seq<string>)
    ensures normalized == Parsed(raw) && Clean(normalized)
  {
    normalized := [];
    if raw.Entries? {
      var seen: set<string> := {};
      for i := 0 to |raw.entries|
        invariant normalized == Labels(raw.entries[..i]) && seen == LabelKeys(normalized)
      {
        assert Front(raw.entries[..i + 1]) == raw.entries[..i];
        var found := LabelOf(raw.entries[i]);
        if found.Some? {
          var cleaned := Strip(found.value);
          var key := Lower(cleaned);
          if cleaned != "" && key !in seen {
            LabelKeysSnoc(normalized, cleaned);
            seen := seen + {key};
            normalized := normalized + [cleaned];
          }
        }
      }
      assert raw.entries[..|raw.entries|] == raw.entries;
    }
    ParsedClean(raw);
  }

  /** The definitions table with the lookup cache of one run. */
  class Definitions {
    var rows: seq<Definition>
    var cache: map<Slot, nat>

    /** The cache always agrees with the table. */
    ghost predicate Valid()
      reads this
    {
      forall slot <- cache :: Find(rows, slot) == Some(cache[slot])
    }

    constructor (rows: seq<Definition>)
      ensures Valid() && this.rows == rows && cache == map[]
    {
      this.rows := rows;
      cache := map[];
    }

    /** `_insert_tag_definition`: the slot's definition, inserted only when the table has none. */
    method InsertTagDefinition(kind: Kind, owner: Option<int>, text: string) returns (id: nat)
      requires Valid()
      modifies this
      ensures Valid()
      ensures var slot := Slot(kind, owner, Lower(text));
              Find(rows, slot) == Some(id) &&
              rows == if Find(old(rows), slot).Some? then old(rows) else old(rows) + [Definition(slot, text)]
    {
      var slot := Slot(kind, owner, Lower(text));
      if slot in cache {
        return cache[slot];
      }
      var found := Find(rows, slot);
      if found.Some? {
        cache := cache[slot := found.value];
        return found.value;
      }
      FindSnoc(rows, Definition(slot, text), slot);
      forall other | other in cache ensures Find(rows + [Definition(slot, text)], other) == Some(cache[other]) {
        FindSnoc(rows, Definition(slot, text), other);
      }
      id := |rows|;
      rows := rows + [Definition(slot, text)];
      cache := cache[slot := id];
    }
  }

  ghost predicate IsStop(s: Store, items: seq<Item>, t: Store) {
    exists stop :: CanStop(stop, items) && Stopped(s, items, stop) == t
  }

  lemma StopStays(s: Store, items: seq<Item>, it: Item, t: Store)
    requires IsStop(s, items, t)
    ensures IsStop(s, items + [it], t)
  {
    var stop :| CanStop(stop, items) && Stopped(s, items, stop) == t;
    assert (items + [it])[..stop.n] == items[..stop.n];
    assert CanStop(stop, items + [it]) && Stopped(s, items + [it], stop) == t;
  }

  lemma {:induction false} WritesAreStops(s: Store, items: seq<Item>, it: Item)
    ensures IsStop(s, items + [it], Define(Run(s, items), it)) && IsStop(s, items + [it], Step(Run(s, items), it))
  {
    var longer := items + [it];
    assert longer[..|items|] == items;
    assert longer[..|items| + 1] == longer;
    RunSnoc(s, items, it);
    assert Stopped(s, longer, Stop(|items|, true)) == Define(Run(s, items), it);
    assert Stopped(s, longer, Stop(|items| + 1, false)) == Step(Run(s, items), it);
  }

  /** The tables and, in order, what they were after every single write. */
  datatype Traced = Traced(store: Store, states: seq<Store>)

  function Traces(t: Traced, items: seq<Item>): Traced {
    if items == [] then t else TraceStep(Traces(t, Front(items)), Last(items))
  }

  /** The states after the definition was inserted, if it had to be. */
  function TraceDefine(t: Traced, it: Item): seq<Store> {
    if Find(t.store.definitions, it.slot).Some? then t.states else t.states + [Define(t.store, it)]
  }

  /** And after the link was inserted, if it had to be. */
  function TraceStep(t: Traced, it: Item): Traced {
    Traced(Step(t.store, it),
           if KeyOf(LinkOf(t.store, it)) in Keys(t.store.links) then TraceDefine(t, it)
           else TraceDefine(t, it) + [Step(t.store, it)])
  }

  /** The items from `k` on, done one after the other. */
  function TraceFrom(t: Traced, items: seq<Item>, k: nat): Traced
    requires k <= |items|
    decreases |items| - k
  {
    if k == |items| then t else TraceFrom(TraceStep(t, items[k]), items, k + 1)
  }

  lemma {:induction false} TracesSnoc(t: Traced, items: seq<Item>, it: Item)
    ensures Traces(t, items + [it]) == TraceStep(Traces(t, items), it)
  {
    assert Front(items + [it]) == items;
  }

  lemma {:induction false} TracesConcat(t: Traced, a: seq<Item>, b: seq<Item>)
    ensures Traces(t, a + b) == Traces(Traces(t, a), b)
  {
    if b == [] {
      assert a + b == a;
    } else {
      TracesConcat(t, a, Front(b));
      FrontLast(b);
      assert a + b == (a + Front(b)) + [Last(b)];
      TracesSnoc(t, a + Front(b), Last(b));
      TracesSnoc(Traces(t, a), Front(b), Last(b));
    }
  }

  lemma {:induction false} TraceFromIs(t: Traced, items: seq<Item>, k: nat)
    requires k <= |items|
    ensures TraceFrom(Traces(t, items[..k]), items, k) == Traces(t, items)
    decreases |items| - k
  {
    if k == |items| {
      assert items[..k] == items;
    } else {
      assert items[..k + 1] == items[..k] + [items[k]];
      TracesSnoc(t, items[..k], items[k]);
      TraceFromIs(t, items, k + 1);
    }
  }

  function TraceRow(t: Traced, r: Row): Traced { TraceFrom(t, Items(r), 0) }

  lemma {:induction false} TraceRowIs(t: Traced, r: Row)
    ensures TraceRow(t, r) == Traces(t, Items(r))
  {
    TraceFromIs(t, Items(r), 0);
    assert Items(r)[..0] == [];
  }

  function TraceRows(t: Traced, rows: seq<Row>, i: nat): Traced
    requires i <= |rows|
    decreases |rows| - i
  {
    if i == |rows| then t else TraceRows(TraceRow(t, rows[i]), rows, i + 1)
  }

  lemma {:induction false} AllItemsSnoc(rows: seq<Row>, r: Row)
    ensures AllItems(rows + [r]) == AllItems(rows) + Items(r)
  {
    assert Front(rows + [r]) == rows;
  }

  lemma {:induction false} TraceRowsIs(t: Traced, rows: seq<Row>, i: nat)
    requires i <= |rows|
    ensures TraceRows(Traces(t, AllItems(rows[..i])), rows, i) == Traces(t, AllItems(rows))
    decreases |rows| - i
  {
    if i == |rows| {
      assert rows[..i] == rows;
    } else {
      assert rows[..i + 1] == rows[..i] + [rows[i]];
      AllItemsSnoc(rows[..i], rows[i]);
      TracesConcat(t, AllItems(rows[..i]), Items(rows[i]));
      TraceRowIs(Traces(t, AllItems(rows[..i])), rows[i]);
      TraceRowsIs(t, rows, i + 1);
    }
  }

  lemma {:induction false} AllRowsTraced(t: Traced, rows: seq<Row>)
    ensures TraceRows(t, rows, 0) == Traces(t, AllItems(rows))
  {
    TraceRowsIs(t, rows, 0);
    assert rows[..0] == [];
  }

  /** A trace ends where the run ends. */
  lemma {:induction false} TraceEnds(t: Traced, items: seq<Item>)
    ensures Traces(t, items).store == Run(t.store, items)
  {
    if items != [] {
      TraceEnds(t, Front(items));
    }
  }

  ghost predicate AllStops(s: Store, items: seq<Item>, states: seq<Store>) {
    forall k :: 0 <= k < |states| ==> IsStop(s, items, states[k])
  }

  lemma StopsSnoc(s: Store, items: seq<Item>, states: seq<Store>, t: Store)
    requires AllStops(s, items, states) && IsStop(s, items, t)
    ensures AllStops(s, items, states + [t])
  {}

  lemma StopsStay(s: Store, items: seq<Item>, it: Item, states: seq<Store>)
    requires AllStops(s, items, states)
    ensures AllStops(s, items + [it], states)
  {
    forall k | 0 <= k < |states| ensures IsStop(s, items + [it], states[k]) {
      StopStays(s, items, it, states[k]);
    }
  }

  lemma {:induction false} StopsStep(s: Store, items: seq<Item>, it: Item, t: Traced)
    requires AllStops(s, items, t.states) && t.store == Run(s, items)
    ensures AllStops(s, items + [it], TraceStep(t, it).states)
  {
    StopsStay(s, items, it, t.states);
    WritesAreStops(s, items, it);
    StopsSnoc(s, items + [it], t.states, Define(t.store, it));
    StopsSnoc(s, items + [it], TraceDefine(t, it), Step(t.store, it));
  }

  /** The tables after any single write are those of a stopped run. */
  lemma {:induction false} TraceStops(s: Store, items: seq<Item>)
    ensures AllStops(s, items, Traces(Traced(s, []), items).states)
  {
    if items != [] {
      TraceStops(s, Front(items));
      TraceEnds(Traced(s, []), Front(items));
      FrontLast(items);
      StopsStep(s, Front(items), Last(items), Traces(Traced(s, []), Front(items)));
    }
  }

  /** Running again from the tables after any single write ends where the uninterrupted run ends. */
  lemma {:induction false} AnyWriteMayBeTheLast(s: Store, items: seq<Item>, k: nat)
    requires k < |Traces(Traced(s, []), items).states|
    ensures Run(Traces(Traced(s, []), items).states[k], items) == Run(s, items)
  {
    TraceStops(s, items);
    var t := Traces(Traced(s, []), items).states[k];
    assert IsStop(s, items, t);
    var stop :| CanStop(stop, items) && Stopped(s, items, stop) == t;
    StopAndRunAgain(s, items, stop);
  }

  /** The tables of 0034 while it runs. */
  class Backfill {
    const tags: Definitions
    var links: seq<Link>
    var linked: set<LinkKey>
    ghost var states: seq<Store>

    ghost function Trace(): Traced
      reads this, tags
    {
      Traced(Store(tags.rows, links), states)
    }

    ghost predicate Valid()
      reads this, tags
    {
      tags.Valid() && linked == Keys(links)
    }

    constructor (s: Store)
      ensures Valid() && Trace() == Traced(s, []) && fresh(tags)
    {
      tags := new Definitions(s.definitions);
      links := s.links;
      linked := Keys(s.links);
      states := [];
    }

    /** One label of one parent: definition, then link. */
    method LinkLabel(r: Row, text: string, position: nat, ghost it: Item)
      requires Valid() && it == Item(r.table, r.id, Slot(r.kind, r.owner, Lower(text)), text, position)
      modifies this, tags
      ensures Valid() && Trace() == TraceStep(old(Trace()), it)
    {
      ghost var t := Trace();
      var id := tags.InsertTagDefinition(r.kind, r.owner, text);
      assert Store(tags.rows, links) == Define(t.store, it) && id == TagOf(t.store, it);
      states := TraceDefine(t, it);
      AddLink(LinkKey(r.table, r.id, id), position);
    }

    method AddLink(key: LinkKey, position: nat)
      requires Valid()
      modifies this
      ensures Valid()
      ensures links == if key in Keys(old(links)) then old(links)
              else old(links) + [Link(key.table, key.parent, key.tag, position)]
      ensures states == if key in Keys(old(links)) then old(states) else old(states) + [Store(tags.rows, links)]
    {
      if key !in linked {
        KeysSnoc(links, Link(key.table, key.parent, key.tag, position));
        links := links + [Link(key.table, key.parent, key.tag, position)];
        linked := linked + {key};
        states := states + [Store(tags.rows, links)];
      }
    }

    /** The inner loop: the labels of one parent. */
    method BackfillRow(r: Row)
      requires Valid()
      modifies this, tags
      ensures Valid() && Trace() == TraceRow(old(Trace()), r)
    {
      var labels := ParseLegacyTags(r.raw);
      BackfillLabels(r, labels, Items(r));
    }

    method BackfillLabels(r: Row, labels: seq<string>, ghost items: seq<Item>)
      requires Valid() && |items| == |labels| && forall j :: 0 <= j < |items| ==> items[j] == ItemAt(r, labels, j)
      modifies this, tags
      ensures Valid() && Trace() == TraceFrom(old(Trace()), items, 0)
    {
      for position := 0 to |labels|
        invariant Valid() && TraceFrom(Trace(), items, position) == TraceFrom(old(Trace()), items, 0)
      {
        LinkLabel(r, labels[position], position, items[position]);
      }
    }

    /** The outer loop over the rows of a parent table. */
    method BackfillRows(rows: seq<Row>)
      requires Valid()
      modifies this, tags
      ensures Valid() && Trace() == TraceRows(old(Trace()), rows, 0)
    {
      for i := 0 to |rows|
        invariant Valid() && TraceRows(Trace(), rows, i) == TraceRows(old(Trace()), rows, 0)
      {
        BackfillRow(rows[i]);
      }
    }
  }

  // ----- the four tables -----

  datatype Tagged = Tagged(id: int, raw: Raw)
  datatype Connection = Connection(id: int, creator: Option<int>, shared: bool, raw: Raw)

  function EndpointRow(p: Tagged): Row { Row(StorageEndpoints, p.id, EndpointTag, None, p.raw) }
  function AccountRow(p: Tagged): Row { Row(Accounts, p.id, AdminManaged, None, p.raw) }
  function UserRow(p: Tagged): Row { Row(Users, p.id, AdminManaged, None, p.raw) }

  /** A private connection without creator makes `int(None)` raise. */
  predicate Orphan(c: Connection) { !c.shared && c.creator.None? }

  function ConnectionRow(c: Connection): Row {
    if c.shared then Row(Connections, c.id, AdminManaged, None, c.raw)
    else Row(Connections, c.id, PrivateConnection, c.creator, c.raw)
  }

  /** How many connections are read before one that raises. */
  function Readable(connections: seq<Connection>): (n: nat)
    ensures n <= |connections| && (n < |connections| ==> Orphan(connections[n]))
    ensures forall i :: 0 <= i < n ==> !Orphan(connections[i])
  {
    if connections == [] then 0
    else
      var n := Readable(Front(connections));
      if n == |connections| - 1 && !Orphan(Last(connections)) then n + 1 else n
  }

  function SharedRows(endpoints: seq<Tagged>, accounts: seq<Tagged>, users: seq<Tagged>): seq<Row> {
    Map(EndpointRow, endpoints) + Map(AccountRow, accounts) + Map(UserRow, users)
  }

  /** The rows 0034 gets to. */
  function Rows(endpoints: seq<Tagged>, accounts: seq<Tagged>, users: seq<Tagged>,
      connections: seq<Connection>): seq<Row> {
    SharedRows(endpoints, accounts, users) + Map(ConnectionRow, connections[..Readable(connections)])
  }

  lemma {:induction false} AllItemsConcat(a: seq<Row>, b: seq<Row>)
    ensures AllItems(a + b) == AllItems(a) + AllItems(b)
  {
    if b == [] {
      assert a + b == a;
    } else {
      AllItemsConcat(a, Front(b));
      FrontLast(b);
      assert a + b == (a + Front(b)) + [Last(b)];
      AllItemsSnoc(a + Front(b), Last(b));
      AllItemsSnoc(Front(b), Last(b));
      ConcatAssociates(AllItems(a), AllItems(Front(b)), Items(Last(b)));
    }
  }

  lemma ConcatAssociates<A>(a: seq<A>, b: seq<A>, c: seq<A>)
    ensures (a + b) + c == a + (b + c)
  {}

  lemma {:induction false} RowsConcat(t: Traced, a: seq<Row>, b: seq<Row>)
    ensures Traces(t, AllItems(a + b)) == TraceRows(Traces(t, AllItems(a)), b, 0)
  {
    AllItemsConcat(a, b);
    TracesConcat(t, AllItems(a), AllItems(b));
    AllRowsTraced(Traces(t, AllItems(a)), b);
  }

  /** The loop over the connections, up to one that raises. */
  method BackfillConnections(b: Backfill, connections: seq<Connection>) returns (ok: bool)
    requires b.Valid()
    modifies b, b.tags
    ensures b.Valid() && ok == (Readable(connections) == |connections|)
    ensures b.Trace() == TraceRows(old(b.Trace()), Map(ConnectionRow, connections[..Readable(connections)]), 0)
  {
    ghost var n := Readable(connections);
    ghost var rows := Map(ConnectionRow, connections[..n]);
    var i: nat := 0;
    while i < |connections| && !Orphan(connections[i])
      invariant i <= n && b.Valid() && TraceRows(b.Trace(), rows, i) == TraceRows(old(b.Trace()), rows, 0)
      decreases |connections| - i
    {
      assert rows[i] == ConnectionRow(connections[i]);
      b.BackfillRow(ConnectionRow(connections[i]));
      i := i + 1;
    }
    ok := i == |connections|;
  }

  // ----- whose definitions a parent gets -----

  ghost predicate LeadsTo(s: Store, l: Link, kind: Kind, owner: Option<int>) {
    l.tag < |s.definitions| && s.definitions[l.tag].slot.kind == kind && s.definitions[l.tag].slot.owner == owner
  }

  ghost predicate Lists(parents: seq<Tagged>, id: int) { exists i :: 0 <= i < |parents| && parents[i].id == id }

  /** The link belongs to a parent of its table and leads where that parent's tags belong: endpoints have endpoint tags,
      accounts, users and shared connections those of the administrators, and a private connection its creator's. */
  ghost predicate ScopedLink(s: Store, l: Link, endpoints: seq<Tagged>, accounts: seq<Tagged>, users: seq<Tagged>,
      connections: seq<Connection>)
  {
    match l.table
    case StorageEndpoints => Lists(endpoints, l.parent) && LeadsTo(s, l, EndpointTag, None)
    case Accounts => Lists(accounts, l.parent) && LeadsTo(s, l, AdminManaged, None)
    case Users => Lists(users, l.parent) && LeadsTo(s, l, AdminManaged, None)
    case Connections => exists i :: 0 <= i < |connections| && ScopedConnection(s, l, connections[i])
  }

  ghost predicate ScopedConnection(s: Store, l: Link, c: Connection) {
    && c.id == l.parent
    && if c.shared then LeadsTo(s, l, AdminManaged, None) else LeadsTo(s, l, PrivateConnection, c.creator)
  }

  /** All links that were not there before. */
  ghost predicate Scoped(s: Store, s': Store, endpoints: seq<Tagged>, accounts: seq<Tagged>, users: seq<Tagged>,
      connections: seq<Connection>)
  {
    forall n :: |s.links| <= n < |s'.links| ==> ScopedLink(s', s'.links[n], endpoints, accounts, users, connections)
  }

  /** Where every connection is listed once, a private one's new links lead to its creator's private definitions and a
      shared one's to the administrators'. */
  lemma ConnectionTags(s: Store, s': Store, endpoints: seq<Tagged>, accounts: seq<Tagged>, users: seq<Tagged>,
      connections: seq<Connection>, i: nat, n: nat)
    requires Scoped(s, s', endpoints, accounts, users, connections)
    requires forall a, b :: 0 <= a < b < |connections| ==> connections[a].id != connections[b].id
    requires i < |connections| && |s.links| <= n < |s'.links|
    requires s'.links[n].table == Connections && s'.links[n].parent == connections[i].id
    ensures !connections[i].shared ==> LeadsTo(s', s'.links[n], PrivateConnection, connections[i].creator)
    ensures connections[i].shared ==> LeadsTo(s', s'.links[n], AdminManaged, None)
  {
    assert ScopedLink(s', s'.links[n], endpoints, accounts, users, connections);
    var j :| 0 <= j < |connections| && ScopedConnection(s', s'.links[n], connections[j]);
    assert i == j;
  }

  /** The row of a table for a parent. */
  lemma RowFor(endpoints: seq<Tagged>, accounts: seq<Tagged>, users: seq<Tagged>, connections: seq<Connection>, k: nat)
    requires k < |Rows(endpoints, accounts, users, connections)|
    ensures var r, e, a := Rows(endpoints, accounts, users, connections)[k], |endpoints|, |accounts|;
            if k < e then r == Row(StorageEndpoints, endpoints[k].id, EndpointTag, None, endpoints[k].raw)
            else if k < e + a then r == Row(Accounts, accounts[k - e].id, AdminManaged, None, accounts[k - e].raw)
            else if k < e + a + |users|
            then r == Row(Users, users[k - e - a].id, AdminManaged, None, users[k - e - a].raw)
            else
              var c := k - e - a - |users|;
              c < |connections| &&
              r == Row(Connections, connections[c].id,
                       if connections[c].shared then AdminManaged else PrivateConnection,
                       if connections[c].shared then None else connections[c].creator, connections[c].raw)
  {}

  lemma RowOwner(endpoints: seq<Tagged>, accounts: seq<Tagged>, users: seq<Tagged>, connections: seq<Connection>,
      s: Store, l: nat) returns (r: Row)
    requires var s' := Run(s, AllItems(Rows(endpoints, accounts, users, connections)));
             |s.links| <= l < |s'.links|
    ensures var s' := Run(s, AllItems(Rows(endpoints, accounts, users, connections)));
            && r in Rows(endpoints, accounts, users, connections)
            && s'.links[l].table == r.table && s'.links[l].parent == r.id && LeadsTo(s', s'.links[l], r.kind, r.owner)
  {
    var rows := Rows(endpoints, accounts, users, connections);
    var k := NewLinks(s, AllItems(rows), l);
    var i, j := ItemOfRow(rows, k);
    r := rows[i];
  }

  lemma RowIsScoped(endpoints: seq<Tagged>, accounts: seq<Tagged>, users: seq<Tagged>, connections: seq<Connection>,
      k: nat, s: Store, l: Link)
    requires k < |Rows(endpoints, accounts, users, connections)|
    requires var r := Rows(endpoints, accounts, users, connections)[k];
             l.table == r.table && l.parent == r.id && LeadsTo(s, l, r.kind, r.owner)
    ensures ScopedLink(s, l, endpoints, accounts, users, connections)
  {
    var e, a, u := |endpoints|, |accounts|, |users|;
    RowFor(endpoints, accounts, users, connections, k);
    if k < e {
      assert endpoints[k].id == l.parent;
    } else if k < e + a {
      assert accounts[k - e].id == l.parent;
    } else if k < e + a + u {
      assert users[k - e - a].id == l.parent;
    } else {
      assert ScopedConnection(s, l, connections[k - e - a - u]);
    }
  }

  lemma {:induction false} RunIsScoped(s: Store, endpoints: seq<Tagged>, accounts: seq<Tagged>, users: seq<Tagged>,
      connections: seq<Connection>)
    ensures Scoped(s, Run(s, AllItems(Rows(endpoints, accounts, users, connections))), endpoints, accounts, users,
            connections)
  {
    var rows := Rows(endpoints, accounts, users, connections);
    var s' := Run(s, AllItems(rows));
    forall n | |s.links| <= n < |s'.links|
      ensures ScopedLink(s', s'.links[n], endpoints, accounts, users, connections)
    {
      var r := RowOwner(endpoints, accounts, users, connections, s, n);
      var k :| 0 <= k < |rows| && rows[k] == r;
      RowIsScoped(endpoints, accounts, users, connections, k, s', s'.links[n]);
    }
  }

  // ----- what a parent's links say -----

  ghost predicate AreTexts(raw: Raw, labels: seq<string>, from: seq<nat>) {
    if raw.NoList? then labels == [] && from == [] else AreFirstTexts(raw.entries, labels, from)
  }

  /** The parent's links are, in order and numbered from 0, its list's labels as tags of that kind and owner. */
  ghost predicate Filled(s: Store, table: Table, id: int, kind: Kind, owner: Option<int>, raw: Raw) {
    exists labels, from :: AreTexts(raw, labels, from) && AreLinks(s, LinksOf(s, Who(table, id)), kind, owner, labels)
  }

  ghost predicate AreLinks(s: Store, links: seq<Link>, kind: Kind, owner: Option<int>, labels: seq<string>) {
    && |links| == |labels|
    && forall j :: 0 <= j < |links| ==>
         && links[j].position == j && LeadsTo(s, links[j], kind, owner)
         && IsFolded(labels[j], s.definitions[links[j].tag].slot.key)
  }

  ghost predicate DistinctIds(parents: seq<Tagged>) {
    forall i, j :: 0 <= i < j < |parents| ==> parents[i].id != parents[j].id
  }

  ghost predicate DistinctConnections(connections: seq<Connection>) {
    forall i, j :: 0 <= i < j < |connections| ==> connections[i].id != connections[j].id
  }

  ghost predicate AllFilled(s: Store, endpoints: seq<Tagged>, accounts: seq<Tagged>, users: seq<Tagged>,
      connections: seq<Connection>)
  {
    && (forall p <- endpoints :: Filled(s, StorageEndpoints, p.id, EndpointTag, None, p.raw))
    && (forall p <- accounts :: Filled(s, Accounts, p.id, AdminManaged, None, p.raw))
    && (forall p <- users :: Filled(s, Users, p.id, AdminManaged, None, p.raw))
    && (forall c <- connections ::
          if c.shared then Filled(s, Connections, c.id, AdminManaged, None, c.raw)
          else Filled(s, Connections, c.id, PrivateConnection, c.creator, c.raw))
  }

  lemma {:induction false} RowIsFilled(s: Store, rows: seq<Row>, i: nat)
    requires DistinctRows(rows) && i < |rows| && s.links == []
    ensures var r := rows[i]; Filled(Run(s, AllItems(rows)), r.table, r.id, r.kind, r.owner, r.raw)
  {
    var r, t := rows[i], Run(s, AllItems(rows));
    var links, labels := LinksOf(t, WhoOf(r)), Parsed(r.raw);
    ParentLinks(s, rows, i);
    var from := [];
    if r.raw.Entries? {
      from := LabelsAreFirstTexts(r.raw.entries);
    }
    ParsedClean(r.raw);
    forall j | 0 <= j < |links|
      ensures links[j].position == j && LeadsTo(t, links[j], r.kind, r.owner)
      ensures IsFolded(labels[j], t.definitions[links[j].tag].slot.key)
    {
      assert MadeAs(t.definitions, links[j], Items(r)[j]);
      assert CleanLabel(labels[j]);
      StripOfTrimmed(labels[j]);
      FoldIsFolded(labels[j]);
    }
    assert AreTexts(r.raw, labels, from) && AreLinks(t, links, r.kind, r.owner, labels);
  }

  lemma RowsAreDistinct(endpoints: seq<Tagged>, accounts: seq<Tagged>, users: seq<Tagged>,
      connections: seq<Connection>)
    requires DistinctIds(endpoints) && DistinctIds(accounts) && DistinctIds(users) && DistinctConnections(connections)
    ensures DistinctRows(Rows(endpoints, accounts, users, connections))
  {
    var rows := Rows(endpoints, accounts, users, connections);
    forall i, j | 0 <= i < |rows| && 0 <= j < |rows| && WhoOf(rows[i]) == WhoOf(rows[j]) ensures i == j {
      RowFor(endpoints, accounts, users, connections, i);
      RowFor(endpoints, accounts, users, connections, j);
    }
  }

  lemma {:induction false} RowsAreFilled(s: Store, endpoints: seq<Tagged>, accounts: seq<Tagged>, users: seq<Tagged>,
      connections: seq<Connection>)
    requires s.links == [] && Readable(connections) == |connections|
    requires DistinctIds(endpoints) && DistinctIds(accounts) && DistinctIds(users) && DistinctConnections(connections)
    ensures AllFilled(Run(s, AllItems(Rows(endpoints, accounts, users, connections))), endpoints, accounts, users,
            connections)
  {
    var rows := Rows(endpoints, accounts, users, connections);
    var t, e, a := Run(s, AllItems(rows)), |endpoints|, |accounts|;
    RowsAreDistinct(endpoints, accounts, users, connections);
    forall k | 0 <= k < |rows| ensures var r := rows[k]; Filled(t, r.table, r.id, r.kind, r.owner, r.raw) {
      RowIsFilled(s, rows, k);
    }
    forall p | p in endpoints ensures Filled(t, StorageEndpoints, p.id, EndpointTag, None, p.raw) {
      var k :| 0 <= k < e && endpoints[k] == p;
      RowFor(endpoints, accounts, users, connections, k);
    }
    forall p | p in accounts ensures Filled(t, Accounts, p.id, AdminManaged, None, p.raw) {
      var k :| 0 <= k < a && accounts[k] == p;
      RowFor(endpoints, accounts, users, connections, e + k);
    }
    forall p | p in users ensures Filled(t, Users, p.id, AdminManaged, None, p.raw) {
      var k :| 0 <= k < |users| && users[k] == p;
      RowFor(endpoints, accounts, users, connections, e + a + k);
    }
    forall c | c in connections
      ensures if c.shared then Filled(t, Connections, c.id, AdminManaged, None, c.raw)
              else Filled(t, Connections, c.id, PrivateConnection, c.creator, c.raw)
    {
      var k :| 0 <= k < |connections| && connections[k] == c;
      RowFor(endpoints, accounts, users, connections, e + a + |users| + k);
    }
  }

  /** `upgrade` of 0034, once the tables exist: from tables `s` to `s'`, through `states`. A private
      connection without creator ends the run with an error; what was written until then stays. */
  method Upgrade(s: Store, endpoints: seq<Tagged>, accounts: seq<Tagged>, users: seq<Tagged>,
      connections: seq<Connection>)
      returns (ok: bool, s': Store, ghost states: seq<Store>)
    ensures ok <==> forall i :: 0 <= i < |connections| ==> connections[i].shared || connections[i].creator.Some?
    ensures Scoped(s, s', endpoints, accounts, users, connections)
    ensures ok && s.links == [] && DistinctIds(endpoints) && DistinctIds(accounts) && DistinctIds(users) &&
            DistinctConnections(connections) ==>
              AllFilled(s', endpoints, accounts, users, connections)
    ensures s' == Run(s, AllItems(Rows(endpoints, accounts, users, connections)))
    ensures Traced(s', states) == Traces(Traced(s, []), AllItems(Rows(endpoints, accounts, users, connections)))
    ensures forall k :: 0 <= k < |states| ==>
              Run(states[k], AllItems(Rows(endpoints, accounts, users, connections))) == s'
  {
    var b := new Backfill(s);
    ghost var t := b.Trace();
    var e, a, u := Map(EndpointRow, endpoints), Map(AccountRow, accounts), Map(UserRow, users);
    b.BackfillRows(e);
    AllRowsTraced(t, e);
    b.BackfillRows(a);
    RowsConcat(t, e, a);
    b.BackfillRows(u);
    RowsConcat(t, e + a, u);
    ok := BackfillConnections(b, connections);
    ghost var rows := Rows(endpoints, accounts, users, connections);
    RowsConcat(t, SharedRows(endpoints, accounts, users), Map(ConnectionRow, connections[..Readable(connections)]));
    TraceEnds(t, AllItems(rows));
    s' := Store(b.tags.rows, b.links);
    states := b.states;
    RunIsScoped(s, endpoints, accounts, users, connections);
    if ok && s.links == [] && DistinctIds(endpoints) && DistinctIds(accounts) && DistinctIds(users) &&
      DistinctConnections(connections) {
      RowsAreFilled(s, endpoints, accounts, users, connections);
    }
    forall k | 0 <= k < |states| ensures Run(states[k], AllItems(rows)) == s' {
      AnyWriteMayBeTheLast(s, AllItems(rows), k);
    }
  }

  // ----- 0059 -----

  function AppendFrom(s: Store, items: seq<Item>, k: nat): Store
    requires k <= |items|
    decreases |items| - k
  {
    if k == |items| then s else AppendFrom(Append(s, items[k]), items, k + 1)
  }

  lemma {:induction false} AppendAllSnoc(s: Store, items: seq<Item>, it: Item)
    ensures AppendAll(s, items + [it]) == Append(AppendAll(s, items), it)
  {
    assert Front(items + [it]) == items;
  }

  lemma {:induction false} AppendFromIs(s: Store, items: seq<Item>, k: nat)
    requires k <= |items|
    ensures AppendFrom(AppendAll(s, items[..k]), items, k) == AppendAll(s, items)
    decreases |items| - k
  {
    if k == |items| {
      assert items[..k] == items;
    } else {
      assert items[..k + 1] == items[..k] + [items[k]];
      AppendAllSnoc(s, items[..k], items[k]);
      AppendFromIs(s, items, k + 1);
    }
  }

  function RefillFrom(s: Store, rows: seq<Row>, i: nat): Store
    requires i <= |rows|
    decreases |rows| - i
  {
    if i == |rows| then s else RefillFrom(Refill(s, rows[i]), rows, i + 1)
  }

  lemma {:induction false} RefillAllSnoc(s: Store, rows: seq<Row>, r: Row)
    ensures RefillAll(s, rows + [r]) == Refill(RefillAll(s, rows), r)
  {
    assert Front(rows + [r]) == rows;
  }

  lemma {:induction false} RefillFromIs(s: Store, rows: seq<Row>, i: nat)
    requires i <= |rows|
    ensures RefillFrom(RefillAll(s, rows[..i]), rows, i) == RefillAll(s, rows)
    decreases |rows| - i
  {
    if i == |rows| {
      assert rows[..i] == rows;
    } else {
      assert rows[..i + 1] == rows[..i] + [rows[i]];
      RefillAllSnoc(s, rows[..i], rows[i]);
      RefillFromIs(s, rows, i + 1);
    }
  }

  /** `_parent_has_links`. */
  method ParentHasLinks(links: seq<Link>, who: Who) returns (found: bool)
    ensures found <==> Select(Parent, who, links) != []
  {
    for i := 0 to |links|
      invariant Select(Parent, who, links[..i]) == []
    {
      assert links[..i + 1] == links[..i] + [links[i]];
      SelectSnoc(Parent, who, links[..i], links[i]);
      if Parent(links[i]) == who {
        SelectComplete(Parent, who, links, links[i]);
        return true;
      }
    }
    assert links[..|links|] == links;
    found := false;
  }

  method RefillRow(tags: Definitions, links: seq<Link>, r: Row) returns (links': seq<Link>)
    requires tags.Valid()
    modifies tags
    ensures tags.Valid() && Store(tags.rows, links') == Refill(Store(old(tags.rows), links), r)
  {
    links' := links;
    var linked := ParentHasLinks(links, WhoOf(r));
    if !linked {
      var labels := ParseLegacyTags(r.raw);
      ghost var s, items := Store(tags.rows, links), Items(r);
      for position := 0 to |labels|
        invariant tags.Valid() && AppendFrom(Store(tags.rows, links'), items, position) == AppendFrom(s, items, 0)
      {
        links' := AppendLabel(tags, links', r, labels[position], position, items[position]);
      }
      AppendFromIs(s, items, 0);
      assert items[..0] == [];
    }
  }

  method AppendLabel(tags: Definitions, links: seq<Link>, r: Row, text: string, position: nat, ghost it: Item)
      returns (links': seq<Link>)
    requires tags.Valid() && it == Item(r.table, r.id, Slot(r.kind, r.owner, Lower(text)), text, position)
    modifies tags
    ensures tags.Valid() && Store(tags.rows, links') == Append(Store(old(tags.rows), links), it)
  {
    ghost var s := Store(tags.rows, links);
    var id := tags.InsertTagDefinition(r.kind, r.owner, text);
    assert Store(tags.rows, links) == Define(s, it) && id == TagOf(s, it);
    links' := links + [Link(r.table, r.id, id, position)];
  }

  /** `_backfill_tags_json_links`. */
  method RefillRows(s: Store, rows: seq<Row>) returns (s': Store)
    ensures s' == RefillAll(s, rows)
  {
    var tags := new Definitions(s.definitions);
    var links := s.links;
    for i := 0 to |rows|
      invariant fresh(tags) && tags.Valid() && RefillFrom(Store(tags.rows, links), rows, i) == RefillFrom(s, rows, 0)
    {
      links := RefillRow(tags, links, rows[i]);
    }
    s' := Store(tags.rows, links);
    RefillFromIs(s, rows, 0);
    assert rows[..0] == [];
  }

  // ----- 0078 -----

  function Grouped(s: Store, rows: seq<Link>): map<int, seq<string>> {
    if rows == [] then map[]
    else
      var before, l := Grouped(s, Front(rows)), Last(rows);
      before[l.parent := (if l.parent in before then before[l.parent] else []) + [TextOf(s, l)]]
  }

  /** Each parent's texts, in the order of the listing. */
  lemma {:induction false} GroupedAt(s: Store, rows: seq<Link>, p: int)
    ensures p in Grouped(s, rows) <==> Select(ParentId, p, rows) != []
    ensures p in Grouped(s, rows) ==> Grouped(s, rows)[p] == Texts(s, Select(ParentId, p, rows))
  {
    if rows != [] {
      GroupedAt(s, Front(rows), p);
      if Last(rows).parent == p {
        var mine := Select(ParentId, p, Front(rows));
        assert Texts(s, mine + [Last(rows)]) == Texts(s, mine) + [TextOf(s, Last(rows))];
      }
    }
  }

  method GroupLabels(s: Store, rows: seq<Link>) returns (labels: map<int, seq<string>>)
    ensures labels == Grouped(s, rows)
  {
    labels := map[];
    for i := 0 to |rows|
      invariant labels == Grouped(s, rows[..i])
    {
      assert Front(rows[..i + 1]) == rows[..i];
      var p := rows[i].parent;
      labels := labels[p := (if p in labels then labels[p] else []) + [TextOf(s, rows[i])]];
    }
    assert rows[..|rows|] == rows;
  }

  lemma SomeMember(s: set<int>)
    requires s != {}
    ensures exists p :: p in s
  {
    assert (forall p :: p !in s) ==> s == {};
  }

  /** The reconstruction for one parent table, whose new column holds the empty list everywhere. */
  method Reconstruct(s: Store, table: Table, ids: set<int>) returns (column: map<int, seq<string>>)
    ensures column.Keys == ids && forall p <- ids :: column[p] == Rebuilt(s, Who(table, p))
  {
    var labels := GroupLabels(s, Listing(s, table));
    column := map p | p in ids :: [];
    var left: set<int> := labels.Keys;
    while left != {}
      invariant left <= labels.Keys && column.Keys == ids
      invariant forall p <- ids :: column[p] == if p in labels && p !in left then labels[p] else []
      decreases left
    {
      SomeMember(left);
      var p :| p in left;
      left := left - {p};
      if p in column {
        column := column[p := labels[p]];
      }
    }
    forall p | p in ids ensures column[p] == Rebuilt(s, Who(table, p)) {
      GroupedAt(s, Listing(s, table), p);
    }
  }
}
