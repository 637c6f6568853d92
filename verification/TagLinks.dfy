/** Tag definitions and links (migrations 0034, 0059 and 0078) as values: what one work item of the
    backfill does, and why the backfill can be stopped anywhere and started again. */
module TagLinks {
  import opened Sequences
  import opened Text

  datatype Kind = EndpointTag | AdminManaged | PrivateConnection
  datatype Table = StorageEndpoints | Accounts | Users | Connections

  /** What a definition is looked up by: domain kind, owner and folded label. */
  datatype Slot = Slot(kind: Kind, owner: Option<int>, key: string)
  datatype Definition = Definition(slot: Slot, text: string)

  /** A row of one of the four link tables; `tag` is the definition's position in its table. */
  datatype Link = Link(table: Table, parent: int, tag: nat, position: nat)
  datatype LinkKey = LinkKey(table: Table, parent: int, tag: nat)

  /** Both kinds of tables, rows in the order of their ids. */
  datatype Store = Store(definitions: seq<Definition>, links: seq<Link>)

  /** One label of one parent, at its position. */
  datatype Item = Item(table: Table, parent: int, slot: Slot, text: string, position: nat)

  function KeyOf(l: Link): LinkKey { LinkKey(l.table, l.parent, l.tag) }

  function Keys(links: seq<Link>): set<LinkKey> { set l <- links :: KeyOf(l) }

  lemma KeysSnoc(links: seq<Link>, l: Link)
    ensures Keys(links + [l]) == Keys(links) + {KeyOf(l)}
  {
    forall k | k in Keys(links) + {KeyOf(l)} ensures k in Keys(links + [l]) {
      if k == KeyOf(l) {
        assert l in links + [l];
      } else {
        var m :| m in links && KeyOf(m) == k;
        assert m in links + [l];
      }
    }
  }

  /** The first definition in a slot. */
  function Find(definitions: seq<Definition>, slot: Slot): (r: Option<nat>)
    ensures r.Some? ==> r.value < |definitions| && definitions[r.value].slot == slot
    ensures r.None? ==> forall i :: 0 <= i < |definitions| ==> definitions[i].slot != slot
  {
    if definitions == [] then None
    else
      var r := Find(Front(definitions), slot);
      if r.Some? then r else if Last(definitions).slot == slot then Some(|definitions| - 1) else None
  }

  lemma {:induction false} FindSnoc(definitions: seq<Definition>, d: Definition, slot: Slot)
    ensures Find(definitions + [d], slot) ==
            if Find(definitions, slot).Some? then Find(definitions, slot)
            else if d.slot == slot then Some(|definitions|) else None
  {
    assert Front(definitions + [d]) == definitions;
  }

  /** A definition that was found is found in every longer table. */
  lemma {:induction false} FindStays(definitions: seq<Definition>, longer: seq<Definition>, slot: Slot)
    requires definitions <= longer && Find(definitions, slot).Some?
    ensures Find(longer, slot) == Find(definitions, slot)
    decreases |longer|
  {
    if |definitions| == |longer| {
      assert definitions == longer;
    } else {
      FindStays(definitions, Front(longer), slot);
    }
  }

  // ----- one work item: two writes at most -----

  /** The definition is inserted unless its slot is taken. */
  function Define(s: Store, it: Item): Store {
    if Find(s.definitions, it.slot).Some? then s else s.(definitions := s.definitions + [Definition(it.slot, it.text)])
  }

  /** The definition a slot leads to, once defined. */
  function TagOf(s: Store, it: Item): (id: nat)
    ensures id < |Define(s, it).definitions| && Define(s, it).definitions[id].slot == it.slot
    ensures Find(Define(s, it).definitions, it.slot) == Some(id)
  {
    FindSnoc(s.definitions, Definition(it.slot, it.text), it.slot);
    match Find(s.definitions, it.slot)
    case Some(id) => id
    case None => |s.definitions|
  }

  function LinkOf(s: Store, it: Item): Link { Link(it.table, it.parent, TagOf(s, it), it.position) }

  /** Definition, then link unless the parent has it already. */
  function Step(s: Store, it: Item): Store {
    var t, l := Define(s, it), LinkOf(s, it);
    if KeyOf(l) in Keys(s.links) then t else t.(links := t.links + [l])
  }

  function Run(s: Store, items: seq<Item>): Store {
    if items == [] then s else Step(Run(s, Front(items)), Last(items))
  }

  lemma {:induction false} RunSnoc(s: Store, items: seq<Item>, it: Item)
    ensures Run(s, items + [it]) == Step(Run(s, items), it)
  {
    assert Front(items + [it]) == items;
  }

  lemma {:induction false} RunConcat(s: Store, a: seq<Item>, b: seq<Item>)
    ensures Run(s, a + b) == Run(Run(s, a), b)
  {
    if b == [] {
      assert a + b == a;
    } else {
      RunConcat(s, a, Front(b));
      FrontLast(b);
      assert a + b == (a + Front(b)) + [Last(b)];
      RunSnoc(s, a + Front(b), Last(b));
      RunSnoc(Run(s, a), Front(b), Last(b));
    }
  }

  // ----- stopping and starting again -----

  /** Nothing is ever removed or changed. */
  ghost predicate Grows(s: Store, t: Store) { s.definitions <= t.definitions && s.links <= t.links }

  ghost predicate Done(s: Store, it: Item) {
    Find(s.definitions, it.slot).Some? &&
      LinkKey(it.table, it.parent, Find(s.definitions, it.slot).value) in Keys(s.links)
  }

  lemma KeysGrow(links: seq<Link>, longer: seq<Link>)
    requires links <= longer
    ensures Keys(links) <= Keys(longer)
  {
    forall l | l in links ensures l in longer {
      var i :| 0 <= i < |links| && links[i] == l;
      assert longer[i] == l;
    }
  }

  lemma StepGrows(s: Store, it: Item)
    ensures Grows(s, Define(s, it)) && Grows(s, Step(s, it))
  {}

  lemma {:induction false} RunGrows(s: Store, items: seq<Item>)
    ensures Grows(s, Run(s, items))
  {
    if items != [] {
      RunGrows(s, Front(items));
      StepGrows(Run(s, Front(items)), Last(items));
    }
  }

  lemma DoneStays(s: Store, t: Store, it: Item)
    requires Grows(s, t) && Done(s, it)
    ensures Done(t, it)
  {
    FindStays(s.definitions, t.definitions, it.slot);
    KeysGrow(s.links, t.links);
  }

  lemma StepIsDone(s: Store, it: Item)
    ensures Done(Step(s, it), it)
  {
    KeysSnoc(s.links, LinkOf(s, it));
  }

  lemma DoneIsIdle(s: Store, it: Item)
    requires Done(s, it)
    ensures Step(s, it) == s
  {}

  lemma {:induction false} RunIsDone(s: Store, items: seq<Item>, k: nat)
    requires k < |items|
    ensures Done(Run(s, items), items[k])
  {
    var before := Run(s, Front(items));
    if k == |items| - 1 {
      StepIsDone(before, items[k]);
    } else {
      RunIsDone(s, Front(items), k);
      StepGrows(before, Last(items));
      DoneStays(before, Run(s, items), items[k]);
    }
  }

  lemma {:induction false} DoneRunIsIdle(s: Store, items: seq<Item>)
    requires forall k :: 0 <= k < |items| ==> Done(s, items[k])
    ensures Run(s, items) == s
  {
    if items != [] {
      DoneRunIsIdle(s, Front(items));
      DoneIsIdle(s, Last(items));
    }
  }

  /** Where a run can stop: after `n` items, or after the definition but before the link of item `n`. */
  datatype Stop = Stop(n: nat, defined: bool)

  ghost predicate CanStop(stop: Stop, items: seq<Item>) { stop.n <= |items| && (stop.defined ==> stop.n < |items|) }

  function Stopped(s: Store, items: seq<Item>, stop: Stop): Store
    requires CanStop(stop, items)
  {
    var t := Run(s, items[..stop.n]);
    if stop.defined then Define(t, items[stop.n]) else t
  }

  lemma DefinedStep(s: Store, it: Item)
    ensures Step(Define(s, it), it) == Step(s, it)
  {}

  lemma {:induction false} DefinedRun(s: Store, items: seq<Item>)
    requires items != []
    ensures Run(Define(s, items[0]), items) == Run(s, items)
  {
    var t := Define(s, items[0]);
    assert items == [items[0]] + items[1..];
    RunConcat(s, [items[0]], items[1..]);
    RunConcat(t, [items[0]], items[1..]);
    assert [items[0]] == [] + [items[0]];
    RunSnoc(s, [], items[0]);
    RunSnoc(t, [], items[0]);
    DefinedStep(s, items[0]);
  }

  /** A run after a stop ends where an uninterrupted run ends. */
  lemma {:induction false} StopAndRunAgain(s: Store, items: seq<Item>, stop: Stop)
    requires CanStop(stop, items)
    ensures Run(Stopped(s, items, stop), items) == Run(s, items)
  {
    var done, rest := items[..stop.n], items[stop.n..];
    var u, t := Run(s, done), Stopped(s, items, stop);
    assert items == done + rest;
    RunConcat(s, done, rest);
    RunConcat(t, done, rest);
    forall k | 0 <= k < |done| ensures Done(t, done[k]) {
      RunIsDone(s, done, k);
      if stop.defined {
        StepGrows(u, items[stop.n]);
        DoneStays(u, t, done[k]);
      }
    }
    DoneRunIsIdle(t, done);
    if stop.defined {
      assert rest[0] == items[stop.n];
      DefinedRun(u, rest);
    }
  }

  function StoppedRuns(s: Store, items: seq<Item>, stops: seq<Stop>): Store
    requires forall i :: 0 <= i < |stops| ==> CanStop(stops[i], items)
  {
    if stops == [] then s else Stopped(StoppedRuns(s, items, Front(stops)), items, Last(stops))
  }

  /** Any number of stopped runs and then a complete one: the tables of one complete run. */
  lemma {:induction false} Restartable(s: Store, items: seq<Item>, stops: seq<Stop>)
    requires forall i :: 0 <= i < |stops| ==> CanStop(stops[i], items)
    ensures Run(StoppedRuns(s, items, stops), items) == Run(s, items)
  {
    if stops != [] {
      Restartable(s, items, Front(stops));
      StopAndRunAgain(StoppedRuns(s, items, Front(stops)), items, Last(stops));
    }
  }

  // ----- what every run keeps -----

  /** The two partial unique indexes on definitions. */
  ghost predicate UniqueSlots(definitions: seq<Definition>) {
    forall i, j :: 0 <= i < j < |definitions| ==> definitions[i].slot != definitions[j].slot
  }

  ghost predicate UniqueLinks(links: seq<Link>) {
    forall i, j :: 0 <= i < j < |links| ==> KeyOf(links[i]) != KeyOf(links[j])
  }

  /** A label as the parser leaves it. */
  predicate CleanLabel(l: string) { l != "" && IsTrimmed(l) }

  /** Definitions file their label under its folded form. */
  predicate Filed(d: Definition) { CleanLabel(d.text) && d.slot.key == Lower(d.text) }

  predicate FiledItem(it: Item) { CleanLabel(it.text) && it.slot.key == Lower(it.text) }

  ghost predicate Consistent(s: Store) {
    && UniqueSlots(s.definitions) && UniqueLinks(s.links)
    && (forall i :: 0 <= i < |s.definitions| ==> Filed(s.definitions[i]))
    && TagsExist(s.links, |s.definitions|)
  }

  /** The links' foreign key. */
  ghost predicate TagsExist(links: seq<Link>, n: nat) {
    forall i :: 0 <= i < |links| ==> links[i].tag < n
  }

  lemma DefineKeepsSlots(s: Store, it: Item)
    requires UniqueSlots(s.definitions)
    ensures UniqueSlots(Define(s, it).definitions)
  {}

  lemma DefineKeepsFiled(s: Store, it: Item)
    requires (forall i :: 0 <= i < |s.definitions| ==> Filed(s.definitions[i])) && FiledItem(it)
    ensures forall i :: 0 <= i < |Define(s, it).definitions| ==> Filed(Define(s, it).definitions[i])
  {}

  lemma NewKeyKeepsLinks(links: seq<Link>, l: Link)
    requires UniqueLinks(links) && KeyOf(l) !in Keys(links)
    ensures UniqueLinks(links + [l])
  {
    forall i | 0 <= i < |links| ensures KeyOf(links[i]) != KeyOf(l) {
      assert links[i] in links;
    }
  }

  lemma TagsSnoc(links: seq<Link>, l: Link, n: nat)
    requires TagsExist(links, n) && l.tag < n
    ensures TagsExist(links + [l], n)
  {}

  lemma DefineKeeps(s: Store, it: Item)
    requires Consistent(s) && FiledItem(it)
    ensures Consistent(Define(s, it))
  {
    DefineKeepsSlots(s, it);
    DefineKeepsFiled(s, it);
  }

  lemma StepKeeps(s: Store, it: Item)
    requires Consistent(s) && FiledItem(it)
    ensures Consistent(Define(s, it)) && Consistent(Step(s, it))
  {
    DefineKeeps(s, it);
    var l := LinkOf(s, it);
    if KeyOf(l) !in Keys(s.links) {
      NewKeyKeepsLinks(s.links, l);
      TagsSnoc(s.links, l, |Define(s, it).definitions|);
    }
  }

  /** Constraints hold after every single write, on every run. */
  lemma {:induction false} RunKeeps(s: Store, items: seq<Item>)
    requires Consistent(s) && forall k :: 0 <= k < |items| ==> FiledItem(items[k])
    ensures Consistent(Run(s, items))
  {
    if items != [] {
      RunKeeps(s, Front(items));
      StepKeeps(Run(s, Front(items)), Last(items));
    }
  }

  /** The link was made for the item: its parent, its position, and a definition in the item's slot. */
  ghost predicate MadeFor(l: Link, it: Item, definitions: seq<Definition>) {
    && l.table == it.table && l.parent == it.parent && l.position == it.position
    && l.tag < |definitions| && definitions[l.tag].slot == it.slot
  }

  /** Every new link was made for one of the items. */
  lemma {:induction false} NewLinks(s: Store, items: seq<Item>, i: nat) returns (k: nat)
    requires |s.links| <= i < |Run(s, items).links|
    ensures k < |items| && MadeFor(Run(s, items).links[i], items[k], Run(s, items).definitions)
  {
    var t := Run(s, Front(items));
    RunGrows(s, Front(items));
    if i < |t.links| {
      k := NewLinks(s, Front(items), i);
      StepGrows(t, Last(items));
    } else {
      k := |items| - 1;
    }
  }
}
