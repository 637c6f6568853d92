/** Migration 0059 after 0034, and the tag lists that 0078's downgrade rebuilds from the links. */
module TagRoundTrip {
  import opened Sequences
  import opened Text
  import opened TagLinks
  import opened TagRows

  // ----- 0059: only parents without links -----

  /** Definition and link, without looking for an existing link. */
  function Append(s: Store, it: Item): Store {
    var t := Define(s, it);
    t.(links := t.links + [LinkOf(s, it)])
  }

  function AppendAll(s: Store, items: seq<Item>): Store {
    if items == [] then s else Append(AppendAll(s, Front(items)), Last(items))
  }

  function Refill(s: Store, r: Row): Store {
    if LinksOf(s, WhoOf(r)) != [] then s else AppendAll(s, Items(r))
  }

  function RefillAll(s: Store, rows: seq<Row>): Store {
    if rows == [] then s else Refill(RefillAll(s, Front(rows)), Last(rows))
  }

  /** A finished item has left its parent a link. */
  lemma DoneHasLink(s: Store, it: Item)
    requires Done(s, it)
    ensures LinksOf(s, Who(it.table, it.parent)) != []
  {
    var key := LinkKey(it.table, it.parent, Find(s.definitions, it.slot).value);
    var l :| l in s.links && KeyOf(l) == key;
    SelectComplete(Parent, Who(it.table, it.parent), s.links, l);
  }

  lemma {:induction false} SettledRefill(s: Store, rows: seq<Row>)
    requires forall i, j :: 0 <= i < |rows| && 0 <= j < |Items(rows[i])| ==> Done(s, Items(rows[i])[j])
    ensures RefillAll(s, rows) == s
  {
    if rows != [] {
      var r := Last(rows);
      SettledRefill(s, Front(rows));
      if Items(r) != [] {
        assert Done(s, Items(rows[|rows| - 1])[0]);
        DoneHasLink(s, Items(r)[0]);
      }
    }
  }

  /** After 0034, from whatever tables, 0059 adds nothing. */
  lemma {:induction false} RefillAfterBackfill(s: Store, rows: seq<Row>)
    ensures RefillAll(Run(s, AllItems(rows)), rows) == Run(s, AllItems(rows))
  {
    var t := Run(s, AllItems(rows));
    forall i, j | 0 <= i < |rows| && 0 <= j < |Items(rows[i])| ensures Done(t, Items(rows[i])[j]) {
      var k := RowItem(rows, i, j);
      RunIsDone(s, AllItems(rows), k);
    }
    SettledRefill(t, rows);
  }

  lemma AppendIsStep(s: Store, it: Item)
    requires KeyOf(LinkOf(s, it)) !in Keys(s.links)
    ensures Append(s, it) == Step(s, it)
  {}

  lemma {:induction false} LastIsNew(s: Store, who: Who, before: seq<Item>, it: Item)
    requires LinksOf(s, who) == [] && ItemsOf(before + [it], who)
    ensures KeyOf(LinkOf(Run(s, before), it)) !in Keys(Run(s, before).links)
  {
    var items := before + [it];
    assert forall k :: 0 <= k < |before| ==> before[k] == items[k] && items[k].slot != items[|items| - 1].slot;
    assert items[|items| - 1] == it;
    OwnItems(s, who, before);
    NewSlotNewLink(Run(s, before), who, before, it);
  }

  lemma {:induction false} AppendIsRun(s: Store, who: Who, items: seq<Item>)
    requires LinksOf(s, who) == [] && ItemsOf(items, who)
    ensures AppendAll(s, items) == Run(s, items)
  {
    if items != [] {
      AppendIsRun(s, who, Front(items));
      FrontLast(items);
      LastIsNew(s, who, Front(items), Last(items));
      AppendIsStep(Run(s, Front(items)), Last(items));
    }
  }

  /** On parents that have no links yet, 0059 writes what 0034 writes. */
  lemma {:induction false} RefillIsBackfill(s: Store, rows: seq<Row>)
    requires DistinctRows(rows) && forall i :: 0 <= i < |rows| ==> LinksOf(s, WhoOf(rows[i])) == []
    ensures RefillAll(s, rows) == Run(s, AllItems(rows))
  {
    if rows != [] {
      var before, r := Front(rows), Last(rows);
      RefillIsBackfill(s, before);
      RunConcat(s, AllItems(before), Items(r));
      assert forall i :: 0 <= i < |before| ==> WhoOf(rows[i]) != WhoOf(rows[|rows| - 1]);
      ItemsOfOthers(before, WhoOf(r));
      OtherItems(s, WhoOf(r), AllItems(before));
      assert LinksOf(s, WhoOf(rows[|rows| - 1])) == [];
      ItemsOfRow(r);
      AppendIsRun(Run(s, AllItems(before)), WhoOf(r), Items(r));
    }
  }

  // ----- 0078: the lists rebuilt -----

  function TableOf(l: Link): Table { l.table }
  function ParentId(l: Link): int { l.parent }

  /** `l` sorts before `m` by parent and position; ties are broken by id, so by order of insertion. */
  predicate Before(l: Link, m: Link) { l.parent < m.parent || (l.parent == m.parent && l.position < m.position) }

  function Insert(sorted: seq<Link>, l: Link): seq<Link> {
    if sorted == [] || !Before(l, Last(sorted)) then sorted + [l] else Insert(Front(sorted), l) + [Last(sorted)]
  }

  /** ORDER BY parent, position, id. */
  function Ordered(links: seq<Link>): seq<Link> {
    if links == [] then [] else Insert(Ordered(Front(links)), Last(links))
  }

  lemma {:induction false} InsertOther(sorted: seq<Link>, l: Link, p: int)
    requires l.parent != p
    ensures Select(ParentId, p, Insert(sorted, l)) == Select(ParentId, p, sorted)
  {
    if sorted == [] || !Before(l, Last(sorted)) {
      SelectSnoc(ParentId, p, sorted, l);
    } else {
      InsertOther(Front(sorted), l, p);
      SelectSnoc(ParentId, p, Insert(Front(sorted), l), Last(sorted));
    }
  }

  lemma {:induction false} InsertLast(sorted: seq<Link>, l: Link)
    requires forall m :: m in Select(ParentId, l.parent, sorted) ==> m.position <= l.position
    ensures Select(ParentId, l.parent, Insert(sorted, l)) == Select(ParentId, l.parent, sorted) + [l]
  {
    if sorted == [] || !Before(l, Last(sorted)) {
      SelectSnoc(ParentId, l.parent, sorted, l);
    } else {
      SelectComplete(ParentId, Last(sorted).parent, sorted, Last(sorted));
      assert Last(sorted).parent != l.parent;
      InsertLast(Front(sorted), l);
      SelectSnoc(ParentId, l.parent, Insert(Front(sorted), l), Last(sorted));
    }
  }

  ghost predicate Rising(links: seq<Link>) {
    forall i, j :: 0 <= i < j < |links| ==> links[i].position <= links[j].position
  }

  /** Links that were inserted in the order of their positions come back in that order. */
  lemma {:induction false} OrderedSelect(links: seq<Link>, p: int)
    requires Rising(Select(ParentId, p, links))
    ensures Select(ParentId, p, Ordered(links)) == Select(ParentId, p, links)
  {
    if links != [] {
      var before, l := Front(links), Last(links);
      var mine, all := Select(ParentId, p, before), Select(ParentId, p, links);
      assert forall i :: 0 <= i < |mine| ==> all[i] == mine[i];
      OrderedSelect(before, p);
      if l.parent == p {
        forall m | m in mine ensures m.position <= l.position {
          var i :| 0 <= i < |mine| && mine[i] == m;
          assert all[i].position <= all[|all| - 1].position;
        }
        InsertLast(Ordered(before), l);
      } else {
        InsertOther(Ordered(before), l, p);
      }
    }
  }

  lemma {:induction false} SelectTwice(links: seq<Link>, who: Who)
    ensures Select(ParentId, who.id, Select(TableOf, who.table, links)) == Select(Parent, who, links)
  {
    if links != [] {
      SelectTwice(Front(links), who);
      var ofTable := Select(TableOf, who.table, Front(links));
      SelectSnoc(ParentId, who.id, ofTable, Last(links));
    }
  }

  /** The joined rows of one link table. */
  function Listing(s: Store, table: Table): seq<Link> { Ordered(Select(TableOf, table, s.links)) }

  /** The text behind a link. */
  function TextOf(s: Store, l: Link): string {
    if l.tag < |s.definitions| then s.definitions[l.tag].text else ""
  }

  function Texts(s: Store, links: seq<Link>): (r: seq<string>)
    ensures |r| == |links| && forall i :: 0 <= i < |r| ==> r[i] == TextOf(s, links[i])
  {
    seq(|links|, i requires 0 <= i < |links| => TextOf(s, links[i]))
  }

  /** The list that the downgrade writes for a parent; none when it has no links. */
  function Rebuilt(s: Store, who: Who): seq<string> { Texts(s, Select(ParentId, who.id, Listing(s, who.table))) }

  /** The same labels in the same order, up to case. */
  ghost predicate SameLabels(a: seq<string>, b: seq<string>) {
    |a| == |b| && forall j :: 0 <= j < |a| ==> Lower(a[j]) == Lower(b[j])
  }

  lemma MadeIsRising(definitions: seq<Definition>, links: seq<Link>, r: Row)
    requires Made(definitions, links, Items(r))
    ensures Rising(links)
  {
    forall i | 0 <= i < |links| ensures links[i].position == i {
      assert MadeAs(definitions, links[i], Items(r)[i]);
    }
  }

  lemma MadeIsSame(s: Store, links: seq<Link>, r: Row)
    requires Consistent(s) && Made(s.definitions, links, Items(r))
    ensures SameLabels(Texts(s, links), Parsed(r.raw)) && Clean(Texts(s, links))
  {
    var labels, texts := Parsed(r.raw), Texts(s, links);
    ParsedClean(r.raw);
    forall i | 0 <= i < |links| ensures Lower(texts[i]) == Lower(labels[i]) && CleanLabel(texts[i]) {
      assert MadeAs(s.definitions, links[i], Items(r)[i]);
      assert Filed(s.definitions[links[i].tag]);
    }
    assert forall i, j :: 0 <= i < j < |labels| ==> Lower(labels[i]) != Lower(labels[j]);
  }

  /** Round trip: links made by 0034 in any number of stopped and restarted runs, columns dropped,
      lists rebuilt; every parent has its list again, same labels, same order, up to case. */
  lemma {:induction false} TagsRoundTrip(s: Store, rows: seq<Row>, stops: seq<Stop>, i: nat)
    requires Consistent(s) && s.links == [] && DistinctRows(rows) && i < |rows|
    requires forall k :: 0 <= k < |stops| ==> CanStop(stops[k], AllItems(rows))
    ensures var t := Run(StoppedRuns(s, AllItems(rows), stops), AllItems(rows));
            SameLabels(Rebuilt(t, WhoOf(rows[i])), Parsed(rows[i].raw)) &&
            Parsed(Entries(Map(AsPlain, Rebuilt(t, WhoOf(rows[i]))))) == Rebuilt(t, WhoOf(rows[i]))
  {
    Restartable(s, AllItems(rows), stops);
    AllItemsFiled(rows);
    RunKeeps(s, AllItems(rows));
    var t, who := Run(s, AllItems(rows)), WhoOf(rows[i]);
    ParentLinks(s, rows, i);
    SelectTwice(t.links, who);
    MadeIsRising(t.definitions, LinksOf(t, who), rows[i]);
    OrderedSelect(Select(TableOf, who.table, t.links), who.id);
    MadeIsSame(t, LinksOf(t, who), rows[i]);
    CleanListsReadBack(Rebuilt(t, who));
  }

  /** How the first item in a slot spells its label. */
  function FirstSpelling(items: seq<Item>, slot: Slot): Option<string> {
    if items == [] then None
    else
      var r := FirstSpelling(Front(items), slot);
      if r.Some? then r else if Last(items).slot == slot then Some(Last(items).text) else None
  }

  /** How the definition in a slot spells its label. */
  function Spelled(definitions: seq<Definition>, slot: Slot): Option<string> {
    match Find(definitions, slot)
    case None => None
    case Some(i) => Some(definitions[i].text)
  }

  lemma SpelledStep(t: Store, it: Item, slot: Slot)
    ensures Spelled(Step(t, it).definitions, slot) ==
            if Spelled(t.definitions, slot).Some? then Spelled(t.definitions, slot)
            else if it.slot == slot then Some(it.text) else None
  {
    assert Step(t, it).definitions == Define(t, it).definitions;
    FindSnoc(t.definitions, Definition(it.slot, it.text), slot);
  }

  lemma {:induction false} DefinedAsFirst(s: Store, items: seq<Item>, slot: Slot)
    requires s.definitions == []
    ensures Spelled(Run(s, items).definitions, slot) == FirstSpelling(items, slot)
  {
    if items != [] {
      DefinedAsFirst(s, Front(items), slot);
      SpelledStep(Run(s, Front(items)), Last(items), slot);
    }
  }

  /** A label comes back letter for letter exactly when no earlier parent of the same scope spelled it differently
      first. */
  lemma {:induction false} SpellingSurvives(s: Store, rows: seq<Row>, i: nat, j: nat)
    requires s == Store([], []) && DistinctRows(rows) && i < |rows| && j < |Parsed(rows[i].raw)|
    ensures var rebuilt := Rebuilt(Run(s, AllItems(rows)), WhoOf(rows[i]));
            j < |rebuilt| &&
            (rebuilt[j] == Parsed(rows[i].raw)[j] <==>
             FirstSpelling(AllItems(rows), Items(rows[i])[j].slot) == Some(Parsed(rows[i].raw)[j]))
  {
    var t, who := Run(s, AllItems(rows)), WhoOf(rows[i]);
    ParentLinks(s, rows, i);
    SelectTwice(t.links, who);
    MadeIsRising(t.definitions, LinksOf(t, who), rows[i]);
    OrderedSelect(Select(TableOf, who.table, t.links), who.id);
    assert MadeAs(t.definitions, LinksOf(t, who)[j], Items(rows[i])[j]);
    DefinedAsFirst(s, AllItems(rows), Items(rows[i])[j].slot);
  }
}
