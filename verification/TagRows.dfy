/** Legacy tag lists, the links they become, and the lists rebuilt from the links. */
module TagRows {
  import opened Sequences
  import opened Text
  import opened TagLinks

  // ----- _parse_legacy_tags -----

  /** An element of the decoded JSON array; an object may carry a text under "label". */
  datatype Entry = Plain(text: string) | Object(value: Option<string>) | Other

  /** The column: an array, or anything the parser treats as empty (null, broken JSON, another value). */
  datatype Raw = NoList | Entries(entries: seq<Entry>)

  function LabelOf(e: Entry): Option<string> {
    match e
    case Plain(t) => Some(t)
    case Object(v) => v
    case Other => None
  }

  function LabelKeys(labels: seq<string>): set<string> { set l <- labels :: Lower(l) }

  /** The label an entry adds after `labels`. */
  function NewLabel(labels: seq<string>, e: Entry): Option<string> {
    match LabelOf(e)
    case None => None
    case Some(t) => if Strip(t) == "" || Lower(Strip(t)) in LabelKeys(labels) then None else Some(Strip(t))
  }

  function Labels(entries: seq<Entry>): seq<string> {
    if entries == [] then []
    else
      var labels := Labels(Front(entries));
      match NewLabel(labels, Last(entries))
      case None => labels
      case Some(l) => labels + [l]
  }

  function Parsed(raw: Raw): seq<string> {
    match raw
    case NoList => []
    case Entries(entries) => Labels(entries)
  }

  /** Trimmed, not empty, no two alike up to case. */
  ghost predicate Clean(labels: seq<string>) {
    && (forall i :: 0 <= i < |labels| ==> CleanLabel(labels[i]))
    && (forall i, j :: 0 <= i < j < |labels| ==> Lower(labels[i]) != Lower(labels[j]))
  }

  lemma {:induction false} LabelKeysSnoc(labels: seq<string>, l: string)
    ensures LabelKeys(labels + [l]) == LabelKeys(labels) + {Lower(l)}
  {
    forall k | k in LabelKeys(labels) + {Lower(l)} ensures k in LabelKeys(labels + [l]) {
      if k == Lower(l) {
        assert l in labels + [l];
      } else {
        var m :| m in labels && Lower(m) == k;
        assert m in labels + [l];
      }
    }
  }

  lemma {:induction false} CleanSnoc(labels: seq<string>, l: string)
    requires Clean(labels) && CleanLabel(l) && Lower(l) !in LabelKeys(labels)
    ensures Clean(labels + [l])
  {
    assert forall i :: 0 <= i < |labels| ==> labels[i] in labels && Lower(labels[i]) in LabelKeys(labels);
  }

  lemma NewLabelClean(labels: seq<string>, e: Entry)
    requires NewLabel(labels, e).Some?
    ensures CleanLabel(NewLabel(labels, e).value) && Lower(NewLabel(labels, e).value) !in LabelKeys(labels)
  {
    var _, _ := StripCuts(LabelOf(e).value);
  }

  lemma {:induction false} LabelsClean(entries: seq<Entry>)
    ensures Clean(Labels(entries))
  {
    if entries != [] {
      var labels := Labels(Front(entries));
      LabelsClean(Front(entries));
      if NewLabel(labels, Last(entries)).Some? {
        NewLabelClean(labels, Last(entries));
        CleanSnoc(labels, NewLabel(labels, Last(entries)).value);
      }
    }
  }

  lemma ParsedClean(raw: Raw)
    ensures Clean(Parsed(raw))
  {
    if raw.Entries? {
      LabelsClean(raw.entries);
    }
  }

  /** No label is lost: every non-blank one is kept, up to case. */
  lemma {:induction false} LabelsComplete(entries: seq<Entry>, i: nat)
    requires i < |entries| && LabelOf(entries[i]).Some? && !IsBlank(LabelOf(entries[i]).value)
    ensures Lower(Strip(LabelOf(entries[i]).value)) in LabelKeys(Labels(entries))
  {
    var labels := Labels(Front(entries));
    var t := LabelOf(entries[i]).value;
    var added := NewLabel(labels, Last(entries));
    if added.Some? {
      LabelKeysSnoc(labels, added.value);
    }
    if i < |entries| - 1 {
      LabelsComplete(Front(entries), i);
    } else {
      var _, _ := StripCuts(t);
    }
  }

  ghost predicate Says(e: Entry, raw: string) { e == Plain(raw) || e == Object(Some(raw)) }

  /** The label is the trimmed text of this entry. */
  ghost predicate IsTextOf(e: Entry, l: string) { l != "" && exists raw :: Says(e, raw) && IsTrim(raw, l) }

  /** The label of that text, up to case, comes from entry `i` or an earlier one. */
  ghost predicate IsCovered(labels: seq<string>, from: seq<nat>, i: nat, raw: string)
    requires |from| == |labels|
  {
    exists k :: 0 <= k < |labels| && from[k] <= i && SameLabel(labels[k], raw)
  }

  /** The labels are the trimmed texts in the order and spelling of their first appearance: label `k` is the text of
      entry `from[k]`, every text that is not blank has a label from there or before, and no two labels are the same up
      to case. */
  ghost predicate AreFirstTexts(entries: seq<Entry>, labels: seq<string>, from: seq<nat>) {
    && |from| == |labels|
    && (forall j, k :: 0 <= j < k < |from| ==> from[j] < from[k])
    && (forall k :: 0 <= k < |from| ==> from[k] < |entries| && IsTextOf(entries[from[k]], labels[k]))
    && (forall i, raw :: 0 <= i < |entries| && Says(entries[i], raw) && !IsBlank(raw) ==>
          IsCovered(labels, from, i, raw))
    && (forall j, k :: 0 <= j < k < |labels| ==> !SameLabel(labels[j], labels[k]))
  }

  lemma {:induction false} LabelsAreFirstTexts(entries: seq<Entry>) returns (from: seq<nat>)
    ensures AreFirstTexts(entries, Labels(entries), from)
  {
    from := [];
    if entries != [] {
      var labels, n := Labels(Front(entries)), |entries| - 1;
      from := LabelsAreFirstTexts(Front(entries));
      LabelsClean(Front(entries));
      FirstTextsStay(entries, labels, from);
      match NewLabel(labels, entries[n]) {
        case None =>
          if LabelOf(entries[n]).Some? {
            NoNewText(labels, from, entries[n], LabelOf(entries[n]).value, n);
          }
        case Some(l) =>
          NewText(labels, from, entries[n], LabelOf(entries[n]).value, l, n);
          AddText(entries, labels, from, l);
          from := from + [n];
      }
    }
  }

  /** The labels of all but the last entry, seen from the whole list. */
  ghost predicate AreFirstTextsBut(entries: seq<Entry>, labels: seq<string>, from: seq<nat>) {
    && entries != [] && |from| == |labels|
    && (forall j, k :: 0 <= j < k < |from| ==> from[j] < from[k])
    && (forall k :: 0 <= k < |from| ==> from[k] < |entries| - 1 && IsTextOf(entries[from[k]], labels[k]))
    && (forall i, raw :: 0 <= i < |entries| - 1 && Says(entries[i], raw) && !IsBlank(raw) ==>
          IsCovered(labels, from, i, raw))
    && (forall j, k :: 0 <= j < k < |labels| ==> !SameLabel(labels[j], labels[k]))
  }

  lemma FirstTextsStay(entries: seq<Entry>, labels: seq<string>, from: seq<nat>)
    requires entries != [] && AreFirstTexts(Front(entries), labels, from)
    ensures AreFirstTextsBut(entries, labels, from)
  {
    var front := Front(entries);
    assert forall i :: 0 <= i < |front| ==> front[i] == entries[i];
  }

  /** A clean label is the same as a text exactly when it folds to the text's key. */
  lemma {:induction false} CleanIsSame(l: string, raw: string)
    requires CleanLabel(l)
    ensures SameLabel(l, raw) <==> Lower(l) == Lower(Strip(raw))
  {
    StripOfTrimmed(l);
    SameLabelIff(l, raw);
  }

  lemma NoNewText(labels: seq<string>, from: seq<nat>, e: Entry, text: string, i: nat)
    requires |from| == |labels| && NewLabel(labels, e).None? && LabelOf(e) == Some(text) && Clean(labels)
    requires forall k :: 0 <= k < |from| ==> from[k] <= i
    ensures !IsBlank(text) ==> IsCovered(labels, from, i, text)
    ensures forall raw :: Says(e, raw) ==> raw == text
  {
    if !IsBlank(text) {
      var _, _ := StripCuts(text);
      var l :| l in labels && Lower(l) == Lower(Strip(text));
      var k :| 0 <= k < |labels| && labels[k] == l;
      assert CleanLabel(labels[k]);
      CleanIsSame(l, text);
    }
  }

  lemma NewText(labels: seq<string>, from: seq<nat>, e: Entry, text: string, l: string, i: nat)
    requires NewLabel(labels, e) == Some(l) && LabelOf(e) == Some(text) && Clean(labels)
    ensures IsTextOf(e, l) && SameLabel(l, text) && forall raw :: Says(e, raw) ==> raw == text
    ensures forall k :: 0 <= k < |labels| ==> !SameLabel(labels[k], l)
  {
    StripIsTrim(text);
    StripIdempotent(text);
    SameLabelIff(l, text);
    assert Says(e, text);
    forall k | 0 <= k < |labels| ensures !SameLabel(labels[k], l) {
      assert CleanLabel(labels[k]) && labels[k] in labels;
      CleanIsSame(labels[k], l);
      assert Lower(labels[k]) in LabelKeys(labels);
    }
  }

  lemma CoveredStays(labels: seq<string>, from: seq<nat>, i: nat, raw: string, l: string, n: nat)
    requires |from| == |labels| && IsCovered(labels, from, i, raw)
    ensures IsCovered(labels + [l], from + [n], i, raw)
  {
    var k :| 0 <= k < |labels| && from[k] <= i && SameLabel(labels[k], raw);
    assert (labels + [l])[k] == labels[k] && (from + [n])[k] == from[k];
  }

  lemma AddText(entries: seq<Entry>, labels: seq<string>, from: seq<nat>, l: string)
    requires AreFirstTextsBut(entries, labels, from) && IsTextOf(entries[|entries| - 1], l)
    requires forall raw :: Says(entries[|entries| - 1], raw) ==> SameLabel(l, raw)
    requires forall k :: 0 <= k < |labels| ==> !SameLabel(labels[k], l)
    ensures AreFirstTexts(entries, labels + [l], from + [|entries| - 1])
  {
    var n := |entries| - 1;
    var labels', from' := labels + [l], from + [n];
    forall i, raw | 0 <= i < |entries| && Says(entries[i], raw) && !IsBlank(raw)
      ensures IsCovered(labels', from', i, raw)
    {
      if i < n {
        CoveredStays(labels, from, i, raw, l, n);
      } else {
        assert labels'[|labels|] == l && from'[|labels|] == n;
      }
    }
  }

  function AsPlain(l: string): Entry { Plain(l) }

  lemma CleanFront(labels: seq<string>)
    requires Clean(labels) && labels != []
    ensures Clean(Front(labels)) && CleanLabel(Last(labels)) && Lower(Last(labels)) !in LabelKeys(Front(labels))
  {
    var last := |labels| - 1;
    assert CleanLabel(labels[last]);
    forall m | m in Front(labels) ensures Lower(m) != Lower(Last(labels)) {
      var i :| 0 <= i < last && Front(labels)[i] == m;
      assert Lower(labels[i]) != Lower(labels[last]);
    }
  }

  lemma {:induction false} CleanIsNew(labels: seq<string>, l: string)
    requires CleanLabel(l) && Lower(l) !in LabelKeys(labels)
    ensures NewLabel(labels, Plain(l)) == Some(l)
  {
    StripOfTrimmed(l);
  }

  lemma {:induction false} LabelsSnoc(entries: seq<Entry>, e: Entry)
    ensures Labels(entries + [e]) ==
            match NewLabel(Labels(entries), e) case None => Labels(entries) case Some(l) => Labels(entries) + [l]
  {
    assert Front(entries + [e]) == entries;
  }

  lemma PlainSnoc(labels: seq<string>, l: string)
    ensures Map(AsPlain, labels + [l]) == Map(AsPlain, labels) + [Plain(l)]
  {}

  /** A clean list written back as JSON reads the same. */
  lemma {:induction false} CleanListsReadBack(labels: seq<string>)
    requires Clean(labels)
    ensures Labels(Map(AsPlain, labels)) == labels
  {
    if labels != [] {
      var before, l := Front(labels), Last(labels);
      CleanFront(labels);
      CleanListsReadBack(before);
      CleanIsNew(before, l);
      LabelsSnoc(Map(AsPlain, before), Plain(l));
      PlainSnoc(before, l);
      FrontLast(labels);
    }
  }

  // ----- rows and their work items -----

  datatype Row = Row(table: Table, id: int, kind: Kind, owner: Option<int>, raw: Raw)
  datatype Who = Who(table: Table, id: int)

  function WhoOf(r: Row): Who { Who(r.table, r.id) }
  function Parent(l: Link): Who { Who(l.table, l.parent) }

  function ItemAt(r: Row, labels: seq<string>, j: nat): Item
    requires j < |labels|
  {
    Item(r.table, r.id, Slot(r.kind, r.owner, Lower(labels[j])), labels[j], j)
  }

  function Items(r: Row): (items: seq<Item>)
    ensures |items| == |Parsed(r.raw)| && forall j :: 0 <= j < |items| ==> items[j] == ItemAt(r, Parsed(r.raw), j)
  {
    var labels := Parsed(r.raw);
    seq(|labels|, j requires 0 <= j < |labels| => ItemAt(r, labels, j))
  }

  function AllItems(rows: seq<Row>): seq<Item> {
    if rows == [] then [] else AllItems(Front(rows)) + Items(Last(rows))
  }

  ghost predicate DistinctRows(rows: seq<Row>) {
    forall i, j :: 0 <= i < |rows| && 0 <= j < |rows| && WhoOf(rows[i]) == WhoOf(rows[j]) ==> i == j
  }

  lemma ItemsFiled(r: Row)
    ensures forall j :: 0 <= j < |Items(r)| ==> FiledItem(Items(r)[j])
  {
    ParsedClean(r.raw);
    var labels := Parsed(r.raw);
    assert forall j :: 0 <= j < |labels| ==> CleanLabel(labels[j]);
  }

  /** Every item belongs to a row. */
  lemma {:induction false} ItemOfRow(rows: seq<Row>, k: nat) returns (i: nat, j: nat)
    requires k < |AllItems(rows)|
    ensures i < |rows| && j < |Items(rows[i])| && AllItems(rows)[k] == Items(rows[i])[j]
  {
    var before := AllItems(Front(rows));
    if k < |before| {
      i, j := ItemOfRow(Front(rows), k);
    } else {
      i, j := |rows| - 1, k - |before|;
    }
  }

  lemma {:induction false} RowItem(rows: seq<Row>, i: nat, j: nat) returns (k: nat)
    requires i < |rows| && j < |Items(rows[i])|
    ensures k < |AllItems(rows)| && AllItems(rows)[k] == Items(rows[i])[j]
  {
    if i < |rows| - 1 {
      k := RowItem(Front(rows), i, j);
    } else {
      k := |AllItems(Front(rows))| + j;
    }
  }

  lemma {:induction false} AllItemsFiled(rows: seq<Row>)
    ensures forall k :: 0 <= k < |AllItems(rows)| ==> FiledItem(AllItems(rows)[k])
  {
    forall k | 0 <= k < |AllItems(rows)| ensures FiledItem(AllItems(rows)[k]) {
      var i, _ := ItemOfRow(rows, k);
      ItemsFiled(rows[i]);
    }
  }

  /** One definition per slot, one link per parent and definition, after every stop and at the end. */
  lemma {:induction false} BackfillKeepsConstraints(s: Store, rows: seq<Row>, stop: Stop)
    requires Consistent(s) && CanStop(stop, AllItems(rows))
    ensures Consistent(Stopped(s, AllItems(rows), stop)) && Consistent(Run(s, AllItems(rows)))
  {
    var items := AllItems(rows);
    AllItemsFiled(rows);
    RunKeeps(s, items);
    RunKeeps(s, items[..stop.n]);
    if stop.defined {
      StepKeeps(Run(s, items[..stop.n]), items[stop.n]);
    }
  }

  /** A parent's links lead to definitions of its own kind and owner: those of a private
      connection only to definitions of its creator. */
  lemma {:induction false} LinksStayInScope(s: Store, rows: seq<Row>, i: nat, l: nat)
    requires DistinctRows(rows) && i < |rows|
    requires |s.links| <= l < |Run(s, AllItems(rows)).links| &&
             Parent(Run(s, AllItems(rows)).links[l]) == WhoOf(rows[i])
    ensures var t := Run(s, AllItems(rows));
            t.links[l].tag < |t.definitions| &&
            t.definitions[t.links[l].tag].slot.kind == rows[i].kind &&
              t.definitions[t.links[l].tag].slot.owner == rows[i].owner
  {
    var k := NewLinks(s, AllItems(rows), l);
    var i', j := ItemOfRow(rows, k);
    assert WhoOf(rows[i']) == WhoOf(rows[i]);
  }

  // ----- the links of one parent -----

  function LinksOf(s: Store, who: Who): seq<Link> { Select(Parent, who, s.links) }

  /** The links made for a list of items, in its order. */
  ghost predicate Made(definitions: seq<Definition>, links: seq<Link>, items: seq<Item>) {
    |links| == |items| && forall j :: 0 <= j < |links| ==> MadeAs(definitions, links[j], items[j])
  }

  ghost predicate MadeAs(definitions: seq<Definition>, l: Link, it: Item) {
    Find(definitions, it.slot) == Some(l.tag) && l == Link(it.table, it.parent, l.tag, it.position)
  }

  lemma MadeStays(definitions: seq<Definition>, longer: seq<Definition>, links: seq<Link>, items: seq<Item>)
    requires definitions <= longer && Made(definitions, links, items)
    ensures Made(longer, links, items)
  {
    forall j | 0 <= j < |links| ensures MadeAs(longer, links[j], items[j]) {
      assert MadeAs(definitions, links[j], items[j]);
      FindStays(definitions, longer, items[j].slot);
    }
  }

  ghost predicate ItemsOf(items: seq<Item>, who: Who) {
    && (forall k :: 0 <= k < |items| ==> items[k].table == who.table && items[k].parent == who.id)
    && (forall j, k :: 0 <= j < k < |items| ==> items[j].slot != items[k].slot)
  }

  /** A new slot means a new link. */
  lemma NewSlotNewLink(s: Store, who: Who, items: seq<Item>, it: Item)
    requires Made(s.definitions, LinksOf(s, who), items) && it.table == who.table && it.parent == who.id
    requires forall k :: 0 <= k < |items| ==> items[k].slot != it.slot
    ensures KeyOf(LinkOf(s, it)) !in Keys(s.links)
  {
    var key := KeyOf(LinkOf(s, it));
    forall l | l in s.links ensures KeyOf(l) != key {
      if Parent(l) == who {
        SelectComplete(Parent, who, s.links, l);
        var k :| 0 <= k < |LinksOf(s, who)| && LinksOf(s, who)[k] == l;
        assert MadeAs(s.definitions, l, items[k]);
        if l.tag == TagOf(s, it) {
          FindStays(s.definitions, Define(s, it).definitions, items[k].slot);
        }
      }
    }
  }

  lemma MadeSnoc(definitions: seq<Definition>, links: seq<Link>, items: seq<Item>, l: Link, it: Item)
    requires Made(definitions, links, items) && MadeAs(definitions, l, it)
    ensures Made(definitions, links + [l], items + [it])
  {}

  lemma OwnStep(s: Store, who: Who, items: seq<Item>, it: Item)
    requires Made(s.definitions, LinksOf(s, who), items) && it.table == who.table && it.parent == who.id
    requires forall k :: 0 <= k < |items| ==> items[k].slot != it.slot
    ensures Made(Step(s, it).definitions, LinksOf(Step(s, it), who), items + [it])
  {
    var t, l := Step(s, it), LinkOf(s, it);
    NewSlotNewLink(s, who, items, it);
    SelectSnoc(Parent, who, s.links, l);
    assert LinksOf(t, who) == LinksOf(s, who) + [l];
    MadeStays(s.definitions, t.definitions, LinksOf(s, who), items);
    MadeSnoc(t.definitions, LinksOf(s, who), items, l, it);
  }

  lemma {:induction false} OwnItems(s: Store, who: Who, items: seq<Item>)
    requires LinksOf(s, who) == [] && ItemsOf(items, who)
    ensures Made(Run(s, items).definitions, LinksOf(Run(s, items), who), items)
  {
    if items != [] {
      var before, it := Front(items), Last(items);
      OwnItems(s, who, before);
      var t := Run(s, before);
      assert forall k :: 0 <= k < |before| ==> items[k].slot != items[|items| - 1].slot;
      OwnStep(t, who, before, it);
      FrontLast(items);
    }
  }

  lemma {:induction false} OtherItems(s: Store, who: Who, items: seq<Item>)
    requires forall k :: 0 <= k < |items| ==> Who(items[k].table, items[k].parent) != who
    ensures LinksOf(Run(s, items), who) == LinksOf(s, who)
  {
    if items != [] {
      OtherItems(s, who, Front(items));
      var t := Run(s, Front(items));
      SelectSnoc(Parent, who, t.links, LinkOf(t, Last(items)));
    }
  }

  lemma ItemsOfRow(r: Row)
    ensures ItemsOf(Items(r), WhoOf(r))
  {
    ParsedClean(r.raw);
    var labels := Parsed(r.raw);
    assert forall j, k :: 0 <= j < k < |labels| ==> Lower(labels[j]) != Lower(labels[k]);
  }

  lemma {:induction false} ItemsOfOthers(rows: seq<Row>, who: Who)
    requires forall i :: 0 <= i < |rows| ==> WhoOf(rows[i]) != who
    ensures forall k :: 0 <= k < |AllItems(rows)| ==> Who(AllItems(rows)[k].table, AllItems(rows)[k].parent) != who
  {
    forall k | 0 <= k < |AllItems(rows)| ensures Who(AllItems(rows)[k].table, AllItems(rows)[k].parent) != who {
      var i, _ := ItemOfRow(rows, k);
      assert WhoOf(rows[i]) != who;
    }
  }

  /** A parent without links ends with exactly the links of its list, in the list's order. */
  lemma {:induction false} ParentLinks(s: Store, rows: seq<Row>, i: nat)
    requires DistinctRows(rows) && i < |rows| && LinksOf(s, WhoOf(rows[i])) == []
    ensures var t := Run(s, AllItems(rows)); Made(t.definitions, LinksOf(t, WhoOf(rows[i])), Items(rows[i]))
  {
    var who := WhoOf(rows[i]);
    var before, r := Front(rows), Last(rows);
    var t := Run(s, AllItems(before));
    RunConcat(s, AllItems(before), Items(r));
    if i == |rows| - 1 {
      ItemsOfOthers(before, who);
      OtherItems(s, who, AllItems(before));
      ItemsOfRow(r);
      OwnItems(t, who, Items(r));
    } else {
      ParentLinks(s, before, i);
      ItemsOfRow(r);
      assert WhoOf(rows[i]) != WhoOf(rows[|rows| - 1]);
      OtherItems(t, who, Items(r));
      RunGrows(t, Items(r));
      MadeStays(t.definitions, Run(t, Items(r)).definitions, LinksOf(t, who), Items(rows[i]));
    }
  }
}
