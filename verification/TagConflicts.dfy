/** Migration 0120: the label keys of one tag domain are made unique; conflicting private rows get
    a name built from their own label and id. */
module TagConflicts {
  import opened Sequences
  import opened Text
  import opened Renaming

  datatype TagRow = TagRow(text: string, key: string, owner: Option<nat>)

  /** `_label_key`: trim and fold. */
  function LabelKey(s: string): string {
    Lower(Strip(s))
  }

  function KeyOf(r: TagRow): string { LabelKey(r.key) }
  predicate IsShared(r: TagRow) { r.owner.None? }

  lemma LabelKeyIdempotent(s: string)
    ensures LabelKey(LabelKey(s)) == LabelKey(s)
  {
    var _, _ := StripCuts(s);
    LowerTrimmed(Strip(s));
    StripOfTrimmed(Lower(Strip(s)));
    LowerIdempotent(Strip(s));
  }

  function Base(id: nat, text: string): string {
    Strip(text) + " (private " + Decimal(id) + ")"
  }

  function Suffix(n: nat): string {
    if n < 2 then "" else " " + Decimal(n)
  }

  /** The n-th form of a row: its base name, then the base name with 2, 3, ... */
  function RenameRow(id: nat, row: TagRow, n: nat): TagRow {
    var name := Base(id, row.text) + Suffix(n);
    TagRow(name, LabelKey(name), row.owner)
  }

  lemma {:induction false} LStripConcat(s: string, t: string)
    requires !IsBlank(s)
    ensures LStrip(s + t) == LStrip(s) + t && LStrip(s) != ""
  {
    if IsSpace(s[0]) {
      assert (s + t)[1..] == s[1..] + t;
      LStripConcat(s[1..], t);
    }
  }

  lemma {:induction false} RStripKeeps(s: string)
    requires s != "" && !IsSpace(s[|s| - 1])
    ensures RStrip(s) == s
  {}

  lemma {:induction false} StripSuffixed(base: string, n: nat)
    requires base != "" && !IsSpace(base[|base| - 1])
    ensures Strip(base + Suffix(n)) == LStrip(base) + Suffix(n)
  {
    assert !IsBlank(base);
    LStripConcat(base, Suffix(n));
    LStripCuts(base);
    RStripKeeps(LStrip(base) + Suffix(n));
  }

  lemma LowerSuffix(n: nat)
    ensures Lower(Suffix(n)) == Suffix(n)
  {
    LowerOfLower(Suffix(n));
  }

  lemma {:induction false} SuffixedKey(base: string, n: nat)
    requires base != "" && !IsSpace(base[|base| - 1])
    ensures LabelKey(base + Suffix(n)) == Lower(LStrip(base)) + Suffix(n)
  {
    StripSuffixed(base, n);
    LowerConcat(LStrip(base), Suffix(n));
    LowerSuffix(n);
  }

  lemma SuffixInjective(m: nat, n: nat)
    requires 1 <= m && 1 <= n && Suffix(m) == Suffix(n)
    ensures m == n
  {
    if m >= 2 && n >= 2 {
      assert Suffix(m)[1..] == Decimal(m) && Suffix(n)[1..] == Decimal(n);
      DecimalInjective(m, n);
    }
  }

  /** The key of the n-th form is a fixed text followed by the suffix. */
  lemma FormKey(id: nat, row: TagRow, n: nat)
    ensures KeyOf(RenameRow(id, row, n)) == Lower(LStrip(Base(id, row.text))) + Suffix(n)
  {
    var base := Base(id, row.text);
    SuffixedKey(base, n);
    LabelKeyIdempotent(base + Suffix(n));
  }

  lemma FormsDistinct(id: nat, row: TagRow, m: nat, n: nat)
    requires 1 <= m && 1 <= n && KeyOf(RenameRow(id, row, m)) == KeyOf(RenameRow(id, row, n))
    ensures m == n
  {
    FormKey(id, row, m);
    FormKey(id, row, n);
    var l := Lower(LStrip(Base(id, row.text)));
    assert (l + Suffix(m))[|l|..] == Suffix(m) && (l + Suffix(n))[|l|..] == Suffix(n);
    SuffixInjective(m, n);
  }

  lemma FormsAreInjective(id: nat, row: TagRow)
    ensures Injective(KeyOf, RenameRow, id, row)
  {
    forall m: nat, n: nat | 1 <= m && 1 <= n && KeyOf(RenameRow(id, row, m)) == KeyOf(RenameRow(id, row, n))
      ensures m == n
    {
      FormsDistinct(id, row, m, n);
    }
  }

  /** The unique index on the raw `label_key` column. */
  ghost predicate UniqueKeys(t: map<nat, TagRow>) {
    forall a, b :: a in t && b in t && a != b ==> t[a].key != t[b].key
  }

  // ----- what becomes of the rows -----

  /** Among the rows of the same label, a shared one comes before the private ones, and a lower id before a higher. */
  ghost predicate IsKept(t: map<nat, TagRow>, id: nat)
    requires id in t
  {
    forall other :: other in t && other != id && SameLabel(t[other].key, t[id].key) ==>
      if t[id].owner.None? then t[other].owner.Some? || id < other else t[other].owner.Some? && id < other
  }

  /** The owner stays; the label is the trimmed one with the row's id, perhaps numbered from 2 on. */
  ghost predicate IsRenamed(id: nat, before: TagRow, after: TagRow) {
    && after.owner == before.owner && IsFolded(after.text, after.key)
    && exists name, digits ::
         && IsTrim(before.text, name) && IsDecimal(digits, id)
         && IsNumbered(after.text, name + " (private " + digits + ")")
  }

  ghost predicate IsNumbered(text: string, name: string) {
    text == name || exists n, digits :: n >= 2 && IsDecimal(digits, n) && text == name + " " + digits
  }

  lemma KeptIff(t: map<nat, TagRow>, id: nat)
    requires id in t
    ensures IsKept(t, id) <==> IsKeeper(KeyOf, IsShared, t, id)
  {
    forall other | other in t ensures SameLabel(t[other].key, t[id].key) <==> KeyOf(t[other]) == KeyOf(t[id]) {
      SameLabelIff(t[other].key, t[id].key);
    }
  }

  lemma FormIsRenamed(id: nat, before: TagRow, n: nat)
    requires n >= 1
    ensures IsRenamed(id, before, RenameRow(id, before, n))
  {
    var name := Base(id, before.text);
    FoldIsFolded(name + Suffix(n));
    StripIsTrim(before.text);
    DecimalSpells(id);
    DecimalSpells(n);
    assert name == Strip(before.text) + " (private " + Decimal(id) + ")";
    assert n >= 2 ==> name + Suffix(n) == name + " " + Decimal(n);
    assert IsNumbered(name + Suffix(n), name);
  }

  /** What the resolved table shows. */
  ghost predicate IsSettled(before: map<nat, TagRow>, after: map<nat, TagRow>) {
    && after.Keys == before.Keys
    && (forall id :: id in before ==>
          if IsKept(before, id) then after[id] == before[id] else IsRenamed(id, before[id], after[id]))
    && (forall a, b :: a in after && b in after && a != b ==> !SameLabel(after[a].key, after[b].key))
  }

  lemma ResolvedIsSettled(before: map<nat, TagRow>, after: map<nat, TagRow>)
    requires Resolved(KeyOf, IsShared, RenameRow, before, after)
    ensures IsSettled(before, after)
  {
    forall id | id in before
      ensures if IsKept(before, id) then after[id] == before[id] else IsRenamed(id, before[id], after[id])
    {
      KeptIff(before, id);
      if !IsKept(before, id) {
        var n: nat :| n >= 1 && after[id] == RenameRow(id, before[id], n);
        FormIsRenamed(id, before[id], n);
      }
    }
    forall a, b | a in after && b in after && a != b ensures !SameLabel(after[a].key, after[b].key) {
      SameLabelIff(after[a].key, after[b].key);
    }
  }

  /** The data part of 0120's `upgrade`: afterwards the unique index can be created. */
  method UpgradeTags(definitions: Definitions<TagRow, string>)
    modifies definitions
    ensures Resolved(KeyOf, IsShared, RenameRow, old(definitions.table), definitions.table)
    ensures IsSettled(old(definitions.table), definitions.table)
    ensures UniqueKeys(definitions.table)
  {
    ghost var before := definitions.table;
    forall id | id in definitions.table ensures Injective(KeyOf, RenameRow, id, definitions.table[id]) {
      FormsAreInjective(id, definitions.table[id]);
    }
    definitions.RenameConflicts(KeyOf, IsShared, RenameRow);
    ResolvedIsSettled(before, definitions.table);
    DistinctGivesUnique(definitions.table);
  }

  lemma DistinctGivesUnique(t: map<nat, TagRow>)
    requires Distinct(KeyOf, t)
    ensures UniqueKeys(t)
  {}
}
