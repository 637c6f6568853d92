/** The containment check of the diagram's validator, which finds a table's area by its id. */
module LayoutValidation {
  import opened Sequences
  import opened Grid
  import opened Layout

  /** `area_by_id`: a later area replaces an earlier one of the same id. */
  function ById(areas: seq<Area>): map<string, Area> {
    if areas == [] then map[] else ById(Front(areas))[Last(areas).slug := Last(areas)]
  }

  method IndexAreas(areas: seq<Area>) returns (byId: map<string, Area>)
    ensures byId == ById(areas)
  {
    byId := map[];
    for i := 0 to |areas|
      invariant byId == ById(areas[..i])
    {
      assert Front(areas[..i + 1]) == areas[..i];
      byId := byId[areas[i].slug := areas[i]];
    }
    assert areas[..|areas|] == areas;
  }

  /** The lookup finds the last area of that id. */
  lemma {:induction false} LookupFindsLast(areas: seq<Area>, i: nat) returns (j: nat)
    requires i < |areas|
    ensures i <= j < |areas| && areas[j].slug == areas[i].slug
    ensures areas[i].slug in ById(areas) && ById(areas)[areas[i].slug] == areas[j]
    ensures forall l :: j < l < |areas| ==> areas[l].slug != areas[i].slug
  {
    if Last(areas).slug == areas[i].slug {
      j := |areas| - 1;
    } else {
      j := LookupFindsLast(Front(areas), i);
    }
  }

  function TableRectangle(t: Item, at: TableAt): Rect { Rect(at.x, at.y, TABLE_WIDTH, TableBox(t).h) }

  /** What the validator demands of one table. */
  predicate Passes(t: Item, tables: map<string, TableAt>, byId: map<string, Area>) {
    t.name in tables && tables[t.name].area in byId &&
    InArea(TableRectangle(t, tables[t.name]), byId[tables[t.name].area].rect)
  }

  /** The loop over the document's tables. */
  method ValidateTables(listing: seq<Item>, tables: map<string, TableAt>, areas: seq<Area>) returns (ok: bool)
    ensures ok <==> forall n :: 0 <= n < |listing| ==> Passes(listing[n], tables, ById(areas))
  {
    var byId := IndexAreas(areas);
    for n := 0 to |listing|
      invariant forall m :: 0 <= m < n ==> Passes(listing[m], tables, byId)
    {
      if !Passes(listing[n], tables, byId) {
        return false;
      }
    }
    ok := true;
  }

  ghost predicate AllPass(domains: seq<Domain>, tables: map<string, TableAt>, areas: seq<Area>) {
    forall i, k :: 0 <= i < |domains| && 0 <= k < |domains[i].tables| ==>
      Passes(domains[i].tables[k], tables, ById(areas))
  }

  /** No domain that has tables shares its slug with a later domain. */
  predicate OwnSlugs(domains: seq<Domain>) {
    forall i, j :: 0 <= i < j < |domains| && domains[i].slug == domains[j].slug ==> domains[i].tables == []
  }

  /** A table cannot be inside two areas that stand apart. */
  lemma NotInBoth(t: Item, at: TableAt, a: Rect, b: Rect)
    requires InArea(TableRectangle(t, at), a) && Apart(a, b)
    ensures !InArea(TableRectangle(t, at), b)
  {
    var r := TableRectangle(t, at);
    assert r.w > 0 && r.h > 0;
  }

  lemma {:induction false} OwnAreaIsFound(
    domains: seq<Domain>, areas: seq<Area>, tables: map<string, TableAt>, i: nat, k: nat)
    requires SoundDiagram(domains, areas, tables) && OwnSlugs(domains) && i < |domains| && k < |domains[i].tables|
    ensures Passes(domains[i].tables[k], tables, ById(areas))
  {
    assert Shown(domains[i].tables[k], tables, areas[i]);
    var j := LookupFindsLast(areas, i);
    assert domains[i].slug == domains[j].slug;
  }

  lemma {:induction false} LaterAreaIsFound(
    domains: seq<Domain>, areas: seq<Area>, tables: map<string, TableAt>, i: nat, j: nat)
    requires SoundDiagram(domains, areas, tables) && i < j < |domains| && domains[i].slug == domains[j].slug
    requires domains[i].tables != []
    ensures !Passes(domains[i].tables[0], tables, ById(areas))
  {
    var t := domains[i].tables[0];
    assert Shown(t, tables, areas[i]);
    var m := LookupFindsLast(areas, i);
    assert j <= m;
    assert Apart(areas[i].rect, areas[m].rect);
    NotInBoth(t, tables[t.name], areas[i].rect, areas[m].rect);
  }

  /** Every table of a drawn diagram passes the check exactly when no domain with tables shares its slug with a later
      one. */
  lemma AllPassIff(domains: seq<Domain>, areas: seq<Area>, tables: map<string, TableAt>)
    requires SoundDiagram(domains, areas, tables)
    ensures AllPass(domains, tables, areas) <==> OwnSlugs(domains)
  {
    if OwnSlugs(domains) {
      forall i, k | 0 <= i < |domains| && 0 <= k < |domains[i].tables|
        ensures Passes(domains[i].tables[k], tables, ById(areas))
      {
        OwnAreaIsFound(domains, areas, tables, i, k);
      }
    }
    if AllPass(domains, tables, areas) {
      forall i, j | 0 <= i < j < |domains| && domains[i].slug == domains[j].slug ensures domains[i].tables == [] {
        if domains[i].tables != [] {
          assert Passes(domains[i].tables[0], tables, ById(areas));
          LaterAreaIsFound(domains, areas, tables, i, j);
        }
      }
    }
  }

  /** The document lists exactly the tables of the domains, in any order. */
  ghost predicate ListsTables(listing: seq<Item>, domains: seq<Domain>) {
    && (forall n :: 0 <= n < |listing| ==> Owned(listing[n], domains))
    && (forall i, k :: 0 <= i < |domains| && 0 <= k < |domains[i].tables| ==> domains[i].tables[k] in listing)
  }

  ghost predicate Owned(t: Item, domains: seq<Domain>) {
    exists i, k :: 0 <= i < |domains| && 0 <= k < |domains[i].tables| && domains[i].tables[k] == t
  }

  /** Draw the diagram and validate it: whatever the tables and their split, the check fails only for a shared slug. */
  method DrawAndValidate(domains: seq<Domain>, listing: seq<Item>)
      returns (ok: bool, areas: seq<Area>, tables: map<string, TableAt>)
    requires domains != [] && OneOwner(domains) && ListsTables(listing, domains)
    ensures SoundDiagram(domains, areas, tables)
    ensures ok <==> OwnSlugs(domains)
  {
    areas, tables := DrawDiagram(domains);
    ok := ValidateTables(listing, tables, areas);
    AllPassIff(domains, areas, tables);
    ListingCovers(listing, domains, tables, areas);
  }

  lemma {:induction false} ListingCovers(
    listing: seq<Item>, domains: seq<Domain>, tables: map<string, TableAt>, areas: seq<Area>)
    requires ListsTables(listing, domains)
    ensures AllPass(domains, tables, areas) <==> forall n :: 0 <= n < |listing| ==>
            Passes(listing[n], tables, ById(areas))
  {
    if AllPass(domains, tables, areas) {
      forall n | 0 <= n < |listing| ensures Passes(listing[n], tables, ById(areas)) {
        assert Owned(listing[n], domains);
      }
    }
    if forall n :: 0 <= n < |listing| ==> Passes(listing[n], tables, ById(areas)) {
      forall i, k | 0 <= i < |domains| && 0 <= k < |domains[i].tables|
        ensures Passes(domains[i].tables[k], tables, ById(areas))
      {
        var n :| 0 <= n < |listing| && listing[n] == domains[i].tables[k];
      }
    }
  }

  /** Two domains with one slug: the first one's table is sought in the second one's area. */
  lemma {:induction false} SharedSlugFails(
    slug: string, t: Item, u: Item, areas: seq<Area>, tables: map<string, TableAt>)
    requires SoundDiagram([Domain(slug, [t]), Domain(slug, [u])], areas, tables)
    ensures !Passes(t, tables, ById(areas))
  {
    LaterAreaIsFound([Domain(slug, [t]), Domain(slug, [u])], areas, tables, 0, 1);
  }
}
