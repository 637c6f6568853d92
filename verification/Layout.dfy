/** The ChartDB diagram: every table placed once inside its domain's area, areas side by side. */
module Layout {
  import opened Sequences
  import opened Arithmetic
  import opened Grid

  const TABLE_WIDTH: nat := 360
  const TABLE_HEADER_HEIGHT: nat := 76
  const FIELD_HEIGHT: nat := 30
  const AREA_PADDING: nat := 60
  const AREA_HEADER_HEIGHT: nat := 72
  const TABLE_GAP_X: nat := 60
  const TABLE_GAP_Y: nat := 60
  const AREA_GAP_X: nat := 300
  const AREA_GAP_Y: nat := 300
  const STEP_X: nat := TABLE_WIDTH + TABLE_GAP_X

  /** A table and its number of columns; a domain's tables come in their drawing order. */
  datatype Item = Item(name: string, fields: nat)
  datatype Domain = Domain(slug: string, tables: seq<Item>)

  datatype Placed = Placed(name: string, x: int, y: int)
  datatype Area = Area(slug: string, rect: Rect)
  datatype TableAt = TableAt(x: int, y: int, area: string)

  function TableBox(t: Item): Box {
    Box(TABLE_WIDTH, TABLE_HEADER_HEIGHT + FIELD_HEIGHT * (if t.fields < 1 then 1 else t.fields))
  }

  function AreaColumnCount(n: nat): (c: nat)
    ensures 2 <= c <= 4
  {
    if n <= 6 then 2 else if n <= 12 then 3 else 4
  }

  function DomainRows(items: seq<Item>): (rows: seq<seq<Box>>)
    ensures NoEmptyRow(rows)
  {
    Chunks(Map(TableBox, items), AreaColumnCount(|items|))
  }

  /** Where the tables of a domain go, relative to its area. */
  function DomainRects(items: seq<Item>): seq<Rect> {
    Place(DomainRows(items), AREA_PADDING, AREA_PADDING + AREA_HEADER_HEIGHT, STEP_X, TABLE_GAP_Y)
  }

  function AreaBox(items: seq<Item>): Box {
    var columns := AreaColumnCount(|items|);
    Box(AREA_PADDING * 2 + columns * TABLE_WIDTH + (columns - 1) * TABLE_GAP_X,
        AREA_PADDING * 2 + AREA_HEADER_HEIGHT + RowsHeight(DomainRows(items), TABLE_GAP_Y))
  }

  lemma DomainRectsSize(items: seq<Item>)
    ensures |DomainRects(items)| == |items|
    ensures forall k :: 0 <= k < |items| ==>
              DomainRects(items)[k].w == TABLE_WIDTH && DomainRects(items)[k].h == TableBox(items[k]).h
  {
    ConcatChunks(Map(TableBox, items), AreaColumnCount(|items|));
    PlaceSizes(DomainRows(items), AREA_PADDING, AREA_PADDING + AREA_HEADER_HEIGHT, STEP_X, TABLE_GAP_Y);
  }

  // ----- the loops of _domain_layout -----

  /** One row of a list: `ordered[row * columns:(row + 1) * columns]`, slice bounds clamped to the list. */
  function Slice<A>(items: seq<A>, columns: nat, row: nat): seq<A> {
    var from, to := row * columns, (row + 1) * columns;
    if 0 <= from <= to <= |items| then items[from..to] else if 0 <= from <= |items| then items[from..] else []
  }

  ghost predicate Sliced<A>(rows: seq<seq<A>>, items: seq<A>, columns: nat) {
    forall r {:trigger Slice(items, columns, r)} :: 0 <= r < |rows| ==> Slice(items, columns, r) == rows[r]
  }

  method TakeRow<A>(items: seq<A>, columns: nat, row: nat, ghost rows: seq<seq<A>>) returns (names: seq<A>)
    requires row < |rows| && Sliced(rows, items, columns)
    ensures names == rows[row]
  {
    names := Slice(items, columns, row);
  }

  lemma {:induction false} SlicesAreChunks<A>(items: seq<A>, columns: nat)
    requires columns > 0
    ensures Sliced(Chunks(items, columns), items, columns)
  {
    forall r | 0 <= r < |Chunks(items, columns)| ensures Slice(items, columns, r) == Chunks(items, columns)[r] {
      ChunkAt(items, columns, r);
      MulStep(r, columns);
    }
  }

  function LineHeight(names: seq<Item>): nat
    requires names != []
  {
    RowHeight(Map(TableBox, names))
  }

  ghost predicate NoEmptyLine(rows: seq<seq<Item>>) {
    forall r :: 0 <= r < |rows| ==> rows[r] != []
  }

  ghost predicate AreHeights(heights: seq<nat>, rows: seq<seq<Item>>)
    requires NoEmptyLine(rows)
  {
    |heights| == |rows| && forall r :: 0 <= r < |heights| ==> heights[r] == LineHeight(rows[r])
  }

  method RowHeights(items: seq<Item>, columns: nat, count: nat, ghost rows: seq<seq<Item>>) returns (heights: seq<nat>)
    requires count == |rows| && NoEmptyLine(rows) && Sliced(rows, items, columns)
    ensures AreHeights(heights, rows)
  {
    heights := [];
    for row := 0 to count
      invariant |heights| == row && forall r :: 0 <= r < row ==> heights[r] == LineHeight(rows[r])
    {
      var names := TakeRow(items, columns, row, rows);
      heights := heights + [LineHeight(names)];
    }
  }

  function Line(names: seq<Item>, y: int): (line: seq<Placed>)
    ensures |line| == |names|
  {
    seq(|names|, c requires 0 <= c < |names| => Placed(names[c].name, AREA_PADDING + c * STEP_X, y))
  }

  method PlaceLine(names: seq<Item>, y: int) returns (line: seq<Placed>)
    ensures line == Line(names, y)
  {
    line := [];
    for column := 0 to |names|
      invariant |line| == column
      invariant forall c :: 0 <= c < column ==> line[c] == Line(names, y)[c]
    {
      line := line + [Placed(names[column].name, AREA_PADDING + column * STEP_X, y)];
    }
  }

  /** The tables of the rows from `r` on, the first of these rows at height `y`. */
  function Lines(rows: seq<seq<Item>>, r: nat, y: int): seq<Placed>
    requires NoEmptyLine(rows) && r <= |rows|
    decreases |rows| - r
  {
    if r == |rows| then [] else Line(rows[r], y) + Lines(rows, r + 1, y + LineHeight(rows[r]) + TABLE_GAP_Y)
  }

  lemma LinesStep(rows: seq<seq<Item>>, r: nat, y: int, done: seq<Placed>)
    requires NoEmptyLine(rows) && r < |rows|
    ensures done + Lines(rows, r, y) == (done + Line(rows[r], y)) +
            Lines(rows, r + 1, y + LineHeight(rows[r]) + TABLE_GAP_Y)
  {}

  method PlaceTables(items: seq<Item>, columns: nat, heights: seq<nat>, ghost rows: seq<seq<Item>>)
      returns (positions: seq<Placed>)
    requires NoEmptyLine(rows) && Sliced(rows, items, columns) && AreHeights(heights, rows)
    ensures positions == Lines(rows, 0, AREA_PADDING + AREA_HEADER_HEIGHT)
  {
    var y: int := AREA_PADDING + AREA_HEADER_HEIGHT;
    ghost var all := Lines(rows, 0, y);
    positions := [];
    for row := 0 to |heights|
      invariant positions + Lines(rows, row, y) == all
    {
      LinesStep(rows, row, y, positions);
      var names := TakeRow(items, columns, row, rows);
      var line := PlaceLine(names, y);
      positions := positions + line;
      y := y + heights[row] + TABLE_GAP_Y;
    }
  }

  /** Rows of tables and the rows of their boxes. */
  ghost predicate Boxed(rows: seq<seq<Item>>, boxes: seq<seq<Box>>) {
    |rows| == |boxes| && forall r :: 0 <= r < |rows| ==> rows[r] != [] && boxes[r] == Map(TableBox, rows[r])
  }

  lemma {:induction false} ChunksBoxed(items: seq<Item>, columns: nat)
    requires columns > 0
    ensures Boxed(Chunks(items, columns), Chunks(Map(TableBox, items), columns))
  {
    var rows, boxes := Chunks(items, columns), Chunks(Map(TableBox, items), columns);
    ChunkCount(items, columns);
    ChunkCount(Map(TableBox, items), columns);
    forall r | 0 <= r < |rows| ensures boxes[r] == Map(TableBox, rows[r]) {
      ChunkAt(items, columns, r);
      ChunkAt(Map(TableBox, items), columns, r);
    }
  }

  function Total(heights: seq<nat>): nat {
    if heights == [] then 0 else heights[0] + Total(heights[1..])
  }

  /** The row heights and the gaps between them add up to the height of the rows. */
  lemma {:induction false} TotalHeight(heights: seq<nat>, rows: seq<seq<Item>>, boxes: seq<seq<Box>>, gap: nat)
    requires Boxed(rows, boxes) && NoEmptyLine(rows) && NoEmptyRow(boxes) && AreHeights(heights, rows)
    ensures RowsHeight(boxes, gap) == Total(heights) + (if |heights| < 1 then 0 else |heights| - 1) * gap
  {
    if rows != [] {
      TotalHeight(heights[1..], rows[1..], boxes[1..], gap);
      if |rows| > 1 {
        MulStep(|rows| - 2, gap);
      }
    }
  }

  /** The tables, in order, at the top left corners of the rectangles. */
  ghost predicate Matches(positions: seq<Placed>, items: seq<Item>, rects: seq<Rect>) {
    |positions| == |items| == |rects| &&
    forall k :: 0 <= k < |positions| ==> positions[k] == Placed(items[k].name, rects[k].x, rects[k].y)
  }

  lemma MatchesConcat(p: seq<Placed>, p': seq<Placed>, items: seq<Item>, items': seq<Item>, r: seq<Rect>, r': seq<Rect>,
                      all: seq<Placed>, allItems: seq<Item>, allRects: seq<Rect>)
    requires Matches(p, items, r) && Matches(p', items', r')
    requires all == p + p' && allItems == items + items' && allRects == r + r'
    ensures Matches(all, allItems, allRects)
  {}

  lemma LineMatches(names: seq<Item>, y: int)
    ensures Matches(Line(names, y), names, PlaceRow(Map(TableBox, names), AREA_PADDING, y, STEP_X))
  {}

  lemma {:induction false} PlaceSplits(boxes: seq<seq<Box>>, r: nat, x: int, y: int, step: nat, gap: nat)
    requires NoEmptyRow(boxes) && r < |boxes|
    ensures Place(boxes[r..], x, y, step, gap)
            == PlaceRow(boxes[r], x, y, step) + Place(boxes[r + 1..], x, y + RowHeight(boxes[r]) + gap, step, gap)
  {
    assert boxes[r..][1..] == boxes[r + 1..];
  }

  lemma ConcatSplits<A>(rows: seq<seq<A>>, r: nat)
    requires r < |rows|
    ensures Concat(rows[r..]) == rows[r] + Concat(rows[r + 1..])
  {
    assert rows[r..][1..] == rows[r + 1..];
  }

  /** Row by row, the tables get the top left corners of their boxes on the grid. */
  lemma {:induction false} LinesFollowGrid(rows: seq<seq<Item>>, boxes: seq<seq<Box>>, r: nat, y: int)
    requires Boxed(rows, boxes) && NoEmptyLine(rows) && NoEmptyRow(boxes) && r <= |rows|
    ensures Matches(Lines(rows, r, y), Concat(rows[r..]), Place(boxes[r..], AREA_PADDING, y, STEP_X, TABLE_GAP_Y))
    decreases |rows| - r
  {
    if r < |rows| {
      var y' := y + LineHeight(rows[r]) + TABLE_GAP_Y;
      LinesFollowGrid(rows, boxes, r + 1, y');
      LineMatches(rows[r], y);
      PlaceSplits(boxes, r, AREA_PADDING, y, STEP_X, TABLE_GAP_Y);
      ConcatSplits(rows, r);
      MatchesConcat(Line(rows[r], y), Lines(rows, r + 1, y'), rows[r], Concat(rows[r + 1..]),
                    PlaceRow(boxes[r], AREA_PADDING, y, STEP_X),
                    Place(boxes[r + 1..], AREA_PADDING, y', STEP_X, TABLE_GAP_Y),
                    Lines(rows, r, y), Concat(rows[r..]), Place(boxes[r..], AREA_PADDING, y, STEP_X, TABLE_GAP_Y));
    }
  }

  /** `_domain_layout`. */
  method DomainLayout(items: seq<Item>) returns (width: nat, height: nat, positions: seq<Placed>)
    ensures Box(width, height) == AreaBox(items)
    ensures Matches(positions, items, DomainRects(items))
  {
    var columns := AreaColumnCount(|items|);
    var count := (|items| + columns - 1) / columns;
    ghost var rows := Chunks(items, columns);
    ChunkCount(items, columns);
    SlicesAreChunks(items, columns);
    var heights := RowHeights(items, columns, count, rows);
    width := AREA_PADDING * 2 + columns * TABLE_WIDTH + (columns - 1) * TABLE_GAP_X;
    height := AREA_PADDING * 2 + AREA_HEADER_HEIGHT + Total(heights) +
      (if count < 1 then 0 else count - 1) * TABLE_GAP_Y;
    ChunksBoxed(items, columns);
    TotalHeight(heights, rows, DomainRows(items), TABLE_GAP_Y);
    LinesFollowGrid(rows, DomainRows(items), 0, AREA_PADDING + AREA_HEADER_HEIGHT);
    assert rows[0..] == rows && DomainRows(items)[0..] == DomainRows(items);
    ConcatChunks(items, columns);
    positions := PlaceTables(items, columns, heights, rows);
  }

  // ----- one domain is sound -----

  /** Room for a table inside an area: below the header, inside the padding. */
  predicate InArea(t: Rect, area: Rect) {
    && t.x >= area.x + AREA_PADDING && t.y >= area.y + AREA_PADDING + AREA_HEADER_HEIGHT
    && t.x + t.w <= area.x + area.w - AREA_PADDING && t.y + t.h <= area.y + area.h - AREA_PADDING
  }

  lemma RowsOfTables(items: seq<Item>)
    ensures var rows := DomainRows(items);
            forall r :: 0 <= r < |rows| ==>
              |rows[r]| <= AreaColumnCount(|items|) && forall c :: 0 <= c < |rows[r]| ==> rows[r][c].w == TABLE_WIDTH
  {
    var rows: seq<seq<Box>> := DomainRows(items);
    ConcatChunks(Map(TableBox, items), AreaColumnCount(|items|));
    forall r: int, c: int | 0 <= r < |rows| && 0 <= c < |rows[r]| ensures rows[r][c].w == TABLE_WIDTH {
      ConcatMember(rows, r, c);
    }
  }

  lemma {:induction false} ConcatMember<A>(rows: seq<seq<A>>, r: nat, c: nat)
    requires r < |rows| && c < |rows[r]|
    ensures rows[r][c] in Concat(rows)
  {
    if r > 0 {
      ConcatMember(rows[1..], r - 1, c);
    }
  }

  /** The tables of a domain fit into its area and do not overlap. */
  lemma DomainIsSound(items: seq<Item>)
    ensures PairwiseApart(DomainRects(items))
    ensures forall k :: 0 <= k < |DomainRects(items)| ==>
              InArea(DomainRects(items)[k], Rect(0, 0, AreaBox(items).w, AreaBox(items).h))
  {
    var rows, columns := DomainRows(items), AreaColumnCount(|items|);
    var top, step := AREA_PADDING + AREA_HEADER_HEIGHT, STEP_X;
    RowsOfTables(items);
    PlaceApart(rows, AREA_PADDING, top, step, TABLE_GAP_Y);
    forall k | 0 <= k < |DomainRects(items)|
      ensures InArea(DomainRects(items)[k], Rect(0, 0, AreaBox(items).w, AreaBox(items).h))
    {
      PlaceInside(rows, AREA_PADDING, top, step, TABLE_GAP_Y, columns, TABLE_WIDTH, k);
    }
  }

  // ----- the whole diagram -----

  function BoxOf(d: Domain): Box { AreaBox(d.tables) }

  /** The widest of the first `n` areas. */
  function GlobalWidth(domains: seq<Domain>, n: nat): (w: nat)
    requires n <= |domains|
    ensures forall i :: 0 <= i < n ==> BoxOf(domains[i]).w <= w
  {
    if n == 0 then 0
    else
      var w := GlobalWidth(domains, n - 1);
      if w < BoxOf(domains[n - 1]).w then BoxOf(domains[n - 1]).w else w
  }

  function AreaRows(domains: seq<Domain>): (rows: seq<seq<Box>>)
    ensures NoEmptyRow(rows)
  {
    Chunks(Map(BoxOf, domains), 2)
  }

  /** The areas: two per row, the second column one global width and a gap to the right. */
  function AreaRects(domains: seq<Domain>): seq<Rect> {
    Place(AreaRows(domains), 0, 0, GlobalWidth(domains, |domains|) + AREA_GAP_X, AREA_GAP_Y)
  }

  lemma AreaRectsSize(domains: seq<Domain>)
    ensures |AreaRects(domains)| == |domains|
    ensures forall i :: 0 <= i < |domains| ==>
              AreaRects(domains)[i].w == BoxOf(domains[i]).w && AreaRects(domains)[i].h == BoxOf(domains[i]).h
  {
    ConcatChunks(Map(BoxOf, domains), 2);
    PlaceSizes(AreaRows(domains), 0, 0, GlobalWidth(domains, |domains|) + AREA_GAP_X, AREA_GAP_Y);
  }

  lemma {:induction false} AreasNotWide(domains: seq<Domain>, r: nat, c: nat)
    requires r < |AreaRows(domains)| && c < |AreaRows(domains)[r]|
    ensures AreaRows(domains)[r][c].w <= GlobalWidth(domains, |domains|)
  {
    ConcatChunks(Map(BoxOf, domains), 2);
    ConcatMember(AreaRows(domains), r, c);
  }

  lemma {:induction false} RowsNotWide(domains: seq<Domain>, rows: seq<seq<Box>>, width: nat)
    requires rows == AreaRows(domains) && width == GlobalWidth(domains, |domains|)
    ensures forall r :: 0 <= r < |rows| ==> forall c :: 0 <= c < |rows[r]| ==> rows[r][c].w <= width
  {
    forall r: int, c: int | 0 <= r < |rows| && 0 <= c < |rows[r]| ensures rows[r][c].w <= width {
      AreasNotWide(domains, r, c);
    }
  }

  lemma AreasApart(domains: seq<Domain>)
    ensures PairwiseApart(AreaRects(domains))
  {
    RowsNotWide(domains, AreaRows(domains), GlobalWidth(domains, |domains|));
    PlaceApart(AreaRows(domains), 0, 0, GlobalWidth(domains, |domains|) + AREA_GAP_X, AREA_GAP_Y);
  }

  /** The rectangle of table `k` of domain `i` on the diagram. */
  function TableRect(domains: seq<Domain>, i: nat, k: nat): Rect
    requires i < |domains| && k < |domains[i].tables|
  {
    AreaRectsSize(domains);
    DomainRectsSize(domains[i].tables);
    Shift(DomainRects(domains[i].tables)[k], AreaRects(domains)[i].x, AreaRects(domains)[i].y)
  }

  /** Every table lies inside its own area, padding and header respected. */
  lemma TableInArea(domains: seq<Domain>, i: nat, k: nat)
    requires i < |domains| && k < |domains[i].tables|
    ensures i < |AreaRects(domains)| && InArea(TableRect(domains, i, k), AreaRects(domains)[i])
  {
    AreaRectsSize(domains);
    DomainRectsSize(domains[i].tables);
    DomainIsSound(domains[i].tables);
  }

  lemma ApartInside(a: Rect, b: Rect, t: Rect, u: Rect)
    requires Apart(a, b) && InArea(t, a) && InArea(u, b)
    ensures Apart(t, u)
  {}

  /** No two tables of the diagram overlap. */
  lemma TablesApart(domains: seq<Domain>, i: nat, k: nat, j: nat, l: nat)
    requires i < |domains| && k < |domains[i].tables| && j < |domains| && l < |domains[j].tables|
    requires i != j || k != l
    ensures Apart(TableRect(domains, i, k), TableRect(domains, j, l))
  {
    TableInArea(domains, i, k);
    TableInArea(domains, j, l);
    if i == j {
      DomainIsSound(domains[i].tables);
      DomainRectsSize(domains[i].tables);
      var rects := DomainRects(domains[i].tables);
      assert Apart(rects[if k < l then k else l], rects[if k < l then l else k]);
    } else {
      AreasApart(domains);
      assert Apart(AreaRects(domains)[if i < j then i else j], AreaRects(domains)[if i < j then j else i]);
      ApartInside(AreaRects(domains)[i], AreaRects(domains)[j], TableRect(domains, i, k), TableRect(domains, j, l));
    }
  }

  // ----- the loops of _chartdb_layout -----

  /** A domain measured: its area's size and its tables' relative positions. */
  datatype Spec = Spec(domain: Domain, box: Box, positions: seq<Placed>)

  ghost predicate IsSpec(s: Spec, d: Domain) {
    s.domain == d && s.box == BoxOf(d) && Matches(s.positions, d.tables, DomainRects(d.tables))
  }

  ghost predicate AreSpecs(specs: seq<Spec>, domains: seq<Domain>) {
    |specs| == |domains| && forall i :: 0 <= i < |specs| ==> IsSpec(specs[i], domains[i])
  }

  method Measure(domains: seq<Domain>) returns (specs: seq<Spec>)
    ensures AreSpecs(specs, domains)
  {
    specs := [];
    for i := 0 to |domains|
      invariant |specs| == i && forall j :: 0 <= j < i ==> IsSpec(specs[j], domains[j])
    {
      var w, h, positions := DomainLayout(domains[i].tables);
      specs := specs + [Spec(domains[i], Box(w, h), positions)];
    }
  }

  /** The tables of one area entered into the map, from position `c` on. */
  function Enter(tables: map<string, TableAt>, positions: seq<Placed>, c: nat, area: Area): map<string, TableAt>
    requires c <= |positions|
    decreases |positions| - c
  {
    if c == |positions| then tables
    else
      var p := positions[c];
      Enter(tables[p.name := TableAt(area.rect.x + p.x, area.rect.y + p.y, area.slug)], positions, c + 1, area)
  }

  method EnterTables(tables: map<string, TableAt>, positions: seq<Placed>, area: Area)
      returns (tables': map<string, TableAt>)
    ensures tables' == Enter(tables, positions, 0, area)
  {
    tables' := tables;
    for c := 0 to |positions|
      invariant Enter(tables', positions, c, area) == Enter(tables, positions, 0, area)
    {
      var p := positions[c];
      tables' := tables'[p.name := TableAt(area.rect.x + p.x, area.rect.y + p.y, area.slug)];
    }
  }

  /** The map after the first areas have been filled. */
  function Entered(specs: seq<Spec>, areas: seq<Area>): map<string, TableAt>
    requires |areas| <= |specs|
  {
    if areas == [] then map[]
    else Enter(Entered(specs, Front(areas)), specs[|areas| - 1].positions, 0, Last(areas))
  }

  /** The area of each measured domain is the given rectangle. */
  ghost predicate AreAreas(areas: seq<Area>, specs: seq<Spec>, rects: seq<Rect>) {
    |areas| <= |specs| && |areas| <= |rects| && forall i :: 0 <= i < |areas| ==>
      areas[i] == Area(specs[i].domain.slug, rects[i])
  }

  method PlaceArea(specs: seq<Spec>, areas: seq<Area>, tables: map<string, TableAt>, x: int, y: int)
      returns (areas': seq<Area>, tables': map<string, TableAt>)
    requires |areas| < |specs| && tables == Entered(specs, areas)
    ensures areas' == areas + [Area(specs[|areas|].domain.slug, Rect(x, y, specs[|areas|].box.w, specs[|areas|].box.h))]
    ensures tables' == Entered(specs, areas')
  {
    var spec := specs[|areas|];
    var area := Area(spec.domain.slug, Rect(x, y, spec.box.w, spec.box.h));
    areas' := areas + [area];
    tables' := EnterTables(tables, spec.positions, area);
    assert Front(areas') == areas;
  }

  function SpecBox(s: Spec): Box { s.box }

  /** One row of areas, at height `y`; `done` areas stand above it. */
  method PlaceAreas(specs: seq<Spec>, count: nat, areas: seq<Area>, tables: map<string, TableAt>, step: nat, y: int,
      ghost rects: seq<Rect>)
      returns (areas': seq<Area>, tables': map<string, TableAt>)
    requires AreAreas(areas, specs, rects) && tables == Entered(specs, areas) &&
             InRow(specs, rects, |areas|, count, step, y)
    ensures |areas'| == |areas| + count && AreAreas(areas', specs, rects) && tables' == Entered(specs, areas')
  {
    areas', tables' := areas, tables;
    for column := 0 to count
      invariant |areas'| == |areas| + column && AreAreas(areas', specs, rects) && tables' == Entered(specs, areas')
    {
      areas', tables' := PlaceArea(specs, areas', tables', 0 + column * step, y);
    }
  }

  /** The first row of what is left, as the grid places it. */
  lemma {:induction false} NextAreas(
    specs: seq<Spec>, rects: seq<Rect>, n: nat, rows: seq<seq<Box>>, r: nat, step: nat, y: int)
    requires |specs| == |rects| && NoEmptyRow(rows) && r < |rows| && n + |rows[r]| <= |specs|
    requires rects[n..] == Place(rows[r..], 0, y, step, AREA_GAP_Y)
    requires forall c :: 0 <= c < |rows[r]| ==> rows[r][c] == specs[n + c].box
    ensures rects[n + |rows[r]|..] == Place(rows[r + 1..], 0, y + RowHeight(rows[r]) + AREA_GAP_Y, step, AREA_GAP_Y)
    ensures forall c :: 0 <= c < |rows[r]| ==>
              rects[n + c] == Rect(0 + c * step, y, specs[n + c].box.w, specs[n + c].box.h)
  {
    PlaceSplits(rows, r, 0, y, step, AREA_GAP_Y);
    var line := PlaceRow(rows[r], 0, y, step);
    var rest := Place(rows[r + 1..], 0, y + RowHeight(rows[r]) + AREA_GAP_Y, step, AREA_GAP_Y);
    SplitTail(rects, n, line, rest);
  }

  lemma SplitTail<A>(s: seq<A>, n: nat, a: seq<A>, b: seq<A>)
    requires n <= |s| && s[n..] == a + b
    ensures n + |a| <= |s| && s[n + |a|..] == b && forall c :: 0 <= c < |a| ==> s[n + c] == a[c]
  {
    assert s[n..][|a|..] == s[n + |a|..];
    forall c | 0 <= c < |a| ensures s[n + c] == a[c] {
      assert s[n..][c] == (a + b)[c];
    }
  }

  /** How many areas stand above row `r`. */
  function Above(r: nat, n: nat): nat { if 2 * r <= n then 2 * r else n }

  /** The rectangles below row `r` are what the grid makes of the rows from `r` on. */
  ghost predicate AtRow(rects: seq<Rect>, rows: seq<seq<Box>>, r: nat, step: nat, y: int)
    requires NoEmptyRow(rows)
  {
    r <= |rows| && rects[Above(r, |rects|)..] == Place(rows[r..], 0, y, step, AREA_GAP_Y)
  }

  ghost predicate InRow(specs: seq<Spec>, rects: seq<Rect>, n: nat, count: nat, step: nat, y: int) {
    n + count <= |specs| == |rects| &&
    forall c :: 0 <= c < count ==> rects[n + c] == Rect(0 + c * step, y, specs[n + c].box.w, specs[n + c].box.h)
  }

  lemma RowOfTwo(specs: seq<Spec>, rows: seq<seq<Box>>, r: nat)
    requires |rows| == (|specs| + 1) / 2 && Sliced(rows, Map(SpecBox, specs), 2) && r < |rows|
    ensures Above(r, |specs|) == 2 * r && 2 * r + |rows[r]| == Above(r + 1, |specs|)
    ensures forall c :: 0 <= c < |rows[r]| ==> rows[r][c] == specs[2 * r + c].box
  {
    assert Slice(Map(SpecBox, specs), 2, r) == rows[r];
  }

  lemma AreaStep(specs: seq<Spec>, rects: seq<Rect>, rows: seq<seq<Box>>, r: nat, step: nat, y: int)
    requires |specs| == |rects| && |rows| == (|specs| + 1) / 2 && NoEmptyRow(rows) &&
             Sliced(rows, Map(SpecBox, specs), 2)
    requires r < |rows| && AtRow(rects, rows, r, step, y)
    ensures InRow(specs, rects, Above(r, |specs|), |rows[r]|, step, y)
    ensures Above(r, |specs|) + |rows[r]| == Above(r + 1, |specs|)
    ensures AtRow(rects, rows, r + 1, step, y + RowHeight(rows[r]) + AREA_GAP_Y)
  {
    RowOfTwo(specs, rows, r);
    NextAreas(specs, rects, 2 * r, rows, r, step, y);
  }

  /** `global_column_width`. */
  method WidestArea(specs: seq<Spec>, domains: seq<Domain>) returns (width: nat)
    requires AreSpecs(specs, domains)
    ensures width == GlobalWidth(domains, |domains|)
  {
    width := 0;
    for i := 0 to |specs|
      invariant width == GlobalWidth(domains, i)
    {
      assert IsSpec(specs[i], domains[i]);
      width := if width < specs[i].box.w then specs[i].box.w else width;
    }
  }

  ghost predicate AreaGrid(specs: seq<Spec>, rows: seq<seq<Box>>, rects: seq<Rect>) {
    |specs| == |rects| && |rows| == (|specs| + 1) / 2 && NoEmptyRow(rows) && Sliced(rows, Map(SpecBox, specs), 2)
  }

  ghost predicate AreasAbove(
    specs: seq<Spec>, rows: seq<seq<Box>>, rects: seq<Rect>, step: nat, r: nat, y: int, areas: seq<Area>,
      tables: map<string, TableAt>)
    requires NoEmptyRow(rows)
  {
    && |areas| == Above(r, |specs|) && AreAreas(areas, specs, rects) && tables == Entered(specs, areas)
    && AtRow(rects, rows, r, step, y)
  }

  /** The measured domains, two per row, make up the grid of areas. */
  lemma {:induction false} AreaGridIs(specs: seq<Spec>, domains: seq<Domain>, width: nat)
    requires AreSpecs(specs, domains) && width == GlobalWidth(domains, |domains|)
    ensures AreaGrid(specs, AreaRows(domains), AreaRects(domains))
    ensures AtRow(AreaRects(domains), AreaRows(domains), 0, width + AREA_GAP_X, 0)
  {
    forall i | 0 <= i < |specs| ensures SpecBox(specs[i]) == BoxOf(domains[i]) {
      assert IsSpec(specs[i], domains[i]);
    }
    assert Map(SpecBox, specs) == Map(BoxOf, domains);
    AreaRectsSize(domains);
    ChunkCount(Map(BoxOf, domains), 2);
    SlicesAreChunks(Map(BoxOf, domains), 2);
    assert AreaRects(domains)[0..] == AreaRects(domains) && AreaRows(domains)[0..] == AreaRows(domains);
  }

  /** Row `r` as the loop takes it, and how far down it reaches. */
  method TakeAreaRow(specs: seq<Spec>, step: nat, r: nat, y: int, ghost rows: seq<seq<Box>>, ghost rects: seq<Rect>)
      returns (count: nat, y': int)
    requires AreaGrid(specs, rows, rects) && r < |rows| && AtRow(rects, rows, r, step, y)
    ensures InRow(specs, rects, Above(r, |specs|), count, step, y) && Above(r, |specs|) + count == Above(r + 1, |specs|)
    ensures AtRow(rects, rows, r + 1, step, y')
  {
    AreaStep(specs, rects, rows, r, step, y);
    var row := TakeRow(Map(SpecBox, specs), 2, r, rows);
    count, y' := |row|, y + RowHeight(row) + AREA_GAP_Y;
  }

  method PlaceAreaRow(specs: seq<Spec>, step: nat, r: nat, y: int, areas: seq<Area>, tables: map<string, TableAt>,
                      ghost rows: seq<seq<Box>>, ghost rects: seq<Rect>)
      returns (y': int, areas': seq<Area>, tables': map<string, TableAt>)
    requires AreaGrid(specs, rows, rects) && r < |rows| && AreasAbove(specs, rows, rects, step, r, y, areas, tables)
    ensures AreasAbove(specs, rows, rects, step, r + 1, y', areas', tables')
  {
    var count;
    count, y' := TakeAreaRow(specs, step, r, y, rows, rects);
    areas', tables' := PlaceAreas(specs, count, areas, tables, step, y, rects);
  }

  /** The loop over rows of two areas. */
  method PlaceAllAreas(specs: seq<Spec>, step: nat, ghost rows: seq<seq<Box>>, ghost rects: seq<Rect>)
      returns (areas: seq<Area>, tables: map<string, TableAt>)
    requires AreaGrid(specs, rows, rects) && AtRow(rects, rows, 0, step, 0)
    ensures |areas| == |specs| && AreAreas(areas, specs, rects) && tables == Entered(specs, areas)
  {
    areas, tables := [], map[];
    var y: int := 0;
    for r := 0 to (|specs| + 1) / 2
      invariant AreasAbove(specs, rows, rects, step, r, y, areas, tables)
    {
      y, areas, tables := PlaceAreaRow(specs, step, r, y, areas, tables, rows, rects);
    }
  }

  /** Every area where the grid puts it. */
  ghost predicate Charted(areas: seq<Area>, domains: seq<Domain>) {
    |areas| == |domains| == |AreaRects(domains)| &&
    forall i :: 0 <= i < |areas| ==> areas[i] == Area(domains[i].slug, AreaRects(domains)[i])
  }

  lemma AreasCharted(areas: seq<Area>, specs: seq<Spec>, domains: seq<Domain>)
    requires AreSpecs(specs, domains) && |areas| == |specs| && AreAreas(areas, specs, AreaRects(domains))
    ensures Charted(areas, domains)
  {
    AreaRectsSize(domains);
    forall i | 0 <= i < |areas| ensures areas[i] == Area(domains[i].slug, AreaRects(domains)[i]) {
      assert IsSpec(specs[i], domains[i]);
    }
  }

  /** `_chartdb_layout`; without domains the maximum width does not exist. */
  method ChartLayout(domains: seq<Domain>)
      returns (areas: seq<Area>, tables: map<string, TableAt>, ghost specs: seq<Spec>)
    requires domains != []
    ensures Charted(areas, domains) && AreSpecs(specs, domains) && tables == Entered(specs, areas)
  {
    var measured := Measure(domains);
    specs := measured;
    var width := WidestArea(measured, domains);
    AreaGridIs(measured, domains, width);
    areas, tables := PlaceAllAreas(measured, width + AREA_GAP_X, AreaRows(domains), AreaRects(domains));
    AreasCharted(areas, measured, domains);
  }

  // ----- what the finished diagram shows -----

  /** No table belongs to two domains or twice to one, as `_table_owner` demands. */
  ghost predicate OneOwner(domains: seq<Domain>) {
    forall i, k, j, l ::
      0 <= i < |domains| && 0 <= k < |domains[i].tables| && 0 <= j < |domains| && 0 <= l < |domains[j].tables| ==>
      domains[i].tables[k].name == domains[j].tables[l].name ==> i == j && k == l
  }

  function EntryAt(p: Placed, area: Area): TableAt { TableAt(area.rect.x + p.x, area.rect.y + p.y, area.slug) }

  lemma {:induction false} EnterKeeps(tables: map<string, TableAt>, positions: seq<Placed>, c: nat, area: Area,
      name: string)
    requires c <= |positions| && forall k :: c <= k < |positions| ==> positions[k].name != name
    ensures name in Enter(tables, positions, c, area) <==> name in tables
    ensures name in tables ==> Enter(tables, positions, c, area)[name] == tables[name]
    decreases |positions| - c
  {
    if c < |positions| {
      EnterKeeps(tables[positions[c].name := EntryAt(positions[c], area)], positions, c + 1, area, name);
    }
  }

  lemma {:induction false} EnterAdds(tables: map<string, TableAt>, positions: seq<Placed>, c: nat, area: Area, k: nat)
    requires c <= k < |positions| && forall j :: k < j < |positions| ==> positions[j].name != positions[k].name
    ensures positions[k].name in Enter(tables, positions, c, area)
    ensures Enter(tables, positions, c, area)[positions[k].name] == EntryAt(positions[k], area)
    decreases |positions| - c
  {
    var tables' := tables[positions[c].name := EntryAt(positions[c], area)];
    if c < k {
      EnterAdds(tables', positions, c + 1, area, k);
    } else {
      EnterKeeps(tables', positions, c + 1, area, positions[k].name);
    }
  }

  ghost predicate Owns(s: Spec, k: int, name: string) { 0 <= k < |s.positions| && s.positions[k].name == name }

  ghost predicate OneSpec(specs: seq<Spec>) {
    forall i, k, j, l, name ::
      0 <= i < |specs| && 0 <= j < |specs| && Owns(specs[i], k, name) && Owns(specs[j], l, name) ==>
      i == j && k == l
  }

  lemma {:induction false} EnteredAt(specs: seq<Spec>, areas: seq<Area>, i: nat, k: nat, name: string)
    requires i < |areas| <= |specs| && OneSpec(specs) && Owns(specs[i], k, name)
    ensures name in Entered(specs, areas) && Entered(specs, areas)[name] == EntryAt(specs[i].positions[k], areas[i])
    decreases |areas|
  {
    var n := |areas| - 1;
    var positions := specs[n].positions;
    var before := Entered(specs, Front(areas));
    if i == n {
      assert forall j :: 0 <= j < |positions| ==> Owns(specs[n], j, positions[j].name);
      EnterAdds(before, positions, 0, areas[n], k);
    } else {
      EnteredAt(specs, Front(areas), i, k, name);
      forall j | 0 <= j < |positions| ensures positions[j].name != name {
        assert Owns(specs[n], j, positions[j].name);
      }
      EnterKeeps(before, positions, 0, areas[n], name);
    }
  }

  lemma {:induction false} EnteredFrom(specs: seq<Spec>, areas: seq<Area>, name: string) returns (i: nat, k: nat)
    requires |areas| <= |specs| && name in Entered(specs, areas)
    ensures i < |areas| && Owns(specs[i], k, name)
    decreases |areas|
  {
    var n := |areas| - 1;
    if c :| Owns(specs[n], c, name) {
      i, k := n, c;
    } else {
      forall j | 0 <= j < |specs[n].positions| ensures specs[n].positions[j].name != name {
        assert Owns(specs[n], j, specs[n].positions[j].name);
      }
      EnterKeeps(Entered(specs, Front(areas)), specs[n].positions, 0, areas[n], name);
      i, k := EnteredFrom(specs, Front(areas), name);
    }
  }

  lemma SpecsOwn(specs: seq<Spec>, domains: seq<Domain>)
    requires AreSpecs(specs, domains) && OneOwner(domains)
    ensures OneSpec(specs)
  {
    forall i, k, j, l, name | 0 <= i < |specs| && 0 <= j < |specs| && Owns(specs[i], k, name) && Owns(specs[j], l, name)
      ensures i == j && k == l
    {
      assert IsSpec(specs[i], domains[i]) && IsSpec(specs[j], domains[j]);
      assert domains[i].tables[k].name == name && domains[j].tables[l].name == name;
    }
  }

  /** Every table of every domain is on the diagram, at its own rectangle and in its own domain's area. */
  lemma {:induction false} TableIsPlaced(domains: seq<Domain>, specs: seq<Spec>, areas: seq<Area>, i: nat, k: nat)
    requires OneOwner(domains) && AreSpecs(specs, domains) && Charted(areas, domains)
    requires i < |domains| && k < |domains[i].tables|
    ensures var name, r := domains[i].tables[k].name, TableRect(domains, i, k);
            name in Entered(specs, areas) && Entered(specs, areas)[name] == TableAt(r.x, r.y, domains[i].slug)
  {
    SpecsOwn(specs, domains);
    assert IsSpec(specs[i], domains[i]);
    assert Owns(specs[i], k, domains[i].tables[k].name);
    EnteredAt(specs, areas, i, k, domains[i].tables[k].name);
  }

  /** Nothing else is on the diagram. */
  lemma OnlyTablesArePlaced(domains: seq<Domain>, specs: seq<Spec>, areas: seq<Area>, name: string)
      returns (i: nat, k: nat)
    requires AreSpecs(specs, domains) && Charted(areas, domains) && name in Entered(specs, areas)
    ensures i < |domains| && k < |domains[i].tables| && domains[i].tables[k].name == name
  {
    i, k := EnteredFrom(specs, areas, name);
    assert IsSpec(specs[i], domains[i]);
  }

  /** The validator's containment check, for the table and area it looks up. */
  predicate Contained(t: Item, at: TableAt, area: Area) {
    at.area == area.slug && InArea(Rect(at.x, at.y, TABLE_WIDTH, TableBox(t).h), area.rect)
  }

  ghost predicate AreasClear(areas: seq<Area>) {
    forall i, j :: 0 <= i < j < |areas| ==> Apart(areas[i].rect, areas[j].rect)
  }

  ghost predicate AllShown(domains: seq<Domain>, areas: seq<Area>, tables: map<string, TableAt>)
    requires |areas| == |domains|
  {
    forall i, k :: 0 <= i < |domains| && 0 <= k < |domains[i].tables| ==> Shown(domains[i].tables[k], tables, areas[i])
  }

  ghost predicate AllClear(domains: seq<Domain>, tables: map<string, TableAt>) {
    forall i, k, j, l ::
      0 <= i < |domains| && 0 <= k < |domains[i].tables| && 0 <= j < |domains| && 0 <= l < |domains[j].tables| ==>
      (i == j && k == l) || Clear(domains[i].tables[k], domains[j].tables[l], tables)
  }

  ghost predicate NothingElse(domains: seq<Domain>, tables: map<string, TableAt>) {
    forall name <- tables ::
      exists i, k :: 0 <= i < |domains| && 0 <= k < |domains[i].tables| && domains[i].tables[k].name == name
  }

  /** The finished diagram: each table once, in its area, clear of every other table; areas clear of each other. */
  ghost predicate SoundDiagram(domains: seq<Domain>, areas: seq<Area>, tables: map<string, TableAt>) {
    && |areas| == |domains| && AreasClear(areas) && (forall i :: 0 <= i < |areas| ==> areas[i].slug == domains[i].slug)
    && AllShown(domains, areas, tables) && AllClear(domains, tables) && NothingElse(domains, tables)
  }

  predicate Shown(t: Item, tables: map<string, TableAt>, area: Area) {
    t.name in tables && Contained(t, tables[t.name], area)
  }

  predicate Clear(t: Item, u: Item, tables: map<string, TableAt>) {
    t.name in tables && u.name in tables &&
    var p, q := tables[t.name], tables[u.name];
    Apart(Rect(p.x, p.y, TABLE_WIDTH, TableBox(t).h), Rect(q.x, q.y, TABLE_WIDTH, TableBox(u).h))
  }

  lemma {:induction false} ShownAt(domains: seq<Domain>, specs: seq<Spec>, areas: seq<Area>, i: nat, k: nat)
    requires OneOwner(domains) && AreSpecs(specs, domains) && Charted(areas, domains)
    requires i < |domains| && k < |domains[i].tables|
    ensures Shown(domains[i].tables[k], Entered(specs, areas), areas[i])
    ensures var at, r := Entered(specs, areas)[domains[i].tables[k].name], TableRect(domains, i, k);
            Rect(at.x, at.y, TABLE_WIDTH, TableBox(domains[i].tables[k]).h) == r
  {
    TableIsPlaced(domains, specs, areas, i, k);
    TableInArea(domains, i, k);
    DomainRectsSize(domains[i].tables);
  }

  lemma {:induction false} ClearAt(
    domains: seq<Domain>, specs: seq<Spec>, areas: seq<Area>, i: nat, k: nat, j: nat, l: nat)
    requires OneOwner(domains) && AreSpecs(specs, domains) && Charted(areas, domains)
    requires i < |domains| && k < |domains[i].tables| && j < |domains| && l < |domains[j].tables| && (i != j || k != l)
    ensures Clear(domains[i].tables[k], domains[j].tables[l], Entered(specs, areas))
  {
    ShownAt(domains, specs, areas, i, k);
    ShownAt(domains, specs, areas, j, l);
    TablesApart(domains, i, k, j, l);
  }

  lemma ChartedClear(domains: seq<Domain>, areas: seq<Area>)
    requires Charted(areas, domains)
    ensures AreasClear(areas)
  {
    AreasApart(domains);
  }

  lemma {:induction false} ChartedShown(domains: seq<Domain>, specs: seq<Spec>, areas: seq<Area>)
    requires OneOwner(domains) && AreSpecs(specs, domains) && Charted(areas, domains)
    ensures AllShown(domains, areas, Entered(specs, areas)) && AllClear(domains, Entered(specs, areas))
  {
    var tables := Entered(specs, areas);
    forall i, k | 0 <= i < |domains| && 0 <= k < |domains[i].tables|
      ensures Shown(domains[i].tables[k], tables, areas[i])
    {
      ShownAt(domains, specs, areas, i, k);
    }
    forall i, k, j, l | 0 <= i < |domains| && 0 <= k < |domains[i].tables| && 0 <= j < |domains| &&
      0 <= l < |domains[j].tables|
      ensures (i == j && k == l) || Clear(domains[i].tables[k], domains[j].tables[l], tables)
    {
      if i != j || k != l {
        ClearAt(domains, specs, areas, i, k, j, l);
      }
    }
  }

  lemma {:induction false} DiagramIsSound(domains: seq<Domain>, specs: seq<Spec>, areas: seq<Area>)
    requires OneOwner(domains) && AreSpecs(specs, domains) && Charted(areas, domains)
    ensures SoundDiagram(domains, areas, Entered(specs, areas))
  {
    var tables := Entered(specs, areas);
    ChartedClear(domains, areas);
    ChartedShown(domains, specs, areas);
    forall name | name in tables
      ensures exists i, k :: 0 <= i < |domains| && 0 <= k < |domains[i].tables| && domains[i].tables[k].name == name
    {
      var i, k := OnlyTablesArePlaced(domains, specs, areas, name);
    }
  }

  // ----- where everything is drawn -----

  /** A table as it is drawn: 360 wide, a header of 76 and 30 for every column, at least one. */
  function Drawn(t: Item, at: TableAt): Rect {
    Rect(at.x, at.y, 360, 76 + 30 * (if t.fields == 0 then 1 else t.fields))
  }

  function DrawnTables(items: seq<Item>, tables: map<string, TableAt>): seq<Rect>
    requires forall k :: 0 <= k < |items| ==> items[k].name in tables
  {
    seq(|items|, k requires 0 <= k < |items| => Drawn(items[k], tables[items[k].name]))
  }

  /** Two columns for up to six tables, three for up to twelve, four for more. */
  predicate AreColumns(columns: nat, tables: nat) {
    columns == if tables <= 6 then 2 else if tables <= 12 then 3 else 4
  }

  /** The tables of a domain in columns below the header of its area, which ends just below the lowest. */
  ghost predicate DomainDrawn(d: Domain, area: Rect, tables: map<string, TableAt>) {
    && (forall k :: 0 <= k < |d.tables| ==> d.tables[k].name in tables)
    && exists columns :: AreColumns(columns, |d.tables|) && DrawnInColumns(DrawnTables(d.tables, tables), area, columns)
  }

  ghost predicate DrawnInColumns(rects: seq<Rect>, area: Rect, columns: nat) {
    && columns > 0 && area.w == 420 * columns + 60
    && IsGrid(rects, columns, area.x + 60, area.y + 132, 420, 60)
    && if rects == [] then area.h == 192 else EndsAt(rects, area.y + area.h - 60)
  }

  function AreaRectangles(areas: seq<Area>): seq<Rect> { seq(|areas|, i requires 0 <= i < |areas| => areas[i].rect) }

  /** In the left column or beside the widest area, in the row below the areas above. */
  ghost predicate IsAreaAt(rects: seq<Rect>, k: nat, widest: nat)
    requires k < |rects|
  {
    rects[k].x == (if k % 2 == 0 then 0 else widest + 300) && Stacked(rects, 2, 0, 300, k)
  }

  /** Two areas to a row, as far apart as the widest area and 300 more, the rows 300 apart. */
  ghost predicate AreasDrawn(areas: seq<Area>, widest: nat) {
    && (exists i :: 0 <= i < |areas| && areas[i].rect.w == widest)
    && (forall i :: 0 <= i < |areas| ==> areas[i].rect.w <= widest)
    && forall k :: 0 <= k < |areas| ==> IsAreaAt(AreaRectangles(areas), k, widest)
  }

  ghost predicate DrawnInGrids(domains: seq<Domain>, areas: seq<Area>, tables: map<string, TableAt>) {
    && |areas| == |domains| && (exists widest: nat :: AreasDrawn(areas, widest))
    && forall i :: 0 <= i < |areas| ==> DomainDrawn(domains[i], areas[i].rect, tables)
  }

  lemma {:induction false} GlobalWidthAttained(domains: seq<Domain>, n: nat)
    requires 0 < n <= |domains|
    ensures exists i :: 0 <= i < n && BoxOf(domains[i]).w == GlobalWidth(domains, n)
  {
    if n == 1 || GlobalWidth(domains, n) == BoxOf(domains[n - 1]).w {
      assert BoxOf(domains[n - 1]).w == GlobalWidth(domains, n);
    } else {
      GlobalWidthAttained(domains, n - 1);
    }
  }

  lemma OneOfTwo(k: nat, step: nat)
    ensures (k % 2) * step == if k % 2 == 0 then 0 else step
  {
    assert k % 2 == 0 || k % 2 == 1;
  }

  lemma GridOfTwo(rects: seq<Rect>, widest: nat)
    requires IsGrid(rects, 2, 0, 0, widest + 300, 300)
    ensures forall k :: 0 <= k < |rects| ==> IsAreaAt(rects, k, widest)
  {
    forall k | 0 <= k < |rects| ensures IsAreaAt(rects, k, widest) {
      OneOfTwo(k, widest + 300);
    }
  }

  lemma {:induction false} AreaCorners(domains: seq<Domain>, widest: nat)
    requires widest == GlobalWidth(domains, |domains|)
    ensures forall k :: 0 <= k < |AreaRects(domains)| ==> IsAreaAt(AreaRects(domains), k, widest)
  {
    PlacedIsGrid(Map(BoxOf, domains), 2, 0, 0, widest + 300, 300);
    GridOfTwo(AreaRects(domains), widest);
  }

  lemma {:induction false} DrawnAt(domains: seq<Domain>, specs: seq<Spec>, areas: seq<Area>, i: nat, k: nat)
    requires OneOwner(domains) && AreSpecs(specs, domains) && Charted(areas, domains)
    requires i < |domains| && k < |domains[i].tables|
    ensures var t, tables := domains[i].tables[k], Entered(specs, areas);
            t.name in tables && Drawn(t, tables[t.name]) == TableRect(domains, i, k)
  {
    TableIsPlaced(domains, specs, areas, i, k);
    ShownAt(domains, specs, areas, i, k);
  }

  ghost predicate AllDrawn(items: seq<Item>, tables: map<string, TableAt>, x: int, y: int) {
    |DomainRects(items)| == |items| &&
    forall k :: 0 <= k < |items| ==>
      items[k].name in tables && Drawn(items[k], tables[items[k].name]) == Shift(DomainRects(items)[k], x, y)
  }

  lemma DrawnIsShifted(items: seq<Item>, tables: map<string, TableAt>, x: int, y: int)
    requires AllDrawn(items, tables, x, y)
    ensures IsShifted(DomainRects(items), DrawnTables(items, tables), x, y)
  {}

  /** The extent of a drawn area. */
  lemma DrawnExtent(domains: seq<Domain>, areas: seq<Area>, i: nat)
    requires Charted(areas, domains) && i < |domains|
    ensures areas[i].rect.w == 420 * AreaColumnCount(|domains[i].tables|) + 60
    ensures domains[i].tables == [] ==> areas[i].rect.h == 192
  {
    AreaRectsSize(domains);
    AreaExtent(domains[i].tables);
  }

  /** The tables of a drawn area. */
  lemma DrawnGrid(domains: seq<Domain>, areas: seq<Area>, i: nat, rects: seq<Rect>)
    requires Charted(areas, domains) && i < |domains|
    requires IsShifted(DomainRects(domains[i].tables), rects, areas[i].rect.x, areas[i].rect.y)
    ensures var area, columns := areas[i].rect, AreaColumnCount(|domains[i].tables|);
            && IsGrid(rects, columns, area.x + 60, area.y + 132, 420, 60)
            && (domains[i].tables != [] ==> EndsAt(rects, area.y + area.h - 60))
  {
    AreaRectsSize(domains);
    DomainMoves(domains[i].tables, rects, areas[i].rect.x, areas[i].rect.y, areas[i].rect.h);
  }

  lemma InColumns(rects: seq<Rect>, area: Rect, columns: nat)
    requires columns > 0 && area.w == 420 * columns + 60
    requires IsGrid(rects, columns, area.x + 60, area.y + 132, 420, 60)
    requires if rects == [] then area.h == 192 else EndsAt(rects, area.y + area.h - 60)
    ensures DrawnInColumns(rects, area, columns)
  {}

  lemma DrawnColumns(domains: seq<Domain>, areas: seq<Area>, i: nat, rects: seq<Rect>)
    requires Charted(areas, domains) && i < |domains| && |rects| == |domains[i].tables|
    requires IsShifted(DomainRects(domains[i].tables), rects, areas[i].rect.x, areas[i].rect.y)
    ensures DrawnInColumns(rects, areas[i].rect, AreaColumnCount(|domains[i].tables|))
  {
    DrawnGrid(domains, areas, i, rects);
    DrawnExtent(domains, areas, i);
    InColumns(rects, areas[i].rect, AreaColumnCount(|domains[i].tables|));
  }

  lemma {:induction false} AllAreDrawn(domains: seq<Domain>, specs: seq<Spec>, areas: seq<Area>, i: nat)
    requires OneOwner(domains) && AreSpecs(specs, domains) && Charted(areas, domains) && i < |domains|
    ensures AllDrawn(domains[i].tables, Entered(specs, areas), areas[i].rect.x, areas[i].rect.y)
  {
    var tables := Entered(specs, areas);
    DomainRectsSize(domains[i].tables);
    forall k | 0 <= k < |domains[i].tables|
      ensures var t := domains[i].tables[k]; t.name in tables && Drawn(t, tables[t.name]) == TableRect(domains, i, k)
    {
      DrawnAt(domains, specs, areas, i, k);
    }
  }

  lemma {:induction false} ChartedDomain(domains: seq<Domain>, specs: seq<Spec>, areas: seq<Area>, i: nat)
    requires OneOwner(domains) && AreSpecs(specs, domains) && Charted(areas, domains) && i < |domains|
    ensures DomainDrawn(domains[i], areas[i].rect, Entered(specs, areas))
  {
    var items, tables := domains[i].tables, Entered(specs, areas);
    AllAreDrawn(domains, specs, areas, i);
    DrawnIsShifted(items, tables, areas[i].rect.x, areas[i].rect.y);
    DrawnColumns(domains, areas, i, DrawnTables(items, tables));
    assert AreColumns(AreaColumnCount(|items|), |items|);
  }

  lemma DomainMoves(items: seq<Item>, moved: seq<Rect>, x: int, y: int, height: int)
    requires IsShifted(DomainRects(items), moved, x, y) && height == AreaBox(items).h
    ensures IsGrid(moved, AreaColumnCount(|items|), x + 60, y + 132, 420, 60)
    ensures items != [] ==> EndsAt(moved, y + height - 60)
  {
    DomainGrid(items);
    GridMoves(DomainRects(items), moved, x, y, AreaColumnCount(|items|), 60, 132, 420, 60);
    if items != [] {
      DomainEnds(items);
      EndMoves(DomainRects(items), moved, x, y, height - 60);
    }
  }

  lemma DomainGrid(items: seq<Item>)
    ensures IsGrid(DomainRects(items), AreaColumnCount(|items|), 60, 132, 420, 60)
  {
    PlacedIsGrid(Map(TableBox, items), AreaColumnCount(|items|), 60, 132, 420, 60);
  }

  lemma AreaExtent(items: seq<Item>)
    ensures AreaBox(items).w == 420 * AreaColumnCount(|items|) + 60
    ensures AreaBox(items).h == 192 + RowsHeight(DomainRows(items), 60)
    ensures items == [] ==> AreaBox(items).h == 192
  {}

  lemma DomainEnds(items: seq<Item>)
    requires items != []
    ensures EndsAt(DomainRects(items), AreaBox(items).h - 60)
  {
    PlacedEndsAt(Map(TableBox, items), AreaColumnCount(|items|), 60, 132, 420, 60);
    AreaExtent(items);
  }

  lemma EndMoves(rects: seq<Rect>, moved: seq<Rect>, x: int, y: int, bottom: int)
    requires EndsAt(rects, bottom) && IsShifted(rects, moved, x, y)
    ensures EndsAt(moved, bottom + y)
  {
    var k :| 0 <= k < |rects| && rects[k].y + rects[k].h == bottom;
    assert moved[k].y + moved[k].h == bottom + y;
  }

  lemma AreaWidths(domains: seq<Domain>, areas: seq<Area>)
    requires Charted(areas, domains)
    ensures AreaRectangles(areas) == AreaRects(domains)
    ensures forall i :: 0 <= i < |areas| ==> areas[i].rect.w == BoxOf(domains[i]).w
  {
    AreaRectsSize(domains);
  }

  lemma {:induction false} WidestIsDrawn(domains: seq<Domain>, areas: seq<Area>, widest: nat)
    requires Charted(areas, domains) && domains != [] && widest == GlobalWidth(domains, |domains|)
    ensures exists i :: 0 <= i < |areas| && areas[i].rect.w == widest
    ensures forall i :: 0 <= i < |areas| ==> areas[i].rect.w <= widest
  {
    AreaWidths(domains, areas);
    GlobalWidthAttained(domains, |domains|);
    var i :| 0 <= i < |domains| && BoxOf(domains[i]).w == widest;
    assert areas[i].rect.w == widest;
  }

  lemma {:induction false} AreasAreDrawn(domains: seq<Domain>, areas: seq<Area>, widest: nat)
    requires Charted(areas, domains) && domains != [] && widest == GlobalWidth(domains, |domains|)
    ensures AreasDrawn(areas, widest)
  {
    AreaWidths(domains, areas);
    AreaCorners(domains, widest);
    WidestIsDrawn(domains, areas, widest);
  }

  lemma {:induction false} DiagramIsDrawn(domains: seq<Domain>, specs: seq<Spec>, areas: seq<Area>)
    requires OneOwner(domains) && AreSpecs(specs, domains) && Charted(areas, domains) && domains != []
    ensures DrawnInGrids(domains, areas, Entered(specs, areas))
  {
    AreasAreDrawn(domains, areas, GlobalWidth(domains, |domains|));
    forall i | 0 <= i < |areas| ensures DomainDrawn(domains[i], areas[i].rect, Entered(specs, areas)) {
      ChartedDomain(domains, specs, areas, i);
    }
  }

  /** The diagram of any domains that share no table is sound, and drawn in grids. */
  method DrawDiagram(domains: seq<Domain>) returns (areas: seq<Area>, tables: map<string, TableAt>)
    requires domains != [] && OneOwner(domains)
    ensures SoundDiagram(domains, areas, tables) && DrawnInGrids(domains, areas, tables)
  {
    ghost var specs;
    areas, tables, specs := ChartLayout(domains);
    DiagramIsSound(domains, specs, areas);
    DiagramIsDrawn(domains, specs, areas);
  }
}
