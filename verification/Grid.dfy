/** Boxes placed row by row on a grid: where they end up, that they never overlap, and the space they need. */
module Grid {
  import opened Arithmetic

  datatype Box = Box(w: nat, h: nat)
  datatype Rect = Rect(x: int, y: int, w: nat, h: nat)

  predicate Apart(a: Rect, b: Rect) {
    a.x + a.w <= b.x || b.x + b.w <= a.x || a.y + a.h <= b.y || b.y + b.h <= a.y
  }

  ghost predicate PairwiseApart(s: seq<Rect>) {
    forall i, j :: 0 <= i < j < |s| ==> Apart(s[i], s[j])
  }

  /** Consecutive slices of `n` elements, the last one possibly shorter. */
  function Chunks<A>(s: seq<A>, n: nat): (r: seq<seq<A>>)
    requires n > 0
    ensures forall i :: 0 <= i < |r| ==> 0 < |r[i]| <= n
    ensures (r == []) == (s == [])
  {
    if s == [] then [] else if |s| <= n then [s] else [s[..n]] + Chunks(s[n..], n)
  }

  function Concat<A>(rows: seq<seq<A>>): seq<A> {
    if rows == [] then [] else rows[0] + Concat(rows[1..])
  }

  lemma {:induction false} ConcatChunks<A>(s: seq<A>, n: nat)
    requires n > 0
    ensures Concat(Chunks(s, n)) == s
    decreases |s|
  {
    if |s| > n {
      ConcatChunks(s[n..], n);
      assert Chunks(s, n)[1..] == Chunks(s[n..], n);
    } else if s != [] {
      assert Concat([s]) == s + Concat([s][1..]);
    }
  }

  /** The r-th chunk is the slice from r*n to (r+1)*n, cut off at the end. */
  lemma {:induction false} ChunkAt<A>(s: seq<A>, n: nat, r: nat)
    requires n > 0 && r < |Chunks(s, n)|
    ensures 0 <= r * n < |s|
    ensures Chunks(s, n)[r] == s[r * n..if (r + 1) * n < |s| then (r + 1) * n else |s|]
    decreases r
  {
    MulStep(r, n);
    if r > 0 {
      var t := s[n..];
      ChunkAt(t, n, r - 1);
      MulStep(r - 1, n);
      var from, to := (r - 1) * n, if r * n < |t| then r * n else |t|;
      assert Chunks(t, n)[r - 1] == t[from..to];
      assert t[from..to] == s[from + n..to + n];
    }
  }

  lemma {:induction false} ChunkCount<A>(s: seq<A>, n: nat)
    requires n > 0
    ensures |Chunks(s, n)| == (|s| + n - 1) / n
    decreases |s|
  {
    if s == [] {
      DivUnique(n - 1, n, 0);
    } else if |s| <= n {
      DivUnique(|s| + n - 1, n, 1);
    } else {
      ChunkCount(s[n..], n);
      var q := (|s| - n + n - 1) / n;
      DivSandwich(|s| - 1, n);
      MulStep(q, n);
      DivUnique(|s| + n - 1, n, q + 1);
    }
  }

  // ----- placing -----

  /** The greatest height among the first `n` boxes. */
  function Tallest(row: seq<Box>, n: nat): nat
    requires n <= |row|
  {
    if n == 0 then 0
    else
      var h := Tallest(row, n - 1);
      if h < row[n - 1].h then row[n - 1].h else h
  }

  function RowHeight(row: seq<Box>): nat { Tallest(row, |row|) }

  lemma {:induction false} TallestIsMaximum(row: seq<Box>, n: nat)
    requires n <= |row|
    ensures forall i :: 0 <= i < n ==> row[i].h <= Tallest(row, n)
    ensures n > 0 ==> exists i :: 0 <= i < n && row[i].h == Tallest(row, n)
  {
    if n > 0 {
      TallestIsMaximum(row, n - 1);
      if n == 1 || Tallest(row, n) == row[n - 1].h {
        assert row[n - 1].h == Tallest(row, n);
      }
    }
  }

  function PlaceRow(row: seq<Box>, x: int, y: int, step: nat): (r: seq<Rect>)
    ensures |r| == |row|
  {
    seq(|row|, c requires 0 <= c < |row| => Rect(x + c * step, y, row[c].w, row[c].h))
  }

  ghost predicate NoEmptyRow(rows: seq<seq<Box>>) {
    forall i :: 0 <= i < |rows| ==> rows[i] != []
  }

  function Place(rows: seq<seq<Box>>, x: int, y: int, step: nat, gap: nat): seq<Rect>
    requires NoEmptyRow(rows)
  {
    if rows == [] then []
    else PlaceRow(rows[0], x, y, step) + Place(rows[1..], x, y + RowHeight(rows[0]) + gap, step, gap)
  }

  /** The height of the rows and the gaps between them. */
  function RowsHeight(rows: seq<seq<Box>>, gap: nat): nat
    requires NoEmptyRow(rows)
  {
    if rows == [] then 0
    else if |rows| == 1 then RowHeight(rows[0])
    else RowHeight(rows[0]) + gap + RowsHeight(rows[1..], gap)
  }

  /** One rectangle per box, in order, of the box's size. */
  lemma {:induction false} PlaceSizes(rows: seq<seq<Box>>, x: int, y: int, step: nat, gap: nat)
    requires NoEmptyRow(rows)
    ensures |Place(rows, x, y, step, gap)| == |Concat(rows)|
    ensures forall i :: 0 <= i < |Concat(rows)| ==>
              Place(rows, x, y, step, gap)[i].w == Concat(rows)[i].w &&
                Place(rows, x, y, step, gap)[i].h == Concat(rows)[i].h
  {
    if rows != [] {
      PlaceSizes(rows[1..], x, y + RowHeight(rows[0]) + gap, step, gap);
    }
  }

  /** Rows of at most `columns` boxes, none wider than `width`, stay inside the area they are given. */
  lemma {:induction false} PlaceInside(
    rows: seq<seq<Box>>, x: int, y: int, step: nat, gap: nat, columns: nat, width: nat, i: nat)
    requires NoEmptyRow(rows) && columns > 0 && width <= step && i < |Place(rows, x, y, step, gap)|
    requires forall r :: 0 <= r < |rows| ==> |rows[r]| <= columns && forall c :: 0 <= c < |rows[r]| ==>
             rows[r][c].w <= width
    ensures var p := Place(rows, x, y, step, gap)[i];
            x <= p.x && p.x + p.w <= x + (columns - 1) * step + width && y <= p.y &&
              p.y + p.h <= y + RowsHeight(rows, gap)
    decreases |rows|
  {
    var row := rows[0];
    if i < |row| {
      TallestIsMaximum(row, |row|);
      ColumnBounds(i, columns, step);
    } else {
      PlaceInside(rows[1..], x, y + RowHeight(row) + gap, step, gap, columns, width, i - |row|);
    }
  }

  lemma ColumnBounds(c: nat, columns: nat, step: nat)
    requires c < columns
    ensures 0 <= c * step <= (columns - 1) * step
  {
    if c < columns - 1 {
      MulGap(c, columns - 1, step);
    }
  }

  lemma PlaceRowApart(row: seq<Box>, x: int, y: int, step: nat)
    requires forall c :: 0 <= c < |row| ==> row[c].w <= step
    ensures PairwiseApart(PlaceRow(row, x, y, step))
  {
    forall i, j | 0 <= i < j < |row|
      ensures Apart(PlaceRow(row, x, y, step)[i], PlaceRow(row, x, y, step)[j])
    {
      MulGap(i, j, step);
    }
  }

  lemma {:induction false} PlaceBelow(rows: seq<seq<Box>>, x: int, y: int, step: nat, gap: nat, i: nat)
    requires NoEmptyRow(rows) && i < |Place(rows, x, y, step, gap)|
    ensures y <= Place(rows, x, y, step, gap)[i].y
    decreases |rows|
  {
    if i >= |rows[0]| {
      PlaceBelow(rows[1..], x, y + RowHeight(rows[0]) + gap, step, gap, i - |rows[0]|);
    }
  }

  /** No two boxes overlap when none is wider than the horizontal step. */
  lemma {:induction false} PlaceApart(rows: seq<seq<Box>>, x: int, y: int, step: nat, gap: nat)
    requires NoEmptyRow(rows)
    requires forall r :: 0 <= r < |rows| ==> forall c :: 0 <= c < |rows[r]| ==> rows[r][c].w <= step
    ensures PairwiseApart(Place(rows, x, y, step, gap))
  {
    if rows != [] {
      var row := rows[0];
      var y' := y + RowHeight(row) + gap;
      var first, rest := PlaceRow(row, x, y, step), Place(rows[1..], x, y', step, gap);
      PlaceRowApart(row, x, y, step);
      PlaceApart(rows[1..], x, y', step, gap);
      TallestIsMaximum(row, |row|);
      forall i, j | 0 <= i < |first| && 0 <= j < |rest|
        ensures Apart(first[i], rest[j])
      {
        PlaceBelow(rows[1..], x, y', step, gap, j);
      }
    }
  }

  // ----- where a grid puts its boxes -----

  /** The row of box `j` is the one above that of box `k`. */
  predicate RowAbove(j: nat, k: nat, columns: nat)
    requires columns > 0
  {
    j / columns + 1 == k / columns
  }

  /** The first row begins at `top`; every other one `gap` below the lowest box of the row above it. */
  ghost predicate Stacked(rects: seq<Rect>, columns: nat, top: int, gap: nat, k: nat)
    requires columns > 0 && k < |rects|
  {
    && (k < columns ==> rects[k].y == top)
    && (forall j :: 0 <= j < |rects| && RowAbove(j, k, columns) ==> rects[j].y + rects[j].h + gap <= rects[k].y)
    && (k >= columns ==>
        exists j :: 0 <= j < |rects| && RowAbove(j, k, columns) && rects[j].y + rects[j].h + gap == rects[k].y)
  }

  /** `columns` boxes to a row, `step` apart, the rows one below the other. */
  ghost predicate IsGrid(rects: seq<Rect>, columns: nat, left: int, top: int, step: nat, gap: nat)
    requires columns > 0
  {
    forall k :: 0 <= k < |rects| ==>
      rects[k].x == left + (k % columns) * step && Stacked(rects, columns, top, gap, k)
  }

  lemma OneRowIsGrid(row: seq<Box>, columns: nat, x: int, y: int, step: nat, gap: nat)
    requires 0 < columns && |row| <= columns
    ensures IsGrid(PlaceRow(row, x, y, step), columns, x, y, step, gap)
  {
    var rects := PlaceRow(row, x, y, step);
    forall k | 0 <= k < |rects|
      ensures rects[k].x == x + (k % columns) * step && Stacked(rects, columns, y, gap, k)
    {
      NextRow(k, columns);
      FirstRowStacked(rects, columns, y, gap, k);
    }
  }

  lemma RowOnGridAt(first: seq<Rect>, rest: seq<Rect>, columns: nat, x: int, y: int, step: nat, gap: nat, next: int,
                    k: nat)
    requires columns > 0 && |first| == columns && k < |rest|
    requires rest[k].x == x + (k % columns) * step && Stacked(rest, columns, next, gap, k)
    requires forall c :: 0 <= c < columns ==> first[c].y + first[c].h + gap <= next
    requires exists c :: 0 <= c < columns && first[c].y + first[c].h + gap == next
    ensures (first + rest)[columns + k].x == x + ((columns + k) % columns) * step
    ensures Stacked(first + rest, columns, y, gap, columns + k)
  {
    NextRow(k, columns);
    assert (first + rest)[columns + k] == rest[k];
    StackedBelow(first, rest, columns, y, next, gap, k);
  }

  /** A full row above a grid makes a grid. */
  lemma RowOnGrid(first: seq<Rect>, rest: seq<Rect>, columns: nat, x: int, y: int, step: nat, gap: nat, next: int)
    requires columns > 0 && |first| == columns && IsGrid(rest, columns, x, next, step, gap)
    requires IsGrid(first, columns, x, y, step, gap)
    requires forall c :: 0 <= c < columns ==> first[c].y + first[c].h + gap <= next
    requires exists c :: 0 <= c < columns && first[c].y + first[c].h + gap == next
    ensures IsGrid(first + rest, columns, x, y, step, gap)
  {
    var rects := first + rest;
    forall k | 0 <= k < |rects|
      ensures rects[k].x == x + (k % columns) * step && Stacked(rects, columns, y, gap, k)
    {
      if k < columns {
        assert Stacked(first, columns, y, gap, k) && rects[k] == first[k];
        FirstRowStacked(rects, columns, y, gap, k);
      } else {
        RowOnGridAt(first, rest, columns, x, y, step, gap, next, k - columns);
      }
    }
  }

  /** `bottom` is where the lowest box ends. */
  ghost predicate EndsAt(rects: seq<Rect>, bottom: int) {
    && (forall k :: 0 <= k < |rects| ==> rects[k].y + rects[k].h <= bottom)
    && exists k :: 0 <= k < |rects| && rects[k].y + rects[k].h == bottom
  }

  lemma NextRow(k: nat, columns: nat)
    requires columns > 0
    ensures (k + columns) / columns == k / columns + 1 && (k + columns) % columns == k % columns
    ensures k < columns <==> k / columns == 0
    ensures k < columns ==> k % columns == k
  {
    DivSandwich(k, columns);
    MulStep(k / columns, columns);
    DivUnique(k + columns, columns, k / columns + 1);
    if k < columns {
      DivUnique(k, columns, 0);
    }
  }

  lemma ShiftedRow(j: nat, k: nat, columns: nat)
    requires columns > 0 && k >= columns
    ensures RowAbove(j, k, columns) <==>
            if j < columns then k - columns < columns else RowAbove(j - columns, k - columns, columns)
  {
    NextRow(k - columns, columns);
    NextRow(j, columns);
    if j >= columns {
      NextRow(j - columns, columns);
    }
  }

  /** A row of boxes above a grid. */
  lemma StackedBelow(first: seq<Rect>, rest: seq<Rect>, columns: nat, top: int, next: int, gap: nat, k: nat)
    requires columns > 0 && |first| == columns && k < |rest| && Stacked(rest, columns, next, gap, k)
    requires forall c :: 0 <= c < columns ==> first[c].y + first[c].h + gap <= next
    requires exists c :: 0 <= c < columns && first[c].y + first[c].h + gap == next
    ensures Stacked(first + rest, columns, top, gap, columns + k)
  {
    var all := first + rest;
    forall j: nat {:trigger RowAbove(j, columns + k, columns)} | j < |all|
      ensures RowAbove(j, columns + k, columns) <==>
              if j < columns then k < columns else RowAbove(j - columns, k, columns)
    {
      ShiftedRow(j, columns + k, columns);
    }
    assert forall j :: columns <= j < |all| ==> all[j] == rest[j - columns];
    if k < columns {
      var c :| 0 <= c < columns && first[c].y + first[c].h + gap == next;
      assert RowAbove(c, columns + k, columns) && all[c] == first[c];
    } else {
      var j :| 0 <= j < |rest| && RowAbove(j, k, columns) && rest[j].y + rest[j].h + gap == rest[k].y;
      assert RowAbove(columns + j, columns + k, columns);
    }
  }

  lemma FirstRowStacked(rects: seq<Rect>, columns: nat, top: int, gap: nat, k: nat)
    requires columns > 0 && k < |rects| && k < columns && rects[k].y == top
    ensures Stacked(rects, columns, top, gap, k)
  {
    NextRow(k, columns);
  }

  /** Slices of a list, placed row by row, are a grid. */
  lemma {:induction false} PlacedIsGrid(s: seq<Box>, columns: nat, x: int, y: int, step: nat, gap: nat)
    requires columns > 0
    ensures IsGrid(Place(Chunks(s, columns), x, y, step, gap), columns, x, y, step, gap)
    decreases |s|
  {
    if 0 < |s| <= columns {
      assert Place(Chunks(s, columns), x, y, step, gap) == PlaceRow(s, x, y, step);
      OneRowIsGrid(s, columns, x, y, step, gap);
    } else if |s| > columns {
      var row, next := s[..columns], y + RowHeight(s[..columns]) + gap;
      var first, rest := PlaceRow(row, x, y, step), Place(Chunks(s[columns..], columns), x, next, step, gap);
      assert Chunks(s, columns)[0] == row && Chunks(s, columns)[1..] == Chunks(s[columns..], columns);
      PlacedIsGrid(s[columns..], columns, x, next, step, gap);
      OneRowIsGrid(row, columns, x, y, step, gap);
      TallestIsMaximum(row, |row|);
      var c :| 0 <= c < columns && row[c].h == RowHeight(row);
      assert first[c].y + first[c].h + gap == next;
      RowOnGrid(first, rest, columns, x, y, step, gap, next);
    }
  }

  lemma RowEndsAt(row: seq<Box>, x: int, y: int, step: nat)
    requires row != []
    ensures EndsAt(PlaceRow(row, x, y, step), y + RowHeight(row))
  {
    TallestIsMaximum(row, |row|);
    var c :| 0 <= c < |row| && row[c].h == RowHeight(row);
    assert PlaceRow(row, x, y, step)[c].y + PlaceRow(row, x, y, step)[c].h == y + RowHeight(row);
  }

  lemma EndBelow(first: seq<Rect>, rest: seq<Rect>, edge: int, bottom: int)
    requires EndsAt(first, edge) && EndsAt(rest, bottom) && edge <= bottom
    ensures EndsAt(first + rest, bottom)
  {
    var k :| 0 <= k < |rest| && rest[k].y + rest[k].h == bottom;
    assert (first + rest)[|first| + k] == rest[k];
  }

  /** And the lowest box ends at the height of the rows. */
  lemma {:induction false} PlacedEndsAt(s: seq<Box>, columns: nat, x: int, y: int, step: nat, gap: nat)
    requires columns > 0 && s != []
    ensures EndsAt(Place(Chunks(s, columns), x, y, step, gap), y + RowsHeight(Chunks(s, columns), gap))
    decreases |s|
  {
    if |s| <= columns {
      assert Place(Chunks(s, columns), x, y, step, gap) == PlaceRow(s, x, y, step);
      RowEndsAt(s, x, y, step);
    } else {
      var row, below := s[..columns], Chunks(s[columns..], columns);
      var next := y + RowHeight(row) + gap;
      assert Chunks(s, columns)[0] == row && Chunks(s, columns)[1..] == below;
      RowEndsAt(row, x, y, step);
      PlacedEndsAt(s[columns..], columns, x, next, step, gap);
      EndBelow(PlaceRow(row, x, y, step), Place(below, x, next, step, gap), y + RowHeight(row),
        next + RowsHeight(below, gap));
    }
  }

  function Shift(r: Rect, x: int, y: int): Rect { Rect(r.x + x, r.y + y, r.w, r.h) }

  ghost predicate IsShifted(rects: seq<Rect>, moved: seq<Rect>, x: int, y: int) {
    |rects| == |moved| && forall k :: 0 <= k < |rects| ==> moved[k] == Shift(rects[k], x, y)
  }

  /** A grid stays one when it is moved. */
  lemma GridMoves(rects: seq<Rect>, moved: seq<Rect>, x: int, y: int, columns: nat, left: int, top: int, step: nat,
                  gap: nat)
    requires columns > 0 && IsGrid(rects, columns, left, top, step, gap) && IsShifted(rects, moved, x, y)
    ensures IsGrid(moved, columns, left + x, top + y, step, gap)
  {
    forall k | 0 <= k < |moved|
      ensures moved[k].x == left + x + (k % columns) * step && Stacked(moved, columns, top + y, gap, k)
    {
      assert Stacked(rects, columns, top, gap, k);
      if k >= columns {
        var j :| 0 <= j < |rects| && RowAbove(j, k, columns) && rects[j].y + rects[j].h + gap == rects[k].y;
        assert RowAbove(j, k, columns) && moved[j].y + moved[j].h + gap == moved[k].y;
      }
    }
  }
}
