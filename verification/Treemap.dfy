/**
 * d3's treemap: `squarify` lays the children of a node out in rows, `position` cuts a row into cells,
 * and the cells always tile the padded rectangle of the node, whatever the rounding and the scoring.
 * Coordinates are exact reals.
 */
module Treemap {
  datatype Rect = Rect(x: real, y: real, dx: real, dy: real)

  // ---------- tilings ----------

  predicate Proper(r: Rect) {
    r.dx >= 0.0 && r.dy >= 0.0
  }

  predicate Inside(c: Rect, r: Rect) {
    r.x <= c.x && c.x + c.dx <= r.x + r.dx && r.y <= c.y && c.y + c.dy <= r.y + r.dy
  }

  /** No point is strictly inside both. */
  predicate Apart(c: Rect, d: Rect) {
    c.x + c.dx <= d.x || d.x + d.dx <= c.x || c.y + c.dy <= d.y || d.y + d.dy <= c.y
  }

  predicate Holds(r: Rect, px: real, py: real) {
    r.x <= px <= r.x + r.dx && r.y <= py <= r.y + r.dy
  }

  function Area(r: Rect): real {
    r.dx * r.dy
  }

  function TotalArea(cells: seq<Rect>): real {
    if cells == [] then 0.0 else TotalArea(cells[..|cells| - 1]) + Area(cells[|cells| - 1])
  }

  /** The cells lie inside, are pairwise apart, cover every point, and have the same area in all. */
  ghost predicate Tiles(cells: seq<Rect>, r: Rect) {
    && (forall i :: 0 <= i < |cells| ==> Proper(cells[i]) && Inside(cells[i], r))
    && (forall i, j :: 0 <= i < j < |cells| ==> Apart(cells[i], cells[j]))
    && (forall px, py :: Holds(r, px, py) ==> exists i :: 0 <= i < |cells| && Holds(cells[i], px, py))
    && TotalArea(cells) == Area(r)
  }

  lemma {:induction false} TotalAreaConcat(a: seq<Rect>, b: seq<Rect>)
    ensures TotalArea(a + b) == TotalArea(a) + TotalArea(b)
  {
    if b == [] {
      assert a + b == a;
    } else {
      TotalAreaConcat(a, b[..|b| - 1]);
      assert (a + b)[..|a + b| - 1] == a + b[..|b| - 1];
    }
  }

  lemma OneArea(c: Rect)
    ensures TotalArea([c]) == Area(c)
  {
    assert [c][..0] == [];
    hide Area;
  }

  lemma PartInside(c: Rect, last: Rect, r: Rect)
    requires Inside(c, last) && Inside(last, r)
    ensures Inside(c, r)
  {
  }

  lemma PartApart(c: Rect, part: Rect, last: Rect)
    requires Apart(c, last) && Inside(part, last)
    ensures Apart(c, part)
  {
  }

  /** A cell may be replaced by cells that tile it. */
  lemma {:induction false} Refine(cells: seq<Rect>, last: Rect, parts: seq<Rect>, r: Rect)
    requires Tiles(cells + [last], r) && Tiles(parts, last)
    ensures Tiles(cells + parts, r)
  {
    hide Inside, Apart, Holds, TotalArea, Area, Proper;
    var all, fine := cells + [last], cells + parts;
    TotalAreaConcat(cells, [last]);
    TotalAreaConcat(cells, parts);
    OneArea(last);
    var n := |cells|;
    assert all[n] == last;
    forall i | 0 <= i < |fine|
      ensures Proper(fine[i]) && Inside(fine[i], r)
    {
      if i < n { assert fine[i] == all[i]; } else { PartInside(parts[i - n], last, r); }
    }
    forall i, j | 0 <= i < j < |fine|
      ensures Apart(fine[i], fine[j])
    {
      if i < n {
        assert Apart(all[i], all[if j < n then j else n]);
        if j < n { assert fine[j] == all[j]; } else { PartApart(all[i], parts[j - n], last); }
      } else {
        assert Apart(parts[i - n], parts[j - n]);
      }
    }
    forall px, py | Holds(r, px, py)
      ensures exists i :: 0 <= i < |fine| && Holds(fine[i], px, py)
    {
      var i :| 0 <= i < |all| && Holds(all[i], px, py);
      if i < n {
        assert fine[i] == all[i];
      } else {
        var j :| 0 <= j < |parts| && Holds(parts[j], px, py);
        assert Holds(fine[n + j], px, py);
      }
    }
  }

  lemma Whole(r: Rect)
    requires Proper(r)
    ensures Tiles([r], r)
  {
    assert [r][..0] == [];
    forall px, py | Holds(r, px, py)
      ensures exists i :: 0 <= i < |[r]| && Holds([r][i], px, py)
    {
      assert Holds([r][0], px, py);
    }
  }

  /** Cells side by side from the left edge of a strip to `x`. */
  ghost predicate RowTo(cells: seq<Rect>, strip: Rect, x: real) {
    && (forall i :: 0 <= i < |cells| ==> cells[i].y == strip.y && cells[i].dy == strip.dy && cells[i].dx >= 0.0)
    && (forall i :: 0 < i < |cells| ==> cells[i].x == cells[i - 1].x + cells[i - 1].dx)
    && (if cells == [] then x == strip.x
        else cells[0].x == strip.x && cells[|cells| - 1].x + cells[|cells| - 1].dx == x)
  }

  lemma {:induction false} RowTiles(cells: seq<Rect>, strip: Rect, x: real)
    requires RowTo(cells, strip, x) && strip.dy >= 0.0 && cells != []
    ensures x >= strip.x && Tiles(cells, Rect(strip.x, strip.y, x - strip.x, strip.dy))
  {
    var n := |cells| - 1;
    var front, last := cells[..n], cells[n];
    if n == 0 {
      assert cells == [last];
      Whole(last);
    } else {
      RowTiles(front, strip, last.x);
      var left, whole := Rect(strip.x, strip.y, last.x - strip.x, strip.dy),
        Rect(strip.x, strip.y, x - strip.x, strip.dy);
      SideBySide(left, last, whole);
      assert [last, left] == [last] + [left];
      Refine([last], left, front, whole);
      Swap(front, last, whole);
      assert cells == front + [last];
    }
  }

  /** Two rectangles next to each other tile the one they make up. */
  lemma SideBySide(left: Rect, right: Rect, whole: Rect)
    requires Proper(left) && Proper(right)
    requires left.y == right.y == whole.y && left.dy == right.dy == whole.dy
    requires left.x == whole.x && right.x == left.x + left.dx && whole.dx == left.dx + right.dx
    ensures Tiles([right, left], whole)
  {
    var cells := [right, left];
    TotalAreaConcat([right], [left]);
    assert [right] + [left] == cells && [right][..0] == [] && [left][..0] == [];
    assert left.dx * whole.dy + right.dx * whole.dy == (left.dx + right.dx) * whole.dy;
    forall px, py | Holds(whole, px, py)
      ensures exists i :: 0 <= i < |cells| && Holds(cells[i], px, py)
    {
      if px <= right.x { assert Holds(cells[1], px, py); } else { assert Holds(cells[0], px, py); }
    }
  }

  /** The first cell may be listed last. */
  lemma {:induction false} Swap(rest: seq<Rect>, first: Rect, r: Rect)
    requires Tiles([first] + rest, r)
    ensures Tiles(rest + [first], r)
  {
    var a, b := [first] + rest, rest + [first];
    TotalAreaConcat([first], rest);
    TotalAreaConcat(rest, [first]);
    hide TotalArea, Area, Proper, Inside, Holds;
    var n := |rest|;
    forall i | 0 <= i < |b|
      ensures Proper(b[i]) && Inside(b[i], r)
    {
      assert b[i] == a[if i < n then i + 1 else 0];
    }
    forall i, j | 0 <= i < j < |b|
      ensures Apart(b[i], b[j])
    {
      if j < n {
        assert b[i] == a[i + 1] && b[j] == a[j + 1];
      } else {
        assert b[i] == a[i + 1] && b[j] == a[0] && Apart(a[0], a[i + 1]);
      }
    }
    forall px, py | Holds(r, px, py)
      ensures exists i :: 0 <= i < |b| && Holds(b[i], px, py)
    {
      var i :| 0 <= i < |a| && Holds(a[i], px, py);
      assert Holds(b[if i == 0 then n else i - 1], px, py);
    }
  }

  // ---------- the other direction, by exchanging the axes ----------

  function Flip(r: Rect): (f: Rect)
    ensures f == Rect(r.y, r.x, r.dy, r.dx)
  {
    Rect(r.y, r.x, r.dy, r.dx)
  }

  function FlipAll(cells: seq<Rect>): (f: seq<Rect>)
    ensures |f| == |cells| && forall i :: 0 <= i < |cells| ==> f[i] == Flip(cells[i])
  {
    seq(|cells|, i requires 0 <= i < |cells| => Flip(cells[i]))
  }

  lemma {:induction false} FlipArea(cells: seq<Rect>)
    ensures TotalArea(FlipAll(cells)) == TotalArea(cells)
  {
    if cells != [] {
      var n := |cells| - 1;
      FlipArea(cells[..n]);
      assert FlipAll(cells)[..n] == FlipAll(cells[..n]);
      assert cells[n].dx * cells[n].dy == cells[n].dy * cells[n].dx;
    }
  }

  lemma {:induction false} FlipTiles(cells: seq<Rect>, r: Rect)
    requires Tiles(FlipAll(cells), Flip(r))
    ensures Tiles(cells, r)
  {
    hide Proper, Inside, Apart, Holds, TotalArea, FlipAll, Area;
    var f := FlipAll(cells);
    FlipArea(cells);
    FlipRects(r, r);
    forall i | 0 <= i < |cells|
      ensures Proper(cells[i]) && Inside(cells[i], r)
    {
      assert Proper(f[i]) && Inside(f[i], Flip(r));
      FlipRects(cells[i], r);
    }
    forall i, j | 0 <= i < j < |cells|
      ensures Apart(cells[i], cells[j])
    {
      assert Apart(f[i], f[j]);
      FlipRects(cells[i], cells[j]);
    }
    forall px, py | Holds(r, px, py)
      ensures exists i :: 0 <= i < |cells| && Holds(cells[i], px, py)
    {
      FlipHolds(r, px, py);
      assert Holds(Flip(r), py, px);
      var i :| 0 <= i < |f| && Holds(f[i], py, px);
      FlipHolds(cells[i], px, py);
      assert Holds(cells[i], px, py);
    }
  }

  lemma FlipRects(a: Rect, b: Rect)
    ensures Proper(Flip(a)) <==> Proper(a)
    ensures Inside(Flip(a), Flip(b)) <==> Inside(a, b)
    ensures Apart(Flip(a), Flip(b)) <==> Apart(a, b)
    ensures Area(Flip(a)) == Area(a)
  {
  }

  lemma FlipHolds(a: Rect, px: real, py: real)
    ensures Holds(Flip(a), py, px) <==> Holds(a, px, py)
  {
  }

  /** A row along the top of a rectangle, and what is left below it, tile the rectangle. */
  lemma {:induction false} RowAndRest(cells: seq<Rect>, r: Rect, v: real)
    requires cells != [] && 0.0 <= v <= r.dy && r.dx >= 0.0
    requires RowTo(cells, Rect(r.x, r.y, r.dx, v), r.x + r.dx)
    ensures Tiles(cells + [Rect(r.x, r.y + v, r.dx, r.dy - v)], r)
    ensures v == r.dy ==> Tiles(cells, r)
  {
    var strip, rest := Rect(r.x, r.y, r.dx, v), Rect(r.x, r.y + v, r.dx, r.dy - v);
    RowTiles(cells, strip, r.x + r.dx);
    SideBySide(Flip(strip), Flip(rest), Flip(r));
    assert FlipAll([rest, strip]) == [Flip(rest), Flip(strip)];
    FlipTiles([rest, strip], r);
    assert [rest, strip] == [rest] + [strip];
    Refine([rest], strip, cells, r);
    Swap(cells, rest, r);
  }

  /** The same for a column along the left. */
  lemma {:induction false} ColumnAndRest(cells: seq<Rect>, r: Rect, v: real)
    requires cells != [] && 0.0 <= v <= r.dx && r.dy >= 0.0
    requires RowTo(FlipAll(cells), Flip(Rect(r.x, r.y, v, r.dy)), r.y + r.dy)
    ensures Tiles(cells + [Rect(r.x + v, r.y, r.dx - v, r.dy)], r)
    ensures v == r.dx ==> Tiles(cells, r)
  {
    RowAndRest(FlipAll(cells), Flip(r), v);
    var rest := Rect(r.x + v, r.y, r.dx - v, r.dy);
    assert FlipAll(cells + [rest]) == FlipAll(cells) + [Flip(rest)];
    FlipTiles(cells + [rest], r);
    if v == r.dx { FlipTiles(cells, r); }
  }

  // ---------- nodes ----------

  /** Top, right, bottom and left, as d3 orders them; no padding at all is four zeros. */
  datatype Padding = Padding(top: real, right: real, bottom: real, left: real)

  /** `d3_layout_treemapPad`: the rectangle left for the children. */
  function Pad(r: Rect, p: Padding): (c: Rect)
    ensures Proper(c)
  {
    var x, y, dx, dy := r.x + p.left, r.y + p.top, r.dx - p.right - p.left, r.dy - p.top - p.bottom;
    Rect(if dx < 0.0 then x + dx / 2.0 else x, if dy < 0.0 then y + dy / 2.0 else y,
         if dx < 0.0 then 0.0 else dx, if dy < 0.0 then 0.0 else dy)
  }

  /**
   * The padded rectangle lies inside the node exactly when, in each direction, either the padding
   * fits or the node is at least as wide as the two paddings differ.
   */
  lemma PadInside(r: Rect, p: Padding)
    requires Proper(r) && p.top >= 0.0 && p.right >= 0.0 && p.bottom >= 0.0 && p.left >= 0.0
    ensures Inside(Pad(r, p), r) <==>
              && (p.left + p.right <= r.dx || (p.left - p.right <= r.dx && p.right - p.left <= r.dx))
              && (p.top + p.bottom <= r.dy || (p.top - p.bottom <= r.dy && p.bottom - p.top <= r.dy))
  {
  }

  /**
   * In each direction, the padded rectangle keeps the paddings' distances from the edges if they fit, and is
   * otherwise a line half-way between where they end.
   */
  lemma PadRoom(r: Rect, p: Padding)
    ensures var c := Pad(r, p);
      && (if p.left + p.right <= r.dx
          then c.x - r.x == p.left && r.x + r.dx - (c.x + c.dx) == p.right
          else c.dx == 0.0 && 2.0 * c.x == r.x + p.left + (r.x + r.dx - p.right))
      && (if p.top + p.bottom <= r.dy
          then c.y - r.y == p.top && r.y + r.dy - (c.y + c.dy) == p.bottom
          else c.dy == 0.0 && 2.0 * c.y == r.y + p.top + (r.y + r.dy - p.bottom))
  {
  }

  /** A node of side 1 with nothing but a right padding of 3: its rectangle for the children lies to the left of it. */
  lemma PadOutside()
    ensures !Inside(Pad(Rect(0.0, 0.0, 1.0, 1.0), Padding(0.0, 3.0, 0.0, 0.0)), Rect(0.0, 0.0, 1.0, 1.0))
  {
    PadInside(Rect(0.0, 0.0, 1.0, 1.0), Padding(0.0, 3.0, 0.0, 0.0));
  }

  /** A node of the hierarchy; the layout writes its area and its rectangle. */
  class Node {
    const value: real
    const padding: Padding
    const children: seq<Node>
    const height: nat // of the tree below the node
    ghost const below: set<Node> // the node and everything below it
    var area: real
    var x: real
    var y: real
    var dx: real
    var dy: real
    var z: bool

    constructor (value: real, padding: Padding, children: seq<Node>, height: nat)
      ensures this.value == value && this.padding == padding && this.children == children && this.height == height
      ensures below == {this} + set c, n | c in children && n in c.below :: n
    {
      this.value, this.padding, this.children, this.height := value, padding, children, height;
      area, x, y, dx, dy, z := 0.0, 0.0, 0.0, 0.0, 0.0, false;
      below := {this} + set c, n | c in children && n in c.below :: n;
    }

    function Cell(): (c: Rect)
      reads this
      ensures c == Rect(x, y, dx, dy)
    {
      Rect(x, y, dx, dy)
    }

    /** The nodes form a tree, and the values are those of a hierarchy of non-negative values. */
    ghost predicate Tree()
      decreases height
    {
      && this in below
      && (forall c :: c in children ==> c.height < height && c in c.below && c.below <= below - {this} && c.Tree())
      && (forall i, j :: 0 <= i < j < |children| ==> children[i].below !! children[j].below)
      && (forall c :: c in children ==> c.value >= 0.0)
        && (value == 0.0 ==> forall c :: c in children ==> c.value == 0.0)
    }
  }

  function Cells(row: seq<Node>): (cells: seq<Rect>)
    reads row
    ensures |cells| == |row| && forall i :: 0 <= i < |row| ==> cells[i] == row[i].Cell()
  {
    seq(|row|, i requires 0 <= i < |row| reads row => row[i].Cell())
  }

  ghost predicate Distinct(row: seq<Node>) {
    forall i, j :: 0 <= i < j < |row| ==> row[i] != row[j]
  }

  function RoundTo(round: real -> real, x: real): real {
    round(x)
  }

  function Min(a: real, b: real): (m: real)
    ensures m == if a <= b then a else b
  {
    if a <= b then a else b
  }

  ghost predicate Rounding(round: real -> real) {
    forall x: real :: x >= 0.0 ==> RoundTo(round, x) >= 0.0
  }

  lemma RowSnoc(cells: seq<Rect>, strip: Rect, x: real, c: Rect)
    requires RowTo(cells, strip, x) && c.x == x && c.y == strip.y && c.dy == strip.dy && c.dx >= 0.0
    ensures RowTo(cells + [c], strip, x + c.dx)
  {
  }

  /** The last cell takes what is left of the strip. */
  lemma RowStretch(cells: seq<Rect>, strip: Rect, x: real, more: real)
    requires RowTo(cells, strip, x) && cells != [] && more >= 0.0
    ensures var n := |cells| - 1; RowTo(cells[n := cells[n].(dx := cells[n].dx + more)], strip, x + more)
  {
  }

  /** `v ? round(area / v) : 0` is not negative. */
  method Divide(area: real, v: real, round: real -> real) returns (d: real)
    requires Rounding(round) && area >= 0.0 && v >= 0.0
    ensures d >= 0.0 && Rounded(d, area, v, round)
  {
    if v != 0.0 {
      d := round(area / v);
      assert RoundTo(round, area / v) >= 0.0;
    } else {
      d := 0.0;
    }
  }

  ghost predicate Rounded(d: real, area: real, v: real, round: real -> real) {
    d == if v != 0.0 then RoundTo(round, area / v) else 0.0
  }

  /** The other side of a rectangle of this area. */
  ghost predicate SideOf(d: real, area: real, v: real) {
    d == if v != 0.0 then area / v else 0.0
  }

  // ---------- how large the cells are ----------

  function Total(xs: seq<real>): real {
    if xs == [] then 0.0 else Total(xs[..|xs| - 1]) + xs[|xs| - 1]
  }

  ghost predicate NoneNegative(xs: seq<real>) {
    forall i :: 0 <= i < |xs| ==> xs[i] >= 0.0
  }

  lemma {:induction false} TotalUpTo(xs: seq<real>, n: nat)
    requires NoneNegative(xs) && n <= |xs|
    ensures 0.0 <= Total(xs[..n]) <= Total(xs)
    decreases |xs|
  {
    if n < |xs| {
      TotalUpTo(xs[..|xs| - 1], n);
      assert xs[..|xs| - 1][..n] == xs[..n];
    } else {
      assert xs[..n] == xs;
      if n > 0 { TotalUpTo(xs[..n - 1], n - 1); }
    }
  }

  lemma TotalNext(xs: seq<real>, n: nat)
    requires n < |xs|
    ensures Total(xs[..n + 1]) == Total(xs[..n]) + xs[n]
  {
    assert xs[..n + 1][..n] == xs[..n];
  }

  lemma {:induction false} TotalZero(xs: seq<real>)
    requires NoneNegative(xs) && Total(xs) == 0.0
    ensures forall i :: 0 <= i < |xs| ==> xs[i] == 0.0
  {
    forall i | 0 <= i < |xs|
      ensures xs[i] == 0.0
    {
      TotalNext(xs, i);
      TotalUpTo(xs, i);
      TotalUpTo(xs, i + 1);
    }
  }

  /** Nothing is rounded. */
  ghost predicate Exact(round: real -> real) {
    forall x: real :: RoundTo(round, x) == x
  }

  /** A strip of this length and height `v` has the room for these areas, neither more nor less. */
  ghost predicate JustFits(areas: seq<real>, v: real, length: real) {
    v >= 0.0 && length >= 0.0 && NoneNegative(areas) && Total(areas) == v * length
  }

  /** The cells so far have their areas, and end where those areas end. */
  ghost predicate Filled(cells: seq<Rect>, areas: seq<real>, v: real, from: real, x: real) {
    && |cells| <= |areas|
    && (forall k :: 0 <= k < |cells| ==> cells[k].dx * v == areas[k])
    && (x - from) * v == Total(areas[..|cells|]) && (v == 0.0 ==> x == from)
  }

  lemma FilledStart(areas: seq<real>, v: real, from: real)
    ensures Filled([], areas, v, from, from)
  {
  }

  lemma Cancel(a: real, b: real, v: real)
    requires v > 0.0
    ensures a * v <= b * v <==> a <= b
  {
    var c := if a <= b then b - a else a - b;
    Positive(c, v);
    assert (b - a) * v == b * v - a * v && (a - b) * v == a * v - b * v;
  }

  lemma Positive(c: real, v: real)
    requires c >= 0.0 && v > 0.0
    ensures c * v >= 0.0 && (c > 0.0 ==> c * v > 0.0)
  {
  }

  lemma Quotient(a: real, v: real)
    requires v != 0.0
    ensures a / v * v == a
  {
  }

  /** The share of a cell is not clamped. */
  lemma ShareFits(areas: seq<real>, n: nat, v: real, length: real, done: real)
    requires n < |areas| && JustFits(areas, v, length) && v > 0.0 && done * v == Total(areas[..n])
    ensures areas[n] / v <= length - done
  {
    TotalNext(areas, n);
    TotalUpTo(areas, n + 1);
    Quotient(areas[n], v);
    var share := areas[n] / v;
    assert (share + done) * v == share * v + done * v;
    assert (share + done) * v == Total(areas[..n + 1]) <= v * length == length * v;
    Cancel(share + done, length, v);
    assert share + done <= length;
  }

  lemma FilledNext(cells: seq<Rect>, areas: seq<real>, v: real, strip: Rect, x: real, c: Rect, share: real)
    requires Filled(cells, areas, v, strip.x, x) && |cells| < |areas| && JustFits(areas, v, strip.dx)
    requires SideOf(share, areas[|cells|], v)
    requires c.dx == Min(strip.x + strip.dx - x, share)
    ensures Filled(cells + [c], areas, v, strip.x, x + c.dx)
  {
    var n := |cells|;
    TotalNext(areas, n);
    if v > 0.0 {
      ShareFits(areas, n, v, strip.dx, x - strip.x);
      Quotient(areas[n], v);
      assert c.dx == share;
      assert (x + c.dx - strip.x) * v == (x - strip.x) * v + c.dx * v;
    } else {
      assert Total(areas) == 0.0;
      TotalZero(areas);
      assert c.dx == 0.0;
    }
  }

  /** What is left of the strip is nothing, or the strip has no area. */
  lemma FilledEnd(cells: seq<Rect>, areas: seq<real>, v: real, strip: Rect, x: real)
    requires Filled(cells, areas, v, strip.x, x) && |cells| == |areas| && areas != [] && JustFits(areas, v, strip.dx)
    ensures var n := |cells| - 1;
      forall k :: 0 <= k < |cells| ==>
        cells[n := cells[n].(dx := cells[n].dx + (strip.x + strip.dx - x))][k].dx * v == areas[k]
  {
    assert areas[..|cells|] == areas;
    if v > 0.0 {
      Cancel(x - strip.x, strip.dx, v);
      Cancel(strip.dx, x - strip.x, v);
      assert strip.x + strip.dx - x == 0.0;
    } else {
      assert Total(areas) == 0.0;
      TotalZero(areas);
    }
  }

  /** The branch of `position` for a row along the top; `v` is its height. */
  method PositionAcross(row: seq<Node>, r: Rect, v: real, round: real -> real)
    requires row != [] && Distinct(row) && Rounding(round) && 0.0 <= v && r.dx >= 0.0
    requires forall i :: 0 <= i < |row| ==> row[i].area >= 0.0
    modifies row
    ensures RowTo(Cells(row), Rect(r.x, r.y, r.dx, v), r.x + r.dx)
    ensures Exact(round) && JustFits(old(Areas(row)), v, r.dx) ==> Sized(Cells(row), old(Areas(row)))
    ensures row[|row| - 1].z
    ensures forall i :: 0 <= i < |row| ==> row[i].area == old(row[i].area)
  {
    hide RowTo, Rounding, Cells, FlipAll, Flip, Min, RoundTo, Exact, JustFits, Filled, Sized, Areas;
    var x := r.x;
    ghost var strip, areas := Rect(r.x, r.y, r.dx, v), Areas(row);
    ghost var exact := Exact(round) && JustFits(areas, v, r.dx);
    RowStart(strip);
    FilledStart(areas, v, r.x);
    assert Cells(row[..0]) == [];
    for i := 0 to |row|
      invariant r.x <= x <= r.x + r.dx
      invariant RowTo(Cells(row[..i]), strip, x)
      invariant exact ==> Filled(Cells(row[..i]), areas, v, strip.x, x)
      invariant forall k :: 0 <= k < |row| ==> row[k].area == areas[k]
    {
      x := PutAcross(row, i, r, v, x, round, areas, exact);
    }
    assert row[..|row|] == row;
    StretchAcross(row, r, v, x, areas, exact);
  }

  method PutAcross(row: seq<Node>, i: nat, r: Rect, v: real, x: real, round: real -> real, ghost areas: seq<real>,
      ghost exact: bool)
    returns (next: real)
    requires i < |row| == |areas| && Distinct(row) && Rounding(round) && 0.0 <= v && row[i].area == areas[i] >= 0.0
    requires r.x <= x <= r.x + r.dx && RowTo(Cells(row[..i]), Rect(r.x, r.y, r.dx, v), x)
    requires exact ==>
      Exact(round) && JustFits(areas, v, r.dx) && Filled(Cells(row[..i]), areas, v, r.x, x)
    modifies row[i]
    ensures r.x <= next <= r.x + r.dx && RowTo(Cells(row[..i + 1]), Rect(r.x, r.y, r.dx, v), next)
    ensures exact ==> Filled(Cells(row[..i + 1]), areas, v, r.x, next)
    ensures row[i].area == areas[i]
  {
    hide RowTo, Rounding, Cells, FlipAll, Flip, Min, RoundTo, Exact, JustFits, Filled, Sized, Rounded, SideOf;
    var o := row[i];
    ghost var before, strip := Cells(row[..i]), Rect(r.x, r.y, r.dx, v);
    var share := Divide(o.area, v, round);
    o.x, o.y, o.dy := x, r.y, v;
    o.dx := Min(r.x + r.dx - x, share);
    RowSnoc(before, strip, x, o.Cell());
    if exact {
      ExactShare(round, areas[i], v, share);
      FilledNext(before, areas, v, strip, x, o.Cell(), share);
    }
    next := x + o.dx;
    assert Cells(row[..i + 1]) == before + [o.Cell()];
  }

  method StretchAcross(row: seq<Node>, r: Rect, v: real, x: real, ghost areas: seq<real>, ghost exact: bool)
    requires row != [] && |row| == |areas| && Distinct(row) && x <= r.x + r.dx
    requires RowTo(Cells(row), Rect(r.x, r.y, r.dx, v), x)
    requires exact ==> JustFits(areas, v, r.dx) && Filled(Cells(row), areas, v, r.x, x)
    modifies row[|row| - 1]
    ensures RowTo(Cells(row), Rect(r.x, r.y, r.dx, v), r.x + r.dx)
    ensures exact ==> Sized(Cells(row), areas)
    ensures row[|row| - 1].area == old(row[|row| - 1].area) && row[|row| - 1].z
  {
    hide RowTo, Cells, FlipAll, Flip, JustFits, Filled, Sized;
    ghost var cells, n, strip := Cells(row), |row| - 1, Rect(r.x, r.y, r.dx, v);
    RowStretch(cells, strip, x, r.x + r.dx - x);
    if exact { FilledRow(cells, areas, v, strip, x); }
    var o := row[|row| - 1];
    o.dx := o.dx + (r.x + r.dx - x);
    o.z := true;
    assert Cells(row) == cells[n := o.Cell()];
  }

  /** The cells with the axes exchanged. */
  function Columns(row: seq<Node>): (cells: seq<Rect>)
    reads row
    ensures |cells| == |row|
  {
    FlipAll(Cells(row))
  }

  /** The branch of `position` for a row along the left; `v` is its width. */
  method PositionDown(row: seq<Node>, r: Rect, v: real, round: real -> real)
    requires row != [] && Distinct(row) && Rounding(round) && 0.0 <= v && r.dy >= 0.0
    requires forall i :: 0 <= i < |row| ==> row[i].area >= 0.0
    modifies row
    ensures RowTo(Columns(row), Rect(r.y, r.x, r.dy, v), r.y + r.dy)
    ensures Exact(round) && JustFits(old(Areas(row)), v, r.dy) ==> Sized(Columns(row), old(Areas(row)))
    ensures !row[|row| - 1].z
    ensures forall i :: 0 <= i < |row| ==> row[i].area == old(row[i].area)
  {
    hide RowTo, Rounding, Cells, Columns, FlipAll, Flip, Min, RoundTo, Exact, JustFits, Filled, Sized, Areas;
    var y := r.y;
    ghost var strip, areas := Rect(r.y, r.x, r.dy, v), Areas(row);
    ghost var exact := Exact(round) && JustFits(areas, v, r.dy);
    RowStart(strip);
    FilledStart(areas, v, r.y);
    assert Columns(row[..0]) == [] by { assert |Columns(row[..0])| == 0; }
    for i := 0 to |row|
      invariant r.y <= y <= r.y + r.dy
      invariant RowTo(Columns(row[..i]), strip, y)
      invariant exact ==> Filled(Columns(row[..i]), areas, v, strip.x, y)
      invariant forall k :: 0 <= k < |row| ==> row[k].area == areas[k]
    {
      y := PutDown(row, i, r, v, y, round, areas, exact);
    }
    assert row[..|row|] == row;
    StretchDown(row, r, v, y, areas, exact);
  }

  method PutDown(row: seq<Node>, i: nat, r: Rect, v: real, y: real, round: real -> real, ghost areas: seq<real>,
      ghost exact: bool)
    returns (next: real)
    requires i < |row| == |areas| && Distinct(row) && Rounding(round) && 0.0 <= v && row[i].area == areas[i] >= 0.0
    requires r.y <= y <= r.y + r.dy && RowTo(Columns(row[..i]), Rect(r.y, r.x, r.dy, v), y)
    requires exact ==>
      Exact(round) && JustFits(areas, v, r.dy) && Filled(Columns(row[..i]), areas, v, r.y, y)
    modifies row[i]
    ensures r.y <= next <= r.y + r.dy && RowTo(Columns(row[..i + 1]), Rect(r.y, r.x, r.dy, v), next)
    ensures exact ==> Filled(Columns(row[..i + 1]), areas, v, r.y, next)
    ensures row[i].area == areas[i]
  {
    hide RowTo, Rounding, Cells, FlipAll, Flip, Min, RoundTo, Exact, JustFits, Filled, Sized, Rounded, SideOf;
    var o := row[i];
    ghost var before, strip := FlipAll(Cells(row[..i])), Rect(r.y, r.x, r.dy, v);
    var share := Divide(o.area, v, round);
    o.y, o.x, o.dx := y, r.x, v;
    o.dy := Min(r.y + r.dy - y, share);
    RowSnoc(before, strip, y, Flip(o.Cell()));
    if exact {
      ExactShare(round, areas[i], v, share);
      FilledNext(before, areas, v, strip, y, Flip(o.Cell()), share);
    }
    next := y + o.dy;
    assert FlipAll(Cells(row[..i + 1])) == before + [Flip(o.Cell())];
  }

  method StretchDown(row: seq<Node>, r: Rect, v: real, y: real, ghost areas: seq<real>, ghost exact: bool)
    requires row != [] && |row| == |areas| && Distinct(row) && y <= r.y + r.dy
    requires RowTo(Columns(row), Rect(r.y, r.x, r.dy, v), y)
    requires exact ==> JustFits(areas, v, r.dy) && Filled(Columns(row), areas, v, r.y, y)
    modifies row[|row| - 1]
    ensures RowTo(Columns(row), Rect(r.y, r.x, r.dy, v), r.y + r.dy)
    ensures exact ==> Sized(Columns(row), areas)
    ensures row[|row| - 1].area == old(row[|row| - 1].area) && !row[|row| - 1].z
  {
    hide RowTo, Cells, FlipAll, Flip, JustFits, Filled, Sized;
    ghost var cells, n, strip := FlipAll(Cells(row)), |row| - 1, Rect(r.y, r.x, r.dy, v);
    RowStretch(cells, strip, y, r.y + r.dy - y);
    if exact { FilledRow(cells, areas, v, strip, y); }
    var o := row[|row| - 1];
    o.dy := o.dy + (r.y + r.dy - y);
    o.z := false;
    assert FlipAll(Cells(row)) == cells[n := Flip(o.Cell())];
  }

  function SumAreas(row: seq<Node>): real
    reads row
  {
    Total(Areas(row))
  }

  /** Each cell has its area. */
  ghost predicate Sized(cells: seq<Rect>, areas: seq<real>) {
    |cells| == |areas| && forall k :: 0 <= k < |cells| ==> Area(cells[k]) == areas[k]
  }

  lemma ExactShare(round: real -> real, area: real, v: real, d: real)
    requires Exact(round) && Rounded(d, area, v, round)
    ensures SideOf(d, area, v)
  {
    hide RoundTo;
  }

  lemma FilledRow(cells: seq<Rect>, areas: seq<real>, v: real, strip: Rect, x: real)
    requires Filled(cells, areas, v, strip.x, x) && |cells| == |areas| && areas != [] && JustFits(areas, v, strip.dx)
    requires RowTo(cells, strip, x) && strip.dy == v
    ensures var n := |cells| - 1;
      Sized(cells[n := cells[n].(dx := cells[n].dx + (strip.x + strip.dx - x))], areas)
  {
    FilledEnd(cells, areas, v, strip, x);
  }

  lemma FlipSized(cells: seq<Rect>, areas: seq<real>)
    ensures Sized(FlipAll(cells), areas) <==> Sized(cells, areas)
  {
    hide Area;
    forall k | 0 <= k < |cells|
      ensures Area(FlipAll(cells)[k]) == Area(cells[k])
    {
      FlipRects(cells[k], cells[k]);
    }
  }

  /** The height of a row: if its area fits into the rectangle, and fills it in the last row, the row has its area. */
  lemma RowHeight(area: real, length: real, room: real, flush: bool, height: real)
    requires length >= 0.0 && room >= 0.0 && 0.0 <= area <= length * room && (flush ==> area == length * room)
    requires SideOf(height, area, length)
    ensures (if flush || height > room then room else height) * length == area
  {
    if length != 0.0 {
      Quotient(area, length);
      Cancel(height, room, length);
    }
  }

  /** `position`: the row is cut out of the rectangle, and what is left of it is returned. */
  method Position(row: seq<Node>, rowArea: real, u: real, r: Rect, flush: bool, round: real -> real)
      returns (rest: Rect)
    requires row != [] && Distinct(row) && Rounding(round) && Proper(r) && u >= 0.0 && rowArea >= 0.0
    requires forall i :: 0 <= i < |row| ==> row[i].area >= 0.0
    modifies row
    ensures Proper(rest) && Tiles(Cells(row) + [rest], r) && (flush ==> Tiles(Cells(row), r))
    ensures Exact(round) && Roomy(old(Areas(row)), rowArea, u, r, flush) ==>
              Sized(Cells(row), old(Areas(row))) && Area(rest) == Area(r) - rowArea
    ensures flush ==> if u == r.dx then FullHeight(Cells(row), r) else FullWidth(Cells(row), r)
    // what `sticky` would go by
    ensures row[|row| - 1].z <==> u == r.dx
    ensures forall i :: 0 <= i < |row| ==> row[i].area == old(row[i].area)
  {
    hide Tiles, RowTo, Rounding, Cells, Exact, Roomy, JustFits, Sized, Area, FlipAll, FullHeight, FullWidth, Rounded,
        SideOf, Areas;
    ghost var areas := Areas(row);
    ghost var exact := Exact(round) && Roomy(areas, rowArea, u, r, flush);
    var v := Divide(rowArea, u, round);
    if exact { ExactShare(round, rowArea, u, v); }
    if u == r.dx {
      if exact { RoomAcross(areas, rowArea, u, r, flush, v); }
      if flush || v > r.dy { v := r.dy; }
      PositionAcross(row, r, v, round);
      RowAcross(Cells(row), r, v);
      RowAndRest(Cells(row), r, v);
      rest := Rect(r.x, r.y + v, r.dx, r.dy - v);
    } else {
      if exact { RoomDown(areas, rowArea, u, r, flush, v); }
      if flush || v > r.dx { v := r.dx; }
      PositionDown(row, r, v, round);
      RowDown(Cells(row), r, v);
      ColumnAndRest(Cells(row), r, v);
      FlipSized(Cells(row), areas);
      rest := Rect(r.x + v, r.y, r.dx - v, r.dy);
    }
  }

  /** Slices: all cells have the height of the rectangle. */
  ghost predicate FullHeight(cells: seq<Rect>, r: Rect) {
    forall i :: 0 <= i < |cells| ==> cells[i].y == r.y && cells[i].dy == r.dy
  }

  ghost predicate FullWidth(cells: seq<Rect>, r: Rect) {
    forall i :: 0 <= i < |cells| ==> cells[i].x == r.x && cells[i].dx == r.dx
  }

  lemma RowAcross(cells: seq<Rect>, r: Rect, v: real)
    requires RowTo(cells, Rect(r.x, r.y, r.dx, v), r.x + r.dx)
    ensures v == r.dy ==> FullHeight(cells, r)
  {
  }

  lemma RowDown(cells: seq<Rect>, r: Rect, v: real)
    requires RowTo(FlipAll(cells), Rect(r.y, r.x, r.dy, v), r.y + r.dy)
    ensures v == r.dx ==> FullWidth(cells, r)
  {
    assert forall i :: 0 <= i < |cells| ==> FlipAll(cells)[i] == Flip(cells[i]);
  }

  /** The row is along a side of the rectangle, which has room for it; the last row takes all of it. */
  ghost predicate Roomy(areas: seq<real>, rowArea: real, u: real, r: Rect, flush: bool) {
    && (u == r.dx || u == r.dy) && Proper(r) && NoneNegative(areas)
    && rowArea == Total(areas) && 0.0 <= rowArea <= Area(r) && (flush ==> rowArea == Area(r))
  }

  lemma RoomAcross(areas: seq<real>, rowArea: real, u: real, r: Rect, flush: bool, height: real)
    requires Roomy(areas, rowArea, u, r, flush) && u == r.dx && SideOf(height, rowArea, u)
    requires height >= 0.0
    ensures var v := if flush || height > r.dy then r.dy else height;
      && JustFits(areas, v, r.dx)
      && Area(Rect(r.x, r.y + v, r.dx, r.dy - v)) == Area(r) - rowArea
  {
    RowHeight(rowArea, r.dx, r.dy, flush, height);
    var v := if flush || height > r.dy then r.dy else height;
    assert r.dx * (r.dy - v) == r.dx * r.dy - v * r.dx;
  }

  lemma RoomDown(areas: seq<real>, rowArea: real, u: real, r: Rect, flush: bool, height: real)
    requires Roomy(areas, rowArea, u, r, flush) && u != r.dx && SideOf(height, rowArea, u)
    requires height >= 0.0
    ensures var v := if flush || height > r.dx then r.dx else height;
      && JustFits(areas, v, r.dy)
      && Area(Rect(r.x + v, r.y, r.dx - v, r.dy)) == Area(r) - rowArea
  {
    assert r.dx * r.dy == r.dy * r.dx;
    RowHeight(rowArea, r.dy, r.dx, flush, height);
    var v := if flush || height > r.dx then r.dx else height;
    assert (r.dx - v) * r.dy == r.dx * r.dy - v * r.dy;
  }

  // ---------- squarify ----------

  /** How the rows are formed: `squarify` scores each row, the others put all the children into one. */
  datatype Mode = Squarify | Slice | Dice | SliceDice

  /** The worst aspect ratio of a row; only comparisons matter. */
  datatype Score = Finite(s: real) | Infinite

  predicate AtMost(a: Score, b: Score) {
    b.Infinite? || (a.Finite? && a.s <= b.s)
  }

  function Side(mode: Mode, depth: nat, r: Rect): (u: real)
    requires Proper(r)
    ensures u == r.dx || u == r.dy
  {
    match mode
    case Slice => r.dx
    case Dice => r.dy
    case SliceDice => if depth % 2 == 1 then r.dy else r.dx
    case Squarify => Min(r.dx, r.dy)
  }

  /** Shares of a whole add up. */
  lemma {:induction false} SharesAddUp(areas: seq<real>, values: seq<real>, total: real, area: real)
    requires |areas| == |values| && forall i :: 0 <= i < |areas| ==> areas[i] * total == values[i] * area
    ensures Total(areas) * total == Total(values) * area
  {
    if areas != [] {
      var n := |areas| - 1;
      SharesAddUp(areas[..n], values[..n], total, area);
      assert (Total(areas[..n]) + areas[n]) * total == Total(areas[..n]) * total + areas[n] * total;
      assert (Total(values[..n]) + values[n]) * area == Total(values[..n]) * area + values[n] * area;
    }
  }

  /** The area a child gets; without a total the product is not a number and counts as nothing. */
  function Portion(value: real, total: real, area: real): real {
    var a := if total == 0.0 then 0.0 else value * (if area / total < 0.0 then 0.0 else area / total);
    if a <= 0.0 then 0.0 else a
  }

  /** An area that is to the whole area as the value is to the total. */
  ghost predicate Share(a: real, value: real, total: real, area: real) {
    && a >= 0.0 && (total == 0.0 || value == 0.0 ==> a == 0.0)
    && (total > 0.0 && value >= 0.0 ==> a * total == value * area)
  }

  lemma PortionIs(value: real, total: real, area: real)
    requires area >= 0.0
    ensures Share(Portion(value, total, area), value, total, area)
  {
    if total > 0.0 && value >= 0.0 {
      Quotient(area, total);
      assert value * (area / total) * total == value * (area / total * total);
    }
  }

  /** `scale`: every child gets its share of the area, never less than nothing. */
  method Scale(children: seq<Node>, total: real, area: real)
    requires area >= 0.0
    modifies children
    ensures forall i :: 0 <= i < |children| ==> children[i].area >= 0.0 && children[i].Cell() == old(children[i].Cell())
    ensures forall i :: 0 <= i < |children| ==> Share(children[i].area, children[i].value, total, area)
  {
    hide Portion, Share;
    for i := 0 to |children|
      invariant forall k :: 0 <= k < i ==> Share(children[k].area, children[k].value, total, area)
      invariant forall k :: 0 <= k < |children| ==> children[k].Cell() == old(children[k].Cell())
    {
      PortionIs(children[i].value, total, area);
      children[i].area := Portion(children[i].value, total, area);
    }
    forall i | 0 <= i < |children|
      ensures children[i].area >= 0.0
    {
      ShareNotNegative(children[i].area, children[i].value, total, area);
    }
  }

  lemma ShareNotNegative(a: real, value: real, total: real, area: real)
    requires Share(a, value, total, area)
    ensures a >= 0.0
  {
  }

  /** The nodes in the opposite order. */
  function Reversed<T>(row: seq<T>): (r: seq<T>)
    ensures |r| == |row| && forall i :: 0 <= i < |row| ==> r[i] == row[|row| - 1 - i]
  {
    seq(|row|, i requires 0 <= i < |row| => row[|row| - 1 - i])
  }

  lemma {:induction false} ReversedArea(cells: seq<Rect>)
    ensures TotalArea(Reversed(cells)) == TotalArea(cells)
  {
    if cells != [] {
      var n := |cells| - 1;
      ReversedArea(cells[..n]);
      assert Reversed(cells) == [cells[n]] + Reversed(cells[..n]);
      TotalAreaConcat([cells[n]], Reversed(cells[..n]));
      assert [cells[n]][..0] == [];
    }
  }

  lemma {:induction false} ReversedTiles(cells: seq<Rect>, r: Rect)
    requires Tiles(Reversed(cells), r)
    ensures Tiles(cells, r)
  {
    var b, n := Reversed(cells), |cells|;
    ReversedArea(cells);
    hide TotalArea, Area, Proper, Inside, Holds;
    forall i | 0 <= i < n
      ensures Proper(cells[i]) && Inside(cells[i], r)
    {
      assert cells[i] == b[n - 1 - i];
    }
    forall i, j | 0 <= i < j < n
      ensures Apart(cells[i], cells[j])
    {
      assert cells[i] == b[n - 1 - i] && cells[j] == b[n - 1 - j] && Apart(b[n - 1 - j], b[n - 1 - i]);
    }
    forall px, py | Holds(r, px, py)
      ensures exists i :: 0 <= i < n && Holds(cells[i], px, py)
    {
      var i :| 0 <= i < n && Holds(b[i], px, py);
      assert Holds(cells[n - 1 - i], px, py);
    }
  }

  function Areas(row: seq<Node>): (areas: seq<real>)
    reads row
    ensures |areas| == |row| && forall i :: 0 <= i < |row| ==> areas[i] == row[i].area
  {
    seq(|row|, i requires 0 <= i < |row| reads row => row[i].area)
  }

  /** `taken` are the last children, in the order in which the loop takes them. */
  ghost predicate TakenFrom(children: seq<Node>, remaining: seq<Node>, taken: seq<Node>) {
    remaining <= children && Reversed(taken) == children[|remaining|..]
  }

  lemma TakeOne(children: seq<Node>, remaining: seq<Node>, taken: seq<Node>)
    requires TakenFrom(children, remaining, taken) && remaining != [] && Distinct(children)
    ensures var n := |remaining| - 1;
      TakenFrom(children, remaining[..n], taken + [remaining[n]]) && remaining[n] !in taken
          && Distinct(taken + [remaining[n]])
  {
    var n := |remaining| - 1;
    var after := taken + [remaining[n]];
    forall i | 0 <= i < |taken|
      ensures taken[i] == children[|children| - 1 - i]
    {
      assert Reversed(taken)[|taken| - 1 - i] == taken[i];
    }
    assert Reversed(after) == children[n..];
  }

  /**
   * The rows of one node.  Whatever `worst` says, a row always accepts its first child, because the
   * best score so far is then infinite; so the loop ends, and the cells tile the rectangle.
   */
  method LayRows(children: seq<Node>, r: Rect, mode: Mode, depth: nat, worst: (seq<real>, real) -> Score,
      round: real -> real)
    returns (ghost rows: seq<Row>)
    requires children != [] && Distinct(children) && Proper(r) && Rounding(round)
    requires forall i :: 0 <= i < |children| ==> children[i].area >= 0.0
    modifies children
    ensures Tiles(Cells(children), r)
    ensures Exact(round) && old(SumAreas(children)) == Area(r) ==> Sized(Cells(children), old(Areas(children)))
    ensures Sliced(Cells(children), r, mode, depth)
    ensures RowsOf(rows, old(Areas(children)), r, mode, depth, worst)
  {
    hide *;
    ghost var areas, exact := Areas(children), Exact(round) && SumAreas(children) == Area(r);
    var rect, remaining := r, children;
    var row: seq<Node> := [];
    var rowArea, best, u := 0.0, Infinite, Side(mode, depth, r);
    ghost var placed: seq<Node> := [];
    LayingStart(children, r, areas, exact);
    ProperSides(r);
    rows := [];
    FormedStart(areas, u, r, mode, depth, worst);
    assert Areas([]) == [] && areas[..|remaining|] == areas;
    while |remaining| > 0
      invariant Laying(children, remaining, placed, row, rowArea, rect, r, areas, exact)
      invariant Proper(rect) && u >= 0.0 && (best.Finite? ==> row != []) && (remaining == [] ==> row != [])
      invariant u == rect.dx || u == rect.dy
      invariant mode != Squarify ==> placed == [] && rect == r && u == Side(mode, depth, r)
      invariant |remaining| <= |areas|
      invariant Formed(rows, Areas(row), areas[..|remaining|], areas, u, rect, r, mode, depth, worst, best)
      decreases |remaining|, best.Finite?
    {
      var child := remaining[|remaining| - 1];
      LayingMore(children, remaining, placed, row, rowArea, rect, r, areas, exact);
      var score := worst(Areas(row + [child]), u);
      ghost var now, left := Areas(row), areas[..|remaining|];
      NextArea(children, remaining, row, areas, rowArea, placed, rect, r, exact);
      if mode != Squarify || AtMost(score, best) {
        row, rowArea := row + [child], rowArea + child.area;
        remaining := remaining[..|remaining| - 1];
        FormedMore(rows, now, left, areas, u, rect, r, mode, depth, worst, best);
        if mode == Squarify { best := score; }
      } else {
        AtMostInfinite(score, best);
        ghost var full := Row(now, u, rect);
        rect := CutFull(children, remaining, placed, row, rowArea, u, rect, r, areas, exact, round);
        ProperSides(rect);
        u := Min(rect.dx, rect.dy);
        FormedCut(rows, full, left, areas, u, rect, r, mode, depth, worst, best);
        rows := rows + [full];
        placed := placed + row;
        row, rowArea, best := [], 0.0, Infinite;
      }
    }
    FormedEnd(rows, Areas(row), areas, u, rect, r, mode, depth, worst, best);
    rows := rows + [Row(Areas(row), u, rect)];
    CutLast(children, remaining, placed, row, rowArea, u, rect, r, areas, exact, round);
    SlicesAre(mode, depth, r, Cells(children), u);
  }

  // ---------- which rows are formed ----------

  /** A row: the areas in it, the side it is laid along, and the rectangle it is cut from. */
  datatype Row = Row(areas: seq<real>, u: real, rect: Rect)

  function Joined(rows: seq<Row>): seq<real> {
    if rows == [] then [] else Joined(rows[..|rows| - 1]) + rows[|rows| - 1].areas
  }

  /** With each child the row has become no worse. */
  ghost predicate Grows(areas: seq<real>, u: real, worst: (seq<real>, real) -> Score) {
    forall k :: 1 <= k < |areas| ==> AtMost(worst(areas[..k + 1], u), worst(areas[..k], u))
  }

  /** With one more the row would become worse. */
  ghost predicate Full(row: Row, more: real, worst: (seq<real>, real) -> Score) {
    !AtMost(worst(row.areas + [more], row.u), worst(row.areas, row.u))
  }

  /** These rows are as long as they can be without becoming worse. */
  ghost predicate Greedy(rows: seq<Row>, worst: (seq<real>, real) -> Score) {
    && (forall i :: 0 <= i < |rows| ==> rows[i].areas != [] && Grows(rows[i].areas, rows[i].u, worst))
    && (forall i, j :: 0 <= i < j < |rows| && j == i + 1 ==> Full(rows[i], rows[j].areas[0], worst))
  }

  /** The first row is laid along the side that the mode says, each further one along the shorter side of the rest. */
  ghost predicate Sides(rows: seq<Row>, r: Rect, mode: Mode, depth: nat)
    requires Proper(r)
  {
    && (rows != [] ==> rows[0].rect == r && rows[0].u == Side(mode, depth, r))
    && (forall i :: 0 < i < |rows| ==> rows[i].u == Min(rows[i].rect.dx, rows[i].rect.dy))
  }

  /**
   * The children, from the last to the first, cut into rows: one row without scores, and else rows that are as
   * long as they can be without becoming worse.
   */
  ghost predicate RowsOf(rows: seq<Row>, areas: seq<real>, r: Rect, mode: Mode, depth: nat,
      worst: (seq<real>, real) -> Score)
    requires Proper(r)
  {
    && Joined(rows) == Reversed(areas) && Sides(rows, r, mode, depth)
    && (if mode == Squarify then Greedy(rows, worst) else |rows| == 1)
  }

  /** The rows that are full, and the one being formed. */
  ghost predicate Formed(rows: seq<Row>, now: seq<real>, left: seq<real>, areas: seq<real>, u: real, rect: Rect,
      r: Rect, mode: Mode, depth: nat, worst: (seq<real>, real) -> Score, best: Score)
    requires Proper(r)
  {
    && Joined(rows) + now + Reversed(left) == Reversed(areas) && Sides(rows + [Row(now, u, rect)], r, mode, depth)
    && (if mode != Squarify then rows == []
        else
          && Greedy(rows, worst) && Grows(now, u, worst) && best == (if now == [] then Infinite else worst(now, u))
          && (rows != [] ==>
                if now != [] then Full(rows[|rows| - 1], now[0], worst)
                else left != [] && Full(rows[|rows| - 1], left[|left| - 1], worst)))
  }

  lemma FormedStart(areas: seq<real>, u: real, r: Rect, mode: Mode, depth: nat, worst: (seq<real>, real) -> Score)
    requires Proper(r) && u == Side(mode, depth, r)
    ensures Formed([], [], areas, areas, u, r, r, mode, depth, worst, Infinite)
  {
    assert [] + [] + Reversed(areas) == Reversed(areas);
  }

  lemma LeftShorter(left: seq<real>)
    requires left != []
    ensures var n := |left| - 1; Reversed(left) == [left[n]] + Reversed(left[..n])
  {
  }

  lemma GrowsMore(now: seq<real>, a: real, u: real, worst: (seq<real>, real) -> Score)
    requires Grows(now, u, worst) && (now != [] ==> AtMost(worst(now + [a], u), worst(now, u)))
    ensures Grows(now + [a], u, worst)
  {
    hide AtMost;
    var more := now + [a];
    forall k | 1 <= k < |more|
      ensures AtMost(worst(more[..k + 1], u), worst(more[..k], u))
    {
      if k < |now| {
        assert more[..k + 1] == now[..k + 1] && more[..k] == now[..k];
      } else {
        assert more[..k + 1] == more && more[..k] == now;
      }
    }
  }

  /** The row takes one more child. */
  lemma FormedMore(rows: seq<Row>, now: seq<real>, left: seq<real>, areas: seq<real>, u: real, rect: Rect,
      r: Rect, mode: Mode, depth: nat, worst: (seq<real>, real) -> Score, best: Score)
    requires Proper(r) && left != [] && Formed(rows, now, left, areas, u, rect, r, mode, depth, worst, best)
    requires mode == Squarify ==> AtMost(worst(now + [left[|left| - 1]], u), best)
    ensures var n := |left| - 1; var more := now + [left[n]];
      Formed(rows, more, left[..n], areas, u, rect, r, mode, depth, worst,
        if mode == Squarify then worst(more, u) else best)
  {
    var n := |left| - 1;
    LeftShorter(left);
    var tail := Reversed(left[..n]);
    assert Joined(rows) + now + ([left[n]] + tail) == Joined(rows) + (now + [left[n]]) + tail;
    if mode == Squarify { GrowsMore(now, left[n], u, worst); }
    SidesSame(rows, now, now + [left[n]], u, rect, r, mode, depth);
    hide Reversed, Joined, AtMost, Grows, Greedy, Full, Sides;
  }

  lemma SidesSame(rows: seq<Row>, now: seq<real>, more: seq<real>, u: real, rect: Rect, r: Rect, mode: Mode, depth: nat)
    requires Proper(r) && Sides(rows + [Row(now, u, rect)], r, mode, depth)
    ensures Sides(rows + [Row(more, u, rect)], r, mode, depth)
  {
    var a, b := rows + [Row(now, u, rect)], rows + [Row(more, u, rect)];
    assert forall i :: 0 <= i < |a| ==> a[i].u == b[i].u && a[i].rect == b[i].rect;
  }

  /** The row is full, and the next one is begun in what is left. */
  lemma FormedCut(rows: seq<Row>, full: Row, left: seq<real>, areas: seq<real>, u: real, rect: Rect,
      r: Rect, mode: Mode, depth: nat, worst: (seq<real>, real) -> Score, best: Score)
    requires Proper(r) && left != [] && mode == Squarify && full.areas != []
    requires Formed(rows, full.areas, left, areas, full.u, full.rect, r, mode, depth, worst, best)
    requires !AtMost(worst(full.areas + [left[|left| - 1]], full.u), best) && u == Min(rect.dx, rect.dy)
    ensures Formed(rows + [full], [], left, areas, u, rect, r, mode, depth, worst, Infinite)
  {
    GreedyMore(rows, full, worst);
    assert (rows + [full])[..|rows|] == rows;
    assert Joined(rows + [full]) + [] == Joined(rows) + full.areas;
    assert rows + [Row(full.areas, full.u, full.rect)] == rows + [full];
    hide Reversed, AtMost, Grows, Greedy, Side, Min, Joined;
  }

  lemma GreedyMore(rows: seq<Row>, row: Row, worst: (seq<real>, real) -> Score)
    requires Greedy(rows, worst) && row.areas != [] && Grows(row.areas, row.u, worst)
    requires rows != [] ==> Full(rows[|rows| - 1], row.areas[0], worst)
    ensures Greedy(rows + [row], worst)
  {
    hide Grows, Full;
  }

  /** The last row is what is left. */
  lemma FormedEnd(rows: seq<Row>, now: seq<real>, areas: seq<real>, u: real, rect: Rect,
      r: Rect, mode: Mode, depth: nat, worst: (seq<real>, real) -> Score, best: Score)
    requires Proper(r) && now != [] && Formed(rows, now, [], areas, u, rect, r, mode, depth, worst, best)
    ensures RowsOf(rows + [Row(now, u, rect)], areas, r, mode, depth, worst)
  {
    var row := Row(now, u, rect);
    if mode == Squarify { GreedyMore(rows, row, worst); }
    assert (rows + [row])[..|rows|] == rows;
    assert Joined(rows + [row]) == Joined(rows) + now;
    assert |Reversed<real>([])| == 0 && Joined(rows) + now + Reversed([]) == Joined(rows) + now;
    hide Reversed, AtMost, Grows, Greedy, Side, Min, Joined;
  }

  lemma NextArea(children: seq<Node>, remaining: seq<Node>, row: seq<Node>, areas: seq<real>, rowArea: real,
      placed: seq<Node>, rect: Rect, r: Rect, exact: bool)
    requires Laying(children, remaining, placed, row, rowArea, rect, r, areas, exact) && remaining != []
    ensures var n := |remaining| - 1;
      && |remaining| <= |areas| && areas[..n + 1][n] == remaining[n].area && areas[..n + 1][..n] == areas[..n]
      && Areas(row + [remaining[n]]) == Areas(row) + [areas[n]]
      && (row == [] <==> Areas(row) == [])
  {
    hide Tiles, Sized, Area, Total, SumAreas, Cells, Distinct;
    RemainingAre(children, remaining, placed + row);
    assert remaining[|remaining| - 1] == children[|remaining| - 1];
  }

  /**
   * The rows so far: `placed` are laid out next to `rect`, `row` is being formed, `remaining` are still to come,
   * and if nothing is rounded, those laid out have their areas, and the others fill what is left.
   */
  ghost predicate Laying(children: seq<Node>, remaining: seq<Node>, placed: seq<Node>, row: seq<Node>, rowArea: real,
      rect: Rect, r: Rect, areas: seq<real>, exact: bool)
    reads children, placed, row
  {
    && Distinct(children) && Proper(rect) && rowArea >= 0.0 && rowArea == SumAreas(row)
    && TakenFrom(children, remaining, placed + row) && Distinct(placed + row)
    && (forall k :: 0 <= k < |row| ==> row[k] in children && row[k].area >= 0.0)
    && Areas(children) == areas && NoneNegative(areas)
    && Tiles(Cells(placed) + [rect], r)
    && |remaining| <= |areas|
    && (exact ==> Sized(Cells(placed), Areas(placed)) && rowArea + Total(areas[..|remaining|]) == Area(rect))
  }

  lemma ProperSides(r: Rect)
    requires Proper(r)
    ensures r.dx >= 0.0 && r.dy >= 0.0
  {
  }

  lemma LayingStart(children: seq<Node>, r: Rect, areas: seq<real>, exact: bool)
    requires Distinct(children) && Proper(r) && areas == Areas(children) && (exact ==> SumAreas(children) == Area(r))
    requires forall i :: 0 <= i < |children| ==> children[i].area >= 0.0
    ensures Laying(children, children, [], [], 0.0, r, r, areas, exact)
  {
    hide Tiles, Sized, Area, Total, TakenFrom, SumAreas;
    Beginning(children, r);
  }

  lemma LayingMore(children: seq<Node>, remaining: seq<Node>, placed: seq<Node>, row: seq<Node>, rowArea: real,
      rect: Rect, r: Rect, areas: seq<real>, exact: bool)
    requires Laying(children, remaining, placed, row, rowArea, rect, r, areas, exact) && remaining != []
    ensures var n := |remaining| - 1;
      Laying(children, remaining[..n], placed, row + [remaining[n]], rowArea + remaining[n].area, rect, r, areas, exact)
  {
    var n := |remaining| - 1;
    var child := remaining[n];
    RemainingAre(children, remaining, placed + row);
    TakeOne(children, remaining, placed + row);
    TotalNext(areas, n);
    SumLonger(row, child);
    assert placed + row + [child] == placed + (row + [child]);
    hide Tiles, Sized, Area, Total, TakenFrom, SumAreas, Cells, Distinct;
    assert child == children[n] && child.area == areas[n];
  }

  lemma RemainingAre(children: seq<Node>, remaining: seq<Node>, taken: seq<Node>)
    requires TakenFrom(children, remaining, taken)
    ensures remaining <= children
  {
  }

  /** A row that is full is cut out. */
  method CutFull(children: seq<Node>, ghost remaining: seq<Node>, ghost placed: seq<Node>, row: seq<Node>,
      rowArea: real, u: real, rect: Rect, ghost r: Rect, ghost areas: seq<real>, ghost exact: bool,
      round: real -> real)
    returns (rest: Rect)
    requires Laying(children, remaining, placed, row, rowArea, rect, r, areas, exact) && row != [] && u >= 0.0
    requires Rounding(round) && (exact ==> Exact(round)) && (u == rect.dx || u == rect.dy)
    modifies children
    ensures Proper(rest) && Laying(children, remaining, placed + row, [], 0.0, rest, r, areas, exact)
  {
    hide *;
    Parts(children, remaining, placed, row, rowArea, rect, r, areas, exact);
    if exact { RowRoom(row, areas[..|remaining|], rowArea, u, rect, false); }
    rest := CutRow(placed, row, rowArea, u, rect, r, round);
    SameAreas(children, areas);
    LayingCut(children, remaining, placed + row, rest, r, areas, exact);
  }

  /** The last row takes what is left. */
  method CutLast(children: seq<Node>, ghost remaining: seq<Node>, ghost placed: seq<Node>, row: seq<Node>,
      rowArea: real, u: real, rect: Rect, ghost r: Rect, ghost areas: seq<real>, ghost exact: bool,
      round: real -> real)
    requires Laying(children, remaining, placed, row, rowArea, rect, r, areas, exact) && row != [] && u >= 0.0
    requires Rounding(round) && (exact ==> Exact(round)) && (u == rect.dx || u == rect.dy) && remaining == []
    modifies children
    ensures Tiles(Cells(children), r) && (exact ==> Sized(Cells(children), areas))
    ensures placed == [] && rect == r ==>
              if u == rect.dx then FullHeight(Cells(children), r) else FullWidth(Cells(children), r)
  {
    hide *;
    Parts(children, remaining, placed, row, rowArea, rect, r, areas, exact);
    if exact { RowRoom(row, areas[..|remaining|], rowArea, u, rect, true); }
    LastRow(placed, row, rowArea, u, rect, r, round);
    SameAreas(children, areas);
    EndingSlices(children, remaining, placed + row, r);
    Ending(children, remaining, placed + row, r);
  }

  lemma SameAreas(children: seq<Node>, areas: seq<real>)
    requires |children| == |areas| && forall i :: 0 <= i < |children| ==> children[i].area == areas[i]
    ensures Areas(children) == areas
  {
  }

  lemma Parts(children: seq<Node>, remaining: seq<Node>, placed: seq<Node>, row: seq<Node>, rowArea: real,
      rect: Rect, r: Rect, areas: seq<real>, exact: bool)
    requires Laying(children, remaining, placed, row, rowArea, rect, r, areas, exact)
    ensures Distinct(placed + row) && Proper(rect) && rowArea >= 0.0 && Tiles(Cells(placed) + [rect], r)
    ensures rowArea == SumAreas(row) && |children| == |areas| && Distinct(children)
    ensures TakenFrom(children, remaining, placed + row) && |remaining| <= |areas| && NoneNegative(areas[..|remaining|])
    ensures NoneNegative(areas) && forall i :: 0 <= i < |children| ==> children[i].area == areas[i]
    ensures forall i :: 0 <= i < |row| ==> row[i] in children && row[i].area >= 0.0
    ensures exact ==> Sized(Cells(placed), Areas(placed)) && rowArea + Total(areas[..|remaining|]) == Area(rect)
  {
    hide Tiles, Sized, Area, Total, TakenFrom, SumAreas, Cells;
  }

  lemma LayingCut(children: seq<Node>, remaining: seq<Node>, placed: seq<Node>, rect: Rect, r: Rect, areas: seq<real>,
      exact: bool)
    requires Distinct(children) && Proper(rect) && TakenFrom(children, remaining, placed) && Distinct(placed)
    requires Areas(children) == areas && NoneNegative(areas) && Tiles(Cells(placed) + [rect], r)
    requires |remaining| <= |areas|
    requires exact ==> Sized(Cells(placed), Areas(placed)) && Total(areas[..|remaining|]) == Area(rect)
    ensures Laying(children, remaining, placed, [], 0.0, rect, r, areas, exact)
  {
    assert placed + [] == placed;
    SumIs([]);
    hide Tiles, Sized, Area, Cells, SumAreas;
  }

  lemma SlicesAre(mode: Mode, depth: nat, r: Rect, cells: seq<Rect>, u: real)
    requires Proper(r) && (mode != Squarify ==> u == Side(mode, depth, r))
    requires mode != Squarify ==> if u == r.dx then FullHeight(cells, r) else FullWidth(cells, r)
    ensures Sliced(cells, r, mode, depth)
  {
    hide FullHeight, FullWidth;
  }

  lemma RowRoom(row: seq<Node>, left: seq<real>, rowArea: real, u: real, rect: Rect, flush: bool)
    requires rowArea == SumAreas(row) && rowArea + Total(left) == Area(rect) && Proper(rect) && NoneNegative(left)
    requires forall i :: 0 <= i < |row| ==> row[i].area >= 0.0
    requires (u == rect.dx || u == rect.dy) && (flush ==> left == [])
    ensures Roomy(Areas(row), rowArea, u, rect, flush)
  {
    hide Area;
    TotalUpTo(Areas(row), |row|);
    TotalUpTo(left, |left|);
    assert Areas(row)[..|row|] == Areas(row) && left[..|left|] == left;
  }

  /** A row that is full is cut out of the rectangle. */
  method CutRow(ghost placed: seq<Node>, row: seq<Node>, rowArea: real, u: real, rect: Rect, ghost r: Rect,
      round: real -> real)
    returns (rest: Rect)
    requires row != [] && Distinct(placed + row) && Rounding(round) && Proper(rect) && u >= 0.0 && rowArea >= 0.0
    requires forall i :: 0 <= i < |row| ==> row[i].area >= 0.0
    requires Tiles(Cells(placed) + [rect], r)
    modifies row
    ensures Proper(rest) && Tiles(Cells(placed + row) + [rest], r)
    ensures Exact(round) && old(Roomy(Areas(row), rowArea, u, rect, false) && Sized(Cells(placed), Areas(placed))) ==>
              Sized(Cells(placed + row), Areas(placed + row)) && Area(rest) == Area(rect) - rowArea
    ensures forall i :: 0 <= i < |row| ==> row[i].area == old(row[i].area)
  {
    hide *;
    ghost var cells, areas := Cells(placed), Areas(row);
    DistinctParts(placed, row);
    rest := Position(row, rowArea, u, rect, false, round);
    assert Cells(placed) == cells && Areas(row) == areas;
    SizedBoth(placed, row);
    Refine(cells, rect, Cells(row) + [rest], r);
    assert cells + (Cells(row) + [rest]) == Cells(placed + row) + [rest];
  }

  /** The last row takes all that is left. */
  method LastRow(ghost placed: seq<Node>, row: seq<Node>, rowArea: real, u: real, rect: Rect, ghost r: Rect,
      round: real -> real)
    requires row != [] && Distinct(placed + row) && Rounding(round) && Proper(rect) && u >= 0.0 && rowArea >= 0.0
    requires forall i :: 0 <= i < |row| ==> row[i].area >= 0.0
    requires Tiles(Cells(placed) + [rect], r)
    modifies row
    ensures Tiles(Cells(placed + row), r)
    ensures Exact(round) && old(Roomy(Areas(row), rowArea, u, rect, true) && Sized(Cells(placed), Areas(placed))) ==>
              Sized(Cells(placed + row), Areas(placed + row))
    ensures placed == [] ==>
              if u == rect.dx then FullHeight(Cells(placed + row), rect) else FullWidth(Cells(placed + row), rect)
    ensures forall i :: 0 <= i < |row| ==> row[i].area == old(row[i].area)
  {
    hide *;
    ghost var cells, areas := Cells(placed), Areas(row);
    DistinctParts(placed, row);
    var _ := Position(row, rowArea, u, rect, true, round);
    assert placed == [] ==> placed + row == row;
    assert Cells(placed) == cells && Areas(row) == areas;
    SizedBoth(placed, row);
    Refine(cells, rect, Cells(row), r);
    assert cells + Cells(row) == Cells(placed + row);
  }

  lemma SizedBoth(placed: seq<Node>, row: seq<Node>)
    ensures Sized(Cells(placed), Areas(placed)) && Sized(Cells(row), Areas(row)) ==>
              Sized(Cells(placed + row), Areas(placed + row))
  {
    hide Area;
    assert Cells(placed + row) == Cells(placed) + Cells(row) && Areas(placed + row) == Areas(placed) + Areas(row);
  }

  lemma DistinctParts(placed: seq<Node>, row: seq<Node>)
    requires Distinct(placed + row)
    ensures Distinct(row) && forall i, j :: 0 <= i < |placed| && 0 <= j < |row| ==> placed[i] != row[j]
  {
    var both := placed + row;
    assert forall i :: 0 <= i < |placed| ==> both[i] == placed[i];
    assert forall j :: 0 <= j < |row| ==> both[|placed| + j] == row[j];
  }

  lemma AtMostInfinite(score: Score, best: Score)
    requires !AtMost(score, best)
    ensures best.Finite?
  {
  }

  lemma SumLonger(row: seq<Node>, child: Node)
    ensures SumAreas(row + [child]) == SumAreas(row) + child.area
  {
    assert Areas(row + [child]) == Areas(row) + [child.area];
    assert (Areas(row) + [child.area])[..|row|] == Areas(row);
  }

  lemma Beginning(children: seq<Node>, r: Rect)
    requires Proper(r)
    ensures TakenFrom(children, children, [] + []) && Tiles(Cells([]) + [r], r) && SumAreas([]) == 0.0
    ensures Sized(Cells([]), Areas([])) && SumAreas(children) == Total(Areas(children)[..|children|])
  {
    Whole(r);
    assert Cells([]) + [r] == [r];
    assert Areas(children)[..|children|] == Areas(children);
  }

  lemma Backwards(children: seq<Node>, remaining: seq<Node>, taken: seq<Node>)
    requires remaining == [] && TakenFrom(children, remaining, taken)
    ensures |children| == |taken| && forall i :: 0 <= i < |children| ==> children[i] == taken[|taken| - 1 - i]
  {
    assert children[0..] == children;
  }

  lemma EndingSlices(children: seq<Node>, remaining: seq<Node>, taken: seq<Node>, r: Rect)
    requires remaining == [] && TakenFrom(children, remaining, taken)
    ensures FullHeight(Cells(taken), r) ==> FullHeight(Cells(children), r)
    ensures FullWidth(Cells(taken), r) ==> FullWidth(Cells(children), r)
  {
    Backwards(children, remaining, taken);
    hide TakenFrom;
    assert forall i :: 0 <= i < |children| ==> Cells(children)[i] == Cells(taken)[|taken| - 1 - i];
  }

  lemma Ending(children: seq<Node>, remaining: seq<Node>, taken: seq<Node>, r: Rect)
    requires remaining == [] && TakenFrom(children, remaining, taken) && Tiles(Cells(taken), r)
    ensures Tiles(Cells(children), r)
    ensures Sized(Cells(taken), Areas(taken)) ==> Sized(Cells(children), Areas(children))
  {
    assert children[0..] == children;
    Backwards(children, remaining, taken);
    hide Area;
    assert Reversed(Cells(children)) == Cells(taken) by {
      assert forall i :: 0 <= i < |taken| ==> Reversed(taken)[|taken| - 1 - i] == taken[i];
    }
    ReversedTiles(Cells(children), r);
  }

  // ---------- the whole tree ----------

  function Values(nodes: seq<Node>): (values: seq<real>)
    ensures |values| == |nodes| && forall i :: 0 <= i < |nodes| ==> values[i] == nodes[i].value
  {
    seq(|nodes|, i requires 0 <= i < |nodes| => nodes[i].value)
  }

  predicate InShare(part: real, value: real, total: real, whole: real) {
    part * total == value * whole
  }

  /**
   * If the value of a node is the sum of those of its children, the cell of each child is to what the padding
   * leaves as its value is to that of the node.
   */
  ghost predicate Proportional(node: Node)
    reads node, node.children
  {
    node.value > 0.0 && node.value == Total(Values(node.children)) ==>
      forall c :: c in node.children ==>
        InShare(Area(c.Cell()), c.value, node.value, Area(Pad(node.Cell(), node.padding)))
  }

  lemma InProportion(node: Node, areas: seq<real>, area: real)
    requires area == Area(Pad(node.Cell(), node.padding)) && |areas| == |node.children|
    requires forall i :: 0 <= i < |areas| ==> Share(areas[i], node.children[i].value, node.value, area)
    requires forall i :: 0 <= i < |areas| ==> node.children[i].value >= 0.0
    requires Total(areas) == area ==> Sized(Cells(node.children), areas)
    ensures Proportional(node)
  {
    if node.value > 0.0 && node.value == Total(Values(node.children)) {
      var values := Values(node.children);
      SharesSum(areas, values, node.value, area);
      hide Area, Pad, Total, Share, Values, InShare;
      forall c | c in node.children
        ensures InShare(Area(c.Cell()), c.value, node.value, area)
      {
        var i :| 0 <= i < |areas| && node.children[i] == c;
        assert Area(Cells(node.children)[i]) == areas[i];
        TakesShare(areas[i], c.value, node.value, area);
      }
    }
  }

  lemma TakesShare(a: real, value: real, total: real, area: real)
    requires Share(a, value, total, area) && total > 0.0 && value >= 0.0
    ensures InShare(a, value, total, area) && a * total == value * area
  {
  }

  lemma SharesSum(areas: seq<real>, values: seq<real>, total: real, area: real)
    requires |areas| == |values| && total > 0.0 && total == Total(values)
    requires forall i :: 0 <= i < |areas| ==> Share(areas[i], values[i], total, area) && values[i] >= 0.0
    ensures Total(areas) == area
  {
    hide Total, Share;
    forall i | 0 <= i < |areas|
      ensures areas[i] * total == values[i] * area
    {
      TakesShare(areas[i], values[i], total, area);
    }
    SharesAddUp(areas, values, total, area);
    Cancel(Total(areas), area, total);
    Cancel(area, Total(areas), total);
  }

  /** The modes without scores: slices, dice, or one after the other; but a square is always sliced. */
  ghost predicate Sliced(cells: seq<Rect>, r: Rect, mode: Mode, depth: nat) {
    && (mode != Squarify && (mode == Slice || (mode == SliceDice && depth % 2 == 0) || r.dx == r.dy) ==>
          FullHeight(cells, r))
    && ((mode == Dice || (mode == SliceDice && depth % 2 == 1)) && r.dx != r.dy ==> FullWidth(cells, r))
  }

  /**
   * At every node below, the children tile what the padding leaves, as the mode says, and if nothing is rounded,
   * in proportion.
   */
  ghost predicate Tiled(node: Node, exact: bool, mode: Mode, depth: nat)
    requires node.Tree()
    reads node.below
    decreases node.height
  {
    ChildrenBelow(node);
    && (node.children != [] ==> Tiles(Cells(node.children), Pad(node.Cell(), node.padding)))
    && (exact ==> Proportional(node))
    && Sliced(Cells(node.children), Pad(node.Cell(), node.padding), mode, depth)
    && (forall c :: c in node.children ==> c.below <= node.below && Tiled(c, exact, mode, depth + 1))
  }

  /** `squarify` on a node and everything below it; the node's own rectangle is given. */
  method SquarifyTree(node: Node, mode: Mode, depth: nat, worst: (seq<real>, real) -> Score, round: real -> real)
    requires node.Tree() && Rounding(round)
    modifies node.below - {node}
    ensures Tiled(node, Exact(round), mode, depth)
    decreases node.height, 1
  {
    hide *;
    ChildrenBelow(node);
    if node.children != [] {
      var rect := Pad(node.Cell(), node.padding);
      AreaIs(rect);
      Scale(node.children, node.value, rect.dx * rect.dy);
      ghost var areas := Areas(node.children);
      SumIs(node.children);
      ghost var _ := LayRows(node.children, rect, mode, depth, worst, round);
      if Exact(round) { InProportion(node, areas, Area(rect)); }
      SquarifyChildren(node, rect, mode, depth, worst, round);
    } else {
      NoneBelow(node);
    }
    TiledFold(node, Exact(round), mode, depth);
  }

  lemma SumIs(row: seq<Node>)
    ensures SumAreas(row) == Total(Areas(row))
  {
  }

  lemma AreaIs(r: Rect)
    requires Proper(r)
    ensures Area(r) == r.dx * r.dy >= 0.0
  {
  }

  lemma NoneBelow(node: Node)
    requires node.children == []
    ensures Proportional(node) && forall r, mode, depth :: Sliced(Cells(node.children), r, mode, depth)
  {
  }

  lemma TiledFold(node: Node, exact: bool, mode: Mode, depth: nat)
    requires node.Tree() && (exact ==> Proportional(node))
    requires node.children != [] ==> Tiles(Cells(node.children), Pad(node.Cell(), node.padding))
    requires Sliced(Cells(node.children), Pad(node.Cell(), node.padding), mode, depth)
    requires forall c :: c in node.children ==> c.Tree() && Tiled(c, exact, mode, depth + 1)
    ensures Tiled(node, exact, mode, depth)
  {
    ChildrenBelow(node);
    hide Tiles, Proportional, Pad, Node.Tree, Sliced;
  }

  /** `children.forEach(squarify)`: the cells of the children stay where they are. */
  method SquarifyChildren(node: Node, ghost rect: Rect, mode: Mode, depth: nat, worst: (seq<real>, real) -> Score,
      round: real -> real)
    requires node.Tree() && Rounding(round) && Tiles(Cells(node.children), rect)
    requires (Exact(round) ==> Proportional(node)) && Sliced(Cells(node.children), rect, mode, depth)
    modifies node.below - {node}
    ensures Tiles(Cells(node.children), rect) && node.Cell() == old(node.Cell())
    ensures (Exact(round) ==> Proportional(node)) && Sliced(Cells(node.children), rect, mode, depth)
    ensures forall c :: c in node.children ==> Tiled(c, Exact(round), mode, depth + 1)
    decreases node.height, 0
  {
    ChildrenBelow(node);
    hide Tiles, Rounding, Tiled, Cells, Node.Tree, Proportional, Exact, Share, Sliced;
    ghost var cells := Cells(node.children);
    for i := 0 to |node.children|
      invariant Exact(round) ==> Proportional(node)
      invariant node.Cell() == old(node.Cell())
      invariant forall k :: 0 <= k < |node.children| ==> node.children[k].Cell() == cells[k]
      invariant forall k :: 0 <= k < i ==> Tiled(node.children[k], Exact(round), mode, depth + 1)
    {
      ghost var touched := node.children[i].below - {node.children[i]};
      assert forall k :: 0 <= k < |node.children| ==> node.children[k] !in touched;
      label before:
      SquarifyTree(node.children[i], mode, depth + 1, worst, round);
      forall k | 0 <= k < i
        ensures Tiled(node.children[k], Exact(round), mode, depth + 1)
      {
        assert node.children[k].below !! touched;
        assert old@before(Tiled(node.children[k], Exact(round), mode, depth + 1));
      }
    }
    assert Cells(node.children) == cells;
  }

  /** `treemap` itself: the root gets the whole canvas. */
  method Layout(root: Node, width: real, height: real, mode: Mode, worst: (seq<real>, real) -> Score,
      round: real -> real)
    requires root.Tree() && Rounding(round) && width >= 0.0 && height >= 0.0
    modifies root.below
    ensures root.Cell() == Rect(0.0, 0.0, width, height) && Tiled(root, Exact(round), mode, 0)
    ensures root.value > 0.0 ==> root.area == width * height
  {
    hide Tiled, Rounding, Share, Exact;
    root.x, root.y, root.dx, root.dy := 0.0, 0.0, width, height;
    Scale([root], root.value, width * height);
    assert root == [root][0];
    if root.value > 0.0 {
      TakesShare(root.area, root.value, root.value, width * height);
      Cancel(root.area, width * height, root.value);
      Cancel(width * height, root.area, root.value);
    }
    SquarifyTree(root, mode, 0, worst, round);
  }

  lemma ChildrenBelow(node: Node)
    requires node.Tree()
    ensures Distinct(node.children) && node in node.below
    ensures forall c :: c in node.children ==> c in c.below && c.Tree() && c.height < node.height && c.value >= 0.0
    ensures forall c :: c in node.children ==> c in node.below && c != node && c.below <= node.below - {node}
    ensures forall i, j :: 0 <= i < |node.children| && 0 <= j < |node.children| && i != j ==>
              node.children[i].below !! node.children[j].below
  {
    forall c | c in node.children
      ensures c in c.below
    {
    }
    forall i, j | 0 <= i < j < |node.children|
      ensures node.children[i].below !! node.children[j].below && node.children[j].below !! node.children[i].below
    {
    }
  }

  lemma RowStart(strip: Rect)
    ensures RowTo([], strip, strip.x)
  {
  }
}
