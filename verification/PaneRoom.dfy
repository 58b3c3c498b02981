/**
 * The split layout (src/shared/paneRoom.ts): where each pane is drawn, and the least room a tree of panes needs.
 * Lengths are reals; the noise of floating point is not modelled, and every size is a finite number.
 */
module PaneRoom {
  import opened Wrappers

  datatype Direction = Row | Column

  /** A tab group (`tabs`) draws its children one at a time, each in the whole of its box. */
  datatype Pane =
    | Leaf(id: string)
    | Split(direction: Direction, sizes: seq<real>, children: seq<Pane>, tabs: bool)

  datatype Area = Area(x: real, y: real, width: real, height: real)

  /** A width and a height: of a box, or the least a pane may have. */
  datatype Box = Box(width: real, height: real)

  datatype PaneRect = PaneRect(id: string, area: Area)

  predicate IsColumn(node: Pane) {
    node.Split? && node.tabs
  }

  // ---------------------------------------------------------------- shares

  function Total(parts: seq<real>): real {
    if parts == [] then 0.0 else parts[0] + Total(parts[1..])
  }

  function Cleaned(sizes: seq<real>, count: nat): (parts: seq<real>)
    ensures |parts| == count && forall i :: 0 <= i < count ==> parts[i] >= 0.0
  {
    seq(count, i requires 0 <= i < count => if i < |sizes| && sizes[i] > 0.0 then sizes[i] else 0.0)
  }

  /** What each of `count` children gets of the whole, whatever the sizes on record. */
  function Shares(sizes: seq<real>, count: nat): (parts: seq<real>)
    ensures |parts| == count
  {
    var cleaned := Cleaned(sizes, count);
    var total := Total(cleaned);
    if total > 0.0 then seq(count, i requires 0 <= i < count => cleaned[i] / total)
    else seq(count, i requires 0 <= i < count => 1.0 / (count as real))
  }

  predicate AllAtLeast(parts: seq<real>, least: real) {
    forall i :: 0 <= i < |parts| ==> parts[i] >= least
  }

  lemma {:induction false} TotalOfScaled(parts: seq<real>, factor: real, scaled: seq<real>)
    requires |scaled| == |parts| && forall i :: 0 <= i < |parts| ==> scaled[i] == factor * parts[i]
    ensures Total(scaled) == factor * Total(parts)
  {
    if parts != [] {
      TotalOfScaled(parts[1..], factor, scaled[1..]);
    }
  }

  lemma {:induction false} TotalOfSame(parts: seq<real>, each: real)
    requires forall i :: 0 <= i < |parts| ==> parts[i] == each
    ensures Total(parts) == each * |parts| as real
  {
    if parts != [] {
      TotalOfSame(parts[1..], each);
    }
  }

  lemma Inverse(total: real)
    requires total > 0.0
    ensures 1.0 / total * total == 1.0 && 1.0 / total > 0.0
  {
  }

  lemma OverSum(a: real, b: real, total: real)
    requires total > 0.0
    ensures (a + b) / total == a / total + b / total && (a >= 0.0 ==> a / total >= 0.0)
  {
  }

  lemma {:induction false} ScaledShares(parts: seq<real>, total: real, shares: seq<real>)
    requires total > 0.0 && AllAtLeast(parts, 0.0) && |shares| == |parts|
    requires forall i :: 0 <= i < |parts| ==> shares[i] == parts[i] / total
    ensures Total(shares) == Total(parts) / total && AllAtLeast(shares, 0.0)
  {
    if parts != [] {
      ScaledShares(parts[1..], total, shares[1..]);
      OverSum(parts[0], Total(parts[1..]), total);
      assert AllAtLeast(shares[1..], 0.0) && shares == [shares[0]] + shares[1..];
    }
  }

  lemma EvenShares(shares: seq<real>)
    requires shares != [] && forall i :: 0 <= i < |shares| ==> shares[i] == 1.0 / (|shares| as real)
    ensures Total(shares) == 1.0 && AllAtLeast(shares, 0.0)
  {
    Inverse(|shares| as real);
    TotalOfSame(shares, 1.0 / (|shares| as real));
  }

  /** The shares are a division of the whole: none negative, all of it given out. */
  lemma SharesDivideTheWhole(sizes: seq<real>, count: nat)
    requires count > 0
    ensures Total(Shares(sizes, count)) == 1.0 && AllAtLeast(Shares(sizes, count), 0.0)
  {
    var cleaned := Cleaned(sizes, count);
    if Total(cleaned) > 0.0 {
      ScaledShares(cleaned, Total(cleaned), Shares(sizes, count));
    } else {
      EvenShares(Shares(sizes, count));
    }
  }

  // ---------------------------------------------------------------- layout

  function Max(a: real, b: real): real {
    if a < b then b else a
  }

  function Extent(area: Area, direction: Direction): real {
    if direction.Row? then area.width else area.height
  }

  function Gutters(count: nat, gutter: real): real {
    gutter * (count as real - 1.0)
  }

  function Scaled(room: real, shares: seq<real>): (spans: seq<real>)
    ensures |spans| == |shares|
  {
    seq(|shares|, i requires 0 <= i < |shares| => room * shares[i])
  }

  /** What each child of a split is given along it, once the gutters are off. */
  function Spans(sizes: seq<real>, count: nat, extent: real, gutter: real): (spans: seq<real>)
    ensures |spans| == count
  {
    Scaled(Max(0.0, extent - Gutters(count, gutter)), Shares(sizes, count))
  }

  function Slice(area: Area, direction: Direction, offset: real, span: real): Area {
    if direction.Row? then Area(area.x + offset, area.y, span, area.height)
    else Area(area.x, area.y + offset, area.width, span)
  }

  function Slices(area: Area, direction: Direction, offset: real, spans: seq<real>, gutter: real): (areas: seq<Area>)
    ensures |areas| == |spans|
    decreases |spans|
  {
    if spans == [] then []
    else [Slice(area, direction, offset, spans[0])] + Slices(area, direction, offset + spans[0] + gutter, spans[1..], gutter)
  }

  /** The box of each child: the whole of it for a tab, its slice otherwise. */
  function ChildAreas(node: Pane, area: Area, gutter: real): (areas: seq<Area>)
    requires node.Split?
    ensures |areas| == |node.children|
  {
    if node.tabs then seq(|node.children|, _ => area)
    else Slices(area, node.direction, 0.0, Spans(node.sizes, |node.children|, Extent(area, node.direction), gutter), gutter)
  }

  function Layout(node: Pane, area: Area, gutter: real): seq<PaneRect>
    decreases node, 1
  {
    if node.Leaf? then [PaneRect(node.id, area)] else Layouts(node.children, ChildAreas(node, area, gutter), gutter)
  }

  function RectsOf(root: Option<Pane>, box: Box, gutter: real): seq<PaneRect> {
    if root.None? then [] else Layout(root.value, Area(0.0, 0.0, box.width, box.height), gutter)
  }

  function Layouts(nodes: seq<Pane>, areas: seq<Area>, gutter: real): seq<PaneRect>
    requires |nodes| == |areas|
    decreases nodes, 0
  {
    if nodes == [] then [] else Layout(nodes[0], areas[0], gutter) + Layouts(nodes[1..], areas[1..], gutter)
  }

  method PaneRects(root: Option<Pane>, box: Box, gutter: real) returns (rects: seq<PaneRect>)
    ensures rects == RectsOf(root, box, gutter)
  {
    rects := [];
    if root.Some? {
      rects := WalkPane(root.value, Area(0.0, 0.0, box.width, box.height), gutter, rects);
    }
  }

  lemma LayoutsStep(nodes: seq<Pane>, areas: seq<Area>, gutter: real, i: nat)
    requires i < |nodes| == |areas|
    ensures Layouts(nodes[i..], areas[i..], gutter) ==
              Layout(nodes[i], areas[i], gutter) + Layouts(nodes[i + 1..], areas[i + 1..], gutter)
  {
    assert nodes[i..][1..] == nodes[i + 1..] && areas[i..][1..] == areas[i + 1..];
  }

  method WalkPane(node: Pane, area: Area, gutter: real, rects: seq<PaneRect>) returns (more: seq<PaneRect>)
    ensures more == rects + Layout(node, area, gutter)
    decreases node, 1
  {
    if node.Leaf? {
      more := rects + [PaneRect(node.id, area)];
    } else if node.tabs {
      more := WalkTabs(node, area, gutter, rects);
    } else {
      more := WalkSplit(node, area, gutter, rects);
    }
  }

  method WalkTabs(node: Pane, area: Area, gutter: real, rects: seq<PaneRect>) returns (more: seq<PaneRect>)
    requires IsColumn(node)
    ensures more == rects + Layout(node, area, gutter)
    decreases node, 0
  {
    ghost var areas := ChildAreas(node, area, gutter);
    more := rects;
    assert node.children[0..] == node.children && areas[0..] == areas;
    for index := 0 to |node.children|
      invariant more + Layouts(node.children[index..], areas[index..], gutter) == rects + Layouts(node.children, areas, gutter)
    {
      LayoutsStep(node.children, areas, gutter, index);
      Associate(more, Layout(node.children[index], area, gutter), Layouts(node.children[index + 1..], areas[index + 1..], gutter));
      more := WalkPane(node.children[index], area, gutter, more);
    }
  }

  lemma SlicesStep(area: Area, direction: Direction, offset: real, spans: seq<real>, gutter: real, i: nat, areas: seq<Area>)
    requires i < |spans| == |areas| && Slices(area, direction, offset, spans[i..], gutter) == areas[i..]
    ensures areas[i] == Slice(area, direction, offset, spans[i])
    ensures Slices(area, direction, offset + spans[i] + gutter, spans[i + 1..], gutter) == areas[i + 1..]
  {
    assert spans[i..][1..] == spans[i + 1..] && areas[i..][1..] == areas[i + 1..];
    assert areas[i] == areas[i..][0];
  }

  method WalkSplit(node: Pane, area: Area, gutter: real, rects: seq<PaneRect>) returns (more: seq<PaneRect>)
    requires node.Split? && !node.tabs
    ensures more == rects + Layout(node, area, gutter)
    decreases node, 0
  {
    ghost var areas := ChildAreas(node, area, gutter);
    var spans := Spans(node.sizes, |node.children|, Extent(area, node.direction), gutter);
    var offset := 0.0;
    more := rects;
    assert node.children[0..] == node.children && areas[0..] == areas && spans[0..] == spans;
    for index := 0 to |node.children|
      invariant Slices(area, node.direction, offset, spans[index..], gutter) == areas[index..]
      invariant more + Layouts(node.children[index..], areas[index..], gutter) == rects + Layouts(node.children, areas, gutter)
    {
      SlicesStep(area, node.direction, offset, spans, gutter, index, areas);
      LayoutsStep(node.children, areas, gutter, index);
      Associate(more, Layout(node.children[index], areas[index], gutter), Layouts(node.children[index + 1..], areas[index + 1..], gutter));
      more := WalkPane(node.children[index], Slice(area, node.direction, offset, spans[index]), gutter, more);
      offset := offset + spans[index] + gutter;
    }
  }

  // ---------------------------------------------------------------- tiles

  /** A pane as the layout sees it: a leaf, or a tab group as one. */
  datatype Tile = Tile(pane: Pane, area: Area)

  function Tiles(node: Pane, area: Area, gutter: real): seq<Tile>
    decreases node, 1
  {
    if node.Leaf? || node.tabs then [Tile(node, area)] else TilesOf(node.children, ChildAreas(node, area, gutter), gutter)
  }

  function TilesOf(nodes: seq<Pane>, areas: seq<Area>, gutter: real): seq<Tile>
    requires |nodes| == |areas|
    decreases nodes, 0
  {
    if nodes == [] then [] else Tiles(nodes[0], areas[0], gutter) + TilesOf(nodes[1..], areas[1..], gutter)
  }

  /** The layouts of some tiles, one after another. */
  function Drawn(tiles: seq<Tile>, gutter: real): seq<PaneRect> {
    if tiles == [] then [] else Layout(tiles[0].pane, tiles[0].area, gutter) + Drawn(tiles[1..], gutter)
  }

  lemma {:induction false} DrawnComposes(a: seq<Tile>, b: seq<Tile>, gutter: real)
    ensures Drawn(a + b, gutter) == Drawn(a, gutter) + Drawn(b, gutter)
  {
    if a == [] {
      assert a + b == b;
    } else {
      DrawnComposes(a[1..], b, gutter);
      assert (a + b)[1..] == a[1..] + b;
      Associate(Layout(a[0].pane, a[0].area, gutter), Drawn(a[1..], gutter), Drawn(b, gutter));
    }
  }

  /** What is drawn is the tiles, each leaf in its own and each tab in its group's. */
  lemma {:induction false} LayoutDrawsTiles(node: Pane, area: Area, gutter: real)
    ensures Layout(node, area, gutter) == Drawn(Tiles(node, area, gutter), gutter)
    decreases node, 1
  {
    if node.Leaf? || node.tabs {
      assert Drawn([Tile(node, area)][1..], gutter) == [];
    } else {
      LayoutsDrawTiles(node.children, ChildAreas(node, area, gutter), gutter);
    }
  }

  lemma {:induction false} LayoutsDrawTiles(nodes: seq<Pane>, areas: seq<Area>, gutter: real)
    requires |nodes| == |areas|
    ensures Layouts(nodes, areas, gutter) == Drawn(TilesOf(nodes, areas, gutter), gutter)
    decreases nodes, 0
  {
    if nodes != [] {
      LayoutDrawsTiles(nodes[0], areas[0], gutter);
      LayoutsDrawTiles(nodes[1..], areas[1..], gutter);
      DrawnComposes(Tiles(nodes[0], areas[0], gutter), TilesOf(nodes[1..], areas[1..], gutter), gutter);
    }
  }

  lemma {:induction false} TabsShareTheBox(nodes: seq<Pane>, areas: seq<Area>, area: Area, gutter: real)
    requires |nodes| == |areas| && (forall i :: 0 <= i < |nodes| ==> nodes[i].Leaf?) && forall i :: 0 <= i < |areas| ==> areas[i] == area
    ensures |Layouts(nodes, areas, gutter)| == |nodes|
    ensures forall i :: 0 <= i < |nodes| ==> Layouts(nodes, areas, gutter)[i] == PaneRect(nodes[i].id, area)
  {
    if nodes != [] {
      TabsShareTheBox(nodes[1..], areas[1..], area, gutter);
    }
  }

  /** A tab group of leaves draws every tab in the whole of its tile. */
  lemma TabGroupIsOneTile(node: Pane, area: Area, gutter: real)
    requires IsColumn(node) && forall i :: 0 <= i < |node.children| ==> node.children[i].Leaf?
    ensures Tiles(node, area, gutter) == [Tile(node, area)]
    ensures |Layout(node, area, gutter)| == |node.children|
    ensures forall i :: 0 <= i < |node.children| ==> Layout(node, area, gutter)[i] == PaneRect(node.children[i].id, area)
  {
    TabsShareTheBox(node.children, ChildAreas(node, area, gutter), area, gutter);
  }

  // ---------------------------------------------------------------- the tiling

  predicate Inside(inner: Area, outer: Area) {
    && inner.width >= 0.0 && inner.height >= 0.0
    && outer.x <= inner.x && inner.x + inner.width <= outer.x + outer.width
    && outer.y <= inner.y && inner.y + inner.height <= outer.y + outer.height
  }

  predicate Apart(a: Area, b: Area) {
    || a.x + a.width <= b.x || b.x + b.width <= a.x
    || a.y + a.height <= b.y || b.y + b.height <= a.y
  }

  predicate AllInside(tiles: seq<Tile>, area: Area) {
    forall i :: 0 <= i < |tiles| ==> Inside(tiles[i].area, area)
  }

  predicate AllApart(tiles: seq<Tile>) {
    forall i, j :: 0 <= i < j < |tiles| ==> Apart(tiles[i].area, tiles[j].area)
  }

  lemma GutterStep(count: nat, gutter: real)
    requires count > 0
    ensures Gutters(count, gutter) == gutter + Gutters(count - 1, gutter)
    ensures Gutters(1, gutter) == 0.0
  {
  }

  lemma {:induction false} TotalIsPositive(parts: seq<real>)
    requires AllAtLeast(parts, 0.0)
    ensures Total(parts) >= 0.0
  {
    if parts != [] {
      TotalIsPositive(parts[1..]);
    }
  }

  predicate Between(area: Area, outer: Area, direction: Direction, from: real, to: real) {
    && Inside(area, outer)
    && if direction.Row? then outer.x + from <= area.x && area.x + area.width <= outer.x + to
       else outer.y + from <= area.y && area.y + area.height <= outer.y + to
  }

  predicate AllBetween(areas: seq<Area>, outer: Area, direction: Direction, from: real, to: real) {
    forall i :: 0 <= i < |areas| ==> Between(areas[i], outer, direction, from, to)
  }

  predicate Disjoint(areas: seq<Area>) {
    forall i, j :: 0 <= i < j < |areas| ==> Apart(areas[i], areas[j])
  }

  lemma OneBefore(first: Area, more: seq<Area>, outer: Area, direction: Direction, from: real, next: real, to: real)
    requires Between(first, outer, direction, from, to) && AllBetween(more, outer, direction, next, to) && Disjoint(more)
    requires from <= next
    requires more != [] ==> Between(first, outer, direction, from, next)
    ensures AllBetween([first] + more, outer, direction, from, to) && Disjoint([first] + more)
  {
    var areas := [first] + more;
    forall i | 0 < i < |areas|
      ensures Between(areas[i], outer, direction, from, to) && Apart(first, areas[i])
    {
      assert areas[i] == more[i - 1];
    }
    forall i, j | 0 <= i < j < |areas|
      ensures Apart(areas[i], areas[j])
    {
      assert i > 0 ==> areas[i] == more[i - 1] && areas[j] == more[j - 1];
    }
  }

  /** Slices that add up to no more than the box lie in it, one after another. */
  lemma {:induction false} SlicesLieApart(area: Area, direction: Direction, offset: real, spans: seq<real>, gutter: real, end: real)
    requires area.width >= 0.0 && area.height >= 0.0 && gutter >= 0.0 && offset >= 0.0 && AllAtLeast(spans, 0.0)
    requires spans != [] ==> offset + Total(spans) + Gutters(|spans|, gutter) == end <= Extent(area, direction)
    ensures var areas := Slices(area, direction, offset, spans, gutter);
            AllBetween(areas, area, direction, offset, end) && Disjoint(areas)
    decreases |spans|
  {
    if spans != [] {
      var next := offset + spans[0] + gutter;
      GutterStep(|spans|, gutter);
      TotalIsPositive(spans[1..]);
      FirstFits(area, direction, offset, spans, gutter, end);
      SlicesLieApart(area, direction, next, spans[1..], gutter, end);
      OneBefore(Slice(area, direction, offset, spans[0]), Slices(area, direction, next, spans[1..], gutter), area, direction,
                offset, next, end);
    }
  }

  lemma FirstFits(area: Area, direction: Direction, offset: real, spans: seq<real>, gutter: real, end: real)
    requires area.width >= 0.0 && area.height >= 0.0 && gutter >= 0.0 && offset >= 0.0 && spans != [] && AllAtLeast(spans, 0.0)
    requires offset + Total(spans) + Gutters(|spans|, gutter) == end <= Extent(area, direction)
    ensures Between(Slice(area, direction, offset, spans[0]), area, direction, offset, end)
    ensures |spans| > 1 ==> Between(Slice(area, direction, offset, spans[0]), area, direction, offset, offset + spans[0] + gutter)
  {
    TotalIsPositive(spans[1..]);
    GuttersArePositive(|spans|, gutter);
    GutterStep(|spans|, gutter);
    if |spans| > 1 {
      GuttersArePositive(|spans| - 1, gutter);
    }
  }

  lemma GuttersArePositive(count: nat, gutter: real)
    requires count > 0 && gutter >= 0.0
    ensures Gutters(count, gutter) >= 0.0
  {
    Product(gutter, count as real - 1.0);
  }

  /** The spans and the gutters between them fill a split with room for its gutters, to the edge. */
  lemma SpansFill(sizes: seq<real>, count: nat, extent: real, gutter: real)
    requires count > 0 && extent >= Gutters(count, gutter)
    ensures AllAtLeast(Spans(sizes, count, extent, gutter), 0.0)
    ensures Total(Spans(sizes, count, extent, gutter)) + Gutters(count, gutter) == extent
  {
    var room := extent - Gutters(count, gutter);
    var spans, shares := Spans(sizes, count, extent, gutter), Shares(sizes, count);
    SharesDivideTheWhole(sizes, count);
    TotalOfScaled(shares, room, spans);
    forall i | 0 <= i < count
      ensures spans[i] >= 0.0
    {
      assert shares[i] >= 0.0;
      Product(room, shares[i]);
    }
  }

  lemma Product(a: real, b: real)
    requires a >= 0.0 && b >= 0.0
    ensures a * b >= 0.0
  {
  }

  /** Every split has room for its gutters where it is drawn. */
  ghost predicate Roomy(node: Pane, area: Area, gutter: real)
    decreases node, 1
  {
    node.Leaf? || node.tabs || node.children == [] ||
    (&& Extent(area, node.direction) >= Gutters(|node.children|, gutter)
     && AllRoomy(node.children, ChildAreas(node, area, gutter), gutter))
  }

  ghost predicate AllRoomy(nodes: seq<Pane>, areas: seq<Area>, gutter: real)
    requires |nodes| == |areas|
    decreases nodes, 0
  {
    nodes == [] || (Roomy(nodes[0], areas[0], gutter) && AllRoomy(nodes[1..], areas[1..], gutter))
  }

  predicate Tiled(areas: seq<Area>, area: Area) {
    (forall i :: 0 <= i < |areas| ==> Inside(areas[i], area)) && Disjoint(areas)
  }

  lemma SpansAreTiled(area: Area, direction: Direction, sizes: seq<real>, count: nat, gutter: real)
    requires count > 0 && Extent(area, direction) >= Gutters(count, gutter)
    requires area.width >= 0.0 && area.height >= 0.0 && gutter >= 0.0
    ensures Tiled(Slices(area, direction, 0.0, Spans(sizes, count, Extent(area, direction), gutter), gutter), area)
  {
    var spans := Spans(sizes, count, Extent(area, direction), gutter);
    var areas := Slices(area, direction, 0.0, spans, gutter);
    SpansFill(sizes, count, Extent(area, direction), gutter);
    SlicesLieApart(area, direction, 0.0, spans, gutter, Extent(area, direction));
    forall i | 0 <= i < |areas|
      ensures Inside(areas[i], area)
    {
      assert Between(areas[i], area, direction, 0.0, Extent(area, direction));
    }
  }

  /** The panes tile the box: each lies in it, and no two overlap. */
  lemma {:induction false} TilesTile(node: Pane, area: Area, gutter: real)
    requires Roomy(node, area, gutter) && area.width >= 0.0 && area.height >= 0.0 && gutter >= 0.0
    ensures AllInside(Tiles(node, area, gutter), area) && AllApart(Tiles(node, area, gutter))
    decreases node, 1
  {
    if node.Split? && !node.tabs && node.children != [] {
      SpansAreTiled(area, node.direction, node.sizes, |node.children|, gutter);
      AllTile(node.children, ChildAreas(node, area, gutter), area, gutter);
    }
  }

  lemma {:induction false} AllTile(nodes: seq<Pane>, areas: seq<Area>, area: Area, gutter: real)
    requires |nodes| == |areas| && AllRoomy(nodes, areas, gutter) && gutter >= 0.0 && Tiled(areas, area)
    ensures AllInside(TilesOf(nodes, areas, gutter), area) && AllApart(TilesOf(nodes, areas, gutter))
    decreases nodes, 0
  {
    if nodes != [] {
      var first, rest := Tiles(nodes[0], areas[0], gutter), TilesOf(nodes[1..], areas[1..], gutter);
      TilesTile(nodes[0], areas[0], gutter);
      AllTile(nodes[1..], areas[1..], area, gutter);
      forall k | 0 <= k < |rest|
        ensures Apart(areas[0], rest[k].area)
      {
        TilesKeepApart(nodes[1..], areas[1..], areas[0], gutter, k);
      }
      TwoGroups(first, rest, areas[0], area);
    }
  }

  lemma TwoGroups(first: seq<Tile>, rest: seq<Tile>, part: Area, area: Area)
    requires AllInside(first, part) && Inside(part, area) && AllInside(rest, area) && AllApart(first) && AllApart(rest)
    requires forall k :: 0 <= k < |rest| ==> Apart(part, rest[k].area)
    ensures AllInside(first + rest, area) && AllApart(first + rest)
  {
    var all := first + rest;
    forall i | 0 <= i < |all|
      ensures Inside(all[i].area, area)
    {
      assert all[i] == if i < |first| then first[i] else rest[i - |first|];
    }
    forall i, j | 0 <= i < j < |all|
      ensures Apart(all[i].area, all[j].area)
    {
      if i < |first| <= j {
        assert Inside(first[i].area, part) && Apart(part, rest[j - |first|].area);
      } else if j < |first| {
        assert Apart(first[i].area, first[j].area);
      } else {
        assert Apart(rest[i - |first|].area, rest[j - |first|].area);
      }
    }
  }

  /** Whatever is apart from every box is apart from every tile in them. */
  lemma {:induction false} TilesKeepApart(nodes: seq<Pane>, areas: seq<Area>, other: Area, gutter: real, k: nat)
    requires |nodes| == |areas| && AllRoomy(nodes, areas, gutter) && gutter >= 0.0 && k < |TilesOf(nodes, areas, gutter)|
    requires forall i :: 0 <= i < |areas| ==> Apart(other, areas[i]) && areas[i].width >= 0.0 && areas[i].height >= 0.0
    ensures Apart(other, TilesOf(nodes, areas, gutter)[k].area)
    decreases nodes, 0
  {
    var first := Tiles(nodes[0], areas[0], gutter);
    if k < |first| {
      TilesTile(nodes[0], areas[0], gutter);
      assert Inside(first[k].area, areas[0]);
    } else {
      TilesKeepApart(nodes[1..], areas[1..], other, gutter, k - |first|);
    }
  }

  // ---------------------------------------------------------------- the least room

  function Least(min: Box, direction: Direction): real {
    if direction.Row? then min.width else min.height
  }

  /** Every split has at least one child, as every split of a layout does. */
  ghost predicate Populated(node: Pane) {
    node.Split? ==> node.children != [] && forall i :: 0 <= i < |node.children| ==> Populated(node.children[i])
  }

  function Widest(extents: seq<real>): (widest: real)
    requires extents != []
    ensures widest in extents && forall i :: 0 <= i < |extents| ==> extents[i] <= widest
  {
    if |extents| == 1 then extents[0] else Max(extents[0], Widest(extents[1..]))
  }

  function MinExtent(node: Pane, direction: Direction, min: Box, gutter: real): real
    requires Populated(node)
    decreases node, 1
  {
    if node.Leaf? || node.tabs then Least(min, direction)
    else
      var extents := MinExtents(node.children, direction, min, gutter);
      if node.direction != direction then Widest(extents) else Total(extents) + Gutters(|extents|, gutter)
  }

  function MinExtents(nodes: seq<Pane>, direction: Direction, min: Box, gutter: real): (extents: seq<real>)
    requires forall i :: 0 <= i < |nodes| ==> Populated(nodes[i])
    ensures |extents| == |nodes| && forall i :: 0 <= i < |nodes| ==> extents[i] == MinExtent(nodes[i], direction, min, gutter)
    decreases nodes, 0
  {
    if nodes == [] then []
    else [MinExtent(nodes[0], direction, min, gutter)] + MinExtents(nodes[1..], direction, min, gutter)
  }

  /** Every pane has at least its least along `direction`. */
  predicate AllHave(tiles: seq<Tile>, direction: Direction, least: real) {
    forall i :: 0 <= i < |tiles| ==> Extent(tiles[i].area, direction) >= least
  }

  lemma {:induction false} TilesOfEach(nodes: seq<Pane>, areas: seq<Area>, gutter: real, direction: Direction, least: real)
    requires |nodes| == |areas|
    ensures AllHave(TilesOf(nodes, areas, gutter), direction, least) <==>
              forall i :: 0 <= i < |nodes| ==> AllHave(Tiles(nodes[i], areas[i], gutter), direction, least)
  {
    if nodes != [] {
      var first, rest := Tiles(nodes[0], areas[0], gutter), TilesOf(nodes[1..], areas[1..], gutter);
      TilesOfEach(nodes[1..], areas[1..], gutter, direction, least);
      HaveBoth(first, rest, direction, least);
      EachIsFirstOrLater(nodes, areas, gutter, direction, least);
    }
  }

  lemma HaveBoth(first: seq<Tile>, rest: seq<Tile>, direction: Direction, least: real)
    ensures AllHave(first + rest, direction, least) <==> AllHave(first, direction, least) && AllHave(rest, direction, least)
  {
    var all := first + rest;
    assert forall i :: 0 <= i < |first| ==> all[i] == first[i];
    assert forall i :: 0 <= i < |rest| ==> all[|first| + i] == rest[i];
    assert forall i :: |first| <= i < |all| ==> all[i] == rest[i - |first|];
  }

  lemma EachIsFirstOrLater(nodes: seq<Pane>, areas: seq<Area>, gutter: real, direction: Direction, least: real)
    requires |nodes| == |areas| > 0
    ensures (forall i :: 0 <= i < |nodes| ==> AllHave(Tiles(nodes[i], areas[i], gutter), direction, least)) <==>
              && AllHave(Tiles(nodes[0], areas[0], gutter), direction, least)
              && forall i :: 0 <= i < |nodes[1..]| ==> AllHave(Tiles(nodes[1..][i], areas[1..][i], gutter), direction, least)
  {
    assert forall i :: 0 <= i < |nodes[1..]| ==> nodes[1..][i] == nodes[i + 1] && areas[1..][i] == areas[i + 1];
    assert forall i :: 0 < i < |nodes| ==> nodes[i] == nodes[1..][i - 1] && areas[i] == areas[1..][i - 1];
  }

  lemma {:induction false} TotalAtLeast(parts: seq<real>, leasts: seq<real>)
    requires |parts| == |leasts| && forall i :: 0 <= i < |parts| ==> parts[i] >= leasts[i]
    ensures Total(parts) >= Total(leasts)
  {
    if parts != [] {
      TotalAtLeast(parts[1..], leasts[1..]);
    }
  }

  lemma {:induction false} SlicesExtent(area: Area, direction: Direction, offset: real, spans: seq<real>, gutter: real, i: nat)
    requires i < |spans|
    ensures var slice := Slices(area, direction, offset, spans, gutter)[i];
            && Extent(slice, direction) == spans[i]
            && forall other :: other != direction ==> Extent(slice, other) == Extent(area, other)
    decreases |spans|
  {
    if i > 0 {
      SlicesExtent(area, direction, offset + spans[0] + gutter, spans[1..], gutter, i - 1);
    }
  }

  lemma {:induction false} LeastIsPositive(node: Pane, direction: Direction, min: Box, gutter: real)
    requires Populated(node) && min.width > 0.0 && min.height > 0.0 && gutter >= 0.0
    ensures MinExtent(node, direction, min, gutter) > 0.0
    decreases node
  {
    if node.Split? && !node.tabs {
      var extents := MinExtents(node.children, direction, min, gutter);
      forall i | 0 <= i < |extents|
        ensures extents[i] > 0.0
      {
        LeastIsPositive(node.children[i], direction, min, gutter);
      }
      TotalIsPositive(extents[1..]);
      GuttersArePositive(|extents|, gutter);
    }
  }

  lemma SpansTotal(sizes: seq<real>, count: nat, extent: real, gutter: real)
    requires count > 0
    ensures Total(Spans(sizes, count, extent, gutter)) == Max(0.0, extent - Gutters(count, gutter))
  {
    var room := Max(0.0, extent - Gutters(count, gutter));
    SharesDivideTheWhole(sizes, count);
    TotalOfScaled(Shares(sizes, count), room, Spans(sizes, count, extent, gutter));
  }

  /** Needed: whatever the sizes, panes that all have their least are in a box of at least the least extent. */
  lemma {:induction false} MinExtentIsNeeded(node: Pane, area: Area, direction: Direction, min: Box, gutter: real)
    requires Populated(node) && min.width > 0.0 && min.height > 0.0 && gutter >= 0.0
    requires AllHave(Tiles(node, area, gutter), direction, Least(min, direction))
    ensures Extent(area, direction) >= MinExtent(node, direction, min, gutter)
    decreases node
  {
    if node.Leaf? || node.tabs {
      assert Tiles(node, area, gutter)[0].area == area;
    } else {
      var count, extents := |node.children|, MinExtents(node.children, direction, min, gutter);
      var spans := Spans(node.sizes, count, Extent(area, node.direction), gutter);
      var areas := ChildAreas(node, area, gutter);
      TilesOfEach(node.children, areas, gutter, direction, Least(min, direction));
      forall i | 0 <= i < count
        ensures Extent(areas[i], direction) >= extents[i] > 0.0
        ensures Extent(areas[i], direction) == if direction == node.direction then spans[i] else Extent(area, direction)
      {
        MinExtentIsNeeded(node.children[i], areas[i], direction, min, gutter);
        LeastIsPositive(node.children[i], direction, min, gutter);
        SlicesExtent(area, node.direction, 0.0, spans, gutter, i);
      }
      if node.direction == direction {
        TotalAtLeast(spans, extents);
        TotalIsPositive(extents[1..]);
        SpansTotal(node.sizes, count, Extent(area, direction), gutter);
      } else {
        assert Widest(extents) in extents;
      }
    }
  }

  // ---------------------------------------------------------------- room enough

  /** Sizes for a split that give each child its least, and the first whatever is over. */
  function FittedSizes(extents: seq<real>, room: real): (sizes: seq<real>)
    requires extents != []
    ensures |sizes| == |extents|
  {
    [room - Total(extents[1..])] + extents[1..]
  }

  /** The same tree, its splits resized for the box it is to fill. */
  function Fitted(node: Pane, area: Area, min: Box, gutter: real): Pane
    requires Populated(node)
    decreases node, 1
  {
    if node.Leaf? || node.tabs then node
    else
      var extents := MinExtents(node.children, node.direction, min, gutter);
      var sizes := FittedSizes(extents, Extent(area, node.direction) - Gutters(|extents|, gutter));
      node.(sizes := sizes, children := FittedAll(node.children, Slices(area, node.direction, 0.0, sizes, gutter), min, gutter))
  }

  function FittedAll(nodes: seq<Pane>, areas: seq<Area>, min: Box, gutter: real): (fitted: seq<Pane>)
    requires |nodes| == |areas| && forall i :: 0 <= i < |nodes| ==> Populated(nodes[i])
    ensures |fitted| == |nodes| && forall i :: 0 <= i < |nodes| ==> fitted[i] == Fitted(nodes[i], areas[i], min, gutter)
    decreases nodes, 0
  {
    if nodes == [] then []
    else [Fitted(nodes[0], areas[0], min, gutter)] + FittedAll(nodes[1..], areas[1..], min, gutter)
  }

  /** Alike but for the sizes of their splits. */
  ghost predicate SameShape(a: Pane, b: Pane) {
    if a.Leaf? || b.Leaf? then a == b
    else
      && a.direction == b.direction && a.tabs == b.tabs && |a.children| == |b.children|
      && forall i :: 0 <= i < |a.children| ==> SameShape(a.children[i], b.children[i])
  }

  lemma {:induction false} SameShapeAsItself(node: Pane)
    ensures SameShape(node, node)
  {
    if node.Split? {
      forall i | 0 <= i < |node.children|
        ensures SameShape(node.children[i], node.children[i])
      {
        SameShapeAsItself(node.children[i]);
      }
    }
  }

  lemma {:induction false} CleanedIsSame(sizes: seq<real>)
    requires forall i :: 0 <= i < |sizes| ==> sizes[i] > 0.0
    ensures Cleaned(sizes, |sizes|) == sizes
  {
  }

  lemma OverThenTimes(part: real, total: real)
    requires total > 0.0
    ensures total * (part / total) == part
  {
  }

  lemma SharesOfSizes(sizes: seq<real>)
    requires sizes != [] && forall i :: 0 <= i < |sizes| ==> sizes[i] > 0.0
    ensures Total(sizes) > 0.0 && forall i :: 0 <= i < |sizes| ==> Shares(sizes, |sizes|)[i] == sizes[i] / Total(sizes)
  {
    CleanedIsSame(sizes);
    TotalIsPositive(sizes[1..]);
  }

  lemma ScaledBack(sizes: seq<real>, total: real, shares: seq<real>)
    requires total > 0.0 && |shares| == |sizes|
    requires forall i :: 0 <= i < |sizes| ==> shares[i] == sizes[i] / total
    ensures Scaled(total, shares) == sizes
  {
    forall i | 0 <= i < |sizes|
      ensures Scaled(total, shares)[i] == sizes[i]
    {
      OverThenTimes(sizes[i], total);
      assert shares[i] == sizes[i] / total;
    }
  }

  /** Sizes that are the spans wanted are drawn as those spans. */
  lemma SpansAreSizes(sizes: seq<real>, extent: real, gutter: real)
    requires sizes != [] && (forall i :: 0 <= i < |sizes| ==> sizes[i] > 0.0)
    requires Total(sizes) == extent - Gutters(|sizes|, gutter)
    ensures Spans(sizes, |sizes|, extent, gutter) == sizes
  {
    SharesOfSizes(sizes);
    ScaledBack(sizes, Total(sizes), Shares(sizes, |sizes|));
    assert Max(0.0, extent - Gutters(|sizes|, gutter)) == Total(sizes);
  }

  predicate RoomFor(area: Area, node: Pane, min: Box, gutter: real)
    requires Populated(node)
  {
    area.width >= MinExtent(node, Row, min, gutter) && area.height >= MinExtent(node, Column, min, gutter)
  }

  lemma FittedSizesFit(extents: seq<real>, extent: real, gutter: real)
    requires extents != [] && (forall i :: 0 <= i < |extents| ==> extents[i] > 0.0)
    requires extent >= Total(extents) + Gutters(|extents|, gutter)
    ensures var sizes := FittedSizes(extents, extent - Gutters(|extents|, gutter));
            && (forall i :: 0 <= i < |sizes| ==> sizes[i] >= extents[i])
            && Total(sizes) == extent - Gutters(|extents|, gutter)
  {
  }

  lemma LeastsArePositive(nodes: seq<Pane>, direction: Direction, min: Box, gutter: real)
    requires (forall i :: 0 <= i < |nodes| ==> Populated(nodes[i])) && min.width > 0.0 && min.height > 0.0 && gutter >= 0.0
    ensures forall i :: 0 <= i < |nodes| ==> MinExtents(nodes, direction, min, gutter)[i] > 0.0
  {
    forall i | 0 <= i < |nodes|
      ensures MinExtent(nodes[i], direction, min, gutter) > 0.0
    {
      LeastIsPositive(nodes[i], direction, min, gutter);
    }
  }

  function Across(direction: Direction): Direction {
    if direction.Row? then Column else Row
  }

  /** The slices of a fitted split have room, along it and across it. */
  lemma SlicesFit(nodes: seq<Pane>, area: Area, direction: Direction, sizes: seq<real>, min: Box, gutter: real, i: nat)
    requires i < |nodes| == |sizes| && forall k :: 0 <= k < |nodes| ==> Populated(nodes[k])
    requires sizes[i] >= MinExtents(nodes, direction, min, gutter)[i]
    requires Extent(area, Across(direction)) >= Widest(MinExtents(nodes, Across(direction), min, gutter))
    ensures RoomFor(Slices(area, direction, 0.0, sizes, gutter)[i], nodes[i], min, gutter)
  {
    SlicesExtent(area, direction, 0.0, sizes, gutter, i);
    var others := MinExtents(nodes, Across(direction), min, gutter);
    assert others[i] <= Widest(others);
    var slice := Slices(area, direction, 0.0, sizes, gutter)[i];
    assert Extent(slice, direction) >= MinExtent(nodes[i], direction, min, gutter);
    assert Extent(slice, Across(direction)) >= MinExtent(nodes[i], Across(direction), min, gutter);
  }

  lemma FittedIsDrawnSo(node: Pane, area: Area, min: Box, gutter: real) returns (sizes: seq<real>)
    requires node.Split? && !node.tabs && Populated(node) && RoomFor(area, node, min, gutter)
    requires min.width > 0.0 && min.height > 0.0 && gutter >= 0.0
    ensures var extents := MinExtents(node.children, node.direction, min, gutter);
            |sizes| == |extents| && forall i :: 0 <= i < |extents| ==> sizes[i] >= extents[i]
    ensures ChildAreas(Fitted(node, area, min, gutter), area, gutter) == Slices(area, node.direction, 0.0, sizes, gutter)
    ensures Fitted(node, area, min, gutter).children ==
              FittedAll(node.children, Slices(area, node.direction, 0.0, sizes, gutter), min, gutter)
  {
    var extents := MinExtents(node.children, node.direction, min, gutter);
    sizes := Fitted(node, area, min, gutter).sizes;
    LeastsArePositive(node.children, node.direction, min, gutter);
    FittedSizesFit(extents, Extent(area, node.direction), gutter);
    SpansAreSizes(sizes, Extent(area, node.direction), gutter);
  }

  /** Each child of a fitted split is drawn with room for it. */
  lemma ChildrenFit(node: Pane, area: Area, min: Box, gutter: real)
    requires node.Split? && !node.tabs && Populated(node) && RoomFor(area, node, min, gutter)
    requires min.width > 0.0 && min.height > 0.0 && gutter >= 0.0
    ensures var areas := ChildAreas(Fitted(node, area, min, gutter), area, gutter);
            && |areas| == |node.children|
            && Fitted(node, area, min, gutter).children == FittedAll(node.children, areas, min, gutter)
            && forall i :: 0 <= i < |areas| ==> RoomFor(areas[i], node.children[i], min, gutter)
  {
    var sizes := FittedIsDrawnSo(node, area, min, gutter);
    forall i | 0 <= i < |sizes|
      ensures RoomFor(Slices(area, node.direction, 0.0, sizes, gutter)[i], node.children[i], min, gutter)
    {
      SlicesFit(node.children, area, node.direction, sizes, min, gutter, i);
    }
  }

  /** Enough: a box of at least the least extent both ways has sizes that give every pane its least both ways. */
  lemma {:induction false} MinExtentIsEnough(node: Pane, area: Area, min: Box, gutter: real)
    requires Populated(node) && min.width > 0.0 && min.height > 0.0 && gutter >= 0.0 && RoomFor(area, node, min, gutter)
    ensures SameShape(node, Fitted(node, area, min, gutter))
    ensures AllHave(Tiles(Fitted(node, area, min, gutter), area, gutter), Row, min.width)
    ensures AllHave(Tiles(Fitted(node, area, min, gutter), area, gutter), Column, min.height)
    decreases node
  {
    SameShapeAsItself(node);
    if node.Split? && !node.tabs {
      var fitted := Fitted(node, area, min, gutter);
      var areas := ChildAreas(fitted, area, gutter);
      ChildrenFit(node, area, min, gutter);
      forall i | 0 <= i < |node.children|
        ensures SameShape(node.children[i], fitted.children[i])
        ensures AllHave(Tiles(fitted.children[i], areas[i], gutter), Row, min.width)
        ensures AllHave(Tiles(fitted.children[i], areas[i], gutter), Column, min.height)
      {
        MinExtentIsEnough(node.children[i], areas[i], min, gutter);
      }
      TilesOfEach(fitted.children, areas, gutter, Row, min.width);
      TilesOfEach(fitted.children, areas, gutter, Column, min.height);
    }
  }

  lemma {:induction false} MinExtentOfShape(a: Pane, b: Pane, direction: Direction, min: Box, gutter: real)
    requires SameShape(a, b) && Populated(a)
    ensures Populated(b) && MinExtent(a, direction, min, gutter) == MinExtent(b, direction, min, gutter)
    decreases a
  {
    if a.Split? {
      forall i | 0 <= i < |a.children|
        ensures Populated(b.children[i])
        ensures MinExtent(a.children[i], direction, min, gutter) == MinExtent(b.children[i], direction, min, gutter)
      {
        MinExtentOfShape(a.children[i], b.children[i], direction, min, gutter);
      }
      assert MinExtents(a.children, direction, min, gutter) == MinExtents(b.children, direction, min, gutter);
    }
  }

  /** Every pane at least `min` both ways. */
  predicate AllFit(node: Pane, area: Area, min: Box, gutter: real) {
    AllHave(Tiles(node, area, gutter), Row, min.width) && AllHave(Tiles(node, area, gutter), Column, min.height)
  }

  /** The least extents are exact: a box has them just when some sizes give every pane its least. */
  lemma MinExtentIsExact(node: Pane, area: Area, min: Box, gutter: real)
    requires Populated(node) && min.width > 0.0 && min.height > 0.0 && gutter >= 0.0
    ensures RoomFor(area, node, min, gutter) <==> exists other :: SameShape(node, other) && AllFit(other, area, min, gutter)
  {
    if RoomFor(area, node, min, gutter) {
      MinExtentIsEnough(node, area, min, gutter);
      assert AllFit(Fitted(node, area, min, gutter), area, min, gutter);
    }
    if other :| SameShape(node, other) && AllFit(other, area, min, gutter) {
      MinExtentOfShape(node, other, Row, min, gutter);
      MinExtentOfShape(node, other, Column, min, gutter);
      MinExtentIsNeeded(other, area, Row, min, gutter);
      MinExtentIsNeeded(other, area, Column, min, gutter);
    }
  }
}
