/**
 * What the EPSILON in the room check costs (src/shared/paneRoom.ts). The check is meant to hold every pane that lost width
 * or height to the least it may have; it lets one through that lost, or is short by, no more than EPSILON.
 */
module PaneSlack {
  import opened PanePlacement
  import opened PaneRoom
  import opened Wrappers

  /** New, or smaller than it was, along one direction. */
  predicate Lost(earlier: Option<PaneRect>, rect: PaneRect, direction: Direction) {
    earlier.None? || Extent(rect.area, direction) < Extent(earlier.value.area, direction)
  }

  predicate Short(rect: PaneRect, min: Box, direction: Direction) {
    Extent(rect.area, direction) < Least(min, direction)
  }

  /** What the comment says of a pane, to the last fraction. */
  predicate AsPromised(earlier: Option<PaneRect>, rect: PaneRect, min: Box) {
    forall direction :: Lost(earlier, rect, direction) ==> !Short(rect, min, direction)
  }

  predicate KeepsPromise(before: Option<Pane>, after: Pane, box: Box, min: Box, gutter: real) {
    var was, now := RectsOf(before, box, gutter), RectsOf(Some(after), box, gutter);
    forall i :: 0 <= i < |now| ==> AsPromised(Find(was, now[i].id), now[i], min)
  }

  /** Within EPSILON of what it was, or of the least. */
  predicate NearMiss(earlier: Option<PaneRect>, rect: PaneRect, min: Box, direction: Direction) {
    || (earlier.Some? && Extent(rect.area, direction) >= Extent(earlier.value.area, direction) - EPSILON)
    || Extent(rect.area, direction) >= Least(min, direction) - EPSILON
  }

  /** Lost something and short of the least, but only just. */
  predicate Excused(earlier: Option<PaneRect>, rect: PaneRect, min: Box) {
    exists direction :: Lost(earlier, rect, direction) && Short(rect, min, direction) && NearMiss(earlier, rect, min, direction)
  }

  predicate NobodyExcused(before: Option<Pane>, after: Pane, box: Box, min: Box, gutter: real) {
    var was, now := RectsOf(before, box, gutter), RectsOf(Some(after), box, gutter);
    forall i :: 0 <= i < |now| ==> !Excused(Find(was, now[i].id), now[i], min)
  }

  /** One pane: never refused for less than the promise, and passed short exactly when excused. */
  lemma OnePaneIsExact(earlier: Option<PaneRect>, rect: PaneRect, min: Box)
    ensures AsPromised(earlier, rect, min) ==> KeepsRoom(earlier, rect, min)
    ensures KeepsRoom(earlier, rect, min) ==> (AsPromised(earlier, rect, min) <==> !Excused(earlier, rect, min))
  {
    assert Lost(earlier, rect, Row) <==> earlier.None? || rect.area.width < earlier.value.area.width;
    assert Lost(earlier, rect, Column) <==> earlier.None? || rect.area.height < earlier.value.area.height;
    assert Short(rect, min, Row) <==> rect.area.width < min.width;
    assert Short(rect, min, Column) <==> rect.area.height < min.height;
    if KeepsRoom(earlier, rect, min) && !AsPromised(earlier, rect, min) {
      var direction :| Lost(earlier, rect, direction) && Short(rect, min, direction);
      assert NearMiss(earlier, rect, min, direction);
    }
  }

  /**
   * The check refuses nothing that keeps the promise, and what it passes keeps the promise exactly when nobody is within
   * EPSILON of having to be refused.
   */
  lemma CheckIsExact(before: Option<Pane>, after: Pane, box: Box, min: Box, gutter: real)
    ensures KeepsPromise(before, after, box, min, gutter) ==> LeavesRoom(before, after, box, min, gutter)
    ensures LeavesRoom(before, after, box, min, gutter) ==>
              (KeepsPromise(before, after, box, min, gutter) <==> NobodyExcused(before, after, box, min, gutter))
  {
    var was, now := RectsOf(before, box, gutter), RectsOf(Some(after), box, gutter);
    forall i | 0 <= i < |now|
      ensures AsPromised(Find(was, now[i].id), now[i], min) ==> KeepsRoom(Find(was, now[i].id), now[i], min)
      ensures KeepsRoom(Find(was, now[i].id), now[i], min) ==>
                (AsPromised(Find(was, now[i].id), now[i], min) <==> !Excused(Find(was, now[i].id), now[i], min))
    {
      OnePaneIsExact(Find(was, now[i].id), now[i], min);
    }
  }

  /** Where every pane had its least, a tree that passes leaves every pane its least exactly when nobody is excused. */
  lemma LeastIsKeptExactly(before: Pane, after: Pane, box: Box, min: Box, gutter: real)
    requires AllAtLeastMin(RectsOf(Some(before), box, gutter), min, 0.0) && LeavesRoom(Some(before), after, box, min, gutter)
    ensures AllAtLeastMin(RectsOf(Some(after), box, gutter), min, 0.0) <==> NobodyExcused(Some(before), after, box, min, gutter)
  {
    var was, now := RectsOf(Some(before), box, gutter), RectsOf(Some(after), box, gutter);
    CheckIsExact(Some(before), after, box, min, gutter);
    forall i | 0 <= i < |now|
      ensures AsPromised(Find(was, now[i].id), now[i], min) <==>
                now[i].area.width >= min.width && now[i].area.height >= min.height
    {
      FindIsThere(was, now[i].id);
      assert Short(now[i], min, Row) ==> Lost(Find(was, now[i].id), now[i], Row);
      assert Short(now[i], min, Column) ==> Lost(Find(was, now[i].id), now[i], Column);
    }
  }

  // ---------------------------------------------------------------- a row of panes, by its sizes

  predicate AllWide(rects: seq<PaneRect>, least: real) {
    forall i :: 0 <= i < |rects| ==> rects[i].area.width >= least
  }

  lemma {:induction false} RowWidths(nodes: seq<Pane>, area: Area, offset: real, spans: seq<real>, gutter: real)
    requires |nodes| == |spans| && forall i :: 0 <= i < |nodes| ==> nodes[i].Leaf?
    ensures var rects := Layouts(nodes, Slices(area, Row, offset, spans, gutter), gutter);
            |rects| == |nodes| && forall i :: 0 <= i < |rects| ==> rects[i].id == nodes[i].id && rects[i].area.width == spans[i] && rects[i].area.height == area.height
    decreases |nodes|
  {
    if nodes != [] {
      RowWidths(nodes[1..], area, offset + spans[0] + gutter, spans[1..], gutter);
      assert Slices(area, Row, offset, spans, gutter)[1..] == Slices(area, Row, offset + spans[0] + gutter, spans[1..], gutter);
    }
  }

  predicate IsRow(root: Pane) {
    root.Split? && !root.tabs && root.direction == Row && root.children != [] && forall i :: 0 <= i < |root.children| ==> root.children[i].Leaf?
  }

  lemma RowIsDrawn(root: Pane, box: Box, gutter: real)
    requires IsRow(root)
    ensures var rects := RectsOf(Some(root), box, gutter);
            var spans := Spans(root.sizes, |root.children|, box.width, gutter);
            |rects| == |root.children| &&
            forall i :: 0 <= i < |rects| ==> rects[i].id == root.children[i].id && rects[i].area.width == spans[i] && rects[i].area.height == box.height
  {
    RowWidths(root.children, Area(0.0, 0.0, box.width, box.height), 0.0, Spans(root.sizes, |root.children|, box.width, gutter), gutter);
  }

  function EvenSizesOf(count: nat): (sizes: seq<real>)
    requires count > 0
    ensures |sizes| == count
  {
    seq(count, _ => 1.0 / (count as real))
  }

  function EvenSpan(count: nat, extent: real, gutter: real): real
    requires count > 0
  {
    Max(0.0, extent - Gutters(count, gutter)) / (count as real)
  }

  lemma EvenSpans(count: nat, extent: real, gutter: real, i: nat)
    requires i < count
    ensures Spans(EvenSizesOf(count), count, extent, gutter)[i] == EvenSpan(count, extent, gutter)
  {
    var sizes := EvenSizesOf(count);
    EvenSizes(count);
    SharesOfSizes(sizes);
    assert Shares(sizes, count)[i] == 1.0 / (count as real);
  }

  /** Evened out, a row gives each pane `least` just when it is wide enough for that many of them and their gutters. */
  lemma EvenSpanIsEnough(count: nat, extent: real, gutter: real, least: real)
    requires count > 0 && least > 0.0
    ensures EvenSpan(count, extent, gutter) >= least <==> extent >= count as real * least + Gutters(count, gutter)
  {
    var room := Max(0.0, extent - Gutters(count, gutter));
    assert room == count as real * EvenSpan(count, extent, gutter);
    if EvenSpan(count, extent, gutter) >= least {
      Product(count as real, EvenSpan(count, extent, gutter) - least);
      assert count as real * (EvenSpan(count, extent, gutter) - least) == room - count as real * least;
      Positive(count as real, least);
    } else if room >= count as real * least {
      Positive(count as real, least - EvenSpan(count, extent, gutter));
      assert count as real * (least - EvenSpan(count, extent, gutter)) == count as real * least - room;
    }
  }

  lemma Positive(a: real, b: real)
    requires a > 0.0 && b > 0.0
    ensures a * b > 0.0
  {
  }

  /** What becomes of a row that a new pane joins. */
  lemma RowJoined(root: Pane, target: string, added: Pane)
    requires IsRow(root) && Holds(root, target) && added.Leaf?
    ensures var after := InsertBeside(root, target, Row, added);
            && IsRow(after) && |after.children| == |root.children| + 1 && after.sizes == EvenSizesOf(|after.children|)
            && (exists i :: 0 <= i < |after.children| && after.children[i] == added)
            && forall i :: 0 <= i < |after.children| ==> after.children[i] == added || after.children[i] in root.children
  {
    var at := FirstHolding(root.children, target);
    assert at < |root.children| by {
      assert target in Leaves(root);
    }
    var after := InsertBeside(root, target, Row, added);
    assert after.children[at + 1] == added;
  }

  lemma {:induction false} FoundByName(rects: seq<PaneRect>, id: string)
    ensures Find(rects, id).Some? ==> Find(rects, id).value in rects && Find(rects, id).value.id == id
  {
    if rects != [] && rects[|rects| - 1].id != id {
      FoundByName(rects[..|rects| - 1], id);
    }
  }

  lemma NewIsNotFound(root: Pane, box: Box, gutter: real, id: string)
    requires id !in Leaves(root)
    ensures Find(RectsOf(Some(root), box, gutter), id).None?
  {
    var was := RectsOf(Some(root), box, gutter);
    FoundByName(was, id);
    LayoutDrawsLeaves(root, Area(0.0, 0.0, box.width, box.height), gutter);
    forall k | 0 <= k < |was|
      ensures was[k].id in Leaves(root)
    {
      assert IdsOf(was)[k] == was[k].id;
    }
  }

  /** Drawn in an evened row: every pane as wide as the next, and as high as the box. */
  lemma JoinedIsDrawn(root: Pane, target: string, added: Pane, box: Box, gutter: real)
    requires IsRow(root) && Holds(root, target) && added.Leaf?
    ensures var after := InsertBeside(root, target, Row, added);
            var now := RectsOf(Some(after), box, gutter);
            && |now| == |root.children| + 1
            && (exists i :: 0 <= i < |now| && now[i].id == added.id)
            && forall i :: 0 <= i < |now| ==> now[i].area.width == EvenSpan(|now|, box.width, gutter) && now[i].area.height == box.height
  {
    RowJoined(root, target, added);
    var after := InsertBeside(root, target, Row, added);
    RowIsDrawn(after, box, gutter);
    var now := RectsOf(Some(after), box, gutter);
    forall i | 0 <= i < |now|
      ensures now[i].area.width == EvenSpan(|now|, box.width, gutter)
    {
      EvenSpans(|now|, box.width, gutter, i);
    }
    var at :| 0 <= at < |after.children| && after.children[at] == added;
    assert now[at].id == added.id;
  }

  /** Drawn alike, and no lower than before: it is the new pane that decides. */
  lemma NewPaneDecides(was: seq<PaneRect>, now: seq<PaneRect>, id: string, width: real, height: real, min: Box)
    requires forall i :: 0 <= i < |was| ==> was[i].area.height == height
    requires forall i :: 0 <= i < |now| ==> now[i].area.width == width && now[i].area.height == height
    requires Find(was, id).None? && exists i :: 0 <= i < |now| && now[i].id == id
    ensures (forall i :: 0 <= i < |now| ==> KeepsRoom(Find(was, now[i].id), now[i], min)) <==>
              width >= min.width - EPSILON && height >= min.height - EPSILON
  {
    var at :| 0 <= at < |now| && now[at].id == id;
    assert KeepsRoom(Find(was, now[at].id), now[at], min) <==> width >= min.width - EPSILON && height >= min.height - EPSILON;
    forall i | 0 <= i < |now|
      ensures width >= min.width - EPSILON && height >= min.height - EPSILON ==> KeepsRoom(Find(was, now[i].id), now[i], min)
    {
      FoundByName(was, now[i].id);
    }
  }

  /**
   * A new pane joining a row, by the sizes alone: the check passes just when each of one pane more would have at least an
   * EPSILON under its least, and every pane has its least just when each would have that (`EvenSpanIsEnough`: when the
   * box is as wide as so many of them and their gutters).
   */
  lemma JoinedRowIsExact(root: Pane, target: string, added: Pane, box: Box, min: Box, gutter: real, span: real)
    requires IsRow(root) && Holds(root, target) && added.Leaf? && added.id !in Leaves(root)
    requires span == EvenSpan(|root.children| + 1, box.width, gutter)
    ensures var after := InsertBeside(root, target, Row, added);
            && (LeavesRoom(Some(root), after, box, min, gutter) <==> span >= min.width - EPSILON && box.height >= min.height - EPSILON)
            && (AllWide(RectsOf(Some(after), box, gutter), min.width) <==> span >= min.width)
  {
    var after := InsertBeside(root, target, Row, added);
    var was, now := RectsOf(Some(root), box, gutter), RectsOf(Some(after), box, gutter);
    JoinedIsDrawn(root, target, added, box, gutter);
    NewIsNotFound(root, box, gutter, added.id);
    RowIsDrawn(root, box, gutter);
    NewPaneDecides(was, now, added.id, span, box.height, min);
    assert now[0].area.width == span;
  }

  // ---------------------------------------------------------------- where it shows

  const TIGHT := Split(Row, [1.000001, 1.999999], [Leaf("a"), Leaf("b")], false)
  const TIGHT_BOX := Box(3.0, 1.0)
  const TIGHT_MIN := Box(1.000001, 1.0)

  lemma TotalOfTwo(a: real, b: real)
    ensures Total([a, b]) == a + b
  {
    assert [a, b][1..] == [b] && [b][1..] == [];
    assert Total([b]) == b + Total([]);
    assert Total([a, b]) == a + Total([b]);
  }

  lemma TightIsDrawn()
    ensures var was := RectsOf(Some(TIGHT), TIGHT_BOX, 0.0);
            && AllAtLeastMin(was, TIGHT_MIN, 0.0) && |was| == 2 && was[0].id == "a" && was[0].area.width == 1.000001
            && Find(was, "a") == Some(was[0])
    ensures IsRow(TIGHT) && Leaves(TIGHT) == ["a", "b"]
  {
    TotalOfTwo(1.000001, 1.999999);
    SpansAreSizes(TIGHT.sizes, 3.0, 0.0);
    RowIsDrawn(TIGHT, TIGHT_BOX, 0.0);
    RowLeaves(TIGHT);
    var was := RectsOf(Some(TIGHT), TIGHT_BOX, 0.0);
    assert was[..1] == [was[0]];
  }

  lemma TightJoinedIsDrawn()
    requires IsRow(TIGHT) && Leaves(TIGHT) == ["a", "b"]
    ensures var now := RectsOf(Some(InsertBeside(TIGHT, "b", Row, Leaf("c"))), TIGHT_BOX, 0.0);
            |now| == 3 && now[0].id == "a" && now[0].area.width == 1.0
  {
    var after := InsertBeside(TIGHT, "b", Row, Leaf("c"));
    RowJoined(TIGHT, "b", Leaf("c"));
    assert FirstHolding(TIGHT.children, "b") == 1;
    assert after.children[0] == Leaf("a");
    RowIsDrawn(after, TIGHT_BOX, 0.0);
    EvenSpans(3, 3.0, 0.0, 0);
  }

  /** A pane at exactly its least, in a row another joins: the check passes, and the pane is left an EPSILON short. */
  lemma PaneEndsShort()
    ensures var after := InsertBeside(TIGHT, "b", Row, Leaf("c"));
            var was, now := RectsOf(Some(TIGHT), TIGHT_BOX, 0.0), RectsOf(Some(after), TIGHT_BOX, 0.0);
            && AllAtLeastMin(was, TIGHT_MIN, 0.0) && |was| > 0 && was[0].id == "a" && was[0].area.width == 1.000001
            && LeavesRoom(Some(TIGHT), after, TIGHT_BOX, TIGHT_MIN, 0.0)
            && |now| > 0 && now[0].id == "a" && now[0].area.width == 1.0
            && !KeepsPromise(Some(TIGHT), after, TIGHT_BOX, TIGHT_MIN, 0.0)
  {
    var after := InsertBeside(TIGHT, "b", Row, Leaf("c"));
    TightIsDrawn();
    TightJoinedIsDrawn();
    JoinedRowIsExact(TIGHT, "b", Leaf("c"), TIGHT_BOX, TIGHT_MIN, 0.0, 1.0);
    var was, now := RectsOf(Some(TIGHT), TIGHT_BOX, 0.0), RectsOf(Some(after), TIGHT_BOX, 0.0);
    NotAsPromised(was[0], now[0], TIGHT_MIN);
  }

  lemma NotAsPromised(earlier: PaneRect, rect: PaneRect, min: Box)
    requires rect.area.width < earlier.area.width && rect.area.width < min.width
    ensures !AsPromised(Some(earlier), rect, min)
  {
    assert Lost(Some(earlier), rect, Row) && Short(rect, min, Row);
  }

  lemma RowLeaves(root: Pane)
    requires IsRow(root)
    ensures |Leaves(root)| == |root.children| && forall i :: 0 <= i < |root.children| ==> Leaves(root)[i] == root.children[i].id
  {
    LayoutDrawsLeaves(root, Area(0.0, 0.0, 0.0, 0.0), 0.0);
    RowIsDrawn(root, Box(0.0, 0.0), 0.0);
  }

  // ---------------------------------------------------------------- over many placements

  /** Each tree leaves room as the one before it is checked against. */
  predicate Checked(trees: seq<Pane>, box: Box, min: Box, gutter: real) {
    forall k :: 0 < k < |trees| ==> LeavesRoom(Some(trees[k - 1]), trees[k], box, min, gutter)
  }

  /** However many trees follow one another, each costs an EPSILON at most. */
  lemma {:induction false} RoomOverRuns(trees: seq<Pane>, box: Box, min: Box, gutter: real)
    requires trees != [] && Checked(trees, box, min, gutter) && AllAtLeastMin(RectsOf(Some(trees[0]), box, gutter), min, 0.0)
    ensures AllAtLeastMin(RectsOf(Some(trees[|trees| - 1]), box, gutter), min, (|trees| - 1) as real * EPSILON)
  {
    var n := |trees| - 1;
    if n > 0 {
      RoomOverRuns(trees[..n], box, min, gutter);
      assert LeavesRoom(Some(trees[n - 1]), trees[n], box, min, gutter);
      RoomIsKept(trees[n - 1], trees[n], box, min, gutter, (n - 1) as real * EPSILON);
    }
  }

  /** A row of two, the first pane `k` EPSILONs narrower than `least`, in a box of twice that. */
  function Narrowed(least: real, k: nat): Pane {
    Split(Row, [least - k as real * EPSILON, least + k as real * EPSILON], [Leaf("a"), Leaf("b")], false)
  }

  lemma NarrowedIsDrawn(least: real, k: nat)
    requires least > k as real * EPSILON
    ensures var rects := RectsOf(Some(Narrowed(least, k)), Box(2.0 * least, 1.0), 0.0);
            && |rects| == 2 && rects[0].id == "a" && rects[1].id == "b"
            && rects[0].area.width == least - k as real * EPSILON && rects[1].area.width == least + k as real * EPSILON
            && rects[0].area.height == 1.0 == rects[1].area.height
  {
    TotalOfTwo(least - k as real * EPSILON, least + k as real * EPSILON);
    SpansAreSizes(Narrowed(least, k).sizes, 2.0 * least, 0.0);
    RowIsDrawn(Narrowed(least, k), Box(2.0 * least, 1.0), 0.0);
  }

  lemma NarrowingPasses(least: real, k: nat)
    requires least > (k + 1) as real * EPSILON
    ensures LeavesRoom(Some(Narrowed(least, k)), Narrowed(least, k + 1), Box(2.0 * least, 1.0), Box(least, 1.0), 0.0)
  {
    NarrowedIsDrawn(least, k);
    NarrowedIsDrawn(least, k + 1);
    var was := RectsOf(Some(Narrowed(least, k)), Box(2.0 * least, 1.0), 0.0);
    assert Find(was, "a") == Some(was[0]) && Find(was, "b") == Some(was[1]) by {
      assert was[..1] == [was[0]];
    }
  }

  function Narrowings(least: real, n: nat): (trees: seq<Pane>)
    ensures |trees| == n + 1 && forall k :: 0 <= k <= n ==> trees[k] == Narrowed(least, k)
  {
    seq(n + 1, k requires 0 <= k < n + 1 => Narrowed(least, k))
  }

  lemma NarrowingsAreChecked(least: real, n: nat)
    requires least > n as real * EPSILON
    ensures Checked(Narrowings(least, n), Box(2.0 * least, 1.0), Box(least, 1.0), 0.0)
  {
    var trees := Narrowings(least, n);
    forall k | 0 < k < |trees|
      ensures LeavesRoom(Some(trees[k - 1]), trees[k], Box(2.0 * least, 1.0), Box(least, 1.0), 0.0)
    {
      NarrowingPasses(least, k - 1);
    }
  }

  /** The bound is reached where sizes alone change: `n` trees on, a pane can be `n` EPSILONs short. */
  lemma SlackAddsUp(n: nat) returns (trees: seq<Pane>, box: Box, min: Box)
    ensures |trees| == n + 1 && Checked(trees, box, min, 0.0) && AllAtLeastMin(RectsOf(Some(trees[0]), box, 0.0), min, 0.0)
    ensures var rects := RectsOf(Some(trees[n]), box, 0.0);
            |rects| > 0 && rects[0].area.width == min.width - n as real * EPSILON
  {
    var least := 1.0 + n as real * EPSILON;
    trees, box, min := Narrowings(least, n), Box(2.0 * least, 1.0), Box(least, 1.0);
    NarrowedIsDrawn(least, 0);
    NarrowedIsDrawn(least, n);
    NarrowingsAreChecked(least, n);
  }
}
