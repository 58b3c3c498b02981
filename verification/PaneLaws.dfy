/**
 * The layout and a new pane seen from the outside (src/shared/paneRoom.ts): in what order and how large a split draws its
 * children, and that placing a pane rearranges one split and leaves everything else where it was.
 */
module PaneLaws {
  import opened Wrappers
  import opened PaneRoom
  import opened PanePlacement
  import Sorting

  // ---------------------------------------------------------------- the children of a split

  function Start(area: Area, direction: Direction): real {
    if direction.Row? then area.x else area.y
  }

  /** `next` lies right behind `area` along the direction, a gutter between them, and is as broad across it. */
  predicate Follows(area: Area, next: Area, direction: Direction, gutter: real) {
    && Start(next, direction) == Start(area, direction) + Extent(area, direction) + gutter
    && Start(next, Across(direction)) == Start(area, Across(direction))
    && Extent(next, Across(direction)) == Extent(area, Across(direction))
  }

  /** What the size of a child counts for: nothing unless it is there and above zero. */
  function Weight(sizes: seq<real>, i: nat): real {
    if i < |sizes| && sizes[i] > 0.0 then sizes[i] else 0.0
  }

  lemma {:induction false} SlicesFollow(area: Area, direction: Direction, offset: real, spans: seq<real>, gutter: real, i: nat)
    requires i < |spans|
    ensures var areas := Slices(area, direction, offset, spans, gutter);
            && Extent(areas[i], direction) == spans[i]
            && Extent(areas[i], Across(direction)) == Extent(area, Across(direction))
            && Start(areas[i], Across(direction)) == Start(area, Across(direction))
            && (i == 0 ==> Start(areas[i], direction) == Start(area, direction) + offset)
            && (i + 1 < |spans| ==> Follows(areas[i], areas[i + 1], direction, gutter))
    decreases |spans|
  {
    var rest := Slices(area, direction, offset + spans[0] + gutter, spans[1..], gutter);
    assert Slices(area, direction, offset, spans, gutter)[1..] == rest;
    if i > 0 {
      SlicesFollow(area, direction, offset + spans[0] + gutter, spans[1..], gutter, i - 1);
    } else if |spans| > 1 {
      SlicesFollow(area, direction, offset + spans[0] + gutter, spans[1..], gutter, 0);
    }
  }

  lemma {:induction false} NoWeightInAll(parts: seq<real>)
    requires forall i :: 0 <= i < |parts| ==> parts[i] >= 0.0
    ensures Total(parts) >= 0.0 && (Total(parts) == 0.0 <==> forall i :: 0 <= i < |parts| ==> parts[i] == 0.0)
  {
    if parts != [] {
      NoWeightInAll(parts[1..]);
      assert (forall i :: 0 <= i < |parts| ==> parts[i] == 0.0) <==>
               parts[0] == 0.0 && forall i :: 0 <= i < |parts[1..]| ==> parts[1..][i] == 0.0 by {
        assert forall i :: 0 < i < |parts| ==> parts[i] == parts[1..][i - 1];
        assert forall i :: 0 <= i < |parts[1..]| ==> parts[1..][i] == parts[i + 1];
      }
    }
  }

  lemma Commute(a: real, b: real, c: real, d: real)
    ensures (a * b) * (c * d) == (a * d) * (c * b)
  {
    assert (a * b) * (c * d) == a * c * (b * d);
    assert (a * d) * (c * b) == a * c * (d * b);
  }

  predicate AnyWeight(sizes: seq<real>, count: nat) {
    exists k :: 0 <= k < count && Weight(sizes, k) > 0.0
  }

  lemma AnyWeightInAll(sizes: seq<real>, count: nat)
    ensures Total(Cleaned(sizes, count)) > 0.0 <==> AnyWeight(sizes, count)
  {
    var cleaned := Cleaned(sizes, count);
    NoWeightInAll(cleaned);
    assert forall k :: 0 <= k < count ==> cleaned[k] == Weight(sizes, k);
  }

  /** As large as their sizes are, when any size counts, or else alike. */
  predicate InProportion(weighed: bool, a: real, b: real, x: real, y: real) {
    if weighed then a * y == b * x else x == y
  }

  lemma ShareAt(sizes: seq<real>, count: nat, k: nat, total: real)
    requires k < count && total == Total(Cleaned(sizes, count))
    ensures total > 0.0 ==> Shares(sizes, count)[k] == Weight(sizes, k) / total
    ensures total <= 0.0 ==> Shares(sizes, count)[k] == 1.0 / (count as real)
  {
  }

  lemma CrossDivided(a: real, b: real, total: real)
    requires total > 0.0
    ensures a * (b / total) == b * (a / total)
  {
    OverThenTimes(a, total);
    OverThenTimes(b, total);
    Commute(total, a / total, 1.0, b / total);
  }

  lemma Proportioned(weighed: bool, a: real, b: real, x: real, y: real, total: real)
    requires weighed <==> total > 0.0
    requires if total > 0.0 then x == a / total && y == b / total else x == y
    ensures InProportion(weighed, a, b, x, y)
  {
    if total > 0.0 {
      CrossDivided(a, b, total);
    }
  }

  lemma SharesAreInProportion(sizes: seq<real>, count: nat, i: nat, j: nat)
    requires i < count && j < count
    ensures InProportion(AnyWeight(sizes, count), Weight(sizes, i), Weight(sizes, j), Shares(sizes, count)[i], Shares(sizes, count)[j])
  {
    var total := Total(Cleaned(sizes, count));
    AnyWeightInAll(sizes, count);
    ShareAt(sizes, count, i, total);
    ShareAt(sizes, count, j, total);
    Proportioned(AnyWeight(sizes, count), Weight(sizes, i), Weight(sizes, j), Shares(sizes, count)[i], Shares(sizes, count)[j], total);
  }

  lemma TimesRoom(room: real, weighed: bool, a: real, b: real, x: real, y: real)
    requires InProportion(weighed, a, b, x, y)
    ensures InProportion(weighed, a, b, room * x, room * y)
  {
    assert a * (room * y) == room * (a * y);
    assert b * (room * x) == room * (b * x);
  }

  /** Two children are as large as their sizes are, or alike when no size counts. */
  lemma SpansAreInProportion(sizes: seq<real>, count: nat, extent: real, gutter: real, i: nat, j: nat)
    requires i < count && j < count
    ensures var spans := Spans(sizes, count, extent, gutter);
            InProportion(AnyWeight(sizes, count), Weight(sizes, i), Weight(sizes, j), spans[i], spans[j])
  {
    SharesAreInProportion(sizes, count, i, j);
    ScaledInProportion(Max(0.0, extent - Gutters(count, gutter)), Shares(sizes, count),
                       AnyWeight(sizes, count), Weight(sizes, i), Weight(sizes, j), i, j);
  }

  lemma ScaledInProportion(room: real, shares: seq<real>, weighed: bool, a: real, b: real, i: nat, j: nat)
    requires i < |shares| && j < |shares| && InProportion(weighed, a, b, shares[i], shares[j])
    ensures InProportion(weighed, a, b, Scaled(room, shares)[i], Scaled(room, shares)[j])
  {
    TimesRoom(room, weighed, a, b, shares[i], shares[j]);
  }

  /**
   * A split draws its children one behind the other, the first from its own edge, with a gutter between any two and each
   * over its whole breadth, and as large as the sizes on record have it.
   */
  lemma ChildrenInOrder(node: Pane, area: Area, gutter: real, i: nat, j: nat)
    requires node.Split? && !node.tabs && i < |node.children| && j < |node.children|
    ensures var areas, direction := ChildAreas(node, area, gutter), node.direction;
            && (i == 0 ==> Start(areas[i], direction) == Start(area, direction))
            && Start(areas[i], Across(direction)) == Start(area, Across(direction))
            && Extent(areas[i], Across(direction)) == Extent(area, Across(direction))
            && (i + 1 < |areas| ==> Follows(areas[i], areas[i + 1], direction, gutter))
            && InProportion(AnyWeight(node.sizes, |node.children|), Weight(node.sizes, i), Weight(node.sizes, j),
                            Extent(areas[i], direction), Extent(areas[j], direction))
  {
    var spans := Spans(node.sizes, |node.children|, Extent(area, node.direction), gutter);
    SpansAreInProportion(node.sizes, |node.children|, Extent(area, node.direction), gutter, i, j);
    InOrder(area, node.direction, spans, gutter, Weight(node.sizes, i), Weight(node.sizes, j), AnyWeight(node.sizes, |node.children|), i, j);
  }

  /** Whatever the spans are, and however two of them compare. */
  lemma InOrder(area: Area, direction: Direction, spans: seq<real>, gutter: real, a: real, b: real, weighed: bool, i: nat, j: nat)
    requires i < |spans| && j < |spans| && InProportion(weighed, a, b, spans[i], spans[j])
    ensures var areas := Slices(area, direction, 0.0, spans, gutter);
            && (i == 0 ==> Start(areas[i], direction) == Start(area, direction))
            && Start(areas[i], Across(direction)) == Start(area, Across(direction))
            && Extent(areas[i], Across(direction)) == Extent(area, Across(direction))
            && (i + 1 < |areas| ==> Follows(areas[i], areas[i + 1], direction, gutter))
            && InProportion(weighed, a, b, Extent(areas[i], direction), Extent(areas[j], direction))
  {
    SlicesFollow(area, direction, 0.0, spans, gutter, i);
    SlicesFollow(area, direction, 0.0, spans, gutter, j);
  }

  // ---------------------------------------------------------------- beside a pane

  predicate Even(sizes: seq<real>, count: nat) {
    |sizes| == count && forall i :: 0 <= i < count ==> sizes[i] == 1.0 / (count as real)
  }

  /** `now` is `was` joined: the new pane right behind the child that holds the target, and all made even. */
  predicate Joined(was: Pane, now: Pane, targetId: string, direction: Direction, added: Pane, at: nat) {
    && was.Split? && !was.tabs && was.direction == direction && at < |was.children|
    && Holds(was.children[at], targetId) && !SplitsAlong(was.children[at], targetId, direction)
    && now.Split? && !now.tabs && now.direction == direction && Even(now.sizes, |was.children| + 1)
    && now.children == was.children[..at + 1] + [added] + was.children[at + 1..]
  }

  /** `now` is `was`, a pane or a tab group, halved: the new pane in the second half. */
  predicate Halved(was: Pane, now: Pane, targetId: string, direction: Direction, added: Pane) {
    && (was.Leaf? || was.tabs) && Holds(was, targetId)
    && now == Split(direction, [0.5, 0.5], [was, added], false)
  }

  lemma {:induction false} LayoutsCompose(a: seq<Pane>, b: seq<Pane>, as1: seq<Area>, bs: seq<Area>, gutter: real)
    requires |a| == |as1| && |b| == |bs|
    ensures Layouts(a + b, as1 + bs, gutter) == Layouts(a, as1, gutter) + Layouts(b, bs, gutter)
  {
    if a == [] {
      assert a + b == b && as1 + bs == bs;
    } else {
      LayoutsCompose(a[1..], b, as1[1..], bs, gutter);
      assert (a + b)[1..] == a[1..] + b && (as1 + bs)[1..] == as1[1..] + bs;
      Associate(Layout(a[0], as1[0], gutter), Layouts(a[1..], as1[1..], gutter), Layouts(b, bs, gutter));
    }
  }

  /** The layouts of some panes are those before one of them, its own, and those behind it. */
  lemma {:induction false} LayoutsAround(nodes: seq<Pane>, areas: seq<Area>, gutter: real, at: nat, other: Pane)
    requires at < |nodes| == |areas|
    ensures Layouts(nodes[at := other], areas, gutter)
         == Layouts(nodes[..at], areas[..at], gutter) + (Layout(other, areas[at], gutter) + Layouts(nodes[at + 1..], areas[at + 1..], gutter))
  {
    var next := nodes[at := other];
    assert next == nodes[..at] + ([other] + nodes[at + 1..]);
    assert areas == areas[..at] + ([areas[at]] + areas[at + 1..]);
    LayoutsCompose(nodes[..at], [other] + nodes[at + 1..], areas[..at], [areas[at]] + areas[at + 1..], gutter);
    assert ([other] + nodes[at + 1..])[1..] == nodes[at + 1..] && ([areas[at]] + areas[at + 1..])[1..] == areas[at + 1..];
  }

  /** What a placement does and where: `was`, drawn in `room` between what is drawn before it and behind it, becomes `now`. */
  datatype Change = Change(was: Pane, now: Pane, room: Area, before: seq<PaneRect>, behind: seq<PaneRect>)

  predicate Rearranges(change: Change, from: seq<PaneRect>, to: seq<PaneRect>, gutter: real) {
    && from == change.before + Layout(change.was, change.room, gutter) + change.behind
    && to == change.before + Layout(change.now, change.room, gutter) + change.behind
  }

  lemma Nested(change: Change, from: seq<PaneRect>, to: seq<PaneRect>, gutter: real, left: seq<PaneRect>, right: seq<PaneRect>)
    requires Rearranges(change, from, to, gutter)
    ensures Rearranges(change.(before := left + change.before, behind := change.behind + right), left + (from + right), left + (to + right), gutter)
  {
    Regroup(left, change.before, Layout(change.was, change.room, gutter), change.behind, right);
    Regroup(left, change.before, Layout(change.now, change.room, gutter), change.behind, right);
  }

  lemma Regroup<T>(left: seq<T>, before: seq<T>, middle: seq<T>, behind: seq<T>, right: seq<T>)
    ensures left + ((before + middle + behind) + right) == (left + before) + middle + (behind + right)
  {
  }

  lemma Alone(was: Pane, now: Pane, room: Area, gutter: real)
    ensures Rearranges(Change(was, now, room, [], []), Layout(was, room, gutter), Layout(now, room, gutter), gutter)
  {
  }

  lemma {:induction false} JoinsHere(node: Pane, targetId: string, direction: Direction, added: Pane, at: nat)
    requires node.Split? && !node.tabs && at == FirstHolding(node.children, targetId) < |node.children|
    requires node.direction == direction && !SplitsAlong(node.children[at], targetId, direction)
    ensures Joined(node, InsertBeside(node, targetId, direction, added), targetId, direction, added, at)
    ensures SplitsAlong(node, targetId, direction)
  {
  }

  /**
   * A placement beside a pane rearranges one thing, in the room it has: the nearest split along the direction above the
   * target, which the new pane joins right behind the child that holds it, all made even; or, where there is no such split,
   * the target itself, which is halved. Whatever is drawn before and behind stays where it was.
   */
  lemma {:induction false} InsertRearrangesOne(node: Pane, area: Area, gutter: real, targetId: string, direction: Direction, added: Pane)
    returns (change: Change, at: nat)
    requires Holds(node, targetId)
    ensures Rearranges(change, Layout(node, area, gutter), Layout(InsertBeside(node, targetId, direction, added), area, gutter), gutter)
    ensures if SplitsAlong(node, targetId, direction) then Joined(change.was, change.now, targetId, direction, added, at)
            else Halved(change.was, change.now, targetId, direction, added)
    decreases node
  {
    at := 0;
    if node.Leaf? || node.tabs {
      change := Change(node, InsertBeside(node, targetId, direction, added), area, [], []);
      Alone(node, change.now, area, gutter);
    } else {
      at := FirstHolding(node.children, targetId);
      if node.direction == direction && !SplitsAlong(node.children[at], targetId, direction) {
        change := Change(node, InsertBeside(node, targetId, direction, added), area, [], []);
        JoinsHere(node, targetId, direction, added, at);
        Alone(node, change.now, area, gutter);
      } else {
        change, at := InsertInChild(node, area, gutter, targetId, direction, added, at);
      }
    }
  }

  lemma {:induction false} PassesDown(node: Pane, targetId: string, direction: Direction, added: Pane, place: nat)
    requires node.Split? && !node.tabs && place == FirstHolding(node.children, targetId) < |node.children|
    requires node.direction == direction ==> SplitsAlong(node.children[place], targetId, direction)
    ensures InsertBeside(node, targetId, direction, added)
         == node.(children := node.children[place := InsertBeside(node.children[place], targetId, direction, added)])
    ensures SplitsAlong(node, targetId, direction) == SplitsAlong(node.children[place], targetId, direction)
  {
  }

  /** A change to one child is a change to the whole, behind and before what the others draw. */
  lemma {:induction false} ChildChanges(node: Pane, area: Area, gutter: real, place: nat, next: Pane, inner: Change) returns (change: Change)
    requires node.Split? && !node.tabs && place < |node.children|
    requires var room := ChildAreas(node, area, gutter)[place];
             Rearranges(inner, Layout(node.children[place], room, gutter), Layout(next, room, gutter), gutter)
    ensures change.was == inner.was && change.now == inner.now
    ensures Rearranges(change, Layout(node, area, gutter), Layout(node.(children := node.children[place := next]), area, gutter), gutter)
  {
    var child, areas := node.children[place], ChildAreas(node, area, gutter);
    var left := Layouts(node.children[..place], areas[..place], gutter);
    var right := Layouts(node.children[place + 1..], areas[place + 1..], gutter);
    change := inner.(before := left + inner.before, behind := inner.behind + right);
    Nested(inner, Layout(child, areas[place], gutter), Layout(next, areas[place], gutter), gutter, left, right);
    LayoutsAround(node.children, areas, gutter, place, child);
    LayoutsAround(node.children, areas, gutter, place, next);
    assert node.children[place := child] == node.children;
  }

  lemma {:induction false} InsertInChild(node: Pane, area: Area, gutter: real, targetId: string, direction: Direction, added: Pane, place: nat)
    returns (change: Change, at: nat)
    requires node.Split? && !node.tabs && place == FirstHolding(node.children, targetId) < |node.children|
    requires node.direction == direction ==> SplitsAlong(node.children[place], targetId, direction)
    ensures Rearranges(change, Layout(node, area, gutter), Layout(InsertBeside(node, targetId, direction, added), area, gutter), gutter)
    ensures if SplitsAlong(node, targetId, direction) then Joined(change.was, change.now, targetId, direction, added, at)
            else Halved(change.was, change.now, targetId, direction, added)
    decreases node, 0
  {
    var inner: Change;
    inner, at := InsertRearrangesOne(node.children[place], ChildAreas(node, area, gutter)[place], gutter, targetId, direction, added);
    PassesDown(node, targetId, direction, added, place);
    change := ChildChanges(node, area, gutter, place, InsertBeside(node.children[place], targetId, direction, added), inner);
  }

  // ---------------------------------------------------------------- the places tried

  lemma FloorsInOrder(a: real, b: real)
    requires a <= b
    ensures a.Floor <= b.Floor
  {
  }

  lemma Positive(a: real, b: real)
    requires a > 0.0 && b > 0.0
    ensures a * b > 0.0
  {
  }

  lemma Divided(a: real, b: real, whole: real)
    requires a <= b && whole > 0.0
    ensures a / whole <= b / whole
  {
    OverSum(b - a, a, whole);
  }

  lemma MillionthsInOrder(a: real, b: real, whole: real)
    requires a <= b && whole > 0.0
    ensures Millionths(a, whole) <= Millionths(b, whole)
  {
    Divided(a, b, whole);
    var x, y := a / whole, b / whole;
    FloorsInOrder(x * 1000000.0 + 0.5, y * 1000000.0 + 0.5);
  }

  /** A pane of more area has no smaller a share, so that panes are tried by their area. */
  lemma ShareFollowsArea(a: PaneRect, b: PaneRect, box: Box)
    requires box.width > 0.0 && box.height > 0.0 && a.area.width * a.area.height <= b.area.width * b.area.height
    ensures ShareOf(a, box) <= ShareOf(b, box)
  {
    Positive(box.width, box.height);
    MillionthsInOrder(Surface(a.area.width, a.area.height), Surface(b.area.width, b.area.height), Surface(box.width, box.height));
  }

  /** The way tried first is along the longer side, a square pane's being its width. */
  lemma LongerIsLonger(rect: PaneRect)
    ensures Extent(rect.area, Longer(rect)) >= Extent(rect.area, Across(Longer(rect)))
    ensures rect.area.width == rect.area.height ==> Longer(rect) == Row
  {
  }

  /** Of the places tried, the first is beside a pane none is larger than by the share it has, along its longer side. */
  lemma FirstPlaceTried(root: Pane, added: Pane, box: Box, gutter: real) returns (rect: PaneRect)
    requires RectsOf(Some(root), box, gutter) != []
    ensures rect in RectsOf(Some(root), box, gutter)
    ensures forall other :: other in RectsOf(Some(root), box, gutter) ==> ShareOf(other, box) <= ShareOf(rect, box)
    ensures PlacePane(Some(root), added, box, gutter) == InsertBeside(root, rect.id, Longer(rect), added)
  {
    var rects, sorted := RectsOf(Some(root), box, gutter), LargestFirst(root, box, gutter);
    Sorting.SortedIsPermutation(rects, (a, b) => ShareOf(a, box) > ShareOf(b, box));
    assert |multiset(sorted)| == |multiset(rects)|;
    rect := sorted[0];
    assert rect in multiset(rects);
    LargestIsTriedFirst(root, box, gutter, 0);
    forall other | other in rects
      ensures ShareOf(other, box) <= ShareOf(rect, box)
    {
      assert other in multiset(sorted);
      var k :| 0 <= k < |sorted| && sorted[k] == other;
    }
    assert Placements(root, added, box, gutter)[2 * 0] == InsertBeside(root, sorted[0].id, Longer(sorted[0]), added);
  }
}
