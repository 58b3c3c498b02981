/**
 * Where a new pane goes (src/shared/paneRoom.ts): beside the largest pane, or the next that leaves room. A placement
 * keeps every pane in order and adds the new one once.
 */
module PanePlacement {
  import opened Wrappers
  import opened PaneRoom
  import Sorting

  const EPSILON := 0.000001

  // ---------------------------------------------------------------- leaves

  function Leaves(node: Pane): seq<string>
    decreases node, 1
  {
    if node.Leaf? then [node.id] else LeavesOf(node.children)
  }

  function LeavesOf(nodes: seq<Pane>): seq<string>
    decreases nodes, 0
  {
    if nodes == [] then [] else Leaves(nodes[0]) + LeavesOf(nodes[1..])
  }

  predicate Holds(node: Pane, id: string)
    ensures Holds(node, id) <==> id in Leaves(node)
    decreases node, 1
  {
    if node.Leaf? then node.id == id else SomeHolds(node.children, id)
  }

  predicate SomeHolds(nodes: seq<Pane>, id: string)
    ensures SomeHolds(nodes, id) <==> id in LeavesOf(nodes)
    decreases nodes, 0
  {
    nodes != [] && (Holds(nodes[0], id) || SomeHolds(nodes[1..], id))
  }

  /** The first child that holds the pane, or the number of children. */
  function FirstHolding(nodes: seq<Pane>, id: string): (at: nat)
    ensures at <= |nodes|
    ensures at < |nodes| ==> Holds(nodes[at], id)
    ensures at == |nodes| <==> id !in LeavesOf(nodes)
  {
    if nodes == [] then 0 else if Holds(nodes[0], id) then 0 else 1 + FirstHolding(nodes[1..], id)
  }

  lemma {:induction false} LeavesCompose(a: seq<Pane>, b: seq<Pane>)
    ensures LeavesOf(a + b) == LeavesOf(a) + LeavesOf(b)
  {
    if a == [] {
      assert a + b == b;
    } else {
      LeavesCompose(a[1..], b);
      assert (a + b)[1..] == a[1..] + b;
      Associate(Leaves(a[0]), LeavesOf(a[1..]), LeavesOf(b));
    }
  }

  lemma {:induction false} LeavesOfCons(node: Pane, rest: seq<Pane>)
    ensures LeavesOf([node] + rest) == Leaves(node) + LeavesOf(rest)
  {
    assert ([node] + rest)[1..] == rest;
  }

  lemma {:induction false} LeavesAround(nodes: seq<Pane>, at: nat)
    requires at < |nodes|
    ensures LeavesOf(nodes) == LeavesOf(nodes[..at]) + (Leaves(nodes[at]) + LeavesOf(nodes[at + 1..]))
  {
    var front, rest := nodes[..at], [nodes[at]] + nodes[at + 1..];
    assert nodes == front + rest;
    LeavesCompose(front, rest);
    LeavesOfCons(nodes[at], nodes[at + 1..]);
  }

  function IdsOf(rects: seq<PaneRect>): (ids: seq<string>)
    ensures |ids| == |rects|
  {
    seq(|rects|, i requires 0 <= i < |rects| => rects[i].id)
  }

  /** The layout draws every leaf, in reading order. */
  lemma {:induction false} LayoutDrawsLeaves(node: Pane, area: Area, gutter: real)
    ensures IdsOf(Layout(node, area, gutter)) == Leaves(node)
    decreases node, 1
  {
    if node.Split? {
      LayoutsDrawLeaves(node.children, ChildAreas(node, area, gutter), gutter);
    }
  }

  lemma {:induction false} LayoutsDrawLeaves(nodes: seq<Pane>, areas: seq<Area>, gutter: real)
    requires |nodes| == |areas|
    ensures IdsOf(Layouts(nodes, areas, gutter)) == LeavesOf(nodes)
    decreases nodes, 0
  {
    if nodes != [] {
      var first, rest := Layout(nodes[0], areas[0], gutter), Layouts(nodes[1..], areas[1..], gutter);
      LayoutDrawsLeaves(nodes[0], areas[0], gutter);
      LayoutsDrawLeaves(nodes[1..], areas[1..], gutter);
      assert IdsOf(first + rest) == IdsOf(first) + IdsOf(rest);
    }
  }

  // ---------------------------------------------------------------- beside a pane

  /** On the way down from `node` to the pane there is a split along `direction`, `node` itself counted. */
  predicate SplitsAlong(node: Pane, id: string, direction: Direction)
    decreases node
  {
    node.Split? && !node.tabs &&
    (node.direction == direction ||
     var at := FirstHolding(node.children, id);
     at < |node.children| && SplitsAlong(node.children[at], id, direction))
  }

  function InsertBeside(node: Pane, targetId: string, direction: Direction, added: Pane): Pane
    decreases node
  {
    if node.Leaf? || node.tabs then
      if Holds(node, targetId) then Split(direction, [0.5, 0.5], [node, added], false) else node
    else
      var at := FirstHolding(node.children, targetId);
      if at == |node.children| then node
      else if node.direction == direction && !SplitsAlong(node.children[at], targetId, direction) then
        var children := node.children[..at + 1] + [added] + node.children[at + 1..];
        Split(direction, seq(|children|, _ => 1.0 / (|children| as real)), children, false)
      else
        Split(node.direction, node.sizes, node.children[at := InsertBeside(node.children[at], targetId, direction, added)], false)
  }

  /** `after` is `before` with `added` put in once, somewhere behind the target. */
  predicate AddedBehind(before: seq<string>, after: seq<string>, added: seq<string>, target: string, k: nat) {
    k <= |before| && target in before[..k] && after == before[..k] + added + before[k..]
  }

  lemma {:induction false} AddedWithin(left: seq<string>, before: seq<string>, after: seq<string>, right: seq<string>,
                                       added: seq<string>, target: string, k: nat)
    requires AddedBehind(before, after, added, target, k)
    ensures AddedBehind(left + (before + right), left + (after + right), added, target, |left| + k)
  {
    var whole := left + (before + right);
    assert whole[..|left| + k] == left + before[..k];
    assert whole[|left| + k..] == before[k..] + right;
    var j :| 0 <= j < k && before[j] == target;
    assert whole[|left| + j] == target;
  }

  lemma {:induction false} LeavesWithAnother(nodes: seq<Pane>, at: nat, added: Pane)
    requires at < |nodes|
    ensures LeavesOf(nodes[..at + 1] + [added] + nodes[at + 1..]) ==
              LeavesOf(nodes[..at]) + ((Leaves(nodes[at]) + Leaves(added)) + LeavesOf(nodes[at + 1..]))
  {
    var rest := nodes[at + 1..];
    assert nodes[..at + 1] + [added] + rest == nodes[..at] + ([nodes[at]] + ([added] + rest));
    LeavesCompose(nodes[..at], [nodes[at]] + ([added] + rest));
    LeavesOfCons(nodes[at], [added] + rest);
    LeavesOfCons(added, rest);
    Associate(Leaves(nodes[at]), Leaves(added), LeavesOf(rest));
  }

  lemma {:induction false} LeavesWithOther(nodes: seq<Pane>, at: nat, other: Pane)
    requires at < |nodes|
    ensures LeavesOf(nodes[at := other]) == LeavesOf(nodes[..at]) + (Leaves(other) + LeavesOf(nodes[at + 1..]))
  {
    LeavesAround(nodes[at := other], at);
    assert nodes[at := other][..at] == nodes[..at] && nodes[at := other][at + 1..] == nodes[at + 1..];
  }

  lemma {:induction false} AddedAfter(leaves: seq<string>, added: seq<string>, target: string)
    requires target in leaves
    ensures AddedBehind(leaves, leaves + added, added, target, |leaves|)
  {
    assert leaves[..|leaves|] == leaves && leaves[|leaves|..] == [];
    assert leaves + added + [] == leaves + added;
  }

  lemma {:induction false} LeavesOfTwo(a: Pane, b: Pane)
    ensures LeavesOf([a, b]) == Leaves(a) + Leaves(b)
  {
    LeavesOfCons(a, [b]);
    LeavesOfCons(b, []);
    assert [a] + [b] == [a, b] && [b] + [] == [b];
  }

  lemma {:induction false} BesideChild(nodes: seq<Pane>, at: nat, added: Pane, target: string) returns (k: nat)
    requires at < |nodes| && target in Leaves(nodes[at])
    ensures AddedBehind(LeavesOf(nodes), LeavesOf(nodes[..at + 1] + [added] + nodes[at + 1..]), Leaves(added), target, k)
  {
    var left, leaves, right := LeavesOf(nodes[..at]), Leaves(nodes[at]), LeavesOf(nodes[at + 1..]);
    LeavesAround(nodes, at);
    LeavesWithAnother(nodes, at, added);
    AddedAfter(leaves, Leaves(added), target);
    AddedWithin(left, leaves, leaves + Leaves(added), right, Leaves(added), target, |leaves|);
    k := |left| + |leaves|;
  }

  lemma {:induction false} WithinChild(nodes: seq<Pane>, at: nat, next: Pane, added: seq<string>, target: string, inner: nat)
    requires at < |nodes| && AddedBehind(Leaves(nodes[at]), Leaves(next), added, target, inner)
    ensures AddedBehind(LeavesOf(nodes), LeavesOf(nodes[at := next]), added, target, |LeavesOf(nodes[..at])| + inner)
  {
    LeavesAround(nodes, at);
    LeavesWithOther(nodes, at, next);
    AddedWithin(LeavesOf(nodes[..at]), Leaves(nodes[at]), Leaves(next), LeavesOf(nodes[at + 1..]), added, target, inner);
  }

  /** Every pane stays, in its order, and the new one comes in once, behind the target. */
  lemma {:induction false} InsertKeepsLeaves(node: Pane, targetId: string, direction: Direction, added: Pane) returns (k: nat)
    requires Holds(node, targetId)
    ensures AddedBehind(Leaves(node), Leaves(InsertBeside(node, targetId, direction, added)), Leaves(added), targetId, k)
    decreases node
  {
    if node.Leaf? || node.tabs {
      k := |Leaves(node)|;
      LeavesOfTwo(node, added);
      AddedAfter(Leaves(node), Leaves(added), targetId);
    } else {
      var at := FirstHolding(node.children, targetId);
      if node.direction == direction && !SplitsAlong(node.children[at], targetId, direction) {
        k := BesideChild(node.children, at, added, targetId);
      } else {
        var inner := InsertKeepsLeaves(node.children[at], targetId, direction, added);
        WithinChild(node.children, at, InsertBeside(node.children[at], targetId, direction, added), Leaves(added), targetId, inner);
        k := |LeavesOf(node.children[..at])| + inner;
      }
    }
  }

  /** A tree is left as it is exactly when the target is not in it. */
  lemma InsertNeedsTarget(node: Pane, targetId: string, direction: Direction, added: Pane)
    requires Leaves(added) != []
    ensures InsertBeside(node, targetId, direction, added) == node <==> !Holds(node, targetId)
  {
    if Holds(node, targetId) {
      var k := InsertKeepsLeaves(node, targetId, direction, added);
      assert |Leaves(InsertBeside(node, targetId, direction, added))| == |Leaves(node)| + |Leaves(added)|;
    }
  }

  /** One size a child, each above zero, and one in all. */
  predicate WellSized(node: Pane) {
    node.Split? ==>
      && |node.sizes| == |node.children| && Total(node.sizes) == 1.0
      && (forall i :: 0 <= i < |node.sizes| ==> node.sizes[i] > 0.0)
      && forall i :: 0 <= i < |node.children| ==> WellSized(node.children[i])
  }

  lemma EvenSizes(count: nat)
    requires count > 0
    ensures Total(seq(count, _ => 1.0 / (count as real))) == 1.0 && 1.0 / (count as real) > 0.0
  {
    var sizes := seq(count, _ => 1.0 / (count as real));
    Inverse(count as real);
    EvenShares(sizes);
  }

  lemma HalfSizes()
    ensures Total([0.5, 0.5]) == 1.0
  {
    assert [0.5, 0.5][1..] == [0.5] && [0.5][1..] == [];
  }

  /** Well-formed sizes stay well formed. */
  lemma {:induction false} InsertKeepsSizes(node: Pane, targetId: string, direction: Direction, added: Pane)
    requires WellSized(node) && WellSized(added)
    ensures WellSized(InsertBeside(node, targetId, direction, added))
    decreases node
  {
    HalfSizes();
    if node.Split? && !node.tabs {
      var at := FirstHolding(node.children, targetId);
      if at < |node.children| {
        EvenSizes(|node.children| + 1);
        InsertKeepsSizes(node.children[at], targetId, direction, added);
      }
    }
  }

  function Splits(node: Pane): nat
    decreases node, 1
  {
    if node.Leaf? then 0 else 1 + SplitsOf(node.children)
  }

  function SplitsOf(nodes: seq<Pane>): nat
    decreases nodes, 0
  {
    if nodes == [] then 0 else Splits(nodes[0]) + SplitsOf(nodes[1..])
  }

  lemma {:induction false} SplitsCompose(a: seq<Pane>, b: seq<Pane>)
    ensures SplitsOf(a + b) == SplitsOf(a) + SplitsOf(b)
  {
    if a == [] {
      assert a + b == b;
    } else {
      SplitsCompose(a[1..], b);
      assert (a + b)[1..] == a[1..] + b;
    }
  }

  lemma {:induction false} SplitsAround(nodes: seq<Pane>, at: nat, other: Pane)
    requires at < |nodes|
    ensures SplitsOf(nodes) == SplitsOf(nodes[..at]) + Splits(nodes[at]) + SplitsOf(nodes[at + 1..])
    ensures SplitsOf(nodes[at := other]) == SplitsOf(nodes[..at]) + Splits(other) + SplitsOf(nodes[at + 1..])
    ensures SplitsOf(nodes[..at + 1] + [other] + nodes[at + 1..]) == SplitsOf(nodes) + Splits(other)
  {
    assert nodes == nodes[..at] + ([nodes[at]] + nodes[at + 1..]);
    assert nodes[at := other] == nodes[..at] + ([other] + nodes[at + 1..]);
    assert nodes == nodes[..at + 1] + nodes[at + 1..];
    assert nodes[..at + 1] + [other] + nodes[at + 1..] == nodes[..at + 1] + ([other] + nodes[at + 1..]);
    SplitsCompose(nodes[..at], [nodes[at]] + nodes[at + 1..]);
    SplitsCompose(nodes[..at], [other] + nodes[at + 1..]);
    SplitsCompose(nodes[..at + 1], nodes[at + 1..]);
    SplitsCompose(nodes[..at + 1], [other] + nodes[at + 1..]);
  }

  /** A split along the direction above the target is joined; only without one is a split made. */
  lemma {:induction false} InsertJoinsSplit(node: Pane, targetId: string, direction: Direction, added: Pane)
    requires Holds(node, targetId)
    ensures Splits(InsertBeside(node, targetId, direction, added)) ==
              Splits(node) + Splits(added) + if SplitsAlong(node, targetId, direction) then 0 else 1
    decreases node
  {
    if node.Leaf? || node.tabs {
      assert [node, added][1..] == [added] && [added][1..] == [];
      assert SplitsOf([added]) == Splits(added);
    } else {
      var at := FirstHolding(node.children, targetId);
      InsertJoinsSplit(node.children[at], targetId, direction, added);
      SplitsAround(node.children, at, added);
      SplitsAround(node.children, at, InsertBeside(node.children[at], targetId, direction, added));
    }
  }

  // ---------------------------------------------------------------- the places tried

  function Surface(width: real, height: real): real {
    width * height
  }

  /** A part in millionths of the whole, rounded half up; of no whole there is no share to speak of. */
  function Millionths(part: real, whole: real): int {
    if whole == 0.0 then 0 else (part / whole * 1000000.0 + 0.5).Floor
  }

  /** A pane's share of the box. */
  function ShareOf(rect: PaneRect, box: Box): int {
    Millionths(Surface(rect.area.width, rect.area.height), Surface(box.width, box.height))
  }

  function Longer(rect: PaneRect): Direction {
    if rect.area.width >= rect.area.height then Row else Column
  }

  function LargestFirst(root: Pane, box: Box, gutter: real): seq<PaneRect> {
    Sorting.Sorted(RectsOf(Some(root), box, gutter), (a, b) => ShareOf(a, box) > ShareOf(b, box))
  }

  /** Beside each pane in turn, along its longer side and then along the other. */
  function PlacementsBeside(root: Pane, added: Pane, rects: seq<PaneRect>): (placements: seq<Pane>)
    ensures |placements| == 2 * |rects|
    ensures forall i :: 0 <= i < |rects| ==>
              && placements[2 * i] == InsertBeside(root, rects[i].id, Longer(rects[i]), added)
              && placements[2 * i + 1] == InsertBeside(root, rects[i].id, Across(Longer(rects[i])), added)
  {
    if rects == [] then []
    else
      var last := rects[|rects| - 1];
      PlacementsBeside(root, added, rects[..|rects| - 1]) +
      [InsertBeside(root, last.id, Longer(last), added), InsertBeside(root, last.id, Across(Longer(last)), added)]
  }

  function Placements(root: Pane, added: Pane, box: Box, gutter: real): seq<Pane> {
    PlacementsBeside(root, added, LargestFirst(root, box, gutter))
  }

  function Find(rects: seq<PaneRect>, id: string): Option<PaneRect> {
    if rects == [] then None
    else if rects[|rects| - 1].id == id then Some(rects[|rects| - 1])
    else Find(rects[..|rects| - 1], id)
  }

  /** One pane of the check: where it is new or visibly smaller than it was, it must still be about `min`. */
  predicate KeepsRoom(earlier: Option<PaneRect>, rect: PaneRect, min: Box) {
    var narrower := earlier.None? || rect.area.width < earlier.value.area.width - EPSILON;
    var shorter := earlier.None? || rect.area.height < earlier.value.area.height - EPSILON;
    (!narrower || rect.area.width >= min.width - EPSILON) && (!shorter || rect.area.height >= min.height - EPSILON)
  }

  predicate LeavesRoom(before: Option<Pane>, after: Pane, box: Box, min: Box, gutter: real) {
    var was := RectsOf(before, box, gutter);
    var now := RectsOf(Some(after), box, gutter);
    forall i :: 0 <= i < |now| ==> KeepsRoom(Find(was, now[i].id), now[i], min)
  }

  function PlacePane(root: Option<Pane>, added: Pane, box: Box, gutter: real): Pane {
    if root.None? then added
    else
      var placements := Placements(root.value, added, box, gutter);
      if placements == [] then added else placements[0]
  }

  /** The first placement tried that leaves room; none only when every one was tried and none does. */
  method PlacePaneWithin(root: Option<Pane>, added: Pane, box: Box, min: Box, gutter: real) returns (placed: Option<Pane>)
    ensures root.None? ==> placed == Some(added)
    ensures root.Some? && placed.Some? ==> LeavesRoom(root, placed.value, box, min, gutter)
    ensures root.Some? && placed.None? ==>
              forall id, direction :: id in Leaves(root.value) ==>
                !LeavesRoom(root, InsertBeside(root.value, id, direction, added), box, min, gutter)
    ensures root.Some? ==> placed == FirstRoomy(root, Placements(root.value, added, box, gutter), box, min, gutter)
  {
    if root.None? {
      return Some(added);
    }
    var placements := Placements(root.value, added, box, gutter);
    NoPlaceMeansNone(root.value, added, box, min, gutter);
    assert placements[0..] == placements;
    for i := 0 to |placements|
      invariant FirstRoomy(root, placements, box, min, gutter) == FirstRoomy(root, placements[i..], box, min, gutter)
    {
      if LeavesRoom(root, placements[i], box, min, gutter) {
        return Some(placements[i]);
      }
      assert placements[i..][1..] == placements[i + 1..];
    }
    return None;
  }

  function FirstRoomy(root: Option<Pane>, placements: seq<Pane>, box: Box, min: Box, gutter: real): Option<Pane> {
    if placements == [] then None
    else if LeavesRoom(root, placements[0], box, min, gutter) then Some(placements[0])
    else FirstRoomy(root, placements[1..], box, min, gutter)
  }

  // ---------------------------------------------------------------- what placing promises

  /** Places are tried beside the largest pane first, equals in reading order. */
  lemma LargestIsTriedFirst(root: Pane, box: Box, gutter: real, share: int)
    ensures Sorting.Descending(LargestFirst(root, box, gutter), rect => ShareOf(rect, box))
    ensures Sorting.WithKey(LargestFirst(root, box, gutter), rect => ShareOf(rect, box), share) ==
              Sorting.WithKey(RectsOf(Some(root), box, gutter), rect => ShareOf(rect, box), share)
  {
    Sorting.SortedByKey(RectsOf(Some(root), box, gutter), (a, b) => ShareOf(a, box) > ShareOf(b, box), rect => ShareOf(rect, box), share);
  }

  lemma LeafIsRanked(root: Pane, box: Box, gutter: real, id: string) returns (i: nat)
    requires id in Leaves(root)
    ensures i < |LargestFirst(root, box, gutter)| && LargestFirst(root, box, gutter)[i].id == id
  {
    var rects, sorted := RectsOf(Some(root), box, gutter), LargestFirst(root, box, gutter);
    LayoutDrawsLeaves(root, Area(0.0, 0.0, box.width, box.height), gutter);
    var k :| 0 <= k < |rects| && IdsOf(rects)[k] == id;
    Sorting.SortedIsPermutation(rects, (a, b) => ShareOf(a, box) > ShareOf(b, box));
    assert rects[k] in multiset(sorted);
    i :| 0 <= i < |sorted| && sorted[i] == rects[k];
  }

  /** Every pane is tried, both ways. */
  lemma EveryPaneIsTriedBothWays(root: Pane, added: Pane, box: Box, gutter: real, id: string, direction: Direction)
    requires id in Leaves(root)
    ensures InsertBeside(root, id, direction, added) in Placements(root, added, box, gutter)
  {
    var sorted := LargestFirst(root, box, gutter);
    var i := LeafIsRanked(root, box, gutter, id);
    var placements := Placements(root, added, box, gutter);
    assert placements[2 * i] == InsertBeside(root, id, Longer(sorted[i]), added);
    assert placements[2 * i + 1] == InsertBeside(root, id, Across(Longer(sorted[i])), added);
  }

  lemma {:induction false} LargestAreLeaves(root: Pane, box: Box, gutter: real, j: nat)
    requires j < |LargestFirst(root, box, gutter)|
    ensures LargestFirst(root, box, gutter)[j].id in Leaves(root)
  {
    var rects, rect := RectsOf(Some(root), box, gutter), LargestFirst(root, box, gutter)[j];
    LayoutDrawsLeaves(root, Area(0.0, 0.0, box.width, box.height), gutter);
    Sorting.SortedIsPermutation(rects, (a, b) => ShareOf(a, box) > ShareOf(b, box));
    assert rect in multiset(rects);
    var k :| 0 <= k < |rects| && rects[k] == rect;
    assert IdsOf(rects)[k] == rect.id;
  }

  /** Only panes are tried. */
  lemma OnlyPanesAreTried(root: Pane, added: Pane, box: Box, gutter: real, i: nat) returns (id: string, direction: Direction)
    requires i < |Placements(root, added, box, gutter)|
    ensures id in Leaves(root) && Placements(root, added, box, gutter)[i] == InsertBeside(root, id, direction, added)
  {
    var j := i / 2;
    var rect := LargestFirst(root, box, gutter)[j];
    LargestAreLeaves(root, box, gutter, j);
    id := rect.id;
    if i == 2 * j {
      direction := Longer(rect);
    } else {
      assert i == 2 * j + 1;
      direction := Across(Longer(rect));
    }
  }

  /** There is no place only when beside every pane, both ways, some pane would be left too small. */
  lemma NoPlaceMeansNone(root: Pane, added: Pane, box: Box, min: Box, gutter: real)
    ensures FirstRoomy(Some(root), Placements(root, added, box, gutter), box, min, gutter).None? <==>
              forall id, direction :: id in Leaves(root) ==>
                !LeavesRoom(Some(root), InsertBeside(root, id, direction, added), box, min, gutter)
  {
    var placements := Placements(root, added, box, gutter);
    FirstRoomyIsNone(Some(root), placements, box, min, gutter);
    if FirstRoomy(Some(root), placements, box, min, gutter).None? {
      forall id, direction | id in Leaves(root)
        ensures !LeavesRoom(Some(root), InsertBeside(root, id, direction, added), box, min, gutter)
      {
        EveryPaneIsTriedBothWays(root, added, box, gutter, id, direction);
      }
    } else {
      var i :| 0 <= i < |placements| && LeavesRoom(Some(root), placements[i], box, min, gutter);
      var id, direction := OnlyPanesAreTried(root, added, box, gutter, i);
    }
  }

  lemma {:induction false} FirstRoomyIsNone(root: Option<Pane>, placements: seq<Pane>, box: Box, min: Box, gutter: real)
    ensures FirstRoomy(root, placements, box, min, gutter).None? <==>
              forall i :: 0 <= i < |placements| ==> !LeavesRoom(root, placements[i], box, min, gutter)
  {
    if placements != [] {
      FirstRoomyIsNone(root, placements[1..], box, min, gutter);
      assert forall i :: 0 <= i < |placements| - 1 ==> placements[1..][i] == placements[i + 1];
      assert forall i :: 0 < i < |placements| ==> placements[i] == placements[1..][i - 1];
    }
  }

  /** A placed pane costs no other: all are kept in order, and sizes stay well formed. */
  lemma PlacingKeepsPanes(root: Pane, added: Pane, box: Box, gutter: real, i: nat) returns (target: string, k: nat)
    requires i < |Placements(root, added, box, gutter)|
    ensures var placed := Placements(root, added, box, gutter)[i];
            && AddedBehind(Leaves(root), Leaves(placed), Leaves(added), target, k)
            && (WellSized(root) && WellSized(added) ==> WellSized(placed))
  {
    var direction: Direction;
    target, direction := OnlyPanesAreTried(root, added, box, gutter, i);
    k := InsertKeepsLeaves(root, target, direction, added);
    if WellSized(root) && WellSized(added) {
      InsertKeepsSizes(root, target, direction, added);
    }
  }

  predicate AllAtLeastMin(rects: seq<PaneRect>, min: Box, slack: real) {
    forall i :: 0 <= i < |rects| ==> rects[i].area.width >= min.width - slack && rects[i].area.height >= min.height - slack
  }

  lemma {:induction false} FindIsThere(rects: seq<PaneRect>, id: string)
    ensures Find(rects, id).Some? ==> Find(rects, id).value in rects
  {
    if rects != [] && rects[|rects| - 1].id != id {
      FindIsThere(rects[..|rects| - 1], id);
    }
  }

  /** Where every pane had its least, a tree that leaves room has it still, but for one more EPSILON. */
  lemma RoomIsKept(before: Pane, after: Pane, box: Box, min: Box, gutter: real, slack: real)
    requires LeavesRoom(Some(before), after, box, min, gutter) && slack >= 0.0
    requires AllAtLeastMin(RectsOf(Some(before), box, gutter), min, slack)
    ensures AllAtLeastMin(RectsOf(Some(after), box, gutter), min, slack + EPSILON)
  {
    var was, now := RectsOf(Some(before), box, gutter), RectsOf(Some(after), box, gutter);
    forall i | 0 <= i < |now|
      ensures now[i].area.width >= min.width - slack - EPSILON && now[i].area.height >= min.height - slack - EPSILON
    {
      FindIsThere(was, now[i].id);
      assert KeepsRoom(Find(was, now[i].id), now[i], min);
    }
  }
}
