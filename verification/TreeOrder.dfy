/**
 * The order of a walk over worktrees (src/shared/taskTree.ts): in a forest every worktree comes directly after its parent
 * or after all of an earlier sibling's, siblings in the order of the records; the shared set of ids changes nothing.
 */
module TreeOrder {
  import opened Nesting
  import opened TaskTree
  import opened Wrappers

  /** Each child in the order of the records, followed at once by everything under it. */
  function InTurn(worktrees: seq<Node>, root: string, i: nat): seq<Node>
    requires i <= |worktrees|
    decreases |worktrees| - i
  {
    if i == |worktrees| then []
    else
      (if worktrees[i].parentId == Some(root) then [worktrees[i]] + Descendants(worktrees, worktrees[i].id) else []) +
      InTurn(worktrees, root, i + 1)
  }

  ghost predicate NoLoops(worktrees: seq<Node>) {
    forall id :: !Reachable(worktrees, id, id)
  }

  lemma {:induction false} ForestHasNoLoops(worktrees: seq<Node>)
    requires Forest(worktrees)
    ensures NoLoops(worktrees)
  {
    forall id
      ensures !Reachable(worktrees, id, id)
    {
      if Reachable(worktrees, id, id) {
        LoopClimbs(worktrees, id);
      }
    }
  }

  lemma {:induction false} LoopClimbs(worktrees: seq<Node>, id: string)
    requires Distinct(worktrees) && Reachable(worktrees, id, id)
    ensures !Acyclic(LinksOf(worktrees))
  {
    var path :| Connects(worktrees, path, id, id);
    var n := |path| - 1;
    assert IsChild(worktrees, path[n - 1], path[n]);
    var k :| 0 <= k < |worktrees| && worktrees[k].id == id;
    LookupAt(worktrees, k);
    forall j | 0 <= j < n
      ensures Linked(LinksOf(worktrees), path, j)
    {
      LinkedByPath(worktrees, path, j);
    }
    PathClimbs(LinksOf(worktrees), path, n);
  }

  lemma OneParent(worktrees: seq<Node>, a: string, b: string, child: string)
    requires Distinct(worktrees) && IsChild(worktrees, a, child) && IsChild(worktrees, b, child)
    ensures a == b
  {
  }

  lemma PathReaches(worktrees: seq<Node>, above: string, path: seq<string>, k: nat)
    requires Path(worktrees, path) && k < |path| && IsChild(worktrees, above, path[0])
    ensures Reachable(worktrees, above, path[k])
  {
    var longer := [above] + path[..k + 1];
    forall j | 0 <= j < |longer| - 1
      ensures IsChild(worktrees, longer[j], longer[j + 1])
    {
      assert j > 0 ==> longer[j] == path[j - 1] && longer[j + 1] == path[j];
    }
    assert Connects(worktrees, longer, above, path[k]);
  }

  /** Two ways down from one worktree that meet began alike. */
  lemma {:induction false} WaysDownMeet(worktrees: seq<Node>, above: string, a: seq<string>, b: seq<string>)
    requires Distinct(worktrees) && NoLoops(worktrees) && a != [] && b != [] && Path(worktrees, a) && Path(worktrees, b)
    requires IsChild(worktrees, above, a[0]) && IsChild(worktrees, above, b[0]) && a[|a| - 1] == b[|b| - 1]
    ensures a[0] == b[0]
    decreases |a|
  {
    if |a| > 1 && |b| > 1 {
      assert IsChild(worktrees, a[|a| - 2], a[|a| - 1]) && IsChild(worktrees, b[|b| - 2], b[|b| - 1]);
      OneParent(worktrees, a[|a| - 2], b[|b| - 2], a[|a| - 1]);
      WaysDownMeet(worktrees, above, a[..|a| - 1], b[..|b| - 1]);
    } else if |a| > 1 {
      OneIsChild(worktrees, above, a);
    } else if |b| > 1 {
      OneIsChild(worktrees, above, b);
    }
  }

  /** A way down of more than one step does not end at another child of where it began. */
  lemma {:induction false} OneIsChild(worktrees: seq<Node>, above: string, path: seq<string>)
    requires Distinct(worktrees) && NoLoops(worktrees) && |path| > 1 && Path(worktrees, path) && IsChild(worktrees, above, path[0])
    ensures !IsChild(worktrees, above, path[|path| - 1])
  {
    var before := path[|path| - 2];
    assert IsChild(worktrees, before, path[|path| - 1]);
    PathReaches(worktrees, above, path, |path| - 2);
    if IsChild(worktrees, above, path[|path| - 1]) {
      OneParent(worktrees, above, before, path[|path| - 1]);
    }
  }

  // ---------------------------------------------------------------- what was seen elsewhere

  ghost predicate AlikeBelow(worktrees: seq<Node>, parentId: string, s: set<string>, t: set<string>) {
    forall x :: Reachable(worktrees, parentId, x) ==> (x in s <==> x in t)
  }

  lemma {:induction false} BelowChild(worktrees: seq<Node>, parentId: string, w: Node)
    requires w in worktrees && w.parentId == Some(parentId)
    ensures IsChild(worktrees, parentId, w.id) && Reachable(worktrees, parentId, w.id)
    ensures forall x :: Reachable(worktrees, w.id, x) ==> Reachable(worktrees, parentId, x)
  {
    var i :| 0 <= i < |worktrees| && worktrees[i] == w;
    assert IsChild(worktrees, parentId, w.id);
    ChildIsReachable(worktrees, parentId, w.id);
    forall x | Reachable(worktrees, w.id, x)
      ensures Reachable(worktrees, parentId, x)
    {
      ReachFurther(worktrees, parentId, w.id, x);
    }
  }

  lemma SeenAfter(worktrees: seq<Node>, parentId: string, seen: set<string>, i: nat)
    requires i <= |worktrees|
    ensures var w := Walk(worktrees, parentId, seen, i); forall x :: x in w.seen <==> x in seen || x in IdsOf(w.found)
  {
    WalkFindsOnce(worktrees, parentId, seen, i);
    var w := Walk(worktrees, parentId, seen, i);
    forall x | x in IdsOf(w.found)
      ensures x in w.seen
    {
      var k :| 0 <= k < |w.found| && IdsOf(w.found)[k] == x;
      assert w.found[k].id == x;
    }
  }

  /** A walk finds the same whatever else was seen before that is not below where it starts. */
  lemma {:induction false} FindsTheSame(worktrees: seq<Node>, parentId: string, s: set<string>, t: set<string>, i: nat)
    requires i <= |worktrees| && AlikeBelow(worktrees, parentId, s, t)
    ensures Walk(worktrees, parentId, s, i).found == Walk(worktrees, parentId, t, i).found
    decreases |Ids(worktrees) - s|, |worktrees| - i
  {
    if i < |worktrees| {
      var w := worktrees[i];
      if w.parentId != Some(parentId) {
        FindsTheSame(worktrees, parentId, s, t, i + 1);
      } else {
        BelowChild(worktrees, parentId, w);
        if w.id in s {
          FindsTheSame(worktrees, parentId, s, t, i + 1);
        } else {
          MoreSeenIsLessLeft(Ids(worktrees), s, s + {w.id});
          FindsTheSame(worktrees, w.id, s + {w.id}, t + {w.id}, 0);
          MoreSeenIsLessLeft(Ids(worktrees), s, Walk(worktrees, w.id, s + {w.id}, 0).seen);
          SeenAfter(worktrees, w.id, s + {w.id}, 0);
          SeenAfter(worktrees, w.id, t + {w.id}, 0);
          FindsTheSame(worktrees, parentId, Walk(worktrees, w.id, s + {w.id}, 0).seen, Walk(worktrees, w.id, t + {w.id}, 0).seen, i + 1);
        }
      }
    }
  }

  ghost predicate AtOrBelow(worktrees: seq<Node>, above: string, x: string) {
    x == above || Reachable(worktrees, above, x)
  }

  /** Nothing seen yet is one of the children from `i` on, or below one. */
  ghost predicate FreshFrom(worktrees: seq<Node>, parentId: string, seen: set<string>, i: nat) {
    forall j, x {:trigger AtOrBelow(worktrees, worktrees[j].id, x)} ::
      i <= j < |worktrees| && worktrees[j].parentId == Some(parentId) && AtOrBelow(worktrees, worktrees[j].id, x) ==> x !in seen
  }

  lemma {:induction false} WayTo(worktrees: seq<Node>, from: string, x: string) returns (path: seq<string>)
    requires AtOrBelow(worktrees, from, x)
    ensures path != [] && path[0] == from && path[|path| - 1] == x && Path(worktrees, path)
  {
    if x == from {
      path := [x];
    } else {
      path :| Connects(worktrees, path, from, x);
    }
  }

  /** Two children of one worktree have nothing below them in common. */
  lemma {:induction false} ChildrenApart(worktrees: seq<Node>, parentId: string, i: nat, j: nat, x: string)
    requires Distinct(worktrees) && NoLoops(worktrees) && i < j < |worktrees|
    requires worktrees[i].parentId == Some(parentId) == worktrees[j].parentId
    requires AtOrBelow(worktrees, worktrees[j].id, x)
    ensures !AtOrBelow(worktrees, worktrees[i].id, x)
  {
    BelowChild(worktrees, parentId, worktrees[i]);
    BelowChild(worktrees, parentId, worktrees[j]);
    var b := WayTo(worktrees, worktrees[j].id, x);
    if AtOrBelow(worktrees, worktrees[i].id, x) {
      var a := WayTo(worktrees, worktrees[i].id, x);
      WaysDownMeet(worktrees, parentId, a, b);
    }
  }

  lemma {:induction false} StaysFresh(worktrees: seq<Node>, parentId: string, seen: set<string>, i: nat)
    requires Distinct(worktrees) && NoLoops(worktrees) && i < |worktrees| && worktrees[i].parentId == Some(parentId)
    requires FreshFrom(worktrees, parentId, seen, i)
    ensures FreshFrom(worktrees, parentId, Walk(worktrees, worktrees[i].id, seen + {worktrees[i].id}, 0).seen, i + 1)
  {
    var c := worktrees[i].id;
    var below := Walk(worktrees, c, seen + {c}, 0);
    SeenAfter(worktrees, c, seen + {c}, 0);
    WalkStaysBelow(worktrees, c, seen + {c}, 0);
    forall x | x in IdsOf(below.found)
      ensures Reachable(worktrees, c, x)
    {
      var k :| 0 <= k < |below.found| && IdsOf(below.found)[k] == x;
      assert Reachable(worktrees, c, below.found[k].id);
    }
    forall j, x | i + 1 <= j < |worktrees| && worktrees[j].parentId == Some(parentId) && AtOrBelow(worktrees, worktrees[j].id, x)
      ensures x !in below.seen
    {
      ChildrenApart(worktrees, parentId, i, j, x);
    }
  }

  lemma {:induction false} WalkInTurn(worktrees: seq<Node>, parentId: string, seen: set<string>, i: nat)
    requires Distinct(worktrees) && NoLoops(worktrees) && i <= |worktrees| && FreshFrom(worktrees, parentId, seen, i)
    ensures Walk(worktrees, parentId, seen, i).found == InTurn(worktrees, parentId, i)
    decreases |worktrees| - i
  {
    if i < |worktrees| {
      var w := worktrees[i];
      if w.parentId != Some(parentId) {
        WalkInTurn(worktrees, parentId, seen, i + 1);
      } else {
        assert AtOrBelow(worktrees, worktrees[i].id, w.id);
        MoreSeenIsLessLeft(Ids(worktrees), seen, seen + {w.id});
        StaysFresh(worktrees, parentId, seen, i);
        forall x | Reachable(worktrees, w.id, x)
          ensures x in seen + {w.id} <==> x in {w.id}
        {
          assert AtOrBelow(worktrees, worktrees[i].id, x);
        }
        FindsTheSame(worktrees, w.id, seen + {w.id}, {w.id}, 0);
        WalkInTurn(worktrees, parentId, Walk(worktrees, w.id, seen + {w.id}, 0).seen, i + 1);
      }
    }
  }

  /** In a forest, each child in the order of the records and everything under it at once behind it. */
  lemma {:induction false} DescendantsInTurn(worktrees: seq<Node>, root: string)
    requires Forest(worktrees)
    ensures Descendants(worktrees, root) == InTurn(worktrees, root, 0)
  {
    ForestHasNoLoops(worktrees);
    forall j, x | 0 <= j < |worktrees| && worktrees[j].parentId == Some(root) && AtOrBelow(worktrees, worktrees[j].id, x)
      ensures x !in {root}
    {
      BelowChild(worktrees, root, worktrees[j]);
    }
    WalkInTurn(worktrees, root, {root}, 0);
  }
}
