/**
 * Walking the parent/child relation between worktrees (src/shared/taskTree.ts). The walk shares one set of
 * ids it has seen, so it ends on any records at all, and finds everything reachable once.
 */
module TaskTree {
  import opened Wrappers

  datatype State = Creating | Ready | Removing | Failed

  datatype Node = Node(id: string, name: string, projectId: string, parentId: Option<string>, state: State)

  function Ids(worktrees: seq<Node>): set<string> {
    set w | w in worktrees :: w.id
  }

  function IdsOf(found: seq<Node>): (ids: seq<string>)
    ensures |ids| == |found|
  {
    seq(|found|, i requires 0 <= i < |found| => found[i].id)
  }

  // ---------------------------------------------------------------- reachability

  /** Some record with id `below` names `above` as its parent. */
  predicate IsChild(worktrees: seq<Node>, above: string, below: string) {
    exists i :: 0 <= i < |worktrees| && worktrees[i].id == below && worktrees[i].parentId == Some(above)
  }

  ghost predicate Path(worktrees: seq<Node>, path: seq<string>) {
    forall k :: 0 <= k < |path| - 1 ==> IsChild(worktrees, path[k], path[k + 1])
  }

  ghost predicate Connects(worktrees: seq<Node>, path: seq<string>, above: string, below: string) {
    |path| >= 2 && path[0] == above && path[|path| - 1] == below && Path(worktrees, path)
  }

  /** Some run of one or more parent links leads from `above` down to `below`. */
  ghost predicate Reachable(worktrees: seq<Node>, above: string, below: string) {
    exists path :: Connects(worktrees, path, above, below)
  }

  lemma ChildIsReachable(worktrees: seq<Node>, above: string, below: string)
    requires IsChild(worktrees, above, below)
    ensures Reachable(worktrees, above, below)
  {
    assert Connects(worktrees, [above, below], above, below);
  }

  lemma ReachFurther(worktrees: seq<Node>, above: string, middle: string, below: string)
    requires IsChild(worktrees, above, middle) && Reachable(worktrees, middle, below)
    ensures Reachable(worktrees, above, below)
  {
    var path :| Connects(worktrees, path, middle, below);
    var longer := [above] + path;
    forall k | 0 <= k < |longer| - 1
      ensures IsChild(worktrees, longer[k], longer[k + 1])
    {
      assert k > 0 ==> longer[k] == path[k - 1] && longer[k + 1] == path[k];
    }
    assert Connects(worktrees, longer, above, below);
  }

  // ---------------------------------------------------------------- the walk

  datatype Walked = Walked(found: seq<Node>, seen: set<string>)

  lemma MoreSeenIsLessLeft(all: set<string>, less: set<string>, more: set<string>)
    requires less <= more
    ensures |all - more| <= |all - less|
    ensures (exists id :: id in all && id in more && id !in less) ==> |all - more| < |all - less|
  {
    CardinalityOfSubset(all - more, all - less);
    if id :| id in all && id in more && id !in less {
      CardinalityOfSubset(all - more, all - less - {id});
    }
  }

  lemma CardinalityOfSubset(a: set<string>, b: set<string>)
    requires a <= b
    ensures |a| <= |b|
  {
    if a != {} {
      var x :| x in a;
      CardinalityOfSubset(a - {x}, b - {x});
    }
  }

  /** What the walk under `parentId` finds from the `i`th record on, and has seen by then. */
  function Walk(worktrees: seq<Node>, parentId: string, seen: set<string>, i: nat): (w: Walked)
    requires i <= |worktrees|
    ensures seen <= w.seen
    decreases |Ids(worktrees) - seen|, |worktrees| - i
  {
    if i == |worktrees| then Walked([], seen)
    else if worktrees[i].parentId != Some(parentId) || worktrees[i].id in seen then Walk(worktrees, parentId, seen, i + 1)
    else
      var w := worktrees[i];
      MoreSeenIsLessLeft(Ids(worktrees), seen, seen + {w.id});
      var below := Walk(worktrees, w.id, seen + {w.id}, 0);
      MoreSeenIsLessLeft(Ids(worktrees), seen, below.seen);
      var rest := Walk(worktrees, parentId, below.seen, i + 1);
      Walked([w] + below.found + rest.found, rest.seen)
  }

  function Descendants(worktrees: seq<Node>, worktreeId: string): seq<Node> {
    Walk(worktrees, worktreeId, {worktreeId}, 0).found
  }

  class Walker {
    const worktrees: seq<Node>
    var seen: set<string>

    constructor (worktrees: seq<Node>, root: string)
      ensures this.worktrees == worktrees && seen == {root}
    {
      this.worktrees := worktrees;
      seen := {root};
    }

    method Under(parentId: string) returns (found: seq<Node>)
      modifies this
      ensures Walked(found, seen) == Walk(worktrees, parentId, old(seen), 0)
      decreases |Ids(worktrees) - seen|
    {
      found := [];
      for i := 0 to |worktrees|
        invariant old(seen) <= seen
        invariant var rest := Walk(worktrees, parentId, seen, i);
                  Walked(found + rest.found, rest.seen) == Walk(worktrees, parentId, old(seen), 0)
      {
        var worktree := worktrees[i];
        if worktree.parentId == Some(parentId) && worktree.id !in seen {
          ghost var was := seen;
          seen := seen + {worktree.id};
          MoreSeenIsLessLeft(Ids(worktrees), was, seen);
          MoreSeenIsLessLeft(Ids(worktrees), old(seen), seen);
          var below := Under(worktree.id);
          Associate(found, [worktree] + below, Walk(worktrees, parentId, seen, i + 1).found);
          found := found + ([worktree] + below);
        }
      }
      assert found + [] == found;
    }
  }

  method DescendantsOf(worktrees: seq<Node>, worktreeId: string) returns (found: seq<Node>)
    ensures found == Descendants(worktrees, worktreeId)
  {
    var walker := new Walker(worktrees, worktreeId);
    found := walker.Under(worktreeId);
  }

  // ---------------------------------------------------------------- what the walk finds

  predicate Newly(found: seq<Node>, before: set<string>, after: set<string>) {
    && (forall k :: 0 <= k < |found| ==> found[k].id !in before && found[k].id in after)
    && (forall id :: id in after ==> id in before || id in IdsOf(found))
    && before <= after
  }

  /** Each id is found once, and found exactly when the walk is the first to see it. */
  lemma {:induction false} WalkFindsOnce(worktrees: seq<Node>, parentId: string, seen: set<string>, i: nat)
    requires i <= |worktrees|
    ensures var w := Walk(worktrees, parentId, seen, i); Newly(w.found, seen, w.seen) && Unrepeated(IdsOf(w.found))
    decreases |Ids(worktrees) - seen|, |worktrees| - i
  {
    if i == |worktrees| {
    } else if worktrees[i].parentId != Some(parentId) || worktrees[i].id in seen {
      WalkFindsOnce(worktrees, parentId, seen, i + 1);
    } else {
      var w := worktrees[i];
      MoreSeenIsLessLeft(Ids(worktrees), seen, seen + {w.id});
      var below := Walk(worktrees, w.id, seen + {w.id}, 0);
      MoreSeenIsLessLeft(Ids(worktrees), seen, below.seen);
      var rest := Walk(worktrees, parentId, below.seen, i + 1);
      WalkFindsOnce(worktrees, w.id, seen + {w.id}, 0);
      WalkFindsOnce(worktrees, parentId, below.seen, i + 1);
      NewlyOne(w, seen);
      NewlyThenNewly([w], below.found, seen, seen + {w.id}, below.seen);
      NewlyThenNewly([w] + below.found, rest.found, seen, below.seen, rest.seen);
    }
  }

  lemma NewlyOne(w: Node, seen: set<string>)
    requires w.id !in seen
    ensures Newly([w], seen, seen + {w.id})
  {
    assert IdsOf([w])[0] == w.id;
  }

  lemma NewlyThenNewly(a: seq<Node>, b: seq<Node>, before: set<string>, between: set<string>, after: set<string>)
    requires Newly(a, before, between) && Unrepeated(IdsOf(a))
    requires Newly(b, between, after) && Unrepeated(IdsOf(b))
    ensures Newly(a + b, before, after) && Unrepeated(IdsOf(a + b))
  {
    assert IdsOf(a + b) == IdsOf(a) + IdsOf(b);
    forall k | 0 <= k < |a| + |b|
      ensures (a + b)[k].id !in before && (a + b)[k].id in after
    {
      assert (a + b)[k] == if k < |a| then a[k] else b[k - |a|];
    }
    forall j, k | 0 <= j < k < |a| + |b|
      ensures IdsOf(a + b)[j] != IdsOf(a + b)[k]
    {
      if j < |a| <= k {
        assert a[j].id in between && b[k - |a|].id !in between;
      }
    }
  }

  predicate ChildrenSeen(worktrees: seq<Node>, parentId: string, i: nat, seen: set<string>) {
    forall j :: i <= j < |worktrees| && worktrees[j].parentId == Some(parentId) ==> worktrees[j].id in seen
  }

  predicate NoneLeft(worktrees: seq<Node>, found: seq<Node>, seen: set<string>) {
    forall k :: 0 <= k < |found| ==> ChildrenSeen(worktrees, found[k].id, 0, seen)
  }

  lemma NoneLeftJoins(worktrees: seq<Node>, a: seq<Node>, b: seq<Node>, seen: set<string>, more: set<string>)
    requires NoneLeft(worktrees, a, seen) && NoneLeft(worktrees, b, more) && seen <= more
    ensures NoneLeft(worktrees, a + b, more)
  {
    forall k | 0 <= k < |a| + |b|
      ensures ChildrenSeen(worktrees, (a + b)[k].id, 0, more)
    {
      assert (a + b)[k] == if k < |a| then a[k] else b[k - |a|];
    }
  }

  lemma StepLeavesNone(worktrees: seq<Node>, parentId: string, i: nat, below: Walked, rest: Walked)
    requires i < |worktrees| && worktrees[i].id in below.seen && below.seen <= rest.seen
    requires ChildrenSeen(worktrees, worktrees[i].id, 0, below.seen) && NoneLeft(worktrees, below.found, below.seen)
    requires ChildrenSeen(worktrees, parentId, i + 1, rest.seen) && NoneLeft(worktrees, rest.found, rest.seen)
    ensures ChildrenSeen(worktrees, parentId, i, rest.seen)
    ensures NoneLeft(worktrees, [worktrees[i]] + below.found + rest.found, rest.seen)
  {
    NoneLeftJoins(worktrees, [worktrees[i]], below.found, below.seen, below.seen);
    NoneLeftJoins(worktrees, [worktrees[i]] + below.found, rest.found, below.seen, rest.seen);
  }

  /** Nothing the walk passes is left with a child it has not seen. */
  lemma {:induction false} WalkLeavesNone(worktrees: seq<Node>, parentId: string, seen: set<string>, i: nat)
    requires i <= |worktrees|
    ensures var w := Walk(worktrees, parentId, seen, i);
            ChildrenSeen(worktrees, parentId, i, w.seen) && NoneLeft(worktrees, w.found, w.seen)
    decreases |Ids(worktrees) - seen|, |worktrees| - i
  {
    if i == |worktrees| {
    } else if worktrees[i].parentId != Some(parentId) || worktrees[i].id in seen {
      WalkLeavesNone(worktrees, parentId, seen, i + 1);
    } else {
      var w := worktrees[i];
      MoreSeenIsLessLeft(Ids(worktrees), seen, seen + {w.id});
      var below := Walk(worktrees, w.id, seen + {w.id}, 0);
      MoreSeenIsLessLeft(Ids(worktrees), seen, below.seen);
      var rest := Walk(worktrees, parentId, below.seen, i + 1);
      WalkLeavesNone(worktrees, w.id, seen + {w.id}, 0);
      WalkLeavesNone(worktrees, parentId, below.seen, i + 1);
      StepLeavesNone(worktrees, parentId, i, below, rest);
    }
  }

  /** Whatever the walk finds hangs below where it started, each record after the one it hangs from. */
  ghost predicate Hangs(worktrees: seq<Node>, parentId: string, found: seq<Node>) {
    forall k :: 0 <= k < |found| ==>
      && found[k] in worktrees && Reachable(worktrees, parentId, found[k].id)
      && (found[k].parentId == Some(parentId) || exists j :: 0 <= j < k && found[k].parentId == Some(found[j].id))
  }

  lemma {:induction false} WalkStaysBelow(worktrees: seq<Node>, parentId: string, seen: set<string>, i: nat)
    requires i <= |worktrees|
    ensures Hangs(worktrees, parentId, Walk(worktrees, parentId, seen, i).found)
    decreases |Ids(worktrees) - seen|, |worktrees| - i
  {
    if i == |worktrees| {
    } else if worktrees[i].parentId != Some(parentId) || worktrees[i].id in seen {
      WalkStaysBelow(worktrees, parentId, seen, i + 1);
    } else {
      var w := worktrees[i];
      MoreSeenIsLessLeft(Ids(worktrees), seen, seen + {w.id});
      var below := Walk(worktrees, w.id, seen + {w.id}, 0);
      MoreSeenIsLessLeft(Ids(worktrees), seen, below.seen);
      var rest := Walk(worktrees, parentId, below.seen, i + 1);
      WalkStaysBelow(worktrees, w.id, seen + {w.id}, 0);
      WalkStaysBelow(worktrees, parentId, below.seen, i + 1);
      HangsUnder(worktrees, parentId, w, below.found);
      HangsThen(worktrees, parentId, [w] + below.found, rest.found);
    }
  }

  lemma HangsUnder(worktrees: seq<Node>, parentId: string, w: Node, below: seq<Node>)
    requires w in worktrees && w.parentId == Some(parentId) && Hangs(worktrees, w.id, below)
    ensures Hangs(worktrees, parentId, [w] + below)
  {
    var found := [w] + below;
    assert IsChild(worktrees, parentId, w.id);
    ChildIsReachable(worktrees, parentId, w.id);
    forall k | 0 < k < |found|
      ensures Reachable(worktrees, parentId, found[k].id)
      ensures exists j :: 0 <= j < k && found[k].parentId == Some(found[j].id)
    {
      assert found[k] == below[k - 1] && found[0] == w;
      ReachFurther(worktrees, parentId, w.id, below[k - 1].id);
      if below[k - 1].parentId != Some(w.id) {
        var j :| 0 <= j < k - 1 && below[k - 1].parentId == Some(below[j].id);
        assert found[j + 1] == below[j];
      }
    }
  }

  lemma HangsThen(worktrees: seq<Node>, parentId: string, a: seq<Node>, b: seq<Node>)
    requires Hangs(worktrees, parentId, a) && Hangs(worktrees, parentId, b)
    ensures Hangs(worktrees, parentId, a + b)
  {
    var found := a + b;
    forall k | 0 <= k < |found|
      ensures found[k] in worktrees && Reachable(worktrees, parentId, found[k].id)
      ensures found[k].parentId == Some(parentId) || exists j :: 0 <= j < k && found[k].parentId == Some(found[j].id)
    {
      if k < |a| {
        assert found[k] == a[k];
        if a[k].parentId != Some(parentId) {
          var j :| 0 <= j < k && a[k].parentId == Some(a[j].id);
          assert found[j] == a[j];
        }
      } else {
        assert found[k] == b[k - |a|];
        if b[k - |a|].parentId != Some(parentId) {
          var j :| 0 <= j < k - |a| && b[k - |a|].parentId == Some(b[j].id);
          assert found[j + |a|] == b[j];
        }
      }
    }
  }

  lemma {:induction false} PathIsSeen(worktrees: seq<Node>, root: string, path: seq<string>, n: nat)
    requires Path(worktrees, path) && n < |path| && path[0] == root
    ensures path[n] in Walk(worktrees, root, {root}, 0).seen
    decreases n
  {
    if n > 0 {
      var w := Walk(worktrees, root, {root}, 0);
      PathIsSeen(worktrees, root, path, n - 1);
      WalkFindsOnce(worktrees, root, {root}, 0);
      WalkLeavesNone(worktrees, root, {root}, 0);
      assert IsChild(worktrees, path[n - 1], path[n]);
      var i :| 0 <= i < |worktrees| && worktrees[i].id == path[n] && worktrees[i].parentId == Some(path[n - 1]);
      assert ChildrenSeen(worktrees, path[n - 1], 0, w.seen) by {
        if path[n - 1] != root {
          assert path[n - 1] in IdsOf(w.found);
          var k :| 0 <= k < |w.found| && IdsOf(w.found)[k] == path[n - 1];
          assert w.found[k] in w.found;
        }
      }
    }
  }

  /** On any records, cyclic ones too: exactly what can be reached, each id once, each after its parent. */
  lemma DescendantsAreTheReachable(worktrees: seq<Node>, root: string)
    ensures forall id :: id in IdsOf(Descendants(worktrees, root)) <==> id != root && Reachable(worktrees, root, id)
    ensures Unrepeated(IdsOf(Descendants(worktrees, root))) && Hangs(worktrees, root, Descendants(worktrees, root))
  {
    var w := Walk(worktrees, root, {root}, 0);
    WalkFindsOnce(worktrees, root, {root}, 0);
    WalkStaysBelow(worktrees, root, {root}, 0);
    forall id
      ensures id in IdsOf(w.found) <==> id != root && Reachable(worktrees, root, id)
    {
      if id in IdsOf(w.found) {
        var k :| 0 <= k < |w.found| && IdsOf(w.found)[k] == id;
        assert w.found[k].id == id;
      } else if id != root && Reachable(worktrees, root, id) {
        var path :| Connects(worktrees, path, root, id);
        PathIsSeen(worktrees, root, path, |path| - 1);
      }
    }
  }
}
